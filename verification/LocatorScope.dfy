/**
 The text of a locator: policy id, run id, seat class and version, separated by bars. Decoding
 inverts encoding up to normalization, and encoding inverts decoding for exactly the texts
 that an encoder can have written.
 */
module LocatorScope {
  import opened RoomState
  import opened Bytes

  const BAR: Byte := 124

  // ------------------------------------------------------------------ numbers in decimal

  function Decimal(n: nat): (r: Data)
    ensures r != []
  {
    if n < 10 then [48 + n] else Decimal(n / 10) + [48 + n % 10]
  }

  predicate IsDigit(c: Byte) { 48 <= c <= 57 }

  /** The digits alone, without a sign. */
  function Unsigned(s: Data): Option<nat> {
    if s == [] || !IsDigit(s[|s| - 1]) then None
    else if |s| == 1 then Some((s[0] as int) - 48)
    else
      var front := Unsigned(s[..|s| - 1]);
      if front.None? then None else Some(front.value * 10 + (s[|s| - 1] as int) - 48)
  }

  /** strconv.ParseInt in base 10 with 64 bits. */
  function ParseInt(s: Data): Option<int> {
    if s == [] then None
    else
      var negative := s[0] == 45;
      var n := Unsigned(if negative || s[0] == 43 then s[1..] else s);
      if n.None? then None
      else
        var v := if negative then 0 - (n.value as int) else n.value as int;
        if Int64(v) then Some(v) else None
  }

  lemma {:induction false} DecimalDigits(n: nat)
    ensures Unsigned(Decimal(n)) == Some(n)
    ensures forall i :: 0 <= i < |Decimal(n)| ==> IsDigit(Decimal(n)[i])
    decreases n
  {
    if n >= 10 {
      DecimalDigits(n / 10);
      var s := Decimal(n);
      assert s[..|s| - 1] == Decimal(n / 10);
    }
  }

  lemma ParseDecimal(n: nat)
    requires Int64(n)
    ensures ParseInt(Decimal(n)) == Some(n)
  {
    DecimalDigits(n);
    assert IsDigit(Decimal(n)[0]);
  }

  /** Without a sign and without leading zeros. */
  predicate Plain(s: Data) {
    s != [] && IsDigit(s[0]) && (|s| == 1 || s[0] != 48)
  }

  lemma {:induction false} DecimalPlain(n: nat)
    ensures Plain(Decimal(n)) && (Decimal(n)[0] == 48 ==> n == 0)
    decreases n
  {
    if n >= 10 {
      DecimalPlain(n / 10);
    }
  }

  lemma {:induction false} PlainIsDecimal(s: Data)
    requires Plain(s) && Unsigned(s).Some?
    ensures Decimal(Unsigned(s).value) == s
    decreases |s|
  {
    if |s| > 1 {
      var front := s[..|s| - 1];
      PlainIsDecimal(front);
      DecimalPlain(Unsigned(front).value);
      DecimalSnoc(Unsigned(front).value, s[|s| - 1] - 48);
      assert s == front + [s[|s| - 1]];
    }
  }

  lemma DecimalSnoc(n: nat, d: int)
    requires 0 < n && 0 <= d < 10
    ensures Decimal(n * 10 + d) == Decimal(n) + [48 + d]
  {
    assert (n * 10 + d) / 10 == n && (n * 10 + d) % 10 == d;
  }

  /** The decimal text of what was parsed is the text itself exactly when the text is plain. */
  lemma DecimalOfParsed(s: Data)
    requires ParseInt(s).Some? && 0 <= ParseInt(s).value
    ensures Decimal(ParseInt(s).value) == s <==> Plain(s)
  {
    DecimalPlain(ParseInt(s).value);
    if Plain(s) {
      PlainIsDecimal(s);
    }
  }

  // ------------------------------------------------------------------ splitting at bars

  /** strings.Split at the bar. */
  function Parts(s: Data): (r: seq<Data>)
    ensures r != []
  {
    if s == [] then [[]]
    else
      var rest := Parts(s[1..]);
      if s[0] == BAR then [[]] + rest else [[s[0]] + rest[0]] + rest[1..]
  }

  function Joined(ps: seq<Data>): Data
    requires ps != []
  {
    if |ps| == 1 then ps[0] else ps[0] + [BAR] + Joined(ps[1..])
  }

  lemma {:induction false} PartsOf(p: Data)
    requires BAR !in p
    ensures Parts(p) == [p]
    decreases |p|
  {
    if p != [] {
      PartsOf(p[1..]);
      assert p == [p[0]] + p[1..];
    }
  }

  lemma {:induction false} PartsAt(p: Data, rest: Data)
    requires BAR !in p
    ensures Parts(p + [BAR] + rest) == [p] + Parts(rest)
    decreases |p|
  {
    var s := p + [BAR] + rest;
    if p == [] {
      assert s[1..] == rest;
    } else {
      PartsAt(p[1..], rest);
      assert s[1..] == p[1..] + [BAR] + rest;
      assert p == [p[0]] + p[1..];
    }
  }

  /** Splitting inverts joining when no part contains a bar. */
  lemma {:induction false} PartsOfJoined(ps: seq<Data>)
    requires ps != [] && forall i :: 0 <= i < |ps| ==> BAR !in ps[i]
    ensures Parts(Joined(ps)) == ps
    decreases |ps|
  {
    if |ps| == 1 {
      PartsOf(ps[0]);
    } else {
      PartsAt(ps[0], Joined(ps[1..]));
      PartsOfJoined(ps[1..]);
    }
  }

  /** Joining inverts splitting. */
  lemma {:induction false} JoinedOfParts(s: Data)
    ensures Joined(Parts(s)) == s
    decreases |s|
  {
    if s != [] {
      JoinedOfParts(s[1..]);
      var rest := Parts(s[1..]);
      assert s == [s[0]] + s[1..];
      if s[0] == BAR {
        assert ([[]] + rest)[1..] == rest;
      } else {
        PrefixFirst(s[0], rest);
      }
    }
  }

  lemma PrefixFirst(c: Byte, ps: seq<Data>)
    requires ps != []
    ensures Joined([[c] + ps[0]] + ps[1..]) == [c] + Joined(ps)
  {
    var qs := [[c] + ps[0]] + ps[1..];
    assert qs[1..] == ps[1..];
  }

  // ------------------------------------------------------------------ the scope

  datatype Scope = Scope(policyId: Data, runId: Data, seatClass: Data, version: int)

  predicate LowerHex(c: Byte) { IsDigit(c) || 97 <= c <= 102 }

  /** The canonical text of a UUID: 36 characters, lower-case hex with four dashes. */
  predicate CanonicalUuid(s: Data) {
    && |s| == 36
    && forall i :: 0 <= i < 36 ==> if i == 8 || i == 13 || i == 18 || i == 23 then s[i] == 45 else LowerHex(s[i])
  }

  /** standard, business or first. */
  predicate ValidSeatClass(s: Data) {
    || s == [115, 116, 97, 110, 100, 97, 114, 100]
    || s == [98, 117, 115, 105, 110, 101, 115, 115]
    || s == [102, 105, 114, 115, 116]
  }

  /** The library's trimming, folding to lower case and parsing of UUIDs. */
  datatype Library = Library(trim: Data -> Data, lower: Data -> Data, uuid: Data -> Option<Data>)

  /** What is assumed of it: a parsed UUID is in canonical form, and canonical texts and the names
      of the seat classes are left as they are. */
  ghost predicate Sound(lib: Library) {
    && (forall s :: lib.uuid(s).Some? ==> CanonicalUuid(lib.uuid(s).value))
    && (forall s :: CanonicalUuid(s) ==> lib.uuid(s) == Some(s) && lib.trim(s) == s)
    && (forall s :: ValidSeatClass(s) ==> lib.lower(s) == s && lib.trim(s) == s)
  }

  function Folded(lib: Library, seatClass: Data): Data {
    lib.lower(lib.trim(seatClass))
  }

  predicate ValidVersion(version: int) { 1 <= version <= 1_000_000_000 }

  /** The scope in canonical form, if it has one. */
  function Canonical(lib: Library, s: Scope): Option<Scope> {
    var policyId, runId, seatClass := lib.uuid(lib.trim(s.policyId)), lib.uuid(lib.trim(s.runId)), Folded(lib, s.seatClass);
    if policyId.None? || runId.None? || !ValidSeatClass(seatClass) || !ValidVersion(s.version) then None
    else Some(Scope(policyId.value, runId.value, seatClass, s.version))
  }

  function Encode(lib: Library, s: Scope): Option<Data> {
    var c := Canonical(lib, s);
    if c.None? then None
    else Some(Joined([c.value.policyId, c.value.runId, c.value.seatClass, Decimal(c.value.version)]))
  }

  function Decode(lib: Library, v: Data): Option<Scope> {
    if |v| > 256 then None
    else
      var parts := Parts(v);
      if |parts| != 4 then None
      else
        var policyId, runId, version := lib.uuid(parts[0]), lib.uuid(parts[1]), ParseInt(parts[3]);
        if policyId.None? || runId.None? || version.None? then None
        else if parts[0] != policyId.value || parts[1] != runId.value || parts[2] != lib.lower(parts[2]) then None
        else if !ValidSeatClass(Folded(lib, parts[2])) || !ValidVersion(version.value) then None
        else Some(Scope(policyId.value, runId.value, parts[2], version.value))
  }

  /** What Canonical leaves. */
  predicate IsCanonical(s: Scope) {
    CanonicalUuid(s.policyId) && CanonicalUuid(s.runId) && ValidSeatClass(s.seatClass) && ValidVersion(s.version)
  }

  lemma {:induction false} DecimalShort(n: nat, w: nat)
    requires n < Pow10(w) && 0 < w
    ensures |Decimal(n)| <= w
    decreases w
  {
    if n >= 10 {
      assert n / 10 < Pow10(w - 1);
      DecimalShort(n / 10, w - 1);
    }
  }

  function Pow10(w: nat): nat {
    if w == 0 then 1 else 10 * Pow10(w - 1)
  }

  lemma ScopeParts(s: Scope)
    requires IsCanonical(s)
    ensures BAR !in s.policyId && BAR !in s.runId && BAR !in s.seatClass && BAR !in Decimal(s.version)
    ensures |Decimal(s.version)| <= 10
  {
    DecimalDigits(s.version);
    assert Pow10(5) == 100_000 && Pow10(10) == 10 * Pow10(9) && Pow10(9) == 10 * Pow10(8) && Pow10(8) == 10 * Pow10(7);
    assert Pow10(7) == 10 * Pow10(6) && Pow10(6) == 10 * Pow10(5);
    DecimalShort(s.version, 10);
  }

  lemma JoinedLength(a: Data, b: Data, c: Data, d: Data)
    ensures |Joined([a, b, c, d])| == |a| + |b| + |c| + |d| + 3
  {
    assert [a, b, c, d][1..] == [b, c, d] && [b, c, d][1..] == [c, d] && [c, d][1..] == [d];
    assert |Joined([d])| == |d| && |Joined([c, d])| == |c| + |d| + 1 && |Joined([b, c, d])| == |b| + |c| + |d| + 2;
  }

  /** Decoding what was encoded gives the scope in canonical form. */
  lemma DecodeEncode(lib: Library, s: Scope)
    requires Sound(lib) && Encode(lib, s).Some?
    ensures Decode(lib, Encode(lib, s).value) == Canonical(lib, s)
  {
    var c := Canonical(lib, s).value;
    var ps := [c.policyId, c.runId, c.seatClass, Decimal(c.version)];
    ScopeParts(c);
    PartsOfJoined(ps);
    ParseDecimal(c.version);
    JoinedLength(c.policyId, c.runId, c.seatClass, Decimal(c.version));
  }

  /** Accepted scopes have the same locator if and only if their canonical forms are equal. */
  lemma EncodeInjective(lib: Library, s: Scope, t: Scope)
    requires Sound(lib) && Encode(lib, s).Some? && Encode(lib, t).Some?
    ensures Encode(lib, s) == Encode(lib, t) <==> Canonical(lib, s) == Canonical(lib, t)
  {
    DecodeEncode(lib, s);
    DecodeEncode(lib, t);
  }

  /** A text that decodes is the encoding of what it decodes to exactly when its version has no sign
      and no leading zeros and its seat class is not surrounded by spaces. */
  lemma EncodeDecode(lib: Library, v: Data)
    requires Sound(lib) && Decode(lib, v).Some?
    ensures var parts := Parts(v);
            |parts| == 4 && (Encode(lib, Decode(lib, v).value) == Some(v) <==> Plain(parts[3]) && Folded(lib, parts[2]) == parts[2])
  {
    var parts, s := Parts(v), Decode(lib, v).value;
    var c := Canonical(lib, s).value;
    var ps := [c.policyId, c.runId, c.seatClass, Decimal(c.version)];
    ScopeParts(c);
    DecimalOfParsed(parts[3]);
    JoinedOfParts(v);
    PartsOfJoined(ps);
    assert ps == parts <==> Plain(parts[3]) && Folded(lib, parts[2]) == parts[2];
  }

  /** So there are two texts for one scope: a locator with a plus sign before its version. */
  lemma SignedVersionDecodes(lib: Library, s: Scope)
    requires Sound(lib) && IsCanonical(s)
    ensures Decode(lib, Joined([s.policyId, s.runId, s.seatClass, [43] + Decimal(s.version)])) == Some(s)
  {
    var d := [43] + Decimal(s.version);
    ScopeParts(s);
    DecimalDigits(s.version);
    PartsOfJoined([s.policyId, s.runId, s.seatClass, d]);
    JoinedLength(s.policyId, s.runId, s.seatClass, d);
    assert d[1..] == Decimal(s.version);
  }

  /** The layout of a locator: policy id, run id, seat class and version, with a bar between them. */
  lemma EncodeLayout(lib: Library, s: Scope)
    requires Sound(lib) && Encode(lib, s).Some?
    ensures var v, c := Encode(lib, s).value, Canonical(lib, s).value;
            && c.version == s.version
            && v == c.policyId + Ascii("|") + c.runId + Ascii("|") + c.seatClass + Ascii("|") + Decimal(s.version)
            && lib.uuid(lib.trim(s.policyId)) == Some(c.policyId) && lib.uuid(lib.trim(s.runId)) == Some(c.runId)
            && c.seatClass == lib.lower(lib.trim(s.seatClass))
            && (c.seatClass == Ascii("standard") || c.seatClass == Ascii("business") || c.seatClass == Ascii("first"))
  {
    var c := Canonical(lib, s).value;
    FourParts(c.policyId, c.runId, c.seatClass, Decimal(c.version));
    assert Ascii("|") == [BAR];
    assert ValidSeatClass(c.seatClass);
    SeatClassNames(c.seatClass);
  }

  lemma FourParts(a: Data, b: Data, c: Data, d: Data)
    ensures Joined([a, b, c, d]) == a + [BAR] + b + [BAR] + c + [BAR] + d
  {
    assert [a, b, c, d][1..] == [b, c, d] && [b, c, d][1..] == [c, d] && [c, d][1..] == [d];
    assert Joined([c, d]) == c + [BAR] + d && Joined([b, c, d]) == b + [BAR] + Joined([c, d]);
  }

  lemma SeatClassNames(s: Data)
    requires ValidSeatClass(s)
    ensures s == Ascii("standard") || s == Ascii("business") || s == Ascii("first")
  {
  }
}
