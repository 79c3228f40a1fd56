/**
 Unpadded base64url, section 5 of RFC 4648, as the strict Go decoder reads it: unused bits of
 the last digit must be zero, and carriage returns and line feeds are skipped.
 */
module Base64Url {
  import opened RoomState
  import opened Bytes

  type Digit = x: int | 0 <= x < 64

  /** The alphabet: A-Z, a-z, 0-9, minus and underscore. */
  function Symbol(d: Digit): Byte {
    if d < 26 then 65 + d else if d < 52 then 97 + (d - 26) else if d < 62 then 48 + (d - 52) else if d == 62 then 45 else 95
  }

  function DigitOf(c: Byte): Option<Digit> {
    if 65 <= c <= 90 then Some(c - 65)
    else if 97 <= c <= 122 then Some(c - 97 + 26)
    else if 48 <= c <= 57 then Some(c - 48 + 52)
    else if c == 45 then Some(62) else if c == 95 then Some(63) else None
  }

  lemma SymbolInverse(d: Digit)
    ensures DigitOf(Symbol(d)) == Some(d) && Symbol(d) != 10 && Symbol(d) != 13
  {
  }

  lemma DigitInverse(c: Byte)
    ensures DigitOf(c).Some? ==> Symbol(DigitOf(c).value) == c
  {
  }

  function Symbols(ds: seq<Digit>): (r: Data)
    ensures |r| == |ds|
  {
    if ds == [] then [] else [Symbol(ds[0])] + Symbols(ds[1..])
  }

  function DigitsOf(s: Data): (r: Option<seq<Digit>>)
    ensures r.Some? ==> |r.value| == |s|
  {
    if s == [] then Some([])
    else
      var d, rest := DigitOf(s[0]), DigitsOf(s[1..]);
      if d.None? || rest.None? then None else Some([d.value] + rest.value)
  }

  /** The four digits of three bytes, and the three bytes of four digits. */
  function Digit0(a: Byte): Digit { (a as int) / 4 }
  function Digit1(a: Byte, b: Byte): Digit { (a as int) % 4 * 16 + (b as int) / 16 }
  function Digit2(b: Byte, c: Byte): Digit { (b as int) % 16 * 4 + (c as int) / 64 }
  function Digit3(c: Byte): Digit { (c as int) % 64 }

  function Byte0(d: Digit, e: Digit): Byte { (d as int) * 4 + (e as int) / 16 }
  function Byte1(d: Digit, e: Digit): Byte { (d as int) % 16 * 16 + (e as int) / 4 }
  function Byte2(d: Digit, e: Digit): Byte { (d as int) % 4 * 64 + (e as int) }

  /** Three bytes become four digits; one or two left over become two or three. */
  function Digits(bs: Data): seq<Digit> {
    if |bs| == 0 then []
    else if |bs| == 1 then [Digit0(bs[0]), Digit1(bs[0], 0)]
    else if |bs| == 2 then [Digit0(bs[0]), Digit1(bs[0], bs[1]), Digit2(bs[1], 0)]
    else [Digit0(bs[0]), Digit1(bs[0], bs[1]), Digit2(bs[1], bs[2]), Digit3(bs[2])] + Digits(bs[3..])
  }

  function Undigits(ds: seq<Digit>): Option<Data> {
    if |ds| == 0 then Some([])
    else if |ds| == 1 then None
    else if |ds| == 2 then if ds[1] % 16 == 0 then Some([Byte0(ds[0], ds[1])]) else None
    else if |ds| == 3 then
      if ds[2] % 4 == 0 then Some([Byte0(ds[0], ds[1]), Byte1(ds[1], ds[2])]) else None
    else
      var rest := Undigits(ds[4..]);
      if rest.None? then None
      else Some([Byte0(ds[0], ds[1]), Byte1(ds[1], ds[2]), Byte2(ds[2], ds[3])] + rest.value)
  }

  /** Line breaks are skipped wherever they stand. */
  function Stripped(s: Data): Data {
    if s == [] then [] else (if s[0] == 10 || s[0] == 13 then [] else [s[0]]) + Stripped(s[1..])
  }

  function Encode(bs: Data): Data {
    Symbols(Digits(bs))
  }

  function Decode(s: Data): Option<Data> {
    var ds := DigitsOf(Stripped(s));
    if ds.None? then None else Undigits(ds.value)
  }

  // ------------------------------------------------------------------ round trips

  lemma {:induction false} SymbolsInverse(ds: seq<Digit>)
    ensures DigitsOf(Symbols(ds)) == Some(ds) && Stripped(Symbols(ds)) == Symbols(ds)
    decreases |ds|
  {
    if ds != [] {
      SymbolInverse(ds[0]);
      SymbolsInverse(ds[1..]);
      assert Symbols(ds)[1..] == Symbols(ds[1..]);
      assert ds == [ds[0]] + ds[1..];
    }
  }

  lemma {:induction false} DigitsInverse(s: Data)
    ensures DigitsOf(s).Some? ==> Symbols(DigitsOf(s).value) == s
    decreases |s|
  {
    if s != [] && DigitsOf(s).Some? {
      DigitInverse(s[0]);
      DigitsInverse(s[1..]);
      assert DigitsOf(s).value[1..] == DigitsOf(s[1..]).value;
      assert s == [s[0]] + s[1..];
    }
  }

  lemma Group(a: Byte, b: Byte, c: Byte)
    ensures Byte0(Digit0(a), Digit1(a, b)) == a && Byte1(Digit1(a, b), Digit2(b, c)) == b && Byte2(Digit2(b, c), Digit3(c)) == c
    ensures Digit1(a, 0) % 16 == 0 && Digit2(b, 0) % 4 == 0
  {
    Group0(a, b);
    Group1(a, b, c);
    Group2(b, c);
  }

  lemma Group0(a: Byte, b: Byte)
    ensures Byte0(Digit0(a), Digit1(a, b)) == a && Digit1(a, 0) % 16 == 0
  {
  }

  lemma Group1(a: Byte, b: Byte, c: Byte)
    ensures Byte1(Digit1(a, b), Digit2(b, c)) == b && Digit2(b, 0) % 4 == 0
  {
    assert Digit1(a, b) % 16 == (b as int) / 16;
    assert Digit2(b, c) / 4 == (b as int) % 16;
  }

  lemma Group2(b: Byte, c: Byte)
    ensures Byte2(Digit2(b, c), Digit3(c)) == c
  {
    assert Digit2(b, c) % 4 == (c as int) / 64;
  }

  lemma Ungroup(d: Digit, e: Digit, f: Digit, g: Digit)
    ensures var a, b, c := Byte0(d, e), Byte1(e, f), Byte2(f, g);
            Digit0(a) == d && Digit1(a, b) == e && Digit2(b, c) == f && Digit3(c) == g
    ensures e % 16 == 0 ==> Digit1(Byte0(d, e), 0) == e
    ensures f % 4 == 0 ==> Digit2(Byte1(e, f), 0) == f
  {
  }

  lemma OneByte(a: Byte)
    ensures Undigits(Digits([a])) == Some([a])
  {
    Group0(a, 0);
    var d, e := Digit0(a), Digit1(a, 0);
    assert Digits([a]) == [d, e];
    assert Undigits([d, e]) == Some([Byte0(d, e)]);
  }

  lemma TwoBytes(a: Byte, b: Byte)
    ensures Undigits(Digits([a, b])) == Some([a, b])
  {
    Group(a, b, 0);
    assert Digits([a, b]) == [Digit0(a), Digit1(a, b), Digit2(b, 0)];
  }

  lemma FullTriple(a: Byte, b: Byte, c: Byte, rest: Data)
    requires Undigits(Digits(rest)) == Some(rest)
    ensures Undigits(Digits([a, b, c] + rest)) == Some([a, b, c] + rest)
  {
    DigitsFirst(a, b, c, rest);
    Regroup(Digit0(a), Digit1(a, b), Digit2(b, c), Digit3(c), Digits(rest), rest);
    Group(a, b, c);
  }

  lemma DigitsFirst(a: Byte, b: Byte, c: Byte, rest: Data)
    ensures Digits([a, b, c] + rest) == [Digit0(a), Digit1(a, b), Digit2(b, c), Digit3(c)] + Digits(rest)
  {
    var bs := [a, b, c] + rest;
    assert bs[3..] == rest && bs[0] == a && bs[1] == b && bs[2] == c;
  }

  lemma Regroup(d: Digit, e: Digit, f: Digit, g: Digit, ds: seq<Digit>, rest: Data)
    requires Undigits(ds) == Some(rest)
    ensures Undigits([d, e, f, g] + ds) == Some([Byte0(d, e), Byte1(e, f), Byte2(f, g)] + rest)
  {
    var all := [d, e, f, g] + ds;
    assert all[4..] == ds && all[0] == d && all[1] == e && all[2] == f && all[3] == g;
  }

  lemma {:induction false} UndigitsOfDigits(bs: Data)
    ensures Undigits(Digits(bs)) == Some(bs)
    decreases |bs|
  {
    if |bs| == 1 {
      OneByte(bs[0]);
      assert bs == [bs[0]];
    } else if |bs| == 2 {
      TwoBytes(bs[0], bs[1]);
      assert bs == [bs[0], bs[1]];
    } else if |bs| >= 3 {
      UndigitsOfDigits(bs[3..]);
      FullTriple(bs[0], bs[1], bs[2], bs[3..]);
      assert bs == [bs[0], bs[1], bs[2]] + bs[3..];
    }
  }

  lemma FullGroup(ds: seq<Digit>)
    requires |ds| >= 4 && Undigits(ds).Some? && Digits(Undigits(ds[4..]).value) == ds[4..]
    ensures Digits(Undigits(ds).value) == ds
  {
    Ungroup(ds[0], ds[1], ds[2], ds[3]);
    assert Undigits(ds).value[3..] == Undigits(ds[4..]).value;
    assert ds == [ds[0], ds[1], ds[2], ds[3]] + ds[4..];
  }

  lemma {:induction false} DigitsOfUndigits(ds: seq<Digit>)
    ensures Undigits(ds).Some? ==> Digits(Undigits(ds).value) == ds
    decreases |ds|
  {
    if |ds| == 2 {
      Ungroup(ds[0], ds[1], 0, 0);
      assert ds == [ds[0], ds[1]];
    } else if |ds| == 3 {
      Ungroup(ds[0], ds[1], ds[2], 0);
      assert ds == [ds[0], ds[1], ds[2]];
    } else if |ds| >= 4 && Undigits(ds).Some? {
      DigitsOfUndigits(ds[4..]);
      FullGroup(ds);
    }
  }

  /** Decoding inverts encoding. */
  lemma DecodeEncode(bs: Data)
    ensures Decode(Encode(bs)) == Some(bs)
  {
    SymbolsInverse(Digits(bs));
    UndigitsOfDigits(bs);
  }

  /** What decodes is the encoding of the result, up to line breaks. */
  lemma EncodeDecode(s: Data)
    ensures Decode(s).Some? ==> Encode(Decode(s).value) == Stripped(s)
  {
    var t := Stripped(s);
    DigitsInverse(t);
    if DigitsOf(t).Some? { DigitsOfUndigits(DigitsOf(t).value); }
  }

  /** Without line breaks nothing is stripped, and otherwise something is. */
  lemma {:induction false} StrippedSame(s: Data)
    ensures Stripped(s) == s <==> 10 !in s && 13 !in s
    ensures |Stripped(s)| <= |s|
    decreases |s|
  {
    if s != [] {
      StrippedSame(s[1..]);
      assert s == [s[0]] + s[1..];
      if s[0] != 10 && s[0] != 13 { assert Stripped(s)[1..] == Stripped(s[1..]); }
    }
  }

  // ------------------------------------------------------------------ what the digits mean

  /** The alphabet of RFC 4648 for URLs: capital letters, small letters, figures, minus, underscore. */
  lemma AlphabetIs(d: Digit)
    ensures d < 26 ==> Symbol(d) as int == 'A' as int + d
    ensures 26 <= d < 52 ==> Symbol(d) as int == 'a' as int + d - 26
    ensures 52 <= d < 62 ==> Symbol(d) as int == '0' as int + d - 52
    ensures d == 62 ==> Symbol(d) as int == '-' as int
    ensures d == 63 ==> Symbol(d) as int == '_' as int
  {
  }

  /** Four digits are the 24 bits of three bytes, most significant first; two digits those of one
      byte and four zeros, three digits those of two bytes and two zeros. */
  lemma DigitsAreBits(a: Byte, b: Byte, c: Byte)
    ensures (a as int) * 65536 + (b as int) * 256 + c
         == (Digit0(a) as int) * 262144 + (Digit1(a, b) as int) * 4096 + (Digit2(b, c) as int) * 64 + Digit3(c)
    ensures (a as int) * 16 == (Digit0(a) as int) * 64 + Digit1(a, 0)
    ensures ((a as int) * 256 + b) * 4 == (Digit0(a) as int) * 4096 + (Digit1(a, b) as int) * 64 + Digit2(b, 0)
  {
    ThreeBytes(a, b, c);
    TwoBytesBits(a, b);
  }

  lemma ThreeBytes(a: int, b: int, c: int)
    requires 0 <= a < 256 && 0 <= b < 256 && 0 <= c < 256
    ensures a * 65536 + b * 256 + c == (a / 4) * 262144 + (a % 4 * 16 + b / 16) * 4096 + (b % 16 * 4 + c / 64) * 64 + c % 64
  {
    assert a == a / 4 * 4 + a % 4 && b == b / 16 * 16 + b % 16 && c == c / 64 * 64 + c % 64;
  }

  lemma TwoBytesBits(a: int, b: int)
    requires 0 <= a < 256 && 0 <= b < 256
    ensures a * 16 == (a / 4) * 64 + a % 4 * 16
    ensures (a * 256 + b) * 4 == (a / 4) * 4096 + (a % 4 * 16 + b / 16) * 64 + b % 16 * 4
  {
    assert a == a / 4 * 4 + a % 4 && b == b / 16 * 16 + b % 16;
  }
}
