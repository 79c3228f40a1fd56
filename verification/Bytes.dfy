/**
 Byte strings: big-endian numbers of fixed width and length-prefixed fields, and the facts
 that make a sequence of them readable from the front.
 */
module Bytes {

  type Byte = x: int | 0 <= x < 256

  type Data = seq<Byte>

  /** A Go string or byte slice is shorter than 2^63 bytes. */
  type Text = s: seq<Byte> | |s| < 0x8000_0000_0000_0000

  /** The bytes of an ASCII text. */
  function Ascii(s: string): (r: Data)
    ensures |r| == |s| && forall i :: 0 <= i < |s| ==> r[i] == (s[i] as int) % 256
  {
    seq(|s|, i requires 0 <= i < |s| => (s[i] as int) % 256)
  }

  function Pow256(w: nat): (r: nat)
    ensures 0 < r
  {
    if w == 0 then 1 else 256 * Pow256(w - 1)
  }

  /** The low w bytes of n, most significant first; what does not fit is cut off. */
  function BigEndian(n: nat, w: nat): (r: Data)
    ensures |r| == w
    decreases w
  {
    if w == 0 then [] else BigEndian(n / 256, w - 1) + [n % 256]
  }

  function Number(bs: Data): nat {
    if bs == [] then 0 else Number(bs[..|bs| - 1]) * 256 + bs[|bs| - 1]
  }

  /** A number that fits is read back. */
  lemma {:induction false} NumberOfBigEndian(n: nat, w: nat)
    requires n < Pow256(w)
    ensures Number(BigEndian(n, w)) == n
    decreases w
  {
    if w > 0 {
      var bs := BigEndian(n, w);
      assert n / 256 < Pow256(w - 1);
      NumberOfBigEndian(n / 256, w - 1);
      assert bs[..|bs| - 1] == BigEndian(n / 256, w - 1);
    }
  }

  lemma {:induction false} BigEndianOfNumber(bs: Data)
    ensures Number(bs) < Pow256(|bs|) && BigEndian(Number(bs), |bs|) == bs
    decreases |bs|
  {
    if bs != [] {
      var front, last := bs[..|bs| - 1], bs[|bs| - 1];
      BigEndianOfNumber(front);
      assert Number(bs) / 256 == Number(front) && Number(bs) % 256 == last;
      assert bs == front + [last];
    }
  }

  /** Two's complement of 64 bits. */
  function Unsigned64(n: int): nat
    requires Int64(n)
  {
    if n < 0 then n + 0x1_0000_0000_0000_0000 else n
  }

  predicate Int64(n: int) {
    -0x8000_0000_0000_0000 <= n < 0x8000_0000_0000_0000
  }

  lemma Widths()
    ensures Pow256(2) == 0x1_0000
    ensures Pow256(4) == 0x1_0000_0000
    ensures Pow256(8) == 0x1_0000_0000_0000_0000
  {
    assert Pow256(1) == 256 && Pow256(2) == 0x1_0000 && Pow256(3) == 0x100_0000;
    assert Pow256(5) == 256 * Pow256(4) && Pow256(6) == 256 * Pow256(5) && Pow256(7) == 256 * Pow256(6);
  }

  // ------------------------------------------------------------------ reading from the front

  lemma Split(a: Data, x: Data, b: Data, y: Data)
    requires |a| == |b| && a + x == b + y
    ensures a == b && x == y
  {
    assert (a + x)[..|a|] == a && (b + y)[..|b|] == b;
    assert (a + x)[|a|..] == x && (b + y)[|b|..] == y;
  }

  /** A number of fixed width can be read off the front. */
  lemma NumberFirst(n: nat, m: nat, w: nat, x: Data, y: Data)
    requires n < Pow256(w) && m < Pow256(w) && BigEndian(n, w) + x == BigEndian(m, w) + y
    ensures n == m && x == y
  {
    Split(BigEndian(n, w), x, BigEndian(m, w), y);
    NumberOfBigEndian(n, w);
    NumberOfBigEndian(m, w);
  }

  /** A value behind its length in w bytes. */
  function Field(w: nat, v: Data): Data {
    BigEndian(|v|, w) + v
  }

  /** A field can be read off the front. */
  lemma FieldFirst(w: nat, a: Data, x: Data, b: Data, y: Data)
    requires |a| < Pow256(w) && |b| < Pow256(w) && Field(w, a) + x == Field(w, b) + y
    ensures a == b && x == y
  {
    assert Field(w, a) + x == BigEndian(|a|, w) + (a + x);
    assert Field(w, b) + y == BigEndian(|b|, w) + (b + y);
    NumberFirst(|a|, |b|, w, a + x, b + y);
    Split(a, x, b, y);
  }

  /** A list of texts, each behind its length in w bytes. */
  function Fields(w: nat, vs: seq<Text>): Data {
    if vs == [] then [] else Field(w, vs[0]) + Fields(w, vs[1..])
  }

  lemma FieldsFirst(w: nat, vs: seq<Text>)
    requires vs != []
    ensures Fields(w, vs) == Field(w, vs[0]) + Fields(w, vs[1..])
  {
  }

  /** Texts are written one behind the other. */
  method WriteFields(w: nat, vs: seq<Text>) returns (digest: Data)
    ensures digest == Fields(w, vs)
  {
    digest := [];
    ghost var rest := vs;
    for i := 0 to |vs|
      invariant rest == vs[i..] && digest + Fields(w, rest) == Fields(w, vs)
    {
      var field := Field(w, vs[i]);
      FieldsFirst(w, rest);
      Append(digest, field, Fields(w, rest[1..]));
      digest := digest + field;
      rest := rest[1..];
    }
    assert digest + [] == digest;
  }

  lemma Append(d: Data, v: Data, rest: Data)
    ensures d + (v + rest) == (d + v) + rest
  {
  }

  lemma FieldsSize(w: nat, vs: seq<Text>)
    ensures vs != [] ==> w <= |Fields(w, vs)|
    ensures vs == [] ==> Fields(w, vs) == []
  {
  }

  lemma SameParts(vs: seq<Text>, ws: seq<Text>)
    requires vs != [] && ws != [] && vs[0] == ws[0] && vs[1..] == ws[1..]
    ensures vs == ws
  {
    assert vs == [vs[0]] + vs[1..] && ws == [ws[0]] + ws[1..];
  }

  lemma FirstField(w: nat, vs: seq<Text>, ws: seq<Text>)
    requires 0x8000_0000_0000_0000 <= Pow256(w) && vs != [] && ws != [] && Fields(w, vs) == Fields(w, ws)
    ensures vs[0] == ws[0] && Fields(w, vs[1..]) == Fields(w, ws[1..])
  {
    FieldFirst(w, vs[0], Fields(w, vs[1..]), ws[0], Fields(w, ws[1..]));
  }

  /** With a width that holds every length, the list is determined by its bytes. */
  lemma {:induction false} FieldsInjective(w: nat, vs: seq<Text>, ws: seq<Text>)
    requires 0 < w && 0x8000_0000_0000_0000 <= Pow256(w) && Fields(w, vs) == Fields(w, ws)
    ensures vs == ws
    decreases |vs|
  {
    FieldsSize(w, vs);
    FieldsSize(w, ws);
    if vs != [] && ws != [] {
      FirstField(w, vs, ws);
      FieldsInjective(w, vs[1..], ws[1..]);
      SameParts(vs, ws);
    }
  }
}
