/**
 Readers for the canonical forms. A reader knows only the layout, front to back; that it gives
 back what was written says in which order and in which widths the fields are written.
 */
module FormReaders {
  import opened RoomState
  import opened Bytes
  import opened SignedForms
  import opened Preimages

  // ------------------------------------------------------------------ piece by piece

  /** What is expected next: a number of a width, or bytes behind a length of a width. */
  datatype Shape = ANumber(width: nat) | AText(width: nat)

  /** The first piece and what follows it. */
  function ReadOne(shape: Shape, d: Data): Option<(Piece, Data)> {
    var w := shape.width;
    if |d| < w then None
    else
      var n := Number(d[..w]);
      match shape
      case ANumber(_) => Some((Num(n, w), d[w..]))
      case AText(_) => if |d| - w < n then None else Some((Sized(d[w..w + n], w), d[w + n..]))
  }

  /** All pieces, with nothing left over. */
  function ReadAll(shapes: seq<Shape>, d: Data): Option<seq<Piece>>
    decreases |shapes|
  {
    if shapes == [] then (if d == [] then Some([]) else None)
    else
      var first := ReadOne(shapes[0], d);
      if first.None? then None
      else
        var rest := ReadAll(shapes[1..], first.value.1);
        if rest.None? then None else Some([first.value.0] + rest.value)
  }

  function ShapeOf(p: Piece): Shape {
    if p.Num? then ANumber(p.width) else AText(p.width)
  }

  ghost predicate Shaped(ps: seq<Piece>, shapes: seq<Shape>) {
    |ps| == |shapes| && forall i :: 0 <= i < |ps| ==> Fits(ps[i]) && ShapeOf(ps[i]) == shapes[i]
  }

  lemma ReadOneBack(p: Piece, rest: Data)
    requires Fits(p)
    ensures ReadOne(ShapeOf(p), Bytes1(p) + rest) == Some((p, rest))
  {
    var d, w := Bytes1(p) + rest, p.width;
    match p
    case Num(n, _) =>
      NumberOfBigEndian(n, w);
      assert d[..w] == BigEndian(n, w) && d[w..] == rest;
    case Sized(v, _) =>
      NumberOfBigEndian(|v|, w);
      assert d == BigEndian(|v|, w) + (v + rest);
      assert d[..w] == BigEndian(|v|, w);
      assert d[w..w + |v|] == v && d[w + |v|..] == rest;
  }

  lemma {:induction false} ReadAllBack(ps: seq<Piece>, shapes: seq<Shape>)
    requires Shaped(ps, shapes)
    ensures ReadAll(shapes, Written(ps)) == Some(ps)
    decreases |ps|
  {
    if ps != [] {
      ReadOneBack(ps[0], Written(ps[1..]));
      ReadAllBack(ps[1..], shapes[1..]);
      assert [ps[0]] + ps[1..] == ps;
    }
  }

  // ------------------------------------------------------------------ tokens

  /** A signed token as a reader sees it; times are milliseconds. */
  datatype TokenForm = TokenForm(
    keyId: Data, policyId: Data, version: int, entryId: Data, owner: Data, fingerprint: Data,
    issuedMs: int, expiresMs: int, nonce: Data)

  function Signed64(n: nat): int {
    if n < 0x8000_0000_0000_0000 then n else n - 0x1_0000_0000_0000_0000
  }

  /** Version byte, domain, key id, policy id, policy version, entry id, owner, fingerprint, the two
      times and the nonce. */
  function TokenShapes(): seq<Shape> {
    [ANumber(1), AText(4), AText(4), AText(4), ANumber(8), AText(4), AText(4), AText(4), ANumber(8), ANumber(8), AText(4)]
  }

  function ReadToken(d: Data): Option<TokenForm> {
    var ps := ReadAll(TokenShapes(), d);
    if ps.None? || |ps.value| != 11 then None
    else TokenFrom(ps.value)
  }

  function TokenFrom(ps: seq<Piece>): Option<TokenForm>
    requires |ps| == 11
  {
    match (ps[0], ps[1], ps[2], ps[3], ps[4], ps[5], ps[6], ps[7], ps[8], ps[9], ps[10])
    case (Num(one, _), Sized(domain, _), Sized(keyId, _), Sized(policyId, _), Num(version, _), Sized(entryId, _),
          Sized(owner, _), Sized(fingerprint, _), Num(issued, _), Num(expires, _), Sized(nonce, _)) =>
      if one != 1 || domain != Ascii("railway-admission-token/v1") then None
      else Some(TokenForm(keyId, policyId, Signed64(version), entryId, owner, fingerprint, Signed64(issued), Signed64(expires), nonce))
    case _ => None
  }

  lemma TokenShaped(c: Claims, nonce: Data)
    requires Encodable(c, nonce)
    ensures Shaped(TokenPieces(c, nonce), TokenShapes())
  {
    PiecesFit(AdmissionRequest(seq(36, i => 0), 0, 1, [], 1), c, nonce);
  }

  lemma TokenFromPieces(c: Claims, nonce: Data)
    requires Encodable(c, nonce)
    ensures TokenFrom(TokenPieces(c, nonce)) ==
            Some(TokenForm(c.keyId, c.policyId, c.version, c.entryId, c.owner, c.fingerprint,
                           UnixMilli(c.issuedAt), UnixMilli(c.expiresAt), nonce))
  {
  }

  lemma ReadTokenIs(ps: seq<Piece>)
    requires |ps| == 11 && Shaped(ps, TokenShapes())
    ensures ReadToken(Written(ps)) == TokenFrom(ps)
  {
    ReadAllBack(ps, TokenShapes());
  }

  /** What is signed for a token reads back as its claims, each in its place, and the nonce. */
  lemma SignedTokenReads(c: Claims, nonce: Data)
    requires Encodable(c, nonce)
    ensures ReadToken(Written(TokenPieces(c, nonce))) ==
            Some(TokenForm(c.keyId, c.policyId, c.version, c.entryId, c.owner, c.fingerprint,
                           UnixMilli(c.issuedAt), UnixMilli(c.expiresAt), nonce))
  {
    TokenShaped(c, nonce);
    ReadTokenIs(TokenPieces(c, nonce));
    TokenFromPieces(c, nonce);
  }

  // ------------------------------------------------------------------ admission requests

  datatype RequestForm = RequestForm(run: Data, fromStop: nat, toStop: nat, seatClass: Data, passengers: nat)

  /** Version byte, domain, run, the two stops, seat class and passenger count. */
  function RequestShapes(): seq<Shape> {
    [ANumber(1), AText(4), AText(4), ANumber(4), ANumber(4), AText(4), ANumber(4)]
  }

  function ReadRequest(d: Data): Option<RequestForm> {
    var ps := ReadAll(RequestShapes(), d);
    if ps.None? || |ps.value| != 7 then None
    else RequestFrom(ps.value)
  }

  function RequestFrom(ps: seq<Piece>): Option<RequestForm>
    requires |ps| == 7
  {
    match (ps[0], ps[1], ps[2], ps[3], ps[4], ps[5], ps[6])
    case (Num(one, _), Sized(domain, _), Sized(run, _), Num(fromStop, _), Num(toStop, _), Sized(seatClass, _), Num(passengers, _)) =>
      if one != 1 || domain != Ascii("railway-admission-request/v1") then None
      else Some(RequestForm(run, fromStop, toStop, seatClass, passengers))
    case _ => None
  }

  lemma RequestShaped(r: AdmissionRequest)
    requires ValidRequest(r)
    ensures Shaped(RequestPieces(r), RequestShapes())
  {
    var c, nonce := Claims([], [], 0, [], seq(32, i => 0), seq(32, i => 0), 0, 0), seq(32, i => 0);
    PiecesFit(r, c, nonce);
  }

  lemma RequestFromPieces(r: AdmissionRequest)
    requires ValidRequest(r)
    ensures RequestFrom(RequestPieces(r)) ==
            Some(RequestForm(r.run, r.fromStop % 0x1_0000_0000, r.toStop % 0x1_0000_0000, r.seatClass, r.passengers))
  {
  }

  lemma ReadRequestIs(ps: seq<Piece>)
    requires |ps| == 7 && Shaped(ps, RequestShapes())
    ensures ReadRequest(Written(ps)) == RequestFrom(ps)
  {
    ReadAllBack(ps, RequestShapes());
  }

  /** What is hashed for a request reads back as the request, stops modulo 2^32. */
  lemma HashedRequestReads(r: AdmissionRequest)
    requires ValidRequest(r)
    ensures ReadRequest(Written(RequestPieces(r))) ==
            Some(RequestForm(r.run, r.fromStop % 0x1_0000_0000, r.toStop % 0x1_0000_0000, r.seatClass, r.passengers))
  {
    RequestShaped(r);
    ReadRequestIs(RequestPieces(r));
    RequestFromPieces(r);
  }

  // ------------------------------------------------------------------ hold requests and commands

  /** Texts behind their lengths in w bytes, to the end. */
  function ReadTexts(w: nat, d: Data): Option<seq<Data>>
    requires 0 < w
    decreases |d|
  {
    if d == [] then Some([])
    else
      var first := ReadOne(AText(w), d);
      if first.None? then None
      else
        var rest := ReadTexts(w, first.value.1);
        if rest.None? then None else Some([first.value.0.data] + rest.value)
  }

  lemma {:induction false} ReadTextsBack(w: nat, vs: seq<Text>)
    requires 0 < w && 0x8000_0000_0000_0000 <= Pow256(w)
    ensures ReadTexts(w, Fields(w, vs)) == Some(vs)
    decreases |vs|
  {
    if vs != [] {
      FieldsFirst(w, vs);
      FieldsSize(w, vs);
      ReadOneBack(Sized(vs[0], w), Fields(w, vs[1..]));
      ReadTextsBack(w, vs[1..]);
      assert [vs[0]] + vs[1..] == vs;
    }
  }

  lemma ImageReads(vs: seq<Text>)
    ensures ReadTexts(8, Image(vs)) == Some(vs)
  {
    Widths();
    ReadTextsBack(8, vs);
  }

  /** A list of texts as a hold request is laid out. */
  ghost predicate HoldLayout(f: Folding, r: HoldRequest, vs: seq<Data>) {
    && |vs| == 6 + |r.passengers| && vs[0] == Ascii("v1") && vs[1] == Ascii("reservation.create")
    && vs[2] == f.lower(r.run) && vs[3] == f.upper(r.origin) && vs[4] == f.upper(r.destination) && vs[5] == f.lower(r.seatClass)
    && (forall i, j :: 6 <= i < j < |vs| ==> Leq(vs[i], vs[j]) && vs[i] != vs[j])
    && (forall v :: v in vs[6..] <==> IsPassenger(f, r, v))
  }

  ghost predicate IsPassenger(f: Folding, r: HoldRequest, v: Data) {
    exists k :: 0 <= k < |r.passengers| && f.lower(r.passengers[k]) == v
  }

  lemma HoldLaidOut(f: Folding, r: HoldRequest, ps: seq<Text>)
    requires Sorted(ps) && Distinct(ps) && |ps| == |r.passengers| && forall v :: v in ps <==> IsPassenger(f, r, v)
    ensures HoldLayout(f, r, [Version(), CreateOperation()] + Head(f, r) + ps)
  {
    var vs: seq<Text> := [Version(), CreateOperation()] + Head(f, r) + ps;
    assert vs[6..] == ps;
    forall i, j | 6 <= i < j < |vs| ensures Leq(vs[i], vs[j]) && vs[i] != vs[j] {
      assert vs[i] == ps[i - 6] && vs[j] == ps[j - 6];
    }
  }

  /** What is hashed for a hold reads back as version, operation, run, origin, destination and seat
      class, and then the passengers, each once and in order. */
  lemma HashedHoldReads(f: Folding, r: HoldRequest)
    requires Accepted(f, r)
    ensures ReadTexts(8, HoldImage(f, r)).Some? && HoldLayout(f, r, ReadTexts(8, HoldImage(f, r)).value)
  {
    var ps := Sort(Passengers(f, r));
    ImageReads([Version(), CreateOperation()] + Head(f, r) + ps);
    SortKeeps(Passengers(f, r));
    SortLength(Passengers(f, r));
    forall v ensures v in ps <==> IsPassenger(f, r, v) { PassengerIs(f, r, v); }
    HoldLaidOut(f, r, ps);
  }

  lemma PassengerIs(f: Folding, r: HoldRequest, v: Data)
    ensures (v in Passengers(f, r)) <==> IsPassenger(f, r, v)
  {
    if v in Passengers(f, r) {
      var k :| 0 <= k < |r.passengers| && Passengers(f, r)[k] == v;
      assert f.lower(r.passengers[k]) == v;
    }
    if IsPassenger(f, r, v) {
      var k :| 0 <= k < |r.passengers| && f.lower(r.passengers[k]) == v;
      assert Passengers(f, r)[k] == v;
    }
  }

  lemma {:induction false} SortLength(vs: seq<Text>)
    ensures |Sort(vs)| == |vs|
    decreases |vs|
  {
    if vs != [] {
      SortLength(vs[1..]);
      InsertLength(vs[0], Sort(vs[1..]));
    }
  }

  lemma {:induction false} InsertLength(v: Text, vs: seq<Text>)
    ensures |InsertText(v, vs)| == |vs| + 1
    decreases |vs|
  {
    if vs != [] { InsertLength(v, vs[1..]); }
  }

  /** What is hashed for a command reads back as version, operation and id. */
  lemma HashedCommandReads(op: Operation, id: Text)
    ensures ReadTexts(8, CommandImage(op, id)) ==
            Some([Ascii("v1"), if op == Confirm then Ascii("reservation.confirm") else Ascii("reservation.cancel"), id])
  {
    ImageReads([Version(), NameOf(op), id]);
  }
}
