/**
 The canonical forms that start with a version byte and a domain: the admission request that
 is hashed and the admission token that is signed. Both are injective, and neither is ever
 the other.
 */
module SignedForms {
  import opened RoomState
  import opened Bytes

  /** What is appended to the buffer: a number of fixed width, or bytes behind a length of fixed width. */
  datatype Piece = Num(n: nat, width: nat) | Sized(data: Data, width: nat)

  predicate Fits(p: Piece) {
    match p
    case Num(n, w) => n < Pow256(w)
    case Sized(v, w) => |v| < Pow256(w)
  }

  function Bytes1(p: Piece): Data {
    match p
    case Num(n, w) => BigEndian(n, w)
    case Sized(v, w) => Field(w, v)
  }

  function Written(ps: seq<Piece>): Data {
    if ps == [] then [] else Bytes1(ps[0]) + Written(ps[1..])
  }

  predicate Alike(p: Piece, q: Piece) {
    p.Num? == q.Num? && p.width == q.width
  }

  lemma PieceFirst(p: Piece, x: Data, q: Piece, y: Data)
    requires Fits(p) && Fits(q) && Alike(p, q) && Bytes1(p) + x == Bytes1(q) + y
    ensures p == q && x == y
  {
    if p.Num? {
      NumberFirst(p.n, q.n, p.width, x, y);
    } else {
      FieldFirst(p.width, p.data, x, q.data, y);
    }
  }

  /** Pieces of the same kinds are determined by the bytes. */
  lemma {:induction false} WrittenInjective(ps: seq<Piece>, qs: seq<Piece>)
    requires |ps| == |qs| && forall i :: 0 <= i < |ps| ==> Fits(ps[i]) && Fits(qs[i]) && Alike(ps[i], qs[i])
    requires Written(ps) == Written(qs)
    ensures ps == qs
    decreases |ps|
  {
    if ps != [] {
      PieceFirst(ps[0], Written(ps[1..]), qs[0], Written(qs[1..]));
      WrittenInjective(ps[1..], qs[1..]);
      assert ps == [ps[0]] + ps[1..] && qs == [qs[0]] + qs[1..];
    }
  }

  lemma WrittenFirst(ps: seq<Piece>)
    requires ps != []
    ensures Written(ps) == Bytes1(ps[0]) + Written(ps[1..])
  {
  }

  /** The buffer grows piece by piece. */
  method Write(ps: seq<Piece>) returns (canonical: Data)
    ensures canonical == Written(ps)
  {
    canonical := [];
    ghost var rest := ps;
    for i := 0 to |ps|
      invariant rest == ps[i..] && canonical + Written(rest) == Written(ps)
    {
      var piece := Bytes1(ps[i]);
      WrittenFirst(rest);
      Append(canonical, piece, Written(rest[1..]));
      canonical := canonical + piece;
      rest := rest[1..];
    }
    assert canonical + [] == canonical;
  }

  // ------------------------------------------------------------------ admission requests

  function RequestDomain(): (r: Data)
    ensures |r| == 28
  {
    Ascii("railway-admission-request/v1")
  }

  function TokenDomain(): (r: Data)
    ensures |r| == 26
  {
    Ascii("railway-admission-token/v1")
  }

  /** A request whose run id and seat class are already in canonical form. */
  datatype AdmissionRequest = AdmissionRequest(run: Data, fromStop: int, toStop: int, seatClass: Data, passengers: int)

  predicate ValidRequest(r: AdmissionRequest) {
    |r.run| == 36 && |r.seatClass| <= 8 && 0 <= r.fromStop < r.toStop && 1 <= r.passengers <= 100
  }

  /** writeLengthPrefixed: the length takes four bytes. */
  function Prefixed(data: Data): Piece { Sized(data, 4) }

  /** The low 32 bits. */
  function Cut32(n: nat): nat { n % 0x1_0000_0000 }

  function RequestPieces(r: AdmissionRequest): seq<Piece>
    requires ValidRequest(r)
  {
    [Num(1, 1), Prefixed(RequestDomain()), Prefixed(r.run), Num(Cut32(r.fromStop), 4), Num(Cut32(r.toStop), 4), Prefixed(r.seatClass),
     Num(r.passengers, 4)]
  }

  // ------------------------------------------------------------------ tokens

  datatype Claims = Claims(
    keyId: Data,
    policyId: Data,
    version: int,
    entryId: Data,
    owner: Data,
    fingerprint: Data,
    issuedAt: int,
    expiresAt: int)

  /** Times are nanoseconds; UnixMilli rounds them down to milliseconds. */
  function UnixMilli(nanoseconds: int): int {
    nanoseconds / 1_000_000
  }

  /** Digests have 32 bytes, the numbers are int64, and the ids are shorter than 2^32 bytes. */
  predicate Encodable(c: Claims, nonce: Data) {
    && |c.keyId| <= 64 && |c.policyId| < 0x1_0000_0000 && |c.entryId| < 0x1_0000_0000
    && |c.owner| == 32 && |c.fingerprint| == 32 && |nonce| == 32
    && Int64(c.version) && Int64(UnixMilli(c.issuedAt)) && Int64(UnixMilli(c.expiresAt))
  }

  function TokenPieces(c: Claims, nonce: Data): seq<Piece>
    requires Encodable(c, nonce)
  {
    [Num(1, 1), Prefixed(TokenDomain()), Prefixed(c.keyId), Prefixed(c.policyId), Num(Unsigned64(c.version), 8), Prefixed(c.entryId),
     Prefixed(c.owner), Prefixed(c.fingerprint), Num(Unsigned64(UnixMilli(c.issuedAt)), 8),
     Num(Unsigned64(UnixMilli(c.expiresAt)), 8), Prefixed(nonce)]
  }

  /** The same claims, with times in the same millisecond. */
  predicate SameClaims(c: Claims, d: Claims) {
    && c == d.(issuedAt := c.issuedAt, expiresAt := c.expiresAt)
    && UnixMilli(c.issuedAt) == UnixMilli(d.issuedAt) && UnixMilli(c.expiresAt) == UnixMilli(d.expiresAt)
  }

  lemma PiecesFit(r: AdmissionRequest, c: Claims, nonce: Data)
    requires ValidRequest(r) && Encodable(c, nonce)
    ensures forall i :: 0 <= i < |RequestPieces(r)| ==> Fits(RequestPieces(r)[i])
    ensures forall i :: 0 <= i < |TokenPieces(c, nonce)| ==> Fits(TokenPieces(c, nonce)[i])
  {
    Widths();
    assert Pow256(1) == 256;
  }

  /** The same request, with stop indices that agree in their low 32 bits. */
  predicate SameRequest(r: AdmissionRequest, s: AdmissionRequest)
    requires ValidRequest(r) && ValidRequest(s)
  {
    && r.run == s.run && r.seatClass == s.seatClass && r.passengers == s.passengers
    && Cut32(r.fromStop) == Cut32(s.fromStop) && Cut32(r.toStop) == Cut32(s.toStop)
  }

  /** Admission requests have the same canonical form if and only if they are equal up to the part
      of the stop indices that is cut off. */
  lemma RequestFormInjective(r: AdmissionRequest, s: AdmissionRequest)
    requires ValidRequest(r) && ValidRequest(s)
    ensures Written(RequestPieces(r)) == Written(RequestPieces(s)) <==> SameRequest(r, s)
  {
    var c, nonce := Claims([], [], 0, [], seq(32, i => 0), seq(32, i => 0), 0, 0), seq(32, i => 0);
    PiecesFit(r, c, nonce);
    PiecesFit(s, c, nonce);
    var ps, qs := RequestPieces(r), RequestPieces(s);
    if Written(ps) == Written(qs) {
      WrittenInjective(ps, qs);
      assert ps[2] == qs[2] && ps[3] == qs[3] && ps[4] == qs[4] && ps[5] == qs[5] && ps[6] == qs[6];
    }
  }

  /** So two requests 2^32 stops apart are the same to the fingerprint. */
  lemma CutStopsCollide(r: AdmissionRequest)
    requires ValidRequest(r)
    ensures var far := r.(fromStop := r.fromStop + 0x1_0000_0000, toStop := r.toStop + 0x1_0000_0000);
            ValidRequest(far) && Written(RequestPieces(far)) == Written(RequestPieces(r))
  {
    RequestFormInjective(r.(fromStop := r.fromStop + 0x1_0000_0000, toStop := r.toStop + 0x1_0000_0000), r);
  }

  /** Tokens have the same signed form if and only if they have the same nonce and the same claims
      with times in the same millisecond. */
  lemma TokenFormInjective(c: Claims, nonce: Data, d: Claims, nonce2: Data)
    requires Encodable(c, nonce) && Encodable(d, nonce2)
    ensures Written(TokenPieces(c, nonce)) == Written(TokenPieces(d, nonce2)) <==> SameClaims(c, d) && nonce == nonce2
  {
    var r := AdmissionRequest(seq(36, i => 0), 0, 1, [], 1);
    PiecesFit(r, c, nonce);
    PiecesFit(r, d, nonce2);
    var ps, qs := TokenPieces(c, nonce), TokenPieces(d, nonce2);
    if Written(ps) == Written(qs) {
      WrittenInjective(ps, qs);
      SamePieces(c, nonce, d, nonce2);
    }
  }

  lemma SamePieces(c: Claims, nonce: Data, d: Claims, nonce2: Data)
    requires Encodable(c, nonce) && Encodable(d, nonce2) && TokenPieces(c, nonce) == TokenPieces(d, nonce2)
    ensures SameClaims(c, d) && nonce == nonce2
  {
    var ps, qs := TokenPieces(c, nonce), TokenPieces(d, nonce2);
    assert ps[2] == qs[2] && ps[3] == qs[3] && ps[4] == qs[4] && ps[5] == qs[5] && ps[6] == qs[6];
    assert ps[7] == qs[7] && ps[8] == qs[8] && ps[9] == qs[9] && ps[10] == qs[10];
  }

  /** What is signed is never what is hashed for a request. */
  lemma FormsNeverCollide(r: AdmissionRequest, c: Claims, nonce: Data)
    requires ValidRequest(r) && Encodable(c, nonce)
    ensures Written(RequestPieces(r)) != Written(TokenPieces(c, nonce))
  {
    var ps, qs := RequestPieces(r), TokenPieces(c, nonce);
    PiecesFit(r, c, nonce);
    if Written(ps) == Written(qs) {
      PieceFirst(ps[0], Written(ps[1..]), qs[0], Written(qs[1..]));
      SecondDiffers(ps[1..], qs[1..]);
    }
  }

  lemma SecondDiffers(ps: seq<Piece>, qs: seq<Piece>)
    requires ps != [] && qs != [] && Fits(ps[0]) && Fits(qs[0]) && Alike(ps[0], qs[0]) && ps[0] != qs[0]
    ensures Written(ps) != Written(qs)
  {
    if Written(ps) == Written(qs) {
      PieceFirst(ps[0], Written(ps[1..]), qs[0], Written(qs[1..]));
    }
  }
}
