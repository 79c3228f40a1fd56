/**
 The canonical byte strings that are hashed or signed: the hold request, the reservation
 commands, the admission request and the admission token. Equal strings mean equal
 requests, so a digest without collisions identifies the request.
 */
module Preimages {
  import opened RoomState
  import opened Bytes

  // ------------------------------------------------------------------ sorting texts

  /** Byte-wise lexicographic order. */
  predicate Leq(a: Data, b: Data) {
    a == [] || (b != [] && (a[0] < b[0] || (a[0] == b[0] && Leq(a[1..], b[1..]))))
  }

  lemma {:induction false} LeqTotal(a: Data, b: Data)
    ensures Leq(a, b) || Leq(b, a)
    decreases |a|
  {
    if a != [] && b != [] && a[0] == b[0] { LeqTotal(a[1..], b[1..]); }
  }

  lemma {:induction false} LeqAntisymmetric(a: Data, b: Data)
    requires Leq(a, b) && Leq(b, a)
    ensures a == b
    decreases |a|
  {
    if a != [] && b != [] {
      LeqAntisymmetric(a[1..], b[1..]);
      assert a == [a[0]] + a[1..] && b == [b[0]] + b[1..];
    }
  }

  lemma {:induction false} LeqTransitive(a: Data, b: Data, c: Data)
    requires Leq(a, b) && Leq(b, c)
    ensures Leq(a, c)
    decreases |a|
  {
    if a != [] && a[0] == b[0] && b[0] == c[0] { LeqTransitive(a[1..], b[1..], c[1..]); }
  }

  ghost predicate Sorted(vs: seq<Text>) {
    forall i, j :: 0 <= i < j < |vs| ==> Leq(vs[i], vs[j])
  }

  ghost predicate Distinct(vs: seq<Text>) {
    forall i, j :: 0 <= i < j < |vs| ==> vs[i] != vs[j]
  }

  function InsertText(v: Text, vs: seq<Text>): seq<Text> {
    if vs == [] then [v] else if Leq(v, vs[0]) then [v] + vs else [vs[0]] + InsertText(v, vs[1..])
  }

  function Sort(vs: seq<Text>): seq<Text> {
    if vs == [] then [] else InsertText(vs[0], Sort(vs[1..]))
  }

  lemma {:induction false} InsertKeeps(v: Text, vs: seq<Text>)
    requires Sorted(vs) && Distinct(vs) && v !in vs
    ensures Sorted(InsertText(v, vs)) && Distinct(InsertText(v, vs))
    ensures forall x :: x in InsertText(v, vs) <==> x == v || x in vs
    decreases |vs|
  {
    if vs != [] {
      if Leq(v, vs[0]) {
        forall j | 0 <= j < |vs| ensures Leq(v, vs[j]) {
          if j > 0 { LeqTransitive(v, vs[0], vs[j]); }
        }
      } else {
        LeqTotal(v, vs[0]);
        InsertKeeps(v, vs[1..]);
        var rest := InsertText(v, vs[1..]);
        forall j | 0 <= j < |rest| ensures Leq(vs[0], rest[j]) && rest[j] != vs[0] {
          assert rest[j] in rest;
          if rest[j] != v {
            var k :| 0 <= k < |vs[1..]| && vs[1..][k] == rest[j];
            assert vs[k + 1] == rest[j];
          }
        }
      }
    }
  }

  lemma {:induction false} SortKeeps(vs: seq<Text>)
    requires Distinct(vs)
    ensures Sorted(Sort(vs)) && Distinct(Sort(vs)) && forall x :: x in Sort(vs) <==> x in vs
    decreases |vs|
  {
    if vs != [] {
      SortKeeps(vs[1..]);
      InsertKeeps(vs[0], Sort(vs[1..]));
    }
  }

  /** A sorted list without repetitions is determined by its elements. */
  lemma {:induction false} SortedIsCanonical(vs: seq<Text>, ws: seq<Text>)
    requires Sorted(vs) && Distinct(vs) && Sorted(ws) && Distinct(ws)
    requires forall x :: x in vs <==> x in ws
    ensures vs == ws
    decreases |vs|
  {
    if vs == [] || ws == [] {
      var x: Text := if vs == [] then (if ws == [] then [] else ws[0]) else vs[0];
      assert x in vs <==> x in ws;
    } else {
      assert vs[0] in vs && vs[0] in ws;
      assert ws != [] && ws[0] in ws && ws[0] in vs;
      var i :| 0 <= i < |ws| && ws[i] == vs[0];
      var j :| 0 <= j < |vs| && vs[j] == ws[0];
      if i > 0 && j > 0 { LeqAntisymmetric(vs[0], ws[0]); }
      assert vs[0] == ws[0];
      TailsAgree(vs, ws);
      SortedIsCanonical(vs[1..], ws[1..]);
      assert vs == [vs[0]] + vs[1..] && ws == [ws[0]] + ws[1..];
    }
  }

  lemma TailsAgree(vs: seq<Text>, ws: seq<Text>)
    requires vs != [] && ws != [] && vs[0] == ws[0] && Distinct(vs) && Distinct(ws)
    requires forall x :: x in vs <==> x in ws
    ensures forall x :: x in vs[1..] <==> x in ws[1..]
  {
    forall x ensures x in vs[1..] <==> x in ws[1..] {
      TailHas(vs, x);
      TailHas(ws, x);
    }
  }

  lemma TailHas(vs: seq<Text>, x: Text)
    requires vs != [] && Distinct(vs)
    ensures x in vs[1..] <==> x in vs && x != vs[0]
  {
    if x in vs[1..] {
      var i :| 0 <= i < |vs[1..]| && vs[1..][i] == x;
      assert vs[i + 1] == x;
    }
    if x in vs && x != vs[0] {
      var i :| 0 <= i < |vs| && vs[i] == x;
      assert vs[1..][i - 1] == x;
    }
  }

  // ------------------------------------------------------------------ hold requests

  /** Trimming with folding to lower or upper case, whatever the library does exactly. */
  datatype Folding = Folding(lower: Text -> Text, upper: Text -> Text)

  datatype HoldRequest = HoldRequest(run: Text, origin: Text, destination: Text, seatClass: Text, passengers: seq<Text>)

  /** The normalized fields. */
  function Head(f: Folding, r: HoldRequest): seq<Text> {
    [f.lower(r.run), f.upper(r.origin), f.upper(r.destination), f.lower(r.seatClass)]
  }

  function Folded(f: Folding, vs: seq<Text>): (r: seq<Text>)
    ensures |r| == |vs| && forall i :: 0 <= i < |vs| ==> r[i] == f.lower(vs[i])
  {
    if vs == [] then [] else [f.lower(vs[0])] + Folded(f, vs[1..])
  }

  function Passengers(f: Folding, r: HoldRequest): (ps: seq<Text>)
    ensures |ps| == |r.passengers|
  {
    Folded(f, r.passengers)
  }

  ghost predicate Accepted(f: Folding, r: HoldRequest) {
    && HeadOk(f, r)
    && r.passengers != []
    && (forall i :: 0 <= i < |r.passengers| ==> Passengers(f, r)[i] != [])
    && Distinct(Passengers(f, r))
  }

  function Version(): Text { Ascii("v1") }

  function CreateOperation(): (r: Text)
    ensures |r| == 18 && r[13] == 114
  {
    Ascii("reservation.create")
  }

  /** Lengths are written in eight bytes. */
  function Image(vs: seq<Text>): Data {
    Fields(8, vs)
  }

  lemma ImageInjective(vs: seq<Text>, ws: seq<Text>)
    requires Image(vs) == Image(ws)
    ensures vs == ws
  {
    Widths();
    FieldsInjective(8, vs, ws);
  }

  /** Everything that is written into the digest of a hold request. */
  function HoldImage(f: Folding, r: HoldRequest): Data {
    Image([Version(), CreateOperation()] + Head(f, r) + Sort(Passengers(f, r)))
  }

  /** The passenger loop: normalize, and refuse blanks and repetitions. */
  method NormalizePassengers(f: Folding, r: HoldRequest) returns (result: Option<seq<Text>>)
    ensures result.Some? <==> Distinct(Passengers(f, r)) && forall i :: 0 <= i < |r.passengers| ==> Passengers(f, r)[i] != []
    ensures result.Some? ==> result.value == Passengers(f, r)
  {
    var all := Passengers(f, r);
    var seen: set<Text>, passengers: seq<Text> := {}, [];
    for i := 0 to |r.passengers|
      invariant passengers == all[..i]
      invariant forall v :: v in seen <==> v in passengers
      invariant Distinct(passengers) && forall j :: 0 <= j < i ==> passengers[j] != []
    {
      var p := f.lower(r.passengers[i]);
      assert all[i] == p;
      if p == [] { return None; }
      if p in seen {
        var j :| 0 <= j < |passengers| && passengers[j] == p;
        assert all[j] == all[i];
        return None;
      }
      passengers := passengers + [p];
      seen := seen + {p};
    }
    assert passengers == all;
    result := Some(passengers);
  }

  predicate HeadOk(f: Folding, r: HoldRequest) {
    && f.lower(r.run) != [] && f.upper(r.origin) != [] && f.upper(r.destination) != [] && f.lower(r.seatClass) != []
    && f.upper(r.origin) != f.upper(r.destination)
  }

  /** FingerprintHoldRequest up to the digest: validation, normalization, sorting, fields. */
  method EncodeHold(f: Folding, r: HoldRequest) returns (image: Option<Data>)
    ensures image.Some? <==> Accepted(f, r)
    ensures image.Some? ==> image.value == HoldImage(f, r)
  {
    if !HeadOk(f, r) || |r.passengers| == 0 { return None; }
    var passengers := NormalizePassengers(f, r);
    if passengers.None? { return None; }
    var sorted := Sort(passengers.value);
    var digest := WriteAll([Version(), CreateOperation()] + Head(f, r) + sorted);
    image := Some(digest);
  }

  /** writeField for each value in turn. */
  method WriteAll(vs: seq<Text>) returns (digest: Data)
    ensures digest == Image(vs)
  {
    digest := WriteFields(8, vs);
  }

  ghost predicate SamePassengers(f: Folding, r: HoldRequest, s: HoldRequest) {
    forall x :: x in Passengers(f, r) <==> x in Passengers(f, s)
  }

  /** Two accepted hold requests have the same canonical form exactly when their normalized
      fields and their passenger sets are equal, in whatever order the passengers came. */
  lemma HoldImagesAgree(f: Folding, r: HoldRequest, s: HoldRequest)
    requires Accepted(f, r) && Accepted(f, s)
    ensures HoldImage(f, r) == HoldImage(f, s) <==> Head(f, r) == Head(f, s) && SamePassengers(f, r, s)
  {
    SortKeeps(Passengers(f, r));
    SortKeeps(Passengers(f, s));
    if HoldImage(f, r) == HoldImage(f, s) {
      HoldParts(f, r, s);
      SortedSame(f, r, s);
    }
    if Head(f, r) == Head(f, s) && SamePassengers(f, r, s) {
      SortedIsCanonical(Sort(Passengers(f, r)), Sort(Passengers(f, s)));
    }
  }

  lemma SortedSame(f: Folding, r: HoldRequest, s: HoldRequest)
    requires Distinct(Passengers(f, r)) && Distinct(Passengers(f, s)) && Sort(Passengers(f, r)) == Sort(Passengers(f, s))
    ensures SamePassengers(f, r, s)
  {
    SortKeeps(Passengers(f, r));
    SortKeeps(Passengers(f, s));
  }

  lemma HoldParts(f: Folding, r: HoldRequest, s: HoldRequest)
    requires HoldImage(f, r) == HoldImage(f, s)
    ensures Head(f, r) == Head(f, s) && Sort(Passengers(f, r)) == Sort(Passengers(f, s))
  {
    var start := [Version(), CreateOperation()];
    ImageInjective(start + Head(f, r) + Sort(Passengers(f, r)), start + Head(f, s) + Sort(Passengers(f, s)));
    var a, b := start + Head(f, r) + Sort(Passengers(f, r)), start + Head(f, s) + Sort(Passengers(f, s));
    assert a[2..6] == Head(f, r) && b[2..6] == Head(f, s);
    assert a[6..] == Sort(Passengers(f, r)) && b[6..] == Sort(Passengers(f, s));
  }

  // ------------------------------------------------------------------ reservation commands

  datatype Operation = Confirm | CancelReservation

  function NameOf(op: Operation): (r: Text)
    ensures |r| == (if op == Confirm then 19 else 18) && r[13] == (if op == Confirm then 111 else 97)
  {
    match op
    case Confirm => Ascii("reservation.confirm")
    case CancelReservation => Ascii("reservation.cancel")
  }

  function CommandImage(op: Operation, reservation: Text): Data {
    Image([Version(), NameOf(op), reservation])
  }

  lemma FieldsDiffer(vs: seq<Text>, ws: seq<Text>, i: nat)
    requires i < |vs| && i < |ws| && vs[i] != ws[i]
    ensures Image(vs) != Image(ws)
  {
    if Image(vs) == Image(ws) { ImageInjective(vs, ws); }
  }

  /** The operation that the text names, if it is one of the two. */
  function Named(name: Text): (op: Option<Operation>)
    ensures op.Some? ==> NameOf(op.value) == name
    ensures op.None? ==> name != NameOf(Confirm) && name != NameOf(CancelReservation)
  {
    if name == NameOf(Confirm) then Some(Confirm)
    else if name == NameOf(CancelReservation) then Some(CancelReservation)
    else None
  }

  predicate AcceptedCommand(f: Folding, name: Text, id: Text) {
    Named(name).Some? && f.lower(id) != []
  }

  /** FingerprintReservationCommand up to the digest. */
  method EncodeCommand(f: Folding, name: Text, id: Text) returns (image: Option<Data>)
    ensures image.Some? <==> AcceptedCommand(f, name, id)
    ensures image.Some? ==> image.value == CommandImage(Named(name).value, f.lower(id))
  {
    var reservation := f.lower(id);
    if reservation == [] || (name != NameOf(Confirm) && name != NameOf(CancelReservation)) { return None; }
    var digest := WriteAll([Version(), name, reservation]);
    image := Some(digest);
  }

  /** Accepted commands have the same canonical form if and only if they are the same operation on
      the same normalized id, and none has that of a hold request. */
  lemma CommandImagesAgree(f: Folding, name: Text, id: Text, name2: Text, id2: Text, r: HoldRequest)
    requires AcceptedCommand(f, name, id) && AcceptedCommand(f, name2, id2)
    ensures var a, b := CommandImage(Named(name).value, f.lower(id)), CommandImage(Named(name2).value, f.lower(id2));
            (a == b <==> name == name2 && f.lower(id) == f.lower(id2)) && a != HoldImage(f, r)
  {
    var a, b: seq<Text> := [Version(), name, f.lower(id)], [Version(), name2, f.lower(id2)];
    if name != name2 {
      FieldsDiffer(a, b, 1);
    } else if f.lower(id) != f.lower(id2) {
      FieldsDiffer(a, b, 2);
    }
    FieldsDiffer(a, [Version(), CreateOperation()] + Head(f, r) + Sort(Passengers(f, r)), 1);
  }
}
