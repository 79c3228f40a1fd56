/**
 The admission worker's rotation over the enabled policies: a keyset cursor, pages of at
 most 100 and a wrap at the tail. Policy ids are positive; 0 stands for the nil id.
 */
module WorkerRotation {

  const PAGE := 100

  ghost predicate Sorted(ps: seq<int>) {
    && (forall i :: 0 <= i < |ps| ==> 0 < ps[i])
    && (forall i, j :: 0 <= i < j < |ps| ==> ps[i] < ps[j])
  }

  /** Exactly the first k ids are not behind the cursor. */
  predicate Splits(ps: seq<int>, cursor: int, k: nat) {
    k <= |ps| && (forall i :: 0 <= i < k ==> ps[i] <= cursor) && (forall i :: k <= i < |ps| ==> cursor < ps[i])
  }

  /** How many ids are not behind the cursor. */
  function Position(ps: seq<int>, cursor: int): (k: nat)
    requires Sorted(ps)
    ensures Splits(ps, cursor, k)
  {
    SplitsOnce(ps, cursor);
    var k :| 0 <= k <= |ps| && Splits(ps, cursor, k);
    k
  }

  lemma SplitsOnce(ps: seq<int>, cursor: int)
    requires Sorted(ps)
    ensures exists k: nat :: Splits(ps, cursor, k)
    ensures forall k: nat, m: nat :: Splits(ps, cursor, k) && Splits(ps, cursor, m) ==> k == m
  {
    var k := Boundary(ps, cursor);
    forall m: nat, n: nat | Splits(ps, cursor, m) && Splits(ps, cursor, n) ensures m == n {
      NoTwoSplits(ps, cursor, m, n);
      NoTwoSplits(ps, cursor, n, m);
    }
  }

  lemma NoTwoSplits(ps: seq<int>, cursor: int, m: nat, n: nat)
    requires Splits(ps, cursor, m) && Splits(ps, cursor, n)
    ensures n <= m
  {
    if m < |ps| {
      assert cursor < ps[m];
    }
  }

  lemma Boundary(ps: seq<int>, cursor: int) returns (k: nat)
    requires Sorted(ps)
    ensures Splits(ps, cursor, k)
  {
    k := 0;
    while k < |ps| && ps[k] <= cursor
      invariant k <= |ps| && forall i :: 0 <= i < k ==> ps[i] <= cursor
    {
      k := k + 1;
    }
    forall i | k <= i < |ps| ensures cursor < ps[i] {
      assert i > k ==> ps[k] < ps[i];
    }
  }

  /** WHERE enabled AND id > cursor ORDER BY id LIMIT limit. */
  function ListAfter(ps: seq<int>, cursor: int, limit: nat): seq<int>
    requires Sorted(ps)
  {
    var k := Position(ps, cursor);
    if k + limit < |ps| then ps[k..k + limit] else ps[k..]
  }

  /** The page of a pass: behind the cursor, or from the start when nothing is left there. */
  function Page(ps: seq<int>, cursor: int): seq<int>
    requires Sorted(ps)
  {
    var page := ListAfter(ps, cursor, PAGE);
    if page != [] || cursor == 0 then page else ListAfter(ps, 0, PAGE)
  }

  /** What a pass processes when it is cut short after stop policies. */
  function Done(ps: seq<int>, cursor: int, stop: nat): seq<int>
    requires Sorted(ps)
  {
    var page := Page(ps, cursor);
    if stop < |page| then page[..stop] else page
  }

  function Moved(ps: seq<int>, cursor: int, stop: nat): int
    requires Sorted(ps)
  {
    var done := Done(ps, cursor, stop);
    if ps == [] then 0 else if done == [] then cursor else done[|done| - 1]
  }

  class Worker {
    var cursor: int

    constructor ()
      ensures cursor == 0
    {
      cursor := 0;
    }

    method NextPolicies(ps: seq<int>) returns (page: seq<int>)
      requires Sorted(ps) && 0 <= cursor
      modifies this
      ensures page == Page(ps, old(cursor))
      ensures cursor == if ps == [] then 0 else old(cursor)
    {
      Lists(ps, cursor);
      page := ListAfter(ps, cursor, PAGE);
      if |page| > 0 || cursor == 0 { return; }
      page := ListAfter(ps, 0, PAGE);
      if |page| == 0 {
        cursor := 0;
      }
    }

    /** One pass. The caller's context ends after stop policies; run by run the cursor follows. */
    method RunOnce(ps: seq<int>, stop: nat) returns (done: seq<int>)
      requires Sorted(ps) && 0 <= cursor
      modifies this
      ensures done == Done(ps, old(cursor), stop)
      ensures cursor == Moved(ps, old(cursor), stop) && 0 <= cursor
    {
      var page := NextPolicies(ps);
      done := [];
      PageIds(ps, old(cursor));
      for i := 0 to |page|
        invariant done == page[..i] && |done| == i && i <= stop
        invariant cursor == if i == 0 then (if ps == [] then 0 else old(cursor)) else page[i - 1]
      {
        if i >= stop { break; }
        done := done + [page[i]];
        cursor := page[i];
      }
      Cut(page, stop, done);
    }
  }

  /** Something is listed only if there is something, and from the start whenever there is. */
  lemma Lists(ps: seq<int>, cursor: int)
    requires Sorted(ps)
    ensures ListAfter(ps, cursor, PAGE) != [] ==> ps != []
    ensures ListAfter(ps, 0, PAGE) == [] <==> ps == []
    ensures Page(ps, cursor) ==
            if ListAfter(ps, cursor, PAGE) != [] || cursor == 0 then ListAfter(ps, cursor, PAGE) else ListAfter(ps, 0, PAGE)
  {
    PositionIs(ps, 0, 0);
  }

  lemma Cut(page: seq<int>, stop: nat, done: seq<int>)
    requires done <= page && |done| <= stop && (|done| == |page| || |done| == stop)
    ensures done == if stop < |page| then page[..stop] else page
  {
  }

  lemma Slice(ps: seq<int>, a: nat, b: nat, c: nat)
    requires a <= b <= |ps|
    ensures c < b - a ==> ps[a..b][..c] == ps[a..a + c]
  {
  }

  /** A page is a stretch of the list. */
  lemma PageIds(ps: seq<int>, cursor: int)
    requires Sorted(ps) && 0 <= cursor
    ensures var q := Position(ps, cursor); var k := if q == |ps| then 0 else q;
            && Page(ps, cursor) == (if k + PAGE < |ps| then ps[k..k + PAGE] else ps[k..])
            && (forall x :: x in Page(ps, cursor) ==> 0 < x)
            && (ps != [] ==> Page(ps, cursor) != [])
  {
    PositionIs(ps, 0, 0);
  }

  lemma PositionIs(ps: seq<int>, cursor: int, k: nat)
    requires Sorted(ps) && Splits(ps, cursor, k)
    ensures Position(ps, cursor) == k
  {
    NoTwoSplits(ps, cursor, k, Position(ps, cursor));
    NoTwoSplits(ps, cursor, Position(ps, cursor), k);
  }

  lemma PositionOf(ps: seq<int>, k: nat)
    requires Sorted(ps) && k < |ps|
    ensures Position(ps, ps[k]) == k + 1
  {
    PositionIs(ps, ps[k], k + 1);
  }

  // ------------------------------------------------------------------ many passes

  /** Everything that consecutive passes process, in order. */
  function Work(ps: seq<int>, cursor: int, stops: seq<nat>): seq<int>
    requires Sorted(ps)
    decreases |stops|
  {
    if stops == [] then []
    else Done(ps, cursor, stops[0]) + Work(ps, Moved(ps, cursor, stops[0]), stops[1..])
  }

  // ------------------------------------------------------------------ passes as positions

  function Least(a: int, b: int): int { if a < b then a else b }

  /** Where on a list of n the page of a pass starts, how many policies it processes, and where
      it leaves the cursor. */
  function Start(n: nat, q: nat): nat { if q == n then 0 else q }

  function Count(n: nat, q: nat, stop: nat): nat
    requires q <= n
  {
    Least(stop, Least(PAGE, n - Start(n, q)))
  }

  function Stop(n: nat, q: nat, stop: nat): (r: nat)
    requires q <= n
    ensures r <= n
  {
    if Count(n, q, stop) == 0 then q else Start(n, q) + Count(n, q, stop)
  }

  lemma DoneIs(ps: seq<int>, cursor: int, stop: nat)
    requires Sorted(ps) && 0 <= cursor
    ensures var n, q := |ps|, Position(ps, cursor);
            Done(ps, cursor, stop) == ps[Start(n, q)..Start(n, q) + Count(n, q, stop)]
  {
    PageIds(ps, cursor);
    var k := Start(|ps|, Position(ps, cursor));
    var m := Least(k + PAGE, |ps|);
    assert Page(ps, cursor) == ps[k..m];
    Slice(ps, k, m, stop);
  }

  lemma LastOf(ps: seq<int>, a: nat, c: nat)
    requires 0 < c && a + c <= |ps|
    ensures ps[a..a + c][c - 1] == ps[a + c - 1]
  {
  }

  lemma MovedIs(ps: seq<int>, cursor: int, stop: nat)
    requires Sorted(ps) && ps != [] && 0 <= cursor
    ensures var n, q := |ps|, Position(ps, cursor);
            Moved(ps, cursor, stop) == if Count(n, q, stop) == 0 then cursor else ps[Start(n, q) + Count(n, q, stop) - 1]
  {
    DoneIs(ps, cursor, stop);
    var n, q := |ps|, Position(ps, cursor);
    if 0 < Count(n, q, stop) { LastOf(ps, Start(n, q), Count(n, q, stop)); }
  }

  /** A pass leaves the cursor where it stopped. */
  lemma PassMoves(ps: seq<int>, cursor: int, stop: nat)
    requires Sorted(ps) && ps != [] && 0 <= cursor
    ensures 0 <= Moved(ps, cursor, stop)
    ensures Position(ps, Moved(ps, cursor, stop)) == Stop(|ps|, Position(ps, cursor), stop)
  {
    MovedIs(ps, cursor, stop);
    var n, q := |ps|, Position(ps, cursor);
    if 0 < Count(n, q, stop) { PositionOf(ps, Start(n, q) + Count(n, q, stop) - 1); }
  }

  /** How many policies consecutive passes process, and the position of the i-th of them. */
  function Steps(n: nat, q: nat, stops: seq<nat>): nat
    requires q <= n
    decreases |stops|
  {
    if stops == [] then 0 else Count(n, q, stops[0]) + Steps(n, Stop(n, q, stops[0]), stops[1..])
  }

  function StepAt(n: nat, q: nat, stops: seq<nat>, i: nat): (r: nat)
    requires q <= n && i < Steps(n, q, stops)
    ensures r < n
    decreases |stops|
  {
    if i < Count(n, q, stops[0]) then Start(n, q) + i
    else StepAt(n, Stop(n, q, stops[0]), stops[1..], i - Count(n, q, stops[0]))
  }

  /** The work of consecutive passes, from the position instead of the cursor. */
  function WorkFrom(ps: seq<int>, q: nat, stops: seq<nat>): seq<int>
    requires q <= |ps|
    decreases |stops|
  {
    if stops == [] then []
    else
      var n := |ps|;
      ps[Start(n, q)..Start(n, q) + Count(n, q, stops[0])] + WorkFrom(ps, Stop(n, q, stops[0]), stops[1..])
  }

  lemma {:induction false} WorkLength(ps: seq<int>, q: nat, stops: seq<nat>)
    requires q <= |ps|
    ensures |WorkFrom(ps, q, stops)| == Steps(|ps|, q, stops)
    decreases |stops|
  {
    if stops != [] {
      WorkLength(ps, Stop(|ps|, q, stops[0]), stops[1..]);
    }
  }

  lemma WorkFirst(ps: seq<int>, cursor: int, stops: seq<nat>, moved: int, done: seq<int>, rest: seq<int>)
    requires Sorted(ps) && stops != [] && moved == Moved(ps, cursor, stops[0])
    requires done == Done(ps, cursor, stops[0]) && rest == Work(ps, moved, stops[1..])
    ensures Work(ps, cursor, stops) == done + rest
  {
  }

  lemma WorkFromFirst(ps: seq<int>, q: nat, stops: seq<nat>, next: nat, done: seq<int>, rest: seq<int>)
    requires q <= |ps| && stops != [] && next == Stop(|ps|, q, stops[0]) && rest == WorkFrom(ps, next, stops[1..])
    requires done == ps[Start(|ps|, q)..Start(|ps|, q) + Count(|ps|, q, stops[0])]
    ensures WorkFrom(ps, q, stops) == done + rest
  {
  }

  ghost predicate SameWork(ps: seq<int>, cursor: int, q: nat, stops: seq<nat>)
    requires Sorted(ps) && q <= |ps|
  {
    Work(ps, cursor, stops) == WorkFrom(ps, q, stops)
  }

  lemma OneMorePass(ps: seq<int>, cursor: int, q: nat, stops: seq<nat>, moved: int, next: nat, rest: seq<int>)
    requires Sorted(ps) && 0 <= cursor && q == Position(ps, cursor) && stops != []
    requires moved == Moved(ps, cursor, stops[0]) && next == Stop(|ps|, q, stops[0])
    requires rest == Work(ps, moved, stops[1..]) && rest == WorkFrom(ps, next, stops[1..])
    ensures SameWork(ps, cursor, q, stops)
  {
    var done := Done(ps, cursor, stops[0]);
    DoneFrom(ps, cursor, q, stops[0], done);
    WorkFirst(ps, cursor, stops, moved, done, rest);
    WorkFromFirst(ps, q, stops, next, done, rest);
  }

  lemma DoneFrom(ps: seq<int>, cursor: int, q: nat, stop: nat, done: seq<int>)
    requires Sorted(ps) && 0 <= cursor && q == Position(ps, cursor) && done == Done(ps, cursor, stop)
    ensures done == ps[Start(|ps|, q)..Start(|ps|, q) + Count(|ps|, q, stop)]
  {
    DoneIs(ps, cursor, stop);
  }

  /** What consecutive passes process depends on the position of the cursor alone. */
  lemma {:induction false} WorkIs(ps: seq<int>, cursor: int, stops: seq<nat>)
    requires Sorted(ps) && ps != [] && 0 <= cursor
    ensures SameWork(ps, cursor, Position(ps, cursor), stops)
    decreases |stops|
  {
    if stops != [] {
      PassMoves(ps, cursor, stops[0]);
      var moved := Moved(ps, cursor, stops[0]);
      WorkIs(ps, moved, stops[1..]);
      OneMorePass(ps, cursor, Position(ps, cursor), stops, moved, Position(ps, moved), Work(ps, moved, stops[1..]));
    }
  }

  /** Work item i is the policy at position k. */
  ghost predicate WorkIsAt(ps: seq<int>, q: nat, stops: seq<nat>, i: nat, k: nat)
    requires q <= |ps|
  {
    i < |WorkFrom(ps, q, stops)| && k < |ps| && WorkFrom(ps, q, stops)[i] == ps[k]
  }

  /** The items of the first pass, and those of the passes behind it. */
  lemma WorkFront(ps: seq<int>, q: nat, stops: seq<nat>, i: nat)
    requires q <= |ps| && stops != [] && i < Count(|ps|, q, stops[0])
    ensures WorkIsAt(ps, q, stops, i, Start(|ps|, q) + i)
  {
  }

  lemma WorkBack(ps: seq<int>, q: nat, stops: seq<nat>, i: nat, k: nat)
    requires q <= |ps| && stops != [] && Count(|ps|, q, stops[0]) <= i
    requires WorkIsAt(ps, Stop(|ps|, q, stops[0]), stops[1..], i - Count(|ps|, q, stops[0]), k)
    ensures WorkIsAt(ps, q, stops, i, k)
  {
    var n := |ps|;
    var front := ps[Start(n, q)..Start(n, q) + Count(n, q, stops[0])];
    ConcatAt(front, WorkFrom(ps, Stop(n, q, stops[0]), stops[1..]), i);
  }

  lemma ConcatAt(a: seq<int>, b: seq<int>, i: nat)
    requires i < |a| + |b|
    ensures (a + b)[i] == if i < |a| then a[i] else b[i - |a|]
  {
  }

  lemma StepBack(n: nat, q: nat, stops: seq<nat>, i: nat)
    requires q <= n && i < Steps(n, q, stops) && Count(n, q, stops[0]) <= i
    ensures i - Count(n, q, stops[0]) < Steps(n, Stop(n, q, stops[0]), stops[1..])
    ensures StepAt(n, q, stops, i) == StepAt(n, Stop(n, q, stops[0]), stops[1..], i - Count(n, q, stops[0]))
  {
  }

  lemma {:induction false} WorkAt(ps: seq<int>, q: nat, stops: seq<nat>, i: nat)
    requires q <= |ps| && i < Steps(|ps|, q, stops)
    ensures WorkIsAt(ps, q, stops, i, StepAt(|ps|, q, stops, i))
    decreases |stops|
  {
    var c := Count(|ps|, q, stops[0]);
    if i < c {
      WorkFront(ps, q, stops, i);
    } else {
      StepBack(|ps|, q, stops, i);
      WorkAt(ps, Stop(|ps|, q, stops[0]), stops[1..], i - c);
      WorkBack(ps, q, stops, i, StepAt(|ps|, q, stops, i));
    }
  }

  // ------------------------------------------------------------------ no gaps

  /** The place of step k on a circle of n. */
  function Turn(k: nat, n: nat): (r: nat)
    requires 0 < n
    ensures r < n
  {
    if k < n then k else Turn(k - n, n)
  }

  lemma {:induction false} StepsAreCyclic(n: nat, q: nat, stops: seq<nat>, i: nat)
    requires 0 < n && q <= n && i < Steps(n, q, stops)
    ensures StepAt(n, q, stops, i) == Turn(q + i, n)
    decreases |stops|
  {
    var c := Count(n, q, stops[0]);
    if c <= i {
      StepsAreCyclic(n, Stop(n, q, stops[0]), stops[1..], i - c);
    }
  }

  /** The list goes through the policies in cyclic order from position q on. */
  ghost predicate WalksFrom(ps: seq<int>, q: nat, work: seq<int>) {
    forall i :: 0 <= i < |work| ==> ps != [] && work[i] == ps[Turn(q + i, |ps|)]
  }

  /** Nobody is skipped: however the passes are cut short, together they process the policies
      in cyclic order from the cursor on, without a gap and without a repetition. */
  lemma NobodyIsSkipped(ps: seq<int>, cursor: int, stops: seq<nat>)
    requires Sorted(ps) && ps != [] && 0 <= cursor
    ensures WalksFrom(ps, Position(ps, cursor), Work(ps, cursor, stops))
  {
    WorkIs(ps, cursor, stops);
    WorkWalks(ps, Position(ps, cursor), stops);
  }

  lemma WorkWalks(ps: seq<int>, q: nat, stops: seq<nat>)
    requires ps != [] && q <= |ps|
    ensures WalksFrom(ps, q, WorkFrom(ps, q, stops))
  {
    forall i | 0 <= i < |WorkFrom(ps, q, stops)| ensures WorkFrom(ps, q, stops)[i] == ps[Turn(q + i, |ps|)] {
      StepsAreInOrder(ps, q, stops, i);
    }
  }

  lemma StepsAreInOrder(ps: seq<int>, q: nat, stops: seq<nat>, i: nat)
    requires ps != [] && q <= |ps| && i < |WorkFrom(ps, q, stops)|
    ensures WorkFrom(ps, q, stops)[i] == ps[Turn(q + i, |ps|)]
  {
    WorkLength(ps, q, stops);
    WorkAt(ps, q, stops, i);
    StepsAreCyclic(|ps|, q, stops, i);
  }

  // ------------------------------------------------------------------ fairness

  /** Uninterrupted passes: none is cut short within its page. */
  ghost predicate Uninterrupted(stops: seq<nat>) {
    forall i :: 0 <= i < |stops| ==> PAGE <= stops[i]
  }

  /** Up to the tail every pass is full. */
  lemma {:induction false} StraightSteps(n: nat, q: nat, stops: seq<nat>)
    requires 0 < n && q <= n && Uninterrupted(stops)
    ensures Least(100 * |stops|, n - Start(n, q)) <= Steps(n, q, stops)
    decreases |stops|
  {
    if stops != [] {
      StraightSteps(n, Stop(n, q, stops[0]), stops[1..]);
    }
  }

  /** At most one pass of a round is short, the one that reaches the tail. */
  lemma {:induction false} RoundSteps(n: nat, q: nat, stops: seq<nat>)
    requires 0 < n && q <= n && Uninterrupted(stops) && stops != []
    ensures Least(100 * (|stops| - 1), n) <= Steps(n, q, stops)
    decreases |stops|
  {
    if q == n {
      StraightSteps(n, q, stops);
    } else if n - q <= PAGE {
      StraightSteps(n, n, stops[1..]);
    } else if stops[1..] != [] {
      RoundSteps(n, q + PAGE, stops[1..]);
    }
  }

  lemma CoversCircle(n: nat, q: nat, x: nat) returns (i: nat)
    requires q <= n && x < n
    ensures i < n && Turn(q + i, n) == x
  {
    i := if q <= x then x - q else x - q + n;
  }

  /** From any cursor, every policy is run within ceil(n / 100) + 1 uninterrupted passes. */
  lemma RotationIsFair(ps: seq<int>, cursor: int, stops: seq<nat>, p: int)
    requires Sorted(ps) && 0 <= cursor && Uninterrupted(stops) && p in ps
    requires |stops| == (|ps| + 99) / 100 + 1
    ensures p in Work(ps, cursor, stops)
  {
    var q := Position(ps, cursor);
    var x :| 0 <= x < |ps| && ps[x] == p;
    WorkIs(ps, cursor, stops);
    AllAreDone(ps, q, stops, x);
  }

  lemma AllAreDone(ps: seq<int>, q: nat, stops: seq<nat>, x: nat)
    requires q <= |ps| && x < |ps| && Uninterrupted(stops) && |stops| == (|ps| + 99) / 100 + 1
    ensures ps[x] in WorkFrom(ps, q, stops)
  {
    RoundSteps(|ps|, q, stops);
    WorkLength(ps, q, stops);
    var i := CoversCircle(|ps|, q, x);
    StepsAreInOrder(ps, q, stops, i);
  }
}
