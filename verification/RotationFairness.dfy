/**
 Fairness of the worker's rotation while policies are enabled and disabled between passes. A
 policy that stays enabled is run after a number of passes that depends on how many policies
 come and go, not on how many there are at once.
 */
module RotationFairness {
  import opened WorkerRotation

  /** Every pass has its own list of enabled policies. */
  ghost predicate Lists(lists: seq<seq<int>>, all: set<int>) {
    && (forall i :: 0 <= i < |lists| ==> Sorted(lists[i]))
    && (forall i, x :: 0 <= i < |lists| && x in lists[i] ==> x in all)
  }

  /** Everything that the passes process. */
  ghost function WorkOver(lists: seq<seq<int>>, cursor: int, stops: seq<nat>): seq<int>
    requires |lists| == |stops| && forall i :: 0 <= i < |lists| ==> Sorted(lists[i])
    decreases |lists|
  {
    if lists == [] then []
    else Done(lists[0], cursor, stops[0]) + WorkOver(lists[1..], Moved(lists[0], cursor, stops[0]), stops[1..])
  }

  // ------------------------------------------------------------------ one pass

  /** A pass that does not come to p stops at m: it goes on towards p through at least g policies, or
      on towards the tail, or starts over and goes through at least g policies before p. */
  ghost predicate ComesTo(ps: seq<int>, cursor: int, p: int, g: nat, a: nat, c: nat, m: int) {
    && a + c <= |ps| && 0 < c && m == ps[a + c - 1]
    && if cursor < p then g <= c && cursor < ps[a] && m < p
       else cursor < m || (g <= c && m < p)
  }

  lemma PassWithout(ps: seq<int>, cursor: int, stop: nat, p: int, g: nat) returns (a: nat, c: nat)
    requires Sorted(ps) && 0 <= cursor && p in ps && 1 <= g <= PAGE && g <= stop && p !in Done(ps, cursor, stop)
    ensures ComesTo(ps, cursor, p, g, a, c, Moved(ps, cursor, stop))
  {
    var n, q := |ps|, Position(ps, cursor);
    a, c := Start(n, q), Count(n, q, stop);
    DoneIs(ps, cursor, stop);
    MovedIs(ps, cursor, stop);
    var x :| 0 <= x < n && ps[x] == p;
    NotWithin(ps, a, a + c, x);
    Order(ps, x, q, cursor);
  }

  lemma NotWithin(ps: seq<int>, a: nat, b: nat, x: nat)
    requires a <= b <= |ps| && x < |ps| && ps[x] !in ps[a..b]
    ensures x < a || b <= x
  {
  }

  /** Who is before the cursor and who is behind it. */
  lemma Order(ps: seq<int>, x: nat, q: nat, cursor: int)
    requires Sorted(ps) && x < |ps| && q == Position(ps, cursor)
    ensures x < q <==> ps[x] <= cursor
  {
  }

  // ------------------------------------------------------------------ the measure

  /** The policies that may still come between the cursor and p: on the way to the tail, and before p. */
  function Above(all: set<int>, cursor: int, p: int): set<int> {
    if cursor < p then {} else set x | x in all && cursor < x
  }

  function Below(all: set<int>, cursor: int, p: int): set<int> {
    set x | x in all && x < p && (cursor < p ==> cursor < x)
  }

  function Visited(ps: seq<int>, a: nat, c: nat): set<int>
    requires a + c <= |ps|
  {
    set i | a <= i < a + c :: ps[i]
  }

  lemma {:induction false} VisitedCount(ps: seq<int>, a: nat, c: nat)
    requires Sorted(ps) && a + c <= |ps|
    ensures |Visited(ps, a, c)| == c
    decreases c
  {
    if c > 0 {
      VisitedCount(ps, a, c - 1);
      OneVisitMore(ps, a, c);
    }
  }

  lemma OneVisitMore(ps: seq<int>, a: nat, c: nat)
    requires Sorted(ps) && 0 < c && a + c <= |ps|
    ensures Visited(ps, a, c) == Visited(ps, a, c - 1) + {ps[a + c - 1]} && ps[a + c - 1] !in Visited(ps, a, c - 1)
  {
  }

  lemma SubsetCount(xs: set<int>, ys: set<int>)
    requires xs <= ys
    ensures |xs| <= |ys|
  {
    assert ys == xs + (ys - xs);
  }

  /** Going through a stretch of policies before p leaves that many fewer. */
  lemma BelowShrinks(all: set<int>, ps: seq<int>, cursor: int, p: int, a: nat, c: nat, m: int)
    requires Sorted(ps) && (forall x :: x in ps ==> x in all) && a + c <= |ps| && 0 < c && m == ps[a + c - 1] && m < p
    requires cursor < p ==> cursor < ps[a]
    ensures |Below(all, m, p)| + c <= |Below(all, cursor, p)|
  {
    var gone := Visited(ps, a, c);
    VisitedCount(ps, a, c);
    forall x | x in gone ensures x in Below(all, cursor, p) && x !in Below(all, m, p) {
      var i :| a <= i < a + c && ps[i] == x;
      assert ps[i] in ps;
    }
    assert Below(all, m, p) + gone <= Below(all, cursor, p) by {
      forall x | x in Below(all, m, p) ensures x in Below(all, cursor, p) {
        if cursor < p { assert cursor < m; }
      }
    }
    SubsetCount(Below(all, m, p) + gone, Below(all, cursor, p));
  }

  lemma AboveShrinks(all: set<int>, cursor: int, p: int, m: int)
    requires p <= cursor < m && m in all
    ensures |Above(all, m, p)| + 1 <= |Above(all, cursor, p)| && Below(all, m, p) == Below(all, cursor, p)
  {
    assert m !in Above(all, m, p);
    SubsetCount(Above(all, m, p) + {m}, Above(all, cursor, p));
  }

  /** With g policies per pass: how much may still come before p. */
  function Measure(all: set<int>, cursor: int, p: int, g: nat): nat {
    g * |Above(all, cursor, p)| + |Below(all, cursor, p)|
  }

  /** What a pass that does not come to p leaves of the measure. */
  lemma PassLowers(all: set<int>, ps: seq<int>, cursor: int, p: int, g: nat, a: nat, c: nat, m: int)
    requires Sorted(ps) && (forall x :: x in ps ==> x in all) && ComesTo(ps, cursor, p, g, a, c, m) && p in ps && m != p
    ensures Measure(all, m, p, g) + g <= Measure(all, cursor, p, g)
  {
    if m < p {
      BelowShrinks(all, ps, cursor, p, a, c, m);
      assert Above(all, m, p) == {};
    } else {
      assert m in ps;
      AboveShrinks(all, cursor, p, m);
      Scaled(g, |Above(all, m, p)|, |Above(all, cursor, p)|);
    }
  }

  lemma Scaled(g: nat, x: nat, y: nat)
    requires x + 1 <= y
    ensures g * x + g <= g * y
  {
    assert g * (x + 1) == g * x + g;
    assert g * (x + 1) <= g * y;
  }

  // ------------------------------------------------------------------ fairness

  ghost predicate AlwaysEnabled(lists: seq<seq<int>>, p: int) {
    forall i :: 0 <= i < |lists| ==> p in lists[i]
  }

  ghost predicate EachAtLeast(stops: seq<nat>, g: nat) {
    forall i :: 0 <= i < |stops| ==> g <= stops[i]
  }

  lemma LaterLists(lists: seq<seq<int>>, stops: seq<nat>, all: set<int>, p: int, g: nat)
    requires lists != [] && |lists| == |stops| && Lists(lists, all) && AlwaysEnabled(lists, p) && EachAtLeast(stops, g)
    ensures Sorted(lists[0]) && p in lists[0] && g <= stops[0] && forall x :: x in lists[0] ==> x in all
    ensures Lists(lists[1..], all) && AlwaysEnabled(lists[1..], p) && EachAtLeast(stops[1..], g)
  {
    forall i, x | 0 <= i < |lists[1..]| && x in lists[1..][i] ensures x in all {
      assert x in lists[i + 1];
    }
  }

  /** A policy that stays enabled is run, whatever is enabled and disabled between the passes: when
      every pass gets through g policies of its page, then within as many passes as the policies
      that ever come up behind the cursor, plus those before p divided by g. */
  lemma {:induction false} SteadyPolicyIsRun(lists: seq<seq<int>>, cursor: int, stops: seq<nat>, all: set<int>, p: int, g: nat)
    requires 0 <= cursor && |lists| == |stops| && Lists(lists, all) && AlwaysEnabled(lists, p)
    requires 1 <= g <= PAGE && EachAtLeast(stops, g)
    requires Measure(all, cursor, p, g) < g * |lists|
    ensures p in WorkOver(lists, cursor, stops)
    decreases |lists|
  {
    LaterLists(lists, stops, all, p, g);
    var m := Moved(lists[0], cursor, stops[0]);
    if p !in Done(lists[0], cursor, stops[0]) {
      MeasureDrops(all, lists[0], cursor, stops[0], p, g, m);
      OneLess(g, |lists|);
      SteadyPolicyIsRun(lists[1..], m, stops[1..], all, p, g);
    }
  }

  lemma OneLess(g: nat, n: nat)
    requires 0 < n
    ensures g * n == g * (n - 1) + g
  {
  }

  lemma MeasureDrops(all: set<int>, ps: seq<int>, cursor: int, stop: nat, p: int, g: nat, m: int)
    requires Sorted(ps) && (forall x :: x in ps ==> x in all) && 0 <= cursor && p in ps && 1 <= g <= PAGE && g <= stop
    requires p !in Done(ps, cursor, stop) && m == Moved(ps, cursor, stop)
    ensures 0 <= m && Measure(all, m, p, g) + g <= Measure(all, cursor, p, g)
  {
    var a, c := PassWithout(ps, cursor, stop, p, g);
    LastOfDone(ps, cursor, stop, p);
    PassLowers(all, ps, cursor, p, g, a, c, m);
  }

  /** A pass that does not process p does not stop at p, or has not moved. */
  lemma LastOfDone(ps: seq<int>, cursor: int, stop: nat, p: int)
    requires Sorted(ps) && 0 <= cursor && ps != [] && 1 <= stop && p !in Done(ps, cursor, stop)
    ensures Moved(ps, cursor, stop) != p && 0 <= Moved(ps, cursor, stop)
  {
    PageIds(ps, cursor);
    PassMoves(ps, cursor, stop);
    var done := Done(ps, cursor, stop);
    assert done != [];
    assert done[|done| - 1] in done;
  }

  /** In particular as many passes as there are policies in all are enough, even if each is cut
      short after its first policy. */
  lemma SteadyPolicyIsRunSoon(lists: seq<seq<int>>, cursor: int, stops: seq<nat>, all: set<int>, p: int)
    requires 0 <= cursor && |lists| == |stops| && Lists(lists, all) && AlwaysEnabled(lists, p) && p in all
    requires EachAtLeast(stops, 1) && |all| <= |lists|
    ensures p in WorkOver(lists, cursor, stops)
  {
    var above, below := Above(all, cursor, p), Below(all, cursor, p);
    assert above !! below && p !in above && p !in below;
    SubsetCount(above + below + {p}, all);
    SteadyPolicyIsRun(lists, cursor, stops, all, p, 1);
  }

  // ------------------------------------------------------------------ the size of the lists is no bound

  /** A hundred new policies for pass k, and the steady one behind those of all m passes. */
  function Crowd(k: nat, m: nat): seq<int> {
    seq(101, i => if i < 100 then 100 * k + i + 1 else 100 * m + 1)
  }

  function Crowds(k: nat, m: nat): seq<seq<int>>
    requires k <= m
    decreases m - k
  {
    if k == m then [] else [Crowd(k, m)] + Crowds(k + 1, m)
  }

  function Full(n: nat): seq<nat> {
    if n == 0 then [] else [PAGE] + Full(n - 1)
  }

  lemma CrowdSorted(k: nat, m: nat)
    requires k < m
    ensures Sorted(Crowd(k, m)) && 100 * m + 1 in Crowd(k, m)
  {
    assert Crowd(k, m)[100] == 100 * m + 1;
  }

  lemma CrowdPass(k: nat, m: nat)
    requires k < m && Sorted(Crowd(k, m))
    ensures 100 * m + 1 !in Done(Crowd(k, m), 100 * k, PAGE) && Moved(Crowd(k, m), 100 * k, PAGE) == 100 * (k + 1)
  {
    var ps := Crowd(k, m);
    PositionIs(ps, 100 * k, 0);
    DoneIs(ps, 100 * k, PAGE);
    MovedIs(ps, 100 * k, PAGE);
    assert Done(ps, 100 * k, PAGE) == ps[0..100];
  }

  ghost predicate Crowded(lists: seq<seq<int>>, p: int) {
    && (forall i :: 0 <= i < |lists| ==> Sorted(lists[i]))
    && (forall i :: 0 <= i < |lists| ==> |lists[i]| == 101) && AlwaysEnabled(lists, p)
  }

  /** Lists of 101 policies with p in all of them, and passes that never come to p. */
  ghost predicate Starves(lists: seq<seq<int>>, cursor: int, stops: seq<nat>, p: int) {
    |lists| == |stops| && Crowded(lists, p) && p !in WorkOver(lists, cursor, stops)
  }

  lemma {:induction false} CrowdsStarve(k: nat, m: nat)
    requires k <= m
    ensures |Crowds(k, m)| == m - k && Starves(Crowds(k, m), 100 * k, Full(m - k), 100 * m + 1)
    decreases m - k
  {
    if k < m {
      CrowdsStarve(k + 1, m);
      CrowdSorted(k, m);
      CrowdPass(k, m);
      OneMoreCrowd(Crowd(k, m), Crowds(k + 1, m), Full(m - k - 1), 100 * k, 100 * m + 1);
      CrowdsFirst(k, m);
    }
  }

  lemma CrowdsFirst(k: nat, m: nat)
    requires k < m
    ensures Crowds(k, m) == [Crowd(k, m)] + Crowds(k + 1, m) && Full(m - k) == [PAGE] + Full(m - k - 1)
  {
  }

  lemma OneMoreCrowd(ps: seq<int>, rest: seq<seq<int>>, stops: seq<nat>, cursor: int, p: int)
    requires Sorted(ps) && |ps| == 101 && p in ps && p !in Done(ps, cursor, PAGE)
    requires Starves(rest, Moved(ps, cursor, PAGE), stops, p)
    ensures Starves([ps] + rest, cursor, [PAGE] + stops, p)
  {
    var lists, all := [ps] + rest, [PAGE] + stops;
    assert lists[1..] == rest && all[1..] == stops;
    assert forall i :: 1 <= i < |lists| ==> lists[i] == rest[i - 1];
  }

  /** No bound from the size of the lists alone: for every number of uninterrupted passes there are
      lists of 101 policies each in which a policy that is always enabled is never run. */
  lemma ListSizeIsNoBound(m: nat) returns (lists: seq<seq<int>>, stops: seq<nat>, p: int)
    ensures |lists| == m && Uninterrupted(stops) && Starves(lists, 0, stops, p)
  {
    lists, stops, p := Crowds(0, m), Full(m), 100 * m + 1;
    CrowdsStarve(0, m);
    FullIsFull(m);
  }

  lemma {:induction false} FullIsFull(n: nat)
    ensures |Full(n)| == n && Uninterrupted(Full(n))
  {
    if n > 0 { FullIsFull(n - 1); }
  }
}
