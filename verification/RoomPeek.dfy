/**
 Peek and the issue call that follows it, at once or after any other calls. The peek looks
 at a window of twice the limit, because expired entries may still sit at the head of the
 queue; what it returns is the front of the queue behind them. Whatever happens in between,
 as long as its entries wait they stay the front of the queue that the issue call works on.
 */
module RoomPeek {
  import opened RoomState
  import opened RoomSteps
  import opened RoomInvariant
  import opened RoomHistory
  import opened RoomOrder
  import opened RoomLife
  import opened RoomScripts
  import opened RoomPaths
  import opened RoomFifo
  import opened RoomRuns
  import opened RoomTheorems
  import opened RoomProgress
  import opened RoomWait

  /** The first entries of q, at most limit, that wait and have not expired. */
  function PeekFrom(s: Room, now: Millis, q: seq<EntryId>, limit: int): seq<EntryId>
    decreases |q|
  {
    if q == [] || limit <= 0 then []
    else if q[0] in s.entries && s.entries[q[0]].status == EntryQueued && now < s.entries[q[0]].expiry then
      [q[0]] + PeekFrom(s, now, q[1..], limit - 1)
    else PeekFrom(s, now, q[1..], limit)
  }

  /** One turn of the peek loop, behind what it has found so far. */
  lemma PeekTurn(s: Room, now: Millis, q: seq<EntryId>, limit: int, found: seq<EntryId>)
    requires q != [] && 0 < limit
    ensures found + PeekFrom(s, now, q, limit)
         == if q[0] in s.entries && s.entries[q[0]].status == EntryQueued && now < s.entries[q[0]].expiry
            then (found + [q[0]]) + PeekFrom(s, now, q[1..], limit - 1)
            else found + PeekFrom(s, now, q[1..], limit)
  {
  }

  /** What was found, and what the rest of the window adds to it, are all. */
  ghost predicate PeekSoFar(s: Room, now: Millis, q: seq<EntryId>, limit: int, found: seq<EntryId>, all: seq<EntryId>) {
    found + PeekFrom(s, now, q, limit - |found|) == all
  }

  predicate PeekHit(s: Room, now: Millis, e: EntryId) {
    e in s.entries && s.entries[e].status == EntryQueued && now < s.entries[e].expiry
  }

  lemma PeekOn(s: Room, now: Millis, q: seq<EntryId>, limit: int, found: seq<EntryId>, all: seq<EntryId>)
    requires q != [] && |found| < limit && PeekSoFar(s, now, q, limit, found, all)
    ensures PeekSoFar(s, now, q[1..], limit, if PeekHit(s, now, q[0]) then found + [q[0]] else found, all)
  {
    PeekTurn(s, now, q, limit - |found|, found);
  }

  lemma PeekDone(s: Room, now: Millis, q: seq<EntryId>, limit: int, found: seq<EntryId>, all: seq<EntryId>)
    requires (q == [] || limit <= |found|) && PeekSoFar(s, now, q, limit, found, all)
    ensures found == all
  {
    PeekEnd(s, now, q, limit - |found|, found);
  }

  lemma PeekEnd(s: Room, now: Millis, q: seq<EntryId>, limit: int, found: seq<EntryId>)
    requires q == [] || limit <= 0
    ensures found + PeekFrom(s, now, q, limit) == found
  {
  }

  function Peek(s: Room, now: Millis, limit: int): seq<EntryId> {
    PeekFrom(s, now, Head(s.queue, limit * 2), limit)
  }

  lemma {:induction false} PeekFresh(s: Room, q: seq<EntryId>, limit: int)
    requires forall i :: 0 <= i < |q| ==> q[i] in s.entries && s.entries[q[i]].status == EntryQueued && !Stale(s, q[i])
    ensures PeekFrom(s, s.clock, q, limit) == Head(q, limit)
    decreases |q|
  {
    if q != [] && 0 < limit {
      assert q[0] in s.entries && !Stale(s, q[0]);
      PeekFresh(s, q[1..], limit - 1);
      assert Head(q, limit) == [q[0]] + Head(q[1..], limit - 1);
    }
  }

  lemma {:induction false} PeekSkips(s: Room, q: seq<EntryId>, limit: int)
    ensures 0 < limit ==> PeekFrom(s, s.clock, q, limit) == PeekFrom(s, s.clock, q[StalePrefix(s, q)..], limit)
    decreases |q|
  {
    if q != [] && Stale(s, q[0]) {
      PeekSkips(s, q[1..], limit);
      assert q[StalePrefix(s, q)..] == q[1..][StalePrefix(s, q[1..])..];
    } else {
      assert q[0..] == q;
    }
  }

  /** A peek returns the front of the queue behind its expired prefix, within its window. */
  lemma PeekIsFront(s: Room, limit: int)
    requires Consistent(s) && 0 < limit
    ensures var w := Head(s.queue, limit * 2);
            Peek(s, s.clock, limit) == Head(w[StalePrefix(s, w)..], limit)
  {
    var w := Head(s.queue, limit * 2);
    PeekSkips(s, w, limit);
    StalePrefixHead(s, s.queue, limit * 2);
    FreshBehind(s, w);
    PeekFresh(s, w[StalePrefix(s, w)..], limit);
  }

  lemma FreshBehind(s: Room, w: seq<EntryId>)
    requires Consistent(s) && w <= s.queue && StalePrefix(s, w) == MinInt(|w|, StalePrefix(s, s.queue))
    ensures var q := w[StalePrefix(s, w)..];
            forall i :: 0 <= i < |q| ==> q[i] in s.entries && s.entries[q[i]].status == EntryQueued && !Stale(s, q[i])
  {
    var p := StalePrefix(s, w);
    var q := w[p..];
    forall i | 0 <= i < |q| ensures q[i] in s.entries && s.entries[q[i]].status == EntryQueued && !Stale(s, q[i]) {
      assert EntryOk(s, s.queue[p + i]);
      StaleIsPrefix(s, p + i);
    }
  }

  /** The candidates are one for each peeked entry, in order, with its owner and fingerprint. */
  ghost predicate BuiltFrom(s: Room, peeked: seq<EntryId>, cs: seq<Candidate>) {
    && |cs| == |peeked|
    && forall i :: 0 <= i < |cs| ==>
         cs[i].entry == peeked[i] && peeked[i] in s.entries
         && cs[i].owner == s.entries[peeked[i]].owner && cs[i].fingerprint == s.entries[peeked[i]].fingerprint
  }

  // ------------------------------------------------------------------ between peek and issue

  lemma StepPlace(s: Room, a: Step, f: EntryId)
    requires AllOk(s) && Enabled(s, a, false) && Seen(s.log, f) && f in Do(s, a).queue
    ensures f in s.queue && KeepsExpiry(s, Do(s, a), f)
  {
    if f !in s.queue {
      StepStaysOut(s, a, f);
    } else {
      assert EntryOk(s, f);
      assert !Moved(a, f);
      OtherFate(s, a, f);
    }
  }

  lemma {:induction false} FollowsPlace(s: Room, trail: Trail, r: Room, f: EntryId)
    requires Consistent(s) && Follows(s, trail, r, false) && Seen(s.log, f) && f in r.queue
    ensures f in s.queue && KeepsExpiry(s, r, f)
    decreases trail
  {
    match trail
    case Here => assert EntryOk(s, f);
    case Then(a, m, rest) =>
      StepSeen(s, a, f);
      StepConsistent(s, a);
      FollowsPlace(m, rest, r, f);
      StepPlace(s, a, f);
  }

  /** Who waits now and was here before has waited all along, with the same place and expiry. */
  lemma OldHand(s: Room, r: Room, f: EntryId)
    requires Consistent(s) && Path(s, r, false) && Seen(s.log, f) && f in r.queue
    ensures f in s.queue && KeepsExpiry(s, r, f) && r.entries[f].seqNo == s.entries[f].seqNo
  {
    var trail :| Follows(s, trail, r, false);
    FollowsPlace(s, trail, r, f);
    PathIdentity(s, r, f, false);
  }

  lemma StepArrival(s: Room, a: Step, f: EntryId)
    requires Enabled(s, a, false) && !Seen(s.log, f)
    ensures s.sequence <= Do(s, a).sequence
    ensures Seen(Do(s, a).log, f) ==> f in Do(s, a).entries && s.sequence < Do(s, a).entries[f].seqNo
  {
    StepLog(s, a);
    if Seen(Do(s, a).log, f) {
      var ev :| ev in Do(s, a).log && ev.Joined? && ev.entry == f;
      assert ev !in s.log;
    }
  }

  lemma QueuedIsSeen(s: Room, f: EntryId)
    requires Inv(s) && f in s.queue
    ensures f in s.entries && Seen(s.log, f) && s.entries[f].seqNo <= s.sequence
  {
    assert EntryOk(s, f) && EntryTale(s, f);
  }

  lemma {:induction false} FollowsArrival(s: Room, trail: Trail, r: Room, f: EntryId)
    requires Inv(s) && Follows(s, trail, r, false) && !Seen(s.log, f) && f in r.queue
    ensures f in r.entries && s.sequence < r.entries[f].seqNo
    decreases trail
  {
    match trail
    case Here => QueuedIsSeen(s, f);
    case Then(a, m, rest) =>
      StepInv(s, a);
      StepArrival(s, a, f);
      if Seen(m.log, f) {
        FollowsConsistent(m, rest, r, false);
        assert EntryOk(r, f);
        FollowsIdentity(m, rest, r, f, false);
      } else {
        FollowsArrival(m, rest, r, f);
      }
  }

  /** Who came later stands behind everybody who was here before. */
  lemma Newcomer(s: Room, r: Room, f: EntryId)
    requires Inv(s) && Path(s, r, false) && !Seen(s.log, f) && f in r.queue
    ensures f in r.entries && s.sequence < r.entries[f].seqNo
  {
    var trail :| Follows(s, trail, r, false);
    FollowsArrival(s, trail, r, f);
  }

  /** The front as a peek finds it: the entries behind the expired ones, in order. */
  ghost predicate FrontOf(s: Room, at: Millis, peeked: seq<EntryId>) {
    Stretch(s.queue, StalePrefix(Tick(s, at), s.queue), peeked)
  }

  lemma PeekPlaces(s: Room, at: Millis, limit: int)
    requires Consistent(s) && s.clock <= at && 0 < limit
    ensures FrontOf(s, at, Peek(Tick(s, at), at, limit))
  {
    TickConsistent(s, at);
    PeekIsStretch(Tick(s, at), limit);
  }

  lemma PeekIsStretch(s: Room, limit: int)
    requires Consistent(s) && 0 < limit
    ensures Stretch(s.queue, StalePrefix(s, s.queue), Peek(s, s.clock, limit))
  {
    PeekIsFront(s, limit);
    StalePrefixHead(s, s.queue, limit * 2);
    WindowPlaces(s.queue, limit, StalePrefix(s, s.queue), Peek(s, s.clock, limit));
  }

  /** Where the entries of the window behind its first b entries stand. */
  lemma WindowPlaces(q: seq<EntryId>, limit: int, b: nat, front: seq<EntryId>)
    requires 0 < limit && b <= |q| && MinInt(limit * 2, b) <= |Head(q, limit * 2)|
    requires front == Head(Head(q, limit * 2)[MinInt(limit * 2, b)..], limit)
    ensures Stretch(q, b, front)
  {
  }

  /** m is reached from s, where a peek read the queue at the given time, and a sweep has left
      no expired entry in it. */
  ghost predicate After(s: Room, at: Millis, m: Room) {
    && Inv(s) && Path(s, m, false) && Consistent(m) && s.clock <= at <= m.clock
    && forall i :: 0 <= i < |m.queue| ==> !Stale(m, m.queue[i])
  }

  /** Whoever stands before a peeked entry now is a live entry that stood before it at the peek. */
  lemma StoodBefore(s: Room, at: Millis, m: Room, x: nat, y: nat, z: nat) returns (k: nat)
    requires After(s, at, m) && x < y < |m.queue| && z < |s.queue| && m.queue[y] == s.queue[z]
    ensures StalePrefix(Tick(s, at), s.queue) <= k < z && s.queue[k] == m.queue[x]
  {
    k := 0;
    var f, e := m.queue[x], s.queue[z];
    assert Before(m, f, e);
    QueuedIsSeen(s, e);
    OldHand(s, m, e);
    if !Seen(s.log, f) {
      Newcomer(s, m, f);
    } else {
      OldHand(s, m, f);
      k :| 0 <= k < |s.queue| && s.queue[k] == f;
      InOrder(s, k, z);
      LiveBehind(s, at, m, x, k);
    }
  }

  lemma InOrder(s: Room, k: nat, z: nat)
    requires QueueOrdered(s) && k < |s.queue| && z < |s.queue| && s.queue[k] in s.entries && s.queue[z] in s.entries
    requires s.entries[s.queue[k]].seqNo < s.entries[s.queue[z]].seqNo
    ensures k < z
  {
  }

  lemma LiveBehind(s: Room, at: Millis, m: Room, x: nat, k: nat)
    requires After(s, at, m) && x < |m.queue| && k < |s.queue| && m.queue[x] == s.queue[k] && KeepsExpiry(s, m, s.queue[k])
    ensures StalePrefix(Tick(s, at), s.queue) <= k
  {
    assert EntryOk(m, m.queue[x]);
    assert !Stale(m, m.queue[x]);
    TickConsistent(s, at);
    StaleIsPrefix(Tick(s, at), k);
  }

  /** How many of the peeked entries wait before the first that has left. */
  function StillFront(q: seq<EntryId>, peeked: seq<EntryId>): (n: nat)
    ensures n <= |peeked|
    ensures forall k :: 0 <= k < n ==> peeked[k] in q
    ensures n < |peeked| ==> peeked[n] !in q
  {
    if peeked == [] || peeked[0] !in q then 0 else 1 + StillFront(q, peeked[1..])
  }

  predicate Distinct(q: seq<EntryId>) {
    forall i, j :: 0 <= i < j < |q| ==> q[i] != q[j]
  }

  /** Whoever stands before somebody from q in w stood before them in q, behind the first b. */
  ghost predicate KeepsOrder(q: seq<EntryId>, b: nat, w: seq<EntryId>) {
    forall x, y, z :: Ahead(w, x, y) && At(q, z, w[y]) ==> StandsIn(q, b, z, w[x])
  }

  predicate Ahead(w: seq<EntryId>, x: int, y: int) { 0 <= x < y < |w| }

  predicate At(q: seq<EntryId>, z: int, f: EntryId) { 0 <= z < |q| && q[z] == f }

  ghost predicate StandsIn(q: seq<EntryId>, b: nat, z: int, f: EntryId) {
    exists k :: b <= k < z && k < |q| && q[k] == f
  }

  lemma OrderKept(s: Room, at: Millis, m: Room)
    requires After(s, at, m)
    ensures KeepsOrder(s.queue, StalePrefix(Tick(s, at), s.queue), m.queue)
    ensures Distinct(s.queue) && Distinct(m.queue)
  {
    forall x, y, z | Ahead(m.queue, x, y) && At(s.queue, z, m.queue[y])
      ensures StandsIn(s.queue, StalePrefix(Tick(s, at), s.queue), z, m.queue[x])
    {
      var k := StoodBefore(s, at, m, x, y, z);
    }
    OrderedDistinct(s);
    OrderedDistinct(m);
  }

  lemma OrderedDistinct(s: Room)
    requires QueueOrdered(s)
    ensures Distinct(s.queue)
  {
    forall i, j | 0 <= i < j < |s.queue| ensures s.queue[i] != s.queue[j] {
      assert Before(s, s.queue[i], s.queue[j]);
    }
  }

  ghost predicate Stretch(q: seq<EntryId>, b: nat, peeked: seq<EntryId>) {
    b + |peeked| <= |q| && forall j :: 0 <= j < |peeked| ==> peeked[j] == q[b + j]
  }

  /** The peeked entries that still wait are the front of the queue. */
  lemma {:induction false} FrontStays(q: seq<EntryId>, b: nat, w: seq<EntryId>, peeked: seq<EntryId>, n: nat)
    requires Distinct(q) && Distinct(w) && KeepsOrder(q, b, w) && Stretch(q, b, peeked) && n <= StillFront(w, peeked)
    ensures n <= |w| && w[..n] == peeked[..n]
    decreases n
  {
    if 0 < n {
      FrontStays(q, b, w, peeked, n - 1);
      var y :| 0 <= y < |w| && w[y] == peeked[n - 1];
      NotEarlier(q, b, w, peeked, n - 1, y);
      NotLater(q, b, w, peeked, n - 1, y);
      OneFurther(w, peeked, n);
    }
  }

  lemma OneFurther(w: seq<EntryId>, peeked: seq<EntryId>, n: nat)
    requires 0 < n <= |w| && n <= |peeked| && w[..n - 1] == peeked[..n - 1] && w[n - 1] == peeked[n - 1]
    ensures w[..n] == peeked[..n]
  {
    assert w[..n] == w[..n - 1] + [w[n - 1]] && peeked[..n] == peeked[..n - 1] + [peeked[n - 1]];
  }

  lemma NotEarlier(q: seq<EntryId>, b: nat, w: seq<EntryId>, peeked: seq<EntryId>, n: nat, y: nat)
    requires Distinct(q) && Stretch(q, b, peeked) && n < |peeked| && y < |w| && w[y] == peeked[n]
    requires n <= |w| && w[..n] == peeked[..n]
    ensures n <= y
  {
  }

  lemma NotLater(q: seq<EntryId>, b: nat, w: seq<EntryId>, peeked: seq<EntryId>, n: nat, y: nat)
    requires Distinct(w) && KeepsOrder(q, b, w) && Stretch(q, b, peeked) && n < |peeked| && y < |w| && w[y] == peeked[n]
    requires n <= |w| && w[..n] == peeked[..n]
    ensures y <= n
  {
    if n < y {
      assert Ahead(w, n, y) && At(q, b + n, w[y]);
      var k :| b <= k < b + n && k < |q| && q[k] == w[n];
      NotAgain(w, peeked, n, k - b);
    }
  }

  /** Behind the peeked entries none of them comes again. */
  lemma NotAgain(w: seq<EntryId>, peeked: seq<EntryId>, n: nat, j: nat)
    requires Distinct(w) && j < n < |w| && n <= |peeked| && w[..n] == peeked[..n]
    ensures w[n] != peeked[j]
  {
    assert w[..n][j] == peeked[..n][j];
  }

  // ------------------------------------------------------------------ the issue call

  /** Candidates built from the peek line up with the queue as far as the peeked entries wait. */
  lemma LinedWaiting(m: Room, peeked: seq<EntryId>, req: IssueRequest)
    requires |req.candidates| == |peeked| && forall i :: 0 <= i < |peeked| ==> req.candidates[i].entry == peeked[i]
    requires var n := StillFront(m.queue, peeked); n <= |m.queue| && m.queue[..n] == peeked[..n]
    ensures Lined(m, req) == (if Capacity(m, req) <= 0 then 0 else MinInt(StillFront(m.queue, peeked), Capacity(m, req)))
    ensures StillFront(m.queue, peeked) == |peeked| ==> Lined(m, req) == (if Allowed(m, req) <= 0 then 0 else Allowed(m, req))
  {
    var n := StillFront(m.queue, peeked);
    forall i | 0 <= i < n ensures m.queue[i] == peeked[i] {
      assert m.queue[..n][i] == peeked[..n][i];
    }
  }

  /** The room as a peek of the run saw it: state p, at a Redis time no earlier. */
  ghost predicate PeekedAt(states: seq<Room>, p: nat, at: Millis, limit: int, cs: seq<Candidate>)
    requires p < |states|
  {
    var s := Tick(states[p], at);
    0 < limit && states[p].clock <= at && BuiltFrom(s, Peek(s, at, limit), cs)
  }

  lemma PeekedProper(states: seq<Room>, calls: seq<Call>, p: nat, i: nat, at: Millis, limit: int, cs: seq<Candidate>)
    requires IsRun(states, calls) && p <= i < |states| && PeekedAt(states, p, at, limit, cs) && FreshCandidates(states[i].log, cs)
    ensures forall k :: 0 <= k < |cs| ==> Proper(states[i], cs[k])
  {
    forall k | 0 <= k < |cs| ensures Proper(states[i], cs[k]) {
      PeekStillProper(states, calls, p, i, cs[k]);
    }
  }

  lemma PeekedAfter(states: seq<Room>, calls: seq<Call>, p: nat, i: nat, at: Millis, m: Room)
    requires IsRun(states, calls) && p <= i < |calls| && SweepsAll(states, calls, i) && m == SweptAt(states, calls, i)
    requires states[p].clock <= at <= calls[i].now
    ensures After(states[p], at, m)
  {
    var s, c := states[i], calls[i];
    RunInv(states, calls, p);
    RunInv(states, calls, i);
    RunPath(states, calls, p, i);
    assert Takes(states, calls, i);
    SweptPath(s, c.now, c.req, c.leaseBatch, c.tokenBatch, false);
    PathJoin(states[p], s, m, false);
    PathConsistent(s, m, false);
    SweptFrame(s, c.now, c.req, c.leaseBatch, c.tokenBatch);
    SweptFresh(s, c.now, c.req, c.leaseBatch, c.tokenBatch);
  }

  /** Call i is an issue call that gets past the markers and can clear the whole expired prefix. */
  ghost predicate SweepsAll(states: seq<Room>, calls: seq<Call>, i: nat)
    requires i < |calls| < |states|
  {
    && calls[i].CallIssue? && Guard(states[i]).None?
    && StalePrefix(Tick(states[i], calls[i].now), states[i].queue) <= calls[i].req.cleanup
  }

  /** The state in which issue call i starts to admit. */
  ghost function SweptAt(states: seq<Room>, calls: seq<Call>, i: nat): Room
    requires i < |calls| < |states| && calls[i].CallIssue?
  {
    Swept(states[i], calls[i].now, calls[i].req, calls[i].leaseBatch, calls[i].tokenBatch)
  }

  /** Issue call i uses candidates built from a peek at state p. Whatever happened in between, if
      their times are acceptable, it admits exactly the peeked entries up to the first that has
      left the queue, as many as the limits allow, in order and with their candidates' tokens;
      when all of them still wait, that is min(requested, rate left, inflight left, queue length). */
  lemma PeekThenIssue(states: seq<Room>, calls: seq<Call>, p: nat, i: nat, at: Millis, limit: int)
    requires IsRun(states, calls) && p <= i < |calls| && SweepsAll(states, calls, i) && at <= calls[i].now
    requires PeekedAt(states, p, at, limit, calls[i].req.candidates)
    requires forall k :: 0 <= k < |calls[i].req.candidates| ==>
               Timely(calls[i].now, calls[i].req.candidates[k], calls[i].req.tokenTtl)
    ensures var m, req := SweptAt(states, calls, i), calls[i].req;
            var peeked := Peek(Tick(states[p], at), at, limit);
            var n := StillFront(m.queue, peeked);
            var admitted := if Capacity(m, req) <= 0 then 0 else MinInt(n, Capacity(m, req));
            && AdmittedFirst(m, states[i + 1], req.candidates, admitted)
            && m.queue[..admitted] == peeked[..admitted]
            && (n == |peeked| ==> admitted == if Allowed(m, req) <= 0 then 0 else Allowed(m, req))
  {
    var m, c := SweptAt(states, calls, i), calls[i];
    var peeked := Peek(Tick(states[p], at), at, limit);
    FrontAt(states, calls, p, i, at, limit, m, peeked);
    LinedWaiting(m, peeked, c.req);
    IssueLined(states, calls, p, i, at, limit);
    Shorter(m.queue, peeked, StillFront(m.queue, peeked), Lined(m, c.req));
  }

  lemma Shorter(q: seq<EntryId>, peeked: seq<EntryId>, n: nat, k: nat)
    requires k <= n <= |q| && n <= |peeked| && q[..n] == peeked[..n]
    ensures q[..k] == peeked[..k]
  {
    assert q[..k] == q[..n][..k] && peeked[..k] == peeked[..n][..k];
  }

  lemma FrontAt(states: seq<Room>, calls: seq<Call>, p: nat, i: nat, at: Millis, limit: int, m: Room, peeked: seq<EntryId>)
    requires IsRun(states, calls) && p <= i < |calls| && SweepsAll(states, calls, i) && m == SweptAt(states, calls, i)
    requires states[p].clock <= at <= calls[i].now && 0 < limit && peeked == Peek(Tick(states[p], at), at, limit)
    ensures var n := StillFront(m.queue, peeked); n <= |m.queue| && m.queue[..n] == peeked[..n]
  {
    PeekedAfter(states, calls, p, i, at, m);
    PeekPlaces(states[p], at, limit);
    OrderKept(states[p], at, m);
    FrontStays(states[p].queue, StalePrefix(Tick(states[p], at), states[p].queue), m.queue, peeked, StillFront(m.queue, peeked));
  }

  lemma IssueLined(states: seq<Room>, calls: seq<Call>, p: nat, i: nat, at: Millis, limit: int)
    requires IsRun(states, calls) && p <= i < |calls| && SweepsAll(states, calls, i)
    requires PeekedAt(states, p, at, limit, calls[i].req.candidates)
    requires forall k :: 0 <= k < |calls[i].req.candidates| ==>
               Timely(calls[i].now, calls[i].req.candidates[k], calls[i].req.tokenTtl)
    ensures var m := SweptAt(states, calls, i);
            AdmittedFirst(m, states[i + 1], calls[i].req.candidates, Lined(m, calls[i].req))
  {
    var c := calls[i];
    assert Takes(states, calls, i);
    RunInv(states, calls, i);
    PeekedProper(states, calls, p, i, at, limit, c.req.candidates);
    AdmitsExactly(states[i], c.now, c.req, c.leaseBatch, c.tokenBatch);
  }

  /** When nothing happens and no time passes in between, all the peeked entries wait. */
  lemma PeekedAtOnce(states: seq<Room>, calls: seq<Call>, i: nat, limit: int)
    requires IsRun(states, calls) && i < |calls| && SweepsAll(states, calls, i) && 0 < limit
    ensures var peeked := Peek(Tick(states[i], calls[i].now), calls[i].now, limit);
            StillFront(SweptAt(states, calls, i).queue, peeked) == |peeked|
  {
    RunInv(states, calls, i);
    SweptTail(states, calls, i);
    assert Takes(states, calls, i);
    PeekPlaces(states[i], calls[i].now, limit);
    AllWait(states[i].queue, StalePrefix(Tick(states[i], calls[i].now), states[i].queue),
            Peek(Tick(states[i], calls[i].now), calls[i].now, limit));
  }

  lemma SweptTail(states: seq<Room>, calls: seq<Call>, i: nat)
    requires IsRun(states, calls) && i < |calls| && SweepsAll(states, calls, i)
    ensures SweptAt(states, calls, i).queue == states[i].queue[StalePrefix(Tick(states[i], calls[i].now), states[i].queue)..]
  {
    var c := calls[i];
    assert Takes(states, calls, i);
    RunInv(states, calls, i);
    SweepRemoves(states[i], c.now, c.req, c.leaseBatch, c.tokenBatch);
  }

  lemma AllWait(q: seq<EntryId>, b: nat, peeked: seq<EntryId>)
    requires Stretch(q, b, peeked)
    ensures StillFront(q[b..], peeked) == |peeked|
  {
    forall j | 0 <= j < |peeked| ensures peeked[j] in q[b..] {
      assert q[b..][j] == peeked[j];
    }
  }
}
