/**
 How long anybody waits and how the wait ends: a place in the queue never gets worse, every
 pass moves everybody up by what it sweeps and serves, and who leaves the queue without a
 cancellation before the entry runs out has been admitted.
 */
module RoomWait {
  import opened RoomState
  import opened RoomSteps
  import opened RoomInvariant
  import opened RoomHistory
  import opened RoomOrder
  import opened RoomLife
  import opened RoomScripts
  import opened RoomPaths
  import opened RoomFifo
  import opened RoomRuns
  import opened RoomTheorems
  import opened RoomProgress

  /** Removing somebody else never worsens a place. */
  lemma {:induction false} WithoutRank(q: seq<EntryId>, f: EntryId, e: EntryId)
    requires e in q && e != f
    ensures IndexOf(Without(q, f), e) <= IndexOf(q, e)
  {
    if q[0] != e {
      WithoutRank(q[1..], f, e);
    }
  }

  lemma {:induction false} AppendRank(q: seq<EntryId>, f: EntryId, e: EntryId)
    requires e in q
    ensures IndexOf(q + [f], e) == IndexOf(q, e)
  {
    if q[0] != e {
      AppendRank(q[1..], f, e);
      assert (q + [f])[1..] == q[1..] + [f];
    }
  }

  /** Dropping k entries from the head moves everybody else up by k. */
  lemma {:induction false} DropRank(q: seq<EntryId>, k: nat, e: EntryId)
    requires k <= |q| && e in q[k..]
    ensures e in q && (e !in q[..k] ==> IndexOf(q[k..], e) + k == IndexOf(q, e))
    decreases k
  {
    if 0 < k {
      assert q[1..][k - 1..] == q[k..];
      assert q[..k] == [q[0]] + q[1..][..k - 1];
      DropRank(q[1..], k - 1, e);
    } else {
      assert q[0..] == q;
    }
  }

  lemma StepRank(s: Room, a: Step, e: EntryId)
    requires Enabled(s, a, false) && e in s.queue && e in Do(s, a).queue
    ensures Position(Do(s, a).queue, e) <= Position(s.queue, e)
  {
    match a
    case DoLapse(f, _) => WithoutRank(s.queue, f, e);
    case DoWithdraw(f) => WithoutRank(s.queue, f, e);
    case DoAdmit(c) => WithoutRank(s.queue, c.entry, e);
    case DoEnqueue(f, _, _, _) => AppendRank(s.queue, f, e);
    case _ => assert Do(s, a).queue == s.queue;
  }

  /** Who has left the queue never comes back. */
  lemma StepStaysOut(s: Room, a: Step, e: EntryId)
    requires Enabled(s, a, false) && Seen(s.log, e) && e !in s.queue
    ensures Seen(Do(s, a).log, e) && e !in Do(s, a).queue
  {
    StepLog(s, a);
    var ev :| ev in s.log && ev.Joined? && ev.entry == e;
    assert ev in Do(s, a).log;
    if !Moved(a, e) {
      StepQueueOther(s, a, e);
    }
  }

  lemma {:induction false} FollowsRank(s: Room, trail: Trail, r: Room, e: EntryId, inOrder: bool)
    requires Follows(s, trail, r, inOrder) && Seen(s.log, e) && e in r.queue
    ensures e in s.queue && Position(r.queue, e) <= Position(s.queue, e)
    decreases trail
  {
    match trail
    case Here =>
    case Then(a, m, rest) =>
      StepLog(s, a);
      var ev :| ev in s.log && ev.Joined? && ev.entry == e;
      assert ev in m.log;
      FollowsRank(m, rest, r, e, inOrder);
      if e !in s.queue { StepStaysOut(s, a, e); }
      StepRank(s, a, e);
  }

  /** Along any run a place in the queue only gets better. */
  lemma PathRank(s: Room, r: Room, e: EntryId, inOrder: bool)
    requires Path(s, r, inOrder) && Seen(s.log, e) && e in r.queue
    ensures e in s.queue && Position(r.queue, e) <= Position(s.queue, e)
  {
    var trail :| Follows(s, trail, r, inOrder);
    FollowsRank(s, trail, r, e, inOrder);
  }

  // ------------------------------------------------------------------ what a pass gains

  /** The turn of the candidate takes its entry off the queue: by admission, or because the
      entry has expired behind the swept prefix. */
  ghost predicate Serves(m: Room, c: Candidate, tokenTtl: Millis) {
    Stale(m, c.entry) || (Proper(m, c) && Timely(m.clock, c, tokenTtl))
  }

  /** How many candidates line up with the list and serve their entries before the first that does not. */
  ghost function Served(m: Room, q: seq<EntryId>, cs: seq<Candidate>, tokenTtl: Millis): (n: nat)
    ensures n <= |q| && n <= |cs|
    ensures forall i :: 0 <= i < n ==> cs[i].entry == q[i]
  {
    if q == [] || cs == [] || cs[0].entry != q[0] || !Serves(m, cs[0], tokenTtl) then 0
    else 1 + Served(m, q[1..], cs[1..], tokenTtl)
  }

  /** What an issue call takes off the head of the queue: the expired prefix as far as the cleanup
      limit goes, then the entries that the candidates serve as far as the limits go. */
  ghost function Gain(s: Room, c: Call): nat {
    if c.CallIssue? && Guard(s).None? && Legal(s, c) then
      var m := Swept(s, c.now, c.req, c.leaseBatch, c.tokenBatch);
      MinInt(c.req.cleanup, StalePrefix(Tick(s, c.now), s.queue))
        + Served(m, Head(m.queue, Capacity(m, c.req)), c.req.candidates, c.req.tokenTtl)
    else 0
  }

  /** The candidate meets the head of the queue and serves it. */
  ghost predicate HeadMet(m: Room, q: seq<EntryId>, cs: seq<Candidate>, tokenTtl: Millis) {
    && Consistent(m) && RoomFor(m, |q|) && FreshCandidates(m.log, cs) && q <= m.queue
    && q != [] && cs != [] && cs[0].entry == q[0] && Serves(m, cs[0], tokenTtl)
  }

  lemma ServedTurn(m: Room, q: seq<EntryId>, cs: seq<Candidate>, tokenTtl: Millis, n: Room)
    requires HeadMet(m, q, cs, tokenTtl) && n == AdmitOne(m, cs[0], tokenTtl)
    ensures Path(m, n, false) && Consistent(n) && n.queue == m.queue[1..] && q[1..] <= n.queue
    ensures RoomFor(n, |q| - 1) && FreshCandidates(n.log, cs[1..]) && n.clock == m.clock
  {
    var c := cs[0];
    assert cs == [c] + cs[1..];
    assert EntryOk(m, c.entry);
    AdmitOnePath(m, c, tokenTtl, false);
    PathConsistent(m, n, false);
    AdmitOneLeaves(m, c, cs[1..], tokenTtl, |q| - 1);
    HeadTurn(m, c, tokenTtl);
  }

  /** Who has not had a turn yet is as before. */
  lemma AdmitOneElsewhere(m: Room, c: Candidate, tokenTtl: Millis, e: EntryId)
    requires e != c.entry
    ensures var n := AdmitOne(m, c, tokenTtl);
            && n.clock == m.clock && (e in n.entries <==> e in m.entries)
            && (e in m.entries ==> n.entries[e] == m.entries[e])
  {
  }

  lemma ServesLater(m: Room, c: Candidate, d: Candidate, tokenTtl: Millis)
    requires d.entry != c.entry && d.token != c.token
    ensures Serves(AdmitOne(m, c, tokenTtl), d, tokenTtl) <==> Serves(m, d, tokenTtl)
  {
    AdmitOneElsewhere(m, c, tokenTtl, d.entry);
  }

  /** A turn does not change what the turns behind it do. */
  lemma {:induction false} ServedLater(m: Room, c: Candidate, q: seq<EntryId>, cs: seq<Candidate>, tokenTtl: Millis)
    requires forall i :: 0 <= i < |cs| ==> cs[i].token != c.token
    requires c.entry !in q
    ensures Served(AdmitOne(m, c, tokenTtl), q, cs, tokenTtl) == Served(m, q, cs, tokenTtl)
    decreases |q|
  {
    if q != [] && cs != [] && cs[0].entry == q[0] {
      ServesLater(m, c, cs[0], tokenTtl);
      ServedLater(m, c, q[1..], cs[1..], tokenTtl);
    }
  }

  lemma ServedNext(m: Room, q: seq<EntryId>, cs: seq<Candidate>, tokenTtl: Millis, n: Room)
    requires HeadMet(m, q, cs, tokenTtl) && n == AdmitOne(m, cs[0], tokenTtl)
    ensures Served(m, q, cs, tokenTtl) == 1 + Served(n, q[1..], cs[1..], tokenTtl)
  {
    WithoutHead(m);
    forall i | 0 <= i < |cs[1..]| ensures cs[1..][i].token != cs[0].token {
      assert cs[0].token != cs[i + 1].token;
    }
    ServedLater(m, cs[0], q[1..], cs[1..], tokenTtl);
  }

  /** Everybody behind the head is one place further than in the tail. */
  lemma TailRank(m: Room, e: EntryId)
    requires QueueOrdered(m) && m.queue != [] && e in m.queue[1..]
    ensures e in m.queue && Position(m.queue, e) == 1 + Position(m.queue[1..], e)
  {
    WithoutHead(m);
    assert IndexOf(m.queue, e) == 1 + IndexOf(m.queue[1..], e);
  }

  lemma SeenLater(s: Room, r: Room, e: EntryId)
    requires Seen(s.log, e) && Path(s, r, false)
    ensures Seen(r.log, e)
  {
    var trail :| Follows(s, trail, r, false);
    FollowsSeen(s, trail, r, e);
  }

  lemma {:induction false} FollowsSeen(s: Room, trail: Trail, r: Room, e: EntryId)
    requires Seen(s.log, e) && Follows(s, trail, r, false)
    ensures Seen(r.log, e)
    decreases trail
  {
    match trail
    case Here =>
    case Then(a, m, rest) =>
      StepLog(s, a);
      var ev :| ev in s.log && ev.Joined? && ev.entry == e;
      assert ev in m.log;
      FollowsSeen(m, rest, r, e);
  }

  /** The admission loop moves everybody who stays up by the number of entries served. */
  lemma {:induction false} ServedRank(m: Room, q: seq<EntryId>, cs: seq<Candidate>, tokenTtl: Millis, r: Room, e: EntryId)
    requires Consistent(m) && RoomFor(m, |q|) && FreshCandidates(m.log, cs) && q <= m.queue
    requires r == AdmitAll(m, q, cs, tokenTtl) && Seen(m.log, e) && e in r.queue
    ensures e in m.queue && Position(r.queue, e) + Served(m, q, cs, tokenTtl) <= Position(m.queue, e)
    decreases |q|
  {
    if HeadMet(m, q, cs, tokenTtl) {
      var n := AdmitOne(m, cs[0], tokenTtl);
      ServedTurn(m, q, cs, tokenTtl, n);
      ServedNext(m, q, cs, tokenTtl, n);
      SeenLater(m, n, e);
      ServedRank(n, q[1..], cs[1..], tokenTtl, r, e);
      TailRank(m, e);
    } else {
      AdmitAllPath(m, q, cs, tokenTtl);
      PathRank(m, r, e, false);
    }
  }

  lemma HeadAdmitted(m: Room, c: Candidate, tokenTtl: Millis)
    requires AllOk(m) && c.entry in m.queue && Serves(m, c, tokenTtl) && !Stale(m, c.entry)
    ensures Admitted(c.entry, c.token, m.clock) in AdmitOne(m, c, tokenTtl).log
  {
    assert EntryOk(m, c.entry);
    assert AdmitOne(m, c, tokenTtl).log == m.log + [Admitted(c.entry, c.token, m.clock)];
  }

  /** Whoever of the served has not expired is admitted with the candidate's token. */
  lemma {:induction false} ServedAdmitted(m: Room, q: seq<EntryId>, cs: seq<Candidate>, tokenTtl: Millis, r: Room, i: nat)
    requires Consistent(m) && RoomFor(m, |q|) && FreshCandidates(m.log, cs) && q <= m.queue
    requires r == AdmitAll(m, q, cs, tokenTtl) && i < Served(m, q, cs, tokenTtl) && !Stale(m, q[i])
    ensures Admitted(q[i], cs[i].token, m.clock) in r.log
    decreases |q|
  {
    var n := AdmitOne(m, cs[0], tokenTtl);
    ServedTurn(m, q, cs, tokenTtl, n);
    if i == 0 {
      HeadAdmitted(m, cs[0], tokenTtl);
      AdmitAllLog(n, q[1..], cs[1..], tokenTtl, Admitted(q[0], cs[0].token, m.clock));
    } else {
      ServedNext(m, q, cs, tokenTtl, n);
      WithoutHead(m);
      AdmitOneElsewhere(m, cs[0], tokenTtl, q[i]);
      ServedAdmitted(n, q[1..], cs[1..], tokenTtl, r, i - 1);
    }
  }

  /** The sweep moves everybody up by the number of entries it removes. */
  lemma SweepAdvances(s: Room, now: Millis, req: IssueRequest, lb: seq<LeaseKey>, tb: seq<TokenHash>, e: EntryId)
    requires Consistent(s) && s.clock <= now && 0 <= req.cleanup && Batches(Tick(s, now), req, lb, tb)
    requires e in Swept(s, now, req, lb, tb).queue
    ensures e in s.queue
    ensures Position(Swept(s, now, req, lb, tb).queue, e) + MinInt(req.cleanup, StalePrefix(Tick(s, now), s.queue))
         == Position(s.queue, e)
  {
    var k := MinInt(req.cleanup, StalePrefix(Tick(s, now), s.queue));
    SweepRemoves(s, now, req, lb, tb);
    DistinctHead(s, k, e);
    DropRank(s.queue, k, e);
  }

  /** The queue lists nobody twice. */
  lemma DistinctHead(s: Room, k: nat, e: EntryId)
    requires QueueOrdered(s) && k <= |s.queue| && e in s.queue[k..]
    ensures e !in s.queue[..k]
  {
    var j :| k <= j < |s.queue| && s.queue[j] == e;
    forall i | 0 <= i < k ensures s.queue[i] != e {
      assert Before(s, s.queue[i], s.queue[j]);
    }
  }

  /** A pass moves everybody who is still in the queue after it up by what it gains. */
  lemma PassAdvances(s: Room, c: Call, e: EntryId)
    requires Consistent(s) && Seen(s.log, e) && c.CallIssue? && Guard(s).None? && Legal(s, c)
    requires e in Run1(s, c).room.queue
    ensures e in s.queue && Position(Run1(s, c).room.queue, e) + Gain(s, c) <= Position(s.queue, e)
  {
    var m, r := Swept(s, c.now, c.req, c.leaseBatch, c.tokenBatch), Run1(s, c).room;
    SweptPath(s, c.now, c.req, c.leaseBatch, c.tokenBatch, false);
    PathConsistent(s, m, false);
    SeenLater(s, m, e);
    PassServes(s, c, m);
    ServedRank(m, Head(m.queue, Capacity(m, c.req)), c.req.candidates, c.req.tokenTtl, r, e);
    SweepAdvances(s, c.now, c.req, c.leaseBatch, c.tokenBatch, e);
  }

  /** The admission loop of a pass has room for the entries it looks at. */
  lemma PassServes(s: Room, c: Call, m: Room)
    requires Consistent(m) && c.CallIssue? && Legal(s, c) && m == Swept(s, c.now, c.req, c.leaseBatch, c.tokenBatch)
    ensures var q := Head(m.queue, Capacity(m, c.req));
            RoomFor(m, |q|) && q <= m.queue && FreshCandidates(m.log, c.req.candidates) && m.clock == c.now
  {
    SweptFrame(s, c.now, c.req, c.leaseBatch, c.tokenBatch);
    CapacityFits(m, c.req);
  }

  /** Every live entry that a pass serves is admitted, at the time of the pass. */
  lemma PassAdmits(s: Room, c: Call, i: nat)
    requires Consistent(s) && c.CallIssue? && Guard(s).None? && Legal(s, c)
    requires var m := Swept(s, c.now, c.req, c.leaseBatch, c.tokenBatch);
             var q := Head(m.queue, Capacity(m, c.req));
             i < Served(m, q, c.req.candidates, c.req.tokenTtl) && !Stale(m, q[i])
    ensures c.req.candidates[i].entry == Swept(s, c.now, c.req, c.leaseBatch, c.tokenBatch).queue[i]
    ensures Admitted(c.req.candidates[i].entry, c.req.candidates[i].token, c.now) in Run1(s, c).room.log
  {
    var m := Swept(s, c.now, c.req, c.leaseBatch, c.tokenBatch);
    SweptPath(s, c.now, c.req, c.leaseBatch, c.tokenBatch, false);
    PathConsistent(s, m, false);
    PassServes(s, c, m);
    ServedAdmitted(m, Head(m.queue, Capacity(m, c.req)), c.req.candidates, c.req.tokenTtl, Run1(s, c).room, i);
  }

  // ------------------------------------------------------------------ how a wait ends

  ghost predicate WasAdmitted(log: seq<Event>, e: EntryId) {
    exists ev :: ev in log && ev.Admitted? && ev.entry == e
  }

  ghost predicate StillWaits(s: Room, r: Room, e: EntryId) {
    e in r.queue && e in s.entries && e in r.entries && r.entries[e].expiry == s.entries[e].expiry
  }

  /** The wait is over: the entry was admitted or cancelled, or its time is up. */
  ghost predicate WaitOver(r: Room, e: EntryId, expiry: Millis) {
    WasAdmitted(r.log, e) || Withdrawn(e) in r.log || expiry <= r.clock
  }

  lemma StepFate(s: Room, a: Step, e: EntryId)
    requires AllOk(s) && Enabled(s, a, false) && e in s.queue
    ensures e in s.entries && (StillWaits(s, Do(s, a), e) || WaitOver(Do(s, a), e, s.entries[e].expiry))
  {
    assert EntryOk(s, e);
    StepLog(s, a);
    if Moved(a, e) {
      MovedFate(s, a, e);
    } else {
      StepQueueOther(s, a, e);
      OtherFate(s, a, e);
      assert StillWaits(s, Do(s, a), e);
    }
  }

  lemma MovedFate(s: Room, a: Step, e: EntryId)
    requires Enabled(s, a, false) && e in s.queue && e in s.entries && Moved(a, e)
    ensures WaitOver(Do(s, a), e, s.entries[e].expiry)
  {
    var r := Do(s, a);
    match a
    case DoLapse(_, _) =>
    case DoWithdraw(_) => assert r.log[|s.log|] == Withdrawn(e);
    case DoAdmit(c) => assert r.log[|s.log|] == Admitted(e, c.token, s.clock);
    case DoEnqueue(_, _, _, _) =>
  }

  ghost predicate KeepsExpiry(s: Room, r: Room, e: EntryId) {
    e in s.entries && e in r.entries && r.entries[e].expiry == s.entries[e].expiry
  }

  lemma CloseFate(s: Room, t: TokenHash, status: TokenStatus, keepUntil: Millis, e: EntryId)
    requires t in s.tokens && e in s.entries
    ensures KeepsExpiry(s, Close(s, t, status, keepUntil), e)
    ensures s.tokens[t].entry != e ==> KeepsExpiry(s, Delete(s, t), e)
  {
  }

  lemma EntryFate(s: Room, f: EntryId, keepUntil: Millis, e: EntryId)
    requires f in s.entries && e in s.entries && e != f
    ensures KeepsExpiry(s, Lapse(s, f, keepUntil), e) && KeepsExpiry(s, Withdraw(s, f), e) && KeepsExpiry(s, Bury(s, f), e)
  {
  }

  /** Steps on other entries and on tokens leave a waiting entry alone. */
  lemma OtherFate(s: Room, a: Step, e: EntryId)
    requires AllOk(s) && Enabled(s, a, false) && e in s.entries && s.entries[e].status == EntryQueued && !Moved(a, e)
    ensures KeepsExpiry(s, Do(s, a), e)
  {
    assert EntryOk(s, e);
    match a
    case DoClose(t, status, keepUntil) => CloseFate(s, t, status, keepUntil, e);
    case DoSettleClose(t, status, keepUntil) => CloseFate(Settle(s, t), t, status, keepUntil, e);
    case DoDelete(t) =>
      assert TokenOk(s, t);
      CloseFate(s, t, TokenExpired, 0, e);
    case DoBury(f) =>
      assert EntryOk(s, f);
      EntryFate(s, f, 0, e);
    case DoLapse(f, keepUntil) => EntryFate(s, f, keepUntil, e);
    case DoWithdraw(f) => EntryFate(s, f, 0, e);
    case DoAdmit(c) =>
    case DoEnqueue(_, _, _, _) =>
    case _ => assert Do(s, a).entries == s.entries;
  }

  lemma StepLater(s: Room, a: Step)
    requires Enabled(s, a, false)
    ensures s.log <= Do(s, a).log && s.clock <= Do(s, a).clock
  {
    StepLog(s, a);
    match a
    case DoTick(_) =>
    case _ => assert Do(s, a).clock == s.clock;
  }

  lemma {:induction false} FollowsLater(s: Room, trail: Trail, r: Room, inOrder: bool)
    requires Follows(s, trail, r, inOrder)
    ensures s.log <= r.log && s.clock <= r.clock
    decreases trail
  {
    match trail
    case Here =>
    case Then(a, m, rest) =>
      StepLater(s, a);
      FollowsLater(m, rest, r, inOrder);
  }

  lemma OverLater(m: Room, r: Room, e: EntryId, expiry: Millis)
    requires WaitOver(m, e, expiry) && m.log <= r.log && m.clock <= r.clock
    ensures WaitOver(r, e, expiry)
  {
    if WasAdmitted(m.log, e) {
      var ev :| ev in m.log && ev.Admitted? && ev.entry == e;
      assert ev in r.log;
    } else if Withdrawn(e) in m.log {
      assert Withdrawn(e) in r.log;
    }
  }

  lemma {:induction false} FollowsFate(s: Room, trail: Trail, r: Room, e: EntryId, inOrder: bool)
    requires Consistent(s) && Follows(s, trail, r, inOrder) && e in s.queue
    ensures e in s.entries && (StillWaits(s, r, e) || WaitOver(r, e, s.entries[e].expiry))
    decreases trail
  {
    match trail
    case Here => assert EntryOk(s, e);
    case Then(a, m, rest) =>
      StepFate(s, a, e);
      StepConsistent(s, a);
      if StillWaits(s, m, e) {
        FollowsFate(m, rest, r, e, inOrder);
      } else {
        FollowsLater(m, rest, r, inOrder);
        OverLater(m, r, e, s.entries[e].expiry);
      }
  }

  /** Nobody leaves the queue but by admission, by cancellation, or because the entry ran out. */
  lemma PathFate(s: Room, r: Room, e: EntryId, inOrder: bool)
    requires Consistent(s) && Path(s, r, inOrder) && e in s.queue
    ensures e in s.entries && (StillWaits(s, r, e) || WaitOver(r, e, s.entries[e].expiry))
  {
    var trail :| Follows(s, trail, r, inOrder);
    FollowsFate(s, trail, r, e, inOrder);
  }

  // ------------------------------------------------------------------ over a run

  /** What the calls i up to j gain together. */
  ghost function Gains(states: seq<Room>, calls: seq<Call>, i: nat, j: nat): nat
    requires i <= j <= |calls| < |states|
    decreases j
  {
    if i == j then 0 else Gains(states, calls, i, j - 1) + Gain(states[j - 1], calls[j - 1])
  }

  /** One call: a place never gets worse, and a pass improves it by what it gains. */
  lemma CallRank(s: Room, c: Call, e: EntryId)
    requires Inv(s) && Legal(s, c) && Seen(s.log, e) && e in Run1(s, c).room.queue
    ensures e in s.queue
    ensures Position(Run1(s, c).room.queue, e) + Gain(s, c) <= Position(s.queue, e)
  {
    if c.CallIssue? && Guard(s).None? {
      PassAdvances(s, c, e);
    } else {
      CallPath(s, c);
      PathRank(s, Run1(s, c).room, e, false);
    }
  }

  lemma RunRank(states: seq<Room>, calls: seq<Call>, k: nat, e: EntryId)
    requires IsRun(states, calls) && k < |calls| && Seen(states[k].log, e) && e in states[k + 1].queue
    ensures e in states[k].queue
    ensures Position(states[k + 1].queue, e) + Gain(states[k], calls[k]) <= Position(states[k].queue, e)
  {
    RunInv(states, calls, k);
    assert Takes(states, calls, k);
    CallRank(states[k], calls[k], e);
  }

  lemma RunSeen(states: seq<Room>, calls: seq<Call>, i: nat, j: nat, e: EntryId)
    requires IsRun(states, calls) && i <= j < |states| && e in states[i].queue
    ensures Seen(states[j].log, e)
  {
    RunInv(states, calls, i);
    assert EntryOk(states[i], e) && EntryTale(states[i], e);
    RunPath(states, calls, i, j);
    SeenLater(states[i], states[j], e);
  }

  /** Whatever else happens in between, the passes together gain less than the place of anybody
      who is still in the queue: an entry has left once they have swept and served as many
      entries as there are up to and including it. */
  lemma {:induction false} WaitIsBounded(states: seq<Room>, calls: seq<Call>, i: nat, j: nat, e: EntryId)
    requires IsRun(states, calls) && i <= j < |states| && e in states[i].queue
    ensures e in states[j].queue ==>
              Position(states[j].queue, e) + Gains(states, calls, i, j) <= Position(states[i].queue, e)
    ensures Gains(states, calls, i, j) >= Position(states[i].queue, e) ==> e !in states[j].queue
    decreases j
  {
    if i < j && e in states[j].queue {
      RunSeen(states, calls, i, j - 1, e);
      RunRank(states, calls, j - 1, e);
      WaitIsBounded(states, calls, i, j - 1, e);
    }
  }

  /** Then it has been admitted, unless it was cancelled or its time ran out. */
  lemma WaitEndsInAdmission(states: seq<Room>, calls: seq<Call>, i: nat, j: nat, e: EntryId)
    requires IsRun(states, calls) && i <= j < |states| && e in states[i].queue && e in states[i].entries
    requires Gains(states, calls, i, j) >= Position(states[i].queue, e)
    requires states[j].clock < states[i].entries[e].expiry && Withdrawn(e) !in states[j].log
    ensures WasAdmitted(states[j].log, e)
  {
    WaitIsBounded(states, calls, i, j, e);
    RunInv(states, calls, i);
    RunPath(states, calls, i, j);
    PathFate(states[i], states[j], e, false);
  }

  /** The call gains at least g entries, or the whole queue. */
  ghost predicate GainsAtLeast(s: Room, c: Call, g: nat) {
    MinInt(g, |s.queue|) <= Gain(s, c) && c.CallIssue?
  }

  ghost function Passes(states: seq<Room>, calls: seq<Call>, i: nat, j: nat, g: nat): nat
    requires i <= j <= |calls| < |states|
    decreases j
  {
    if i == j then 0
    else Passes(states, calls, i, j - 1, g) + (if GainsAtLeast(states[j - 1], calls[j - 1], g) then 1 else 0)
  }

  /** A pass that gains g entries or the whole queue improves a place by g. */
  lemma RankByPasses(states: seq<Room>, calls: seq<Call>, k: nat, e: EntryId, g: nat)
    requires IsRun(states, calls) && k < |calls| && Seen(states[k].log, e) && e in states[k + 1].queue
    ensures e in states[k].queue
    ensures Position(states[k + 1].queue, e) + (if GainsAtLeast(states[k], calls[k], g) then g else 0)
         <= Position(states[k].queue, e)
  {
    RunRank(states, calls, k, e);
  }

  /** In passes: when each gains g entries or empties the queue, the place divided by g, rounded
      up, many are enough. */
  lemma {:induction false} WaitInPasses(states: seq<Room>, calls: seq<Call>, i: nat, j: nat, e: EntryId, g: nat)
    requires IsRun(states, calls) && i <= j < |states| && e in states[i].queue
    ensures e in states[j].queue ==>
              Position(states[j].queue, e) + g * Passes(states, calls, i, j, g) <= Position(states[i].queue, e)
    ensures g * Passes(states, calls, i, j, g) >= Position(states[i].queue, e) ==> e !in states[j].queue
    decreases j
  {
    if i < j && e in states[j].queue {
      RunSeen(states, calls, i, j - 1, e);
      RankByPasses(states, calls, j - 1, e, g);
      WaitInPasses(states, calls, i, j - 1, e, g);
      OnePassMore(states, calls, i, j, g);
    }
  }

  lemma OnePassMore(states: seq<Room>, calls: seq<Call>, i: nat, j: nat, g: nat)
    requires i < j <= |calls| < |states|
    ensures g * Passes(states, calls, i, j, g)
         == g * Passes(states, calls, i, j - 1, g) + (if GainsAtLeast(states[j - 1], calls[j - 1], g) then g else 0)
  {
    Distribute(g, Passes(states, calls, i, j - 1, g), if GainsAtLeast(states[j - 1], calls[j - 1], g) then 1 else 0);
  }

  lemma Distribute(g: nat, n: nat, k: nat)
    requires k <= 1
    ensures g * (n + k) == g * n + (if k == 1 then g else 0)
  {
  }
}
