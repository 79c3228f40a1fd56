/**
 What the waiting room promises over whole runs: every theorem here quantifies over
 every sequence of legal script calls, by any number of callers, from an empty
 generation.
 */
module RoomTheorems {
  import opened RoomState
  import opened RoomSteps
  import opened RoomInvariant
  import opened RoomHistory
  import opened RoomOrder
  import opened RoomLife
  import opened RoomScripts
  import opened RoomPaths
  import opened RoomFifo
  import opened RoomRuns

  /** Call i is legal and makes states[i + 1] of states[i]. */
  ghost predicate Takes(states: seq<Room>, calls: seq<Call>, i: nat)
    requires i < |calls| < |states|
  {
    Legal(states[i], calls[i]) && states[i + 1] == Run1(states[i], calls[i]).room
  }

  /** The states of a run from an empty generation. */
  ghost predicate IsRun(states: seq<Room>, calls: seq<Call>) {
    && |states| == |calls| + 1
    && ValidLimits(states[0].limits) && 0 <= states[0].clock
    && states[0] == EmptyRoom(states[0].version, states[0].limits, states[0].clock)
    && forall i :: 0 <= i < |calls| ==> Takes(states, calls, i)
  }

  /** A legal call prolongs a run. */
  lemma RunLonger(states: seq<Room>, calls: seq<Call>, c: Call, r: Room)
    requires IsRun(states, calls) && Legal(states[|calls|], c) && r == Run1(states[|calls|], c).room
    ensures IsRun(states + [r], calls + [c])
  {
    var more, all := states + [r], calls + [c];
    forall i | 0 <= i < |all| ensures Takes(more, all, i) {
      if i < |calls| { assert Takes(states, calls, i); }
    }
  }

  lemma {:induction false} RunInv(states: seq<Room>, calls: seq<Call>, i: nat)
    requires IsRun(states, calls) && i < |states|
    ensures Inv(states[i])
    decreases i
  {
    if i == 0 {
      EmptyInv(states[0].version, states[0].limits, states[0].clock);
    } else {
      RunInv(states, calls, i - 1);
      assert Takes(states, calls, i - 1);
      CallPath(states[i - 1], calls[i - 1]);
      PathInv(states[i - 1], states[i], false);
    }
  }

  lemma RunStepPath(states: seq<Room>, calls: seq<Call>, i: nat)
    requires IsRun(states, calls) && i < |calls|
    ensures Path(states[i], states[i + 1], false)
  {
    RunInv(states, calls, i);
    assert Takes(states, calls, i);
    CallPath(states[i], calls[i]);
  }

  lemma {:induction false} RunPath(states: seq<Room>, calls: seq<Call>, i: nat, j: nat)
    requires IsRun(states, calls) && i <= j < |states|
    ensures Path(states[i], states[j], false)
    decreases j
  {
    if i == j {
      PathHere(states[i], false);
    } else {
      RunPath(states, calls, i, j - 1);
      RunStepPath(states, calls, j - 1);
      PathJoin(states[i], states[j - 1], states[j], false);
    }
  }

  lemma {:induction false} RunLimits(states: seq<Room>, calls: seq<Call>, i: nat)
    requires IsRun(states, calls) && i < |states|
    ensures states[i].limits == states[0].limits
    decreases i
  {
    if i > 0 {
      RunLimits(states, calls, i - 1);
      RunStepPath(states, calls, i - 1);
      PathLimits(states[i - 1], states[i], false);
    }
  }

  lemma StepLimits(s: Room, a: Step)
    requires Enabled(s, a, false)
    ensures Do(s, a).limits == s.limits && s.clock <= Do(s, a).clock
  {
    match a
    case _ =>
  }

  lemma {:induction false} FollowsLimits(s: Room, trail: Trail, r: Room, inOrder: bool)
    requires Follows(s, trail, r, inOrder)
    ensures r.limits == s.limits && s.clock <= r.clock
    decreases trail
  {
    match trail
    case Here =>
    case Then(a, m, rest) =>
      StepLimits(s, a);
      FollowsLimits(m, rest, r, inOrder);
  }

  lemma PathLimits(s: Room, r: Room, inOrder: bool)
    requires Path(s, r, inOrder)
    ensures r.limits == s.limits && s.clock <= r.clock
  {
    var trail :| Follows(s, trail, r, inOrder);
    FollowsLimits(s, trail, r, inOrder);
  }

  // ------------------------------------------------------------------ admission order

  /** The candidate names an entry of the room with the owner and fingerprint it has there. */
  ghost predicate ReadFrom(s: Room, c: Candidate) {
    c.entry in s.entries && c.owner == s.entries[c.entry].owner && c.fingerprint == s.entries[c.entry].fingerprint
  }

  /** The worker built the batch from one peek, at this state or an earlier one, and one Redis time. */
  ghost predicate WorkerBuilt(states: seq<Room>, i: nat, cs: seq<Candidate>)
    requires i < |states|
  {
    Uniform(cs) && exists p :: 0 <= p <= i && forall n :: 0 <= n < |cs| ==> ReadFrom(states[p], cs[n])
  }

  /** What a peek saw is still true of the entry, or the entry is gone. */
  lemma PeekStillProper(states: seq<Room>, calls: seq<Call>, p: nat, i: nat, c: Candidate)
    requires IsRun(states, calls) && p <= i < |states| && ReadFrom(states[p], c) && FreshToken(states[i].log, c.token)
    ensures Proper(states[i], c)
  {
    RunInv(states, calls, p);
    RunInv(states, calls, i);
    RunPath(states, calls, p, i);
    assert EntryTale(states[p], c.entry) && TokenTale(states[i], c.token);
    PathIdentity(states[p], states[i], c.entry, false);
  }

  /** FIFO: if every issue call uses a batch the worker built, then in the whole run nobody
      is admitted before everybody who joined earlier has been admitted, cancelled or expired. */
  lemma {:induction false} AdmissionIsFifo(states: seq<Room>, calls: seq<Call>, i: nat)
    requires IsRun(states, calls) && i < |states|
    requires forall k :: 0 <= k < i && calls[k].CallIssue? ==> WorkerBuilt(states, k, calls[k].req.candidates)
    ensures Fifo(states[i].log)
    decreases i
  {
    if i == 0 {
      EmptyInv(states[0].version, states[0].limits, states[0].clock);
    } else {
      AdmissionIsFifo(states, calls, i - 1);
      assert Takes(states, calls, i - 1);
      WorkerCallInOrder(states, calls, i - 1);
      CallKeepsFifo(states, calls, i - 1);
    }
  }

  lemma WorkerCallInOrder(states: seq<Room>, calls: seq<Call>, k: nat)
    requires IsRun(states, calls) && k < |calls| && Legal(states[k], calls[k])
    requires calls[k].CallIssue? ==> WorkerBuilt(states, k, calls[k].req.candidates)
    ensures InOrderCall(states[k], calls[k])
  {
    if calls[k].CallIssue? {
      var cs := calls[k].req.candidates;
      var p :| 0 <= p <= k && forall n :: 0 <= n < |cs| ==> ReadFrom(states[p], cs[n]);
      forall n | 0 <= n < |cs| ensures Proper(states[k], cs[n]) {
        PeekStillProper(states, calls, p, k, cs[n]);
      }
    }
  }

  lemma CallKeepsFifo(states: seq<Room>, calls: seq<Call>, k: nat)
    requires IsRun(states, calls) && k < |calls| && Fifo(states[k].log) && InOrderCall(states[k], calls[k])
    ensures Fifo(states[k + 1].log)
  {
    RunInv(states, calls, k);
    assert Takes(states, calls, k);
    CallInOrder(states[k], calls[k]);
    PathInv(states[k], states[k + 1], true);
  }

  /** For arbitrary candidates: the issue call keeps FIFO exactly when no candidate is
      accepted after one was rejected. */
  lemma IssueFifoExactly(s: Room, now: Millis, req: IssueRequest, lb: seq<LeaseKey>, tb: seq<TokenHash>)
    requires Inv(s) && Fifo(s.log) && Guard(s).None? && Legal(s, CallIssue(now, req, lb, tb))
    ensures var m := Swept(s, now, req, lb, tb);
            Fifo(Issue(s, now, req, lb, tb).room.log)
            <==> SkipFree(m, Head(m.queue, Capacity(m, req)), req.candidates, req.tokenTtl)
  {
    var m := Swept(s, now, req, lb, tb);
    var q := Head(m.queue, Capacity(m, req));
    SweptPath(s, now, req, lb, tb, true);
    PathInv(s, m, true);
    SweptFrame(s, now, req, lb, tb);
    CapacityFits(m, req);
    if SkipFree(m, q, req.candidates, req.tokenTtl) {
      SkipFreePath(m, q, req.candidates, req.tokenTtl);
      PathInv(m, Issue(s, now, req, lb, tb).room, true);
    } else {
      SkippingBreaksFifo(m, q, req.candidates, req.tokenTtl, Issue(s, now, req, lb, tb).room);
    }
  }

  // ------------------------------------------------------------------ admission rate

  /** In no second of any run are more entries admitted than the policy allows. */
  lemma AdmissionRateHolds(states: seq<Room>, calls: seq<Call>, i: nat, T: Millis)
    requires IsRun(states, calls) && i < |states|
    ensures PerSecond(states[i].log, T) <= states[0].limits.rate
  {
    RunInv(states, calls, i);
    RunLimits(states, calls, i);
  }

  // ------------------------------------------------------------------ the inflight set

  /** The inflight set is exactly the issued and processing tokens, each scored by its own
      expiry, and never larger than the limit; the queue is bounded too. */
  lemma InflightExact(states: seq<Room>, calls: seq<Call>, i: nat)
    requires IsRun(states, calls) && i < |states|
    ensures forall t :: t in states[i].inflight <==> t in states[i].tokens && Active(states[i].tokens[t].status)
    ensures forall t :: t in states[i].inflight ==> states[i].inflight[t] == states[i].tokens[t].expiry
    ensures |states[i].inflight| <= states[0].limits.maxInflight
    ensures |states[i].queue| <= states[0].limits.maxQueue
  {
    RunInv(states, calls, i);
    RunLimits(states, calls, i);
    forall t
      ensures t in states[i].inflight <==> t in states[i].tokens && Active(states[i].tokens[t].status)
      ensures t in states[i].inflight ==> states[i].inflight[t] == states[i].tokens[t].expiry
    {
      assert TokenOk(states[i], t);
    }
  }

  // ------------------------------------------------------------------ one live entry per owner

  /** Queued and unexpired, or holding an unexpired inflight token. */
  ghost predicate Live(s: Room, e: EntryId) {
    e in s.entries &&
    var x := s.entries[e];
    || (x.status == EntryQueued && s.clock < x.expiry)
    || (x.status == EntryAdmitted && x.token.Some? && x.token.value in s.tokens
        && Active(s.tokens[x.token.value].status) && s.clock < s.tokens[x.token.value].expiry)
  }

  /** A live entry is the one its owner's index points at, so an owner has at most one. */
  lemma OneLiveEntry(states: seq<Room>, calls: seq<Call>, i: nat, e: EntryId, f: EntryId)
    requires IsRun(states, calls) && i < |states| && Live(states[i], e)
    ensures var s := states[i]; s.entries[e].owner in s.users && s.users[s.entries[e].owner] == e
    ensures Live(states[i], f) && states[i].entries[f].owner == states[i].entries[e].owner ==> e == f
  {
    RunInv(states, calls, i);
    var s := states[i];
    assert EntryOk(s, e) && EntryOk(s, f);
    if s.entries[e].token.Some? { assert TokenOk(s, s.entries[e].token.value); }
    if Live(s, f) && s.entries[f].token.Some? { assert TokenOk(s, s.entries[f].token.value); }
  }

  /** Whatever a call cleans up, a live entry stays its owner's until it stops being live. */
  lemma CleanupNeverEvicts(states: seq<Room>, calls: seq<Call>, i: nat, j: nat, e: EntryId)
    requires IsRun(states, calls) && i <= j < |states| && Live(states[i], e) && Live(states[j], e)
    ensures states[j].entries[e].owner == states[i].entries[e].owner
    ensures states[i].entries[e].owner in states[j].users && states[j].users[states[i].entries[e].owner] == e
  {
    OneLiveEntry(states, calls, j, e, e);
    RunInv(states, calls, i);
    RunPath(states, calls, i, j);
    assert EntryTale(states[i], e);
    PathIdentity(states[i], states[j], e, false);
  }

  // ------------------------------------------------------------------ leases

  /** Generations granted for one token strictly increase, for one owner and one booking. */
  lemma LeaseGenerations(states: seq<Room>, calls: seq<Call>, i: nat, t: TokenHash, a: int, b: int)
    requires IsRun(states, calls) && i < |states|
    requires 0 <= a < b < |states[i].log|
    requires states[i].log[a].Granted? && states[i].log[b].Granted?
    requires states[i].log[a].token == t && states[i].log[b].token == t
    ensures states[i].log[a].generation < states[i].log[b].generation
    ensures states[i].log[a].owner == states[i].log[b].owner && states[i].log[a].binding == states[i].log[b].binding
  {
    RunInv(states, calls, i);
    assert TokenTale(states[i], t);
  }

  /** A release or finalize goes through only for the latest lease of the token, still open;
      and that lease never reached beyond the token's expiry. */
  lemma LeaseFencing(states: seq<Room>, calls: seq<Call>, i: nat)
    requires IsRun(states, calls) && i < |calls|
    requires calls[i].CallRelease? || calls[i].CallFinalize?
    requires !Run1(states[i], calls[i]).reply.Refused?
    ensures var s, m := states[i], calls[i].mutation;
            && LeaseOpen(s.log, |s.log|, m.token, m.holder, m.generation)
            && m.token in s.tokens && s.tokens[m.token].status == TokenProcessing
            && s.tokens[m.token].lease.Some? && s.tokens[m.token].lease.value.deadline <= s.tokens[m.token].expiry
  {
    RunInv(states, calls, i);
    assert TokenTale(states[i], calls[i].mutation.token) && TokenOk(states[i], calls[i].mutation.token);
  }

  /** An acquire that grants hands out a generation no earlier acquire of the token had,
      a deadline within the token's life, and a token that had no open lease. */
  lemma GrantIsNew(states: seq<Room>, calls: seq<Call>, i: nat)
    requires IsRun(states, calls) && i < |calls| && calls[i].CallAcquire?
    requires Run1(states[i], calls[i]).reply.Acquired?
    ensures var s, r, t, g := states[i], states[i + 1], calls[i].acquire.token, Run1(states[i], calls[i]).reply.generation;
            && (forall ev :: ev in s.log && ev.Granted? && ev.token == t ==> ev.generation < g)
            && t in r.tokens && r.tokens[t].lease == Some(Lease(calls[i].acquire.holder, calls[i].now + s.limits.lease))
            && calls[i].now + s.limits.lease <= r.tokens[t].expiry
            && (t in s.tokens && s.tokens[t].lease.Some? ==> s.tokens[t].lease.value.deadline <= calls[i].now)
  {
    RunInv(states, calls, i);
    assert Takes(states, calls, i);
    AcquireIsNew(states[i], calls[i].now, calls[i].acquire);
  }

  lemma AcquireIsNew(s: Room, now: Millis, req: AcquireRequest)
    requires TokenTale(s, req.token) && TokenOk(s, req.token) && Acquire(s, now, req).reply.Acquired?
    ensures var r, t, g := Acquire(s, now, req).room, req.token, Acquire(s, now, req).reply.generation;
            && (forall ev :: ev in s.log && ev.Granted? && ev.token == t ==> ev.generation < g)
            && t in r.tokens && r.tokens[t].lease == Some(Lease(req.holder, now + s.limits.lease))
            && now + s.limits.lease <= r.tokens[t].expiry
            && (t in s.tokens && s.tokens[t].lease.Some? ==> s.tokens[t].lease.value.deadline <= now)
  {
  }

  // ------------------------------------------------------------------ the life of a token

  /** Over any stretch of a run: a terminal token stays terminal and is never granted again, a
      token with a pending cancel keeps its lease until it is terminal, its booking binding is
      write-once, its claims never change, and a deleted token never comes back. */
  lemma TokenLifeIsOneWay(states: seq<Room>, calls: seq<Call>, i: nat, j: nat, k: nat, t: TokenHash)
    requires IsRun(states, calls) && i <= j <= k < |states| && t in states[i].tokens && t in states[k].tokens
    ensures t in states[j].tokens
    ensures Evolves(states[i].tokens[t], states[j].tokens[t]) && Evolves(states[j].tokens[t], states[k].tokens[t])
  {
    RunInv(states, calls, i);
    RunInv(states, calls, j);
    RunPath(states, calls, i, j);
    RunPath(states, calls, j, k);
    assert TokenTale(states[i], t);
    PathKnows(states[i], states[j], t, false);
    PathEvolves(states[i], states[j], t, false);
    PathEvolves(states[j], states[k], t, false);
  }

  lemma {:induction false} FollowsKnows(s: Room, trail: Trail, r: Room, t: TokenHash, inOrder: bool)
    requires Follows(s, trail, r, inOrder) && Known(s.log, t)
    ensures Known(r.log, t)
    decreases trail
  {
    match trail
    case Here =>
    case Then(a, m, rest) =>
      StepLog(s, a);
      var ev :| ev in s.log && ev.Admitted? && ev.token == t;
      assert ev in m.log;
      FollowsKnows(m, rest, r, t, inOrder);
  }

  lemma PathKnows(s: Room, r: Room, t: TokenHash, inOrder: bool)
    requires Path(s, r, inOrder) && Known(s.log, t)
    ensures Known(r.log, t)
  {
    var trail :| Follows(s, trail, r, inOrder);
    FollowsKnows(s, trail, r, t, inOrder);
  }

  /** The bearer of a token is handed out at most once in any run: no two calls deliver it. */
  lemma DeliveredAtMostOnce(states: seq<Room>, calls: seq<Call>, i: nat, j: nat, t: TokenHash)
    requires IsRun(states, calls) && i < j < |calls| && calls[i].CallGet? && calls[j].CallGet?
    requires Run1(states[i], calls[i]).reply == Delivery(t)
    ensures Run1(states[j], calls[j]).reply != Delivery(t)
  {
    DeliveryMarks(states[i], calls[i], t);
    assert Takes(states, calls, i);
    MarkedAlong(states, calls, i + 1, j, t);
    MarkedIsRefused(states[j], calls[j], t);
  }

  lemma MarkedAlong(states: seq<Room>, calls: seq<Call>, i: nat, j: nat, t: TokenHash)
    requires IsRun(states, calls) && i <= j < |states| && Marked(states[i], t)
    ensures t in states[j].tokens ==> Marked(states[j], t)
  {
    RunInv(states, calls, i);
    RunPath(states, calls, i, j);
    MarkedStays(states[i], states[j], t);
  }

  /** The token is there and its bearer has been handed out. */
  predicate Marked(s: Room, t: TokenHash) {
    t in s.tokens && s.tokens[t].delivered
  }

  lemma DeliveryMarks(s: Room, c: Call, t: TokenHash)
    requires c.CallGet? && Run1(s, c).reply == Delivery(t)
    ensures Marked(Run1(s, c).room, t)
  {
  }

  lemma MarkedStays(s: Room, r: Room, t: TokenHash)
    requires Inv(s) && Path(s, r, false) && Marked(s, t)
    ensures t in r.tokens ==> Marked(r, t)
  {
    assert TokenTale(s, t);
    PathEvolves(s, r, t, false);
  }

  lemma MarkedIsRefused(s: Room, c: Call, t: TokenHash)
    requires c.CallGet? && (t in s.tokens ==> Marked(s, t))
    ensures Run1(s, c).reply != Delivery(t)
  {
  }
}
