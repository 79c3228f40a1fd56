/**
 What becomes of a request's token: after a transient failure the release gives it back and the
 same booking can acquire it again; after a permanent one it is cancelled; after a commit that
 was heard it is consumed. Any steps of other requests and callers may come in between.
 */
module ReservationAnswers {
  import opened RoomState
  import opened RoomSteps
  import opened RoomHistory
  import opened RoomLife
  import opened RoomScripts
  import opened RoomPaths
  import opened RoomRuns
  import opened RoomTheorems
  import opened RoomFrames
  import opened LeaseAnswers
  import opened Reservation

  // ------------------------------------------------------------------ where a request goes

  /** The request takes the step. */
  predicate Moves(a: Act, i: int) {
    match a
    case Other(_) => false
    case ColdHold(_, _) => false
    case _ => a.id == i
  }

  /** No slot, or a database answer after which the booking may be tried again. */
  predicate Transient(s: Sys, a: Act, i: int)
    requires i in s.requests
  {
    || a == NoSlot(i)
    || (!Conflicts(s, s.requests[i].ask) && (a == Commit(i, FailedForNow) || a == Commit(i, CommittedUnheard)))
  }

  /** A booking that can never succeed, or another booking on record under the key. */
  predicate Permanent(s: Sys, a: Act, i: int)
    requires i in s.requests
  {
    a.Commit? && a.id == i && (Conflicts(s, s.requests[i].ask) || a.answer == FailedForGood)
  }

  predicate Conflicts(s: Sys, ask: AcquireRequest) {
    var key := HoldKey(ask.owner, ask.binding.idempotency);
    key in s.holds && s.holds[key].booking != ask.binding.booking
  }

  /** A leased request answers to the database: a hold is durable exactly when the commit went
      through, under the request's owner and key, for its booking and token, and then and only then
      the request goes on to finalize or, unheard, to a release; failures leave the holds alone. */
  lemma CommitLeads(s: Sys, i: int, answer: Answer)
    requires i in s.requests && s.requests[i].phase.Leased?
    ensures var r, ask, g := AfterCommit(s, i, answer), s.requests[i].ask, s.requests[i].phase.generation;
            var key := HoldKey(ask.owner, ask.binding.idempotency);
            && r.room == s.room && i in r.requests && r.requests[i].ask == ask && r.requests - {i} == s.requests - {i}
            && (Conflicts(s, ask) || answer == FailedForGood ==> r.requests[i].phase == Releasing(g, true) && r.holds == s.holds)
            && (!Conflicts(s, ask) && answer == FailedForNow ==> r.requests[i].phase == Releasing(g, false) && r.holds == s.holds)
            && (!Conflicts(s, ask) && (answer == Committed || answer == CommittedUnheard) ==>
                  && key in r.holds && r.holds[key].booking == ask.binding.booking && r.holds - {key} == s.holds - {key}
                  && (key !in s.holds ==> r.holds[key].token == Some(ask.token)) && (key in s.holds ==> r.holds == s.holds)
                  && r.requests[i].phase == if answer == Committed then Finalizing(g) else Releasing(g, false))
  {
    var r := AfterCommit(s, i, answer);
    assert r.requests - {i} == s.requests - {i};
    assert s.holds[KeyOf(s.requests[i].ask) := Hold(0, None)] - {KeyOf(s.requests[i].ask)} == s.holds - {KeyOf(s.requests[i].ask)};
  }

  /** The first lookup and the one after a wait: a record of the same booking is repaired and never
      booked again; a record of another booking ends the request. */
  lemma LookupLeads(s: Sys, i: int)
    requires i in s.requests
    ensures var ask := s.requests[i].ask;
            var key := HoldKey(ask.owner, ask.binding.idempotency);
            && AfterLookup(s, i).room == s.room && AfterLookup(s, i).holds == s.holds
            && (key !in s.holds ==> AfterLookup(s, i) == Goto(s, i, Acquiring) && AfterLookAgain(s, i) == Leave(s, i))
            && (key in s.holds && s.holds[key].booking == ask.binding.booking ==>
                  AfterLookup(s, i) == Goto(s, i, Repairing) && AfterLookAgain(s, i) == Goto(s, i, Repairing))
            && (Conflicts(s, ask) ==> AfterLookup(s, i) == Leave(s, i) && AfterLookAgain(s, i) == Leave(s, i))
  {
  }

  /** Only a granted lease leads on to the database; a wait or a replay leads to a second lookup. */
  lemma AcquireLeads(s: Sys, i: int, now: Millis)
    requires i in s.requests
    ensures var out, r := RoomScripts.Acquire(s.room, now, s.requests[i].ask), AfterAcquire(s, i, now);
            && r.room == out.room && r.holds == s.holds
            && (i in r.requests && r.requests[i].phase.Leased? && !s.requests[i].phase.Leased? ==>
                  out.reply == Acquired(s.requests[i].ask.holder, r.requests[i].phase.generation))
            && (out.reply.RetryAfter? || out.reply == ReplayAllowed ==> i in r.requests && r.requests[i].phase == LookingAgain)
            && (out.reply.Refused? ==> i !in r.requests)
            && (out.reply.Acquired? ==> i in r.requests && r.requests[i].phase == Leased(out.reply.generation))
  {
  }

  // ------------------------------------------------------------------ until the release

  lemma OthersLeaveIt(s: Sys, a: Act, i: int)
    requires Can(s, a) && !Moves(a, i) && i in s.requests
    ensures i in Next(s, a).requests && Next(s, a).requests[i] == s.requests[i]
  {
    match a
    case Other(_) =>
    case ColdHold(_, _) =>
    case Commit(j, answer) => CommitLeads(s, j, answer);
    case Acquire(_, _) =>
    case _ =>
  }

  ghost predicate NobodyMoves(acts: seq<Act>, p: nat, n: nat, i: int) {
    forall k :: p <= k < n && k < |acts| ==> !Moves(acts[k], i)
  }

  lemma {:induction false} RequestWaits(states: seq<Sys>, acts: seq<Act>, p: nat, n: nat, i: int)
    requires SysRun(states, acts) && p <= n < |states| && i in states[p].requests && NobodyMoves(acts, p, n, i)
    ensures i in states[n].requests && states[n].requests[i] == states[p].requests[i]
    decreases n
  {
    if p < n {
      RequestWaits(states, acts, p, n - 1, i);
      assert Goes(states, acts, n - 1);
      OthersLeaveIt(states[n - 1], acts[n - 1], i);
    }
  }

  lemma TransientReleases(s: Sys, a: Act, i: int)
    requires Can(s, a) && i in s.requests && s.requests[i].phase.Leased? && Transient(s, a, i)
    ensures i in Next(s, a).requests
    ensures Next(s, a).requests[i] == Request(s.requests[i].ask, Releasing(s.requests[i].phase.generation, false))
  {
    if a.Commit? { CommitLeads(s, i, a.answer); }
  }

  lemma PermanentReleases(s: Sys, a: Act, i: int)
    requires Can(s, a) && i in s.requests && s.requests[i].phase.Leased? && Permanent(s, a, i)
    ensures i in Next(s, a).requests
    ensures Next(s, a).requests[i] == Request(s.requests[i].ask, Releasing(s.requests[i].phase.generation, true))
  {
    CommitLeads(s, i, a.answer);
  }

  /** The lease of the request is still the open one of its token. */
  ghost predicate StillLeased(s: Sys, ask: AcquireRequest, g: int) {
    && ask.token in s.room.tokens
    && var k := s.room.tokens[ask.token];
       k.status == TokenProcessing && k.lease.Some? && k.lease.value.holder == ask.holder && k.generation == g
  }

  /** The token was leased to the owner for the booking, so it is bound to it. */
  lemma BoundToAsk(s: Sys, i: int)
    requires SysInv(s) && i in s.requests && HasLease(s.requests[i].phase) && s.requests[i].ask.token in s.room.tokens
    ensures var k, ask := s.room.tokens[s.requests[i].ask.token], s.requests[i].ask;
            k.owner == ask.owner && k.binding == Some(ask.binding)
  {
    var ask := s.requests[i].ask;
    assert RequestOk(s, i) && TokenTale(s.room, ask.token);
    var ev :| ev in s.room.log && ev.Granted? && ev.token == ask.token && ev.owner == ask.owner && ev.binding == ask.binding;
  }

  /** What a release act of request i does while its lease is open. */
  lemma ReleaseAct(s: Sys, i: int, now: Millis, r: Sys)
    requires SysInv(s) && Can(s, Act.Release(i, now)) && r == Next(s, Act.Release(i, now)) && Open(s.room)
    requires StillLeased(s, s.requests[i].ask, s.requests[i].phase.generation)
    ensures var t := s.requests[i].ask.token;
            && s.room.tokens[t].entry in s.room.entries && i !in r.requests && r.holds == s.holds
            && if s.requests[i].phase.permanent || s.room.tokens[t].cancelRequested then
                 Ended(s.room, r.room, t, TokenCancelled, EntryCancelled, Tombstone(s.room.tokens[t].expiry, now))
               else GivenBack(s.room, t, r.room)
  {
    BoundToAsk(s, i);
    ReleaseCall(s, i, now, r);
    ReleaseSettles(s.room, now, MutationOf(s.requests[i].ask, s.requests[i].phase.generation), s.requests[i].phase.permanent);
  }

  /** The call that a release act makes. */
  lemma ReleaseCall(s: Sys, i: int, now: Millis, r: Sys)
    requires Can(s, Act.Release(i, now)) && r == Next(s, Act.Release(i, now))
    ensures var ask, phase := s.requests[i].ask, s.requests[i].phase;
            && r.room == RoomScripts.Release(s.room, now, LeaseMutation(ask.token, ask.owner, ask.binding, ask.holder, phase.generation),
                                             phase.permanent).room
            && i !in r.requests && r.holds == s.holds
  {
  }

  /** Request i answers to a at state p, does nothing until its release at n, and its lease is still
      open then. */
  ghost predicate FailsThenReleases(states: seq<Sys>, acts: seq<Act>, p: nat, n: nat, i: int) {
    && p < n < |acts| < |states| && i in states[p].requests && states[p].requests[i].phase.Leased?
    && Moves(acts[p], i) && acts[n].Release? && acts[n].id == i && NobodyMoves(acts, p + 1, n, i)
    && Open(states[n].room) && StillLeased(states[n], states[p].requests[i].ask, states[p].requests[i].phase.generation)
  }

  lemma ReleaseOf(states: seq<Sys>, acts: seq<Act>, p: nat, n: nat, i: int, permanent: bool)
    requires SysRun(states, acts) && FailsThenReleases(states, acts, p, n, i)
    requires if permanent then Permanent(states[p], acts[p], i) else Transient(states[p], acts[p], i)
    ensures i in states[n].requests
    ensures states[n].requests[i] == Request(states[p].requests[i].ask, Releasing(states[p].requests[i].phase.generation, permanent))
    ensures SysInv(states[n]) && Can(states[n], acts[n]) && states[n + 1] == Next(states[n], acts[n])
  {
    assert Goes(states, acts, p) && Goes(states, acts, n);
    if permanent { PermanentReleases(states[p], acts[p], i); } else { TransientReleases(states[p], acts[p], i); }
    RequestWaits(states, acts, p + 1, n, i);
    SysRunInv(states, acts, n);
  }

  /** After a permanent failure or a conflict the token is cancelled. */
  lemma PermanentFailureCancels(states: seq<Sys>, acts: seq<Act>, p: nat, n: nat, i: int)
    requires SysRun(states, acts) && FailsThenReleases(states, acts, p, n, i) && Permanent(states[p], acts[p], i)
    ensures var s, t := states[n].room, states[p].requests[i].ask.token;
            && t in s.tokens && s.tokens[t].entry in s.entries
            && Ended(s, states[n + 1].room, t, TokenCancelled, EntryCancelled, Tombstone(s.tokens[t].expiry, acts[n].now))
  {
    ReleaseOf(states, acts, p, n, i, true);
    ReleaseAct(states[n], i, acts[n].now, states[n + 1]);
  }

  /** Request i heard its commit at state p, does nothing until it finalizes at n, and its lease is
      still open then. */
  ghost predicate CommitsThenFinalizes(states: seq<Sys>, acts: seq<Act>, p: nat, n: nat, i: int) {
    && p < n < |acts| < |states| && i in states[p].requests && states[p].requests[i].phase.Leased?
    && acts[p] == Commit(i, Committed) && !Conflicts(states[p], states[p].requests[i].ask)
    && acts[n].Finalize? && acts[n].id == i && NobodyMoves(acts, p + 1, n, i)
    && Open(states[n].room) && StillLeased(states[n], states[p].requests[i].ask, states[p].requests[i].phase.generation)
  }

  /** After a commit that was heard the token is consumed, even when a cancel came in. */
  lemma CommittedIsConsumed(states: seq<Sys>, acts: seq<Act>, p: nat, n: nat, i: int)
    requires SysRun(states, acts) && CommitsThenFinalizes(states, acts, p, n, i)
    ensures var s, t := states[n].room, states[p].requests[i].ask.token;
            && t in s.tokens && s.tokens[t].entry in s.entries
            && Ended(s, states[n + 1].room, t, TokenConsumed, EntryAdmitted, Tombstone(s.tokens[t].expiry, acts[n].now))
  {
    assert Goes(states, acts, p) && Goes(states, acts, n);
    CommitLeads(states[p], i, Committed);
    RequestWaits(states, acts, p + 1, n, i);
    SysRunInv(states, acts, n);
    FinalizeAct(states[n], i, acts[n].now, states[n + 1]);
  }

  lemma FinalizeAct(s: Sys, i: int, now: Millis, r: Sys)
    requires SysInv(s) && Can(s, Act.Finalize(i, now)) && r == Next(s, Act.Finalize(i, now)) && Open(s.room)
    requires StillLeased(s, s.requests[i].ask, s.requests[i].phase.generation)
    ensures var t := s.requests[i].ask.token;
            && s.room.tokens[t].entry in s.room.entries && i !in r.requests && r.holds == s.holds
            && Ended(s.room, r.room, t, TokenConsumed, EntryAdmitted, Tombstone(s.room.tokens[t].expiry, now))
  {
    BoundToAsk(s, i);
    FinalizeConsumes(s.room, now, MutationOf(s.requests[i].ask, s.requests[i].phase.generation));
  }

  /** After a transient failure, unless a cancel came in, the release gives the token back; and as long
      as it is issued, the same request is granted a lease again while a whole lease fits
      into what is left of the token's life. */
  lemma TransientFailureRetries(states: seq<Sys>, acts: seq<Act>, p: nat, n: nat, m: nat, i: int, req: AcquireRequest, now: Millis)
    requires SysRun(states, acts) && FailsThenReleases(states, acts, p, n, i) && Transient(states[p], acts[p], i)
    requires var ask := states[p].requests[i].ask;
             && !states[n].room.tokens[ask.token].cancelRequested && n < m < |states|
             && Open(states[m].room) && ask.token in states[m].room.tokens && states[m].room.tokens[ask.token].status == TokenIssued
             && req == ask.(holder := req.holder)
    ensures var t := req.token;
            && GivenBack(states[n].room, t, states[n + 1].room)
            && AskedFor(states[m].room.tokens[t], req)
            && states[m].room.tokens[t].expiry == states[n].room.tokens[t].expiry
            && (RoomScripts.Acquire(states[m].room, now, req).reply.Acquired? <==> now + states[m].room.limits.lease <= states[m].room.tokens[t].expiry)
  {
    var t := req.token;
    ReleaseOf(states, acts, p, n, i, false);
    ReleaseAct(states[n], i, acts[n].now, states[n + 1]);
    BoundToAsk(states[n], i);
    AskFits(states, acts, n, i);
    StaysBound(states, acts, n, m, t);
    SysRunInv(states, acts, m);
    AcquireIssued(states[m].room, now, req);
  }

  // ------------------------------------------------------------------ a lease was asked for with the token's own fields

  ghost predicate AskOk(s: Sys, i: int) {
    i in s.requests && HasLease(s.requests[i].phase) && s.requests[i].ask.token in s.room.tokens ==>
      && s.room.tokens[s.requests[i].ask.token].fingerprint == s.requests[i].ask.fingerprint
      && s.room.tokens[s.requests[i].ask.token].trip == s.requests[i].ask.trip
  }

  /** Whoever has a lease after a step had it before, or has just been granted it. */
  lemma LeaseComesFrom(s: Sys, a: Act, i: int)
    requires Can(s, a) && i in Next(s, a).requests && HasLease(Next(s, a).requests[i].phase)
    ensures i in s.requests && s.requests[i].ask == Next(s, a).requests[i].ask
    ensures HasLease(s.requests[i].phase) || (a.Acquire? && a.id == i)
  {
    match a
    case Lookup(j) => LookupLeads(s, j);
    case LookAgain(j) => LookupLeads(s, j);
    case Commit(j, answer) => CommitLeads(s, j, answer);
    case Acquire(j, now) =>
    case _ => PlainStep(s, a, i);
  }

  /** The other steps lead to no lease but that of the step itself. */
  lemma PlainStep(s: Sys, a: Act, i: int)
    requires Can(s, a) && i in Next(s, a).requests && HasLease(Next(s, a).requests[i].phase)
    requires !a.Lookup? && !a.LookAgain? && !a.Commit? && !a.Acquire?
    ensures i in s.requests && s.requests[i].ask == Next(s, a).requests[i].ask && HasLease(s.requests[i].phase)
  {
  }

  lemma GrantedFits(s: Sys, i: int, now: Millis, r: Sys)
    requires SysInv(s) && Can(s, Act.Acquire(i, now)) && r == Next(s, Act.Acquire(i, now))
    ensures AskOk(r, i)
  {
    var ask := s.requests[i].ask;
    if i in r.requests && HasLease(r.requests[i].phase) {
      AcquireLeads(s, i, now);
      GrantFits(s.room, now, ask);
    }
  }

  lemma GrantFits(s: Room, now: Millis, req: AcquireRequest)
    requires AllOk(s) && RoomScripts.Acquire(s, now, req).reply.Acquired?
    ensures var r := RoomScripts.Acquire(s, now, req).room;
            req.token in r.tokens && r.tokens[req.token].fingerprint == req.fingerprint && r.tokens[req.token].trip == req.trip
  {
    assert Open(s);
    AcquireRefuses(s, now, req);
    assert AskedFor(s.tokens[req.token], req);
    match s.tokens[req.token].status
    case TokenIssued => AcquireIssued(s, now, req);
    case TokenProcessing => AcquireProcessing(s, now, req);
    case _ => AcquireTerminal(s, now, req);
  }

  lemma {:induction false} AskFits(states: seq<Sys>, acts: seq<Act>, n: nat, i: int)
    requires SysRun(states, acts) && n < |states|
    ensures AskOk(states[n], i)
    decreases n
  {
    if 0 < n && i in states[n].requests && HasLease(states[n].requests[i].phase) {
      assert Goes(states, acts, n - 1);
      SysRunInv(states, acts, n - 1);
      LeaseComesFrom(states[n - 1], acts[n - 1], i);
      if HasLease(states[n - 1].requests[i].phase) {
        AskFits(states, acts, n - 1, i);
        LeasedStays(states, acts, n - 1, i);
      } else {
        GrantedFits(states[n - 1], i, acts[n - 1].now, states[n]);
      }
    }
  }

  /** A leased token that is gone stays gone, and one that stays keeps its fields. */
  lemma LeasedStays(states: seq<Sys>, acts: seq<Act>, n: nat, i: int)
    requires SysRun(states, acts) && n < |acts| && i in states[n].requests && HasLease(states[n].requests[i].phase)
    ensures var t := states[n].requests[i].ask.token;
            t in states[n + 1].room.tokens ==>
              t in states[n].room.tokens && Evolves(states[n].room.tokens[t], states[n + 1].room.tokens[t])
  {
    var ask := states[n].requests[i].ask;
    SysRunInv(states, acts, n);
    assert RequestOk(states[n], i) && TokenTale(states[n].room, ask.token);
    var ev :| ev in states[n].room.log && ev.Granted? && ev.token == ask.token && ev.owner == ask.owner && ev.binding == ask.binding;
    assert Concerns(ev, ask.token);
    RoomPath(states, acts, n, n + 1);
    PathEvolves(states[n].room, states[n + 1].room, ask.token, false);
  }

  // ------------------------------------------------------------------ the room along a run

  /** A step makes its call of the waiting room, or leaves it alone. */
  lemma ActCalls(s: Sys, a: Act)
    requires Can(s, a)
    ensures CallOf(s, a).Some? ==> Legal(s.room, CallOf(s, a).value) && Next(s, a).room == Run1(s.room, CallOf(s, a).value).room
    ensures CallOf(s, a).None? ==> Next(s, a).room == s.room
  {
    match a
    case Commit(i, answer) => CommitLeads(s, i, answer);
    case Lookup(i) => LookupLeads(s, i);
    case Acquire(i, now) => AcquireLeads(s, i, now);
    case _ =>
  }

  lemma ActPath(s: Sys, a: Act)
    requires SysInv(s) && Can(s, a)
    ensures Path(s.room, Next(s, a).room, false)
  {
    ActCalls(s, a);
    if CallOf(s, a).Some? {
      CallPath(s.room, CallOf(s, a).value);
    } else {
      PathHere(s.room, false);
    }
  }

  lemma {:induction false} RoomPath(states: seq<Sys>, acts: seq<Act>, n: nat, m: nat)
    requires SysRun(states, acts) && n <= m < |states|
    ensures Path(states[n].room, states[m].room, false)
    decreases m
  {
    if n == m {
      PathHere(states[n].room, false);
    } else {
      RoomPath(states, acts, n, m - 1);
      RoomStep(states, acts, m - 1);
      PathJoin(states[n].room, states[m - 1].room, states[m].room, false);
    }
  }

  lemma RoomStep(states: seq<Sys>, acts: seq<Act>, n: nat)
    requires SysRun(states, acts) && n < |acts|
    ensures Path(states[n].room, states[n + 1].room, false)
  {
    SysRunInv(states, acts, n);
    assert Goes(states, acts, n);
    ActPath(states[n], acts[n]);
  }

  lemma StaysBound(states: seq<Sys>, acts: seq<Act>, n: nat, m: nat, t: TokenHash)
    requires SysRun(states, acts) && n <= m < |states| && t in states[n].room.tokens && t in states[m].room.tokens
    ensures Evolves(states[n].room.tokens[t], states[m].room.tokens[t])
  {
    RoomPath(states, acts, n, m);
    SysRunInv(states, acts, n);
    assert TokenTale(states[n].room, t);
    PathEvolves(states[n].room, states[m].room, t, false);
  }
}
