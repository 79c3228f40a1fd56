/**
 The reservation protocol around the waiting room: look up a completed hold, acquire a
 lease, commit the hold in the database, release or finalize the token, repair on replay.
 Any number of requests run at once and each may stop for good between any two of its
 steps. The database commit is one atomic step, idempotent per owner and key.
 */
module Reservation {
  import opened RoomState
  import opened RoomSteps
  import opened RoomHistory
  import opened RoomLife
  import opened RoomScripts
  import opened RoomPaths
  import opened RoomRuns
  import opened RoomTheorems
  import opened RoomTokens

  datatype HoldKey = HoldKey(owner: OwnerHash, idempotency: Digest)

  /** A committed hold; a hot one remembers the token it was created under. */
  datatype Hold = Hold(booking: Digest, token: Option<TokenHash>)

  /** Where a request stands. A request that returned or stopped is no longer listed. */
  datatype Phase =
    | LookingUp
    | Acquiring
    | LookingAgain
    | Leased(generation: int)
    | Releasing(generation: int, permanent: bool)
    | Finalizing(generation: int)
    | Repairing
    | Located

  datatype Request = Request(ask: AcquireRequest, phase: Phase)

  datatype Sys = Sys(room: Room, holds: map<HoldKey, Hold>, requests: map<int, Request>)

  /** How the database answers when it has no record of the key yet. */
  datatype Answer = Committed | CommittedUnheard | FailedForNow | FailedForGood

  datatype Act =
    | Other(call: Call)
    | ColdHold(key: HoldKey, booking: Digest)
    | Begin(id: int, ask: AcquireRequest)
    | Lookup(id: int)
    | Acquire(id: int, now: Millis)
    | LookAgain(id: int)
    | NoSlot(id: int)
    | Commit(id: int, answer: Answer)
    | Release(id: int, now: Millis)
    | Finalize(id: int, now: Millis)
    | Locate(id: int, found: bool)
    | Repair(id: int, now: Millis)
    | Stop(id: int)

  function KeyOf(ask: AcquireRequest): HoldKey {
    HoldKey(ask.owner, ask.binding.idempotency)
  }

  function MutationOf(ask: AcquireRequest, generation: int): LeaseMutation {
    LeaseMutation(ask.token, ask.owner, ask.binding, ask.holder, generation)
  }

  /** Calls of everybody else: joins, polls, cancels, the worker's issue and maintenance calls,
      and whatever happens to the version markers. */
  predicate Foreign(c: Call) {
    !c.CallAcquire? && !c.CallRelease? && !c.CallFinalize? && !c.CallRepair?
  }

  /** The call a request makes when it takes the step, if it makes one. */
  function CallOf(s: Sys, a: Act): Option<Call> {
    match a
    case Other(c) => Some(c)
    case Acquire(i, now) => if i in s.requests then Some(CallAcquire(now, s.requests[i].ask)) else None
    case Release(i, now) =>
      if i in s.requests && s.requests[i].phase.Releasing? then
        Some(CallRelease(now, MutationOf(s.requests[i].ask, s.requests[i].phase.generation), s.requests[i].phase.permanent))
      else None
    case Finalize(i, now) =>
      if i in s.requests && s.requests[i].phase.Finalizing? then
        Some(CallFinalize(now, MutationOf(s.requests[i].ask, s.requests[i].phase.generation)))
      else None
    case Repair(i, now) =>
      if i in s.requests then
        Some(CallRepair(now, s.requests[i].ask.token, s.requests[i].ask.owner, s.requests[i].ask.binding))
      else None
    case _ => None
  }

  ghost predicate Can(s: Sys, a: Act) {
    && (CallOf(s, a).Some? ==> Legal(s.room, CallOf(s, a).value))
    && match a
       case Other(c) => Foreign(c)
       case ColdHold(key, _) => key !in s.holds
       case Begin(i, _) => i !in s.requests
       case Lookup(i) => i in s.requests && s.requests[i].phase.LookingUp?
       case Acquire(i, _) => i in s.requests && s.requests[i].phase.Acquiring?
       case LookAgain(i) => i in s.requests && s.requests[i].phase.LookingAgain?
       case NoSlot(i) => i in s.requests && s.requests[i].phase.Leased?
       case Commit(i, _) => i in s.requests && s.requests[i].phase.Leased?
       case Release(i, _) => i in s.requests && s.requests[i].phase.Releasing?
       case Finalize(i, _) => i in s.requests && s.requests[i].phase.Finalizing?
       case Locate(i, _) => i in s.requests && s.requests[i].phase.Repairing?
       case Repair(i, _) => i in s.requests && s.requests[i].phase.Located?
       case Stop(i) => i in s.requests
  }

  function Goto(s: Sys, i: int, phase: Phase): Sys
    requires i in s.requests
  {
    s.(requests := s.requests[i := s.requests[i].(phase := phase)])
  }

  function Leave(s: Sys, i: int): Sys {
    s.(requests := s.requests - {i})
  }

  /** The durable record of the request is there. */
  predicate Recorded(s: Sys, ask: AcquireRequest) {
    KeyOf(ask) in s.holds && s.holds[KeyOf(ask)].booking == ask.binding.booking
  }

  /** The first lookup: a completed record leads to repair, a record of another booking is a
      conflict, no record leads on. */
  function AfterLookup(s: Sys, i: int): Sys
    requires i in s.requests
  {
    if Recorded(s, s.requests[i].ask) then Goto(s, i, Repairing)
    else if KeyOf(s.requests[i].ask) in s.holds then Leave(s, i)
    else Goto(s, i, Acquiring)
  }

  function AfterAcquire(s: Sys, i: int, now: Millis): Sys
    requires i in s.requests
  {
    var o := RoomScripts.Acquire(s.room, now, s.requests[i].ask);
    var t := s.(room := o.room);
    match o.reply
    case Acquired(_, generation) => Goto(t, i, Leased(generation))
    case RetryAfter(_) => Goto(t, i, LookingAgain)
    case ReplayAllowed => Goto(t, i, LookingAgain)
    case _ => Leave(t, i)
  }

  function AfterLookAgain(s: Sys, i: int): Sys
    requires i in s.requests
  {
    if Recorded(s, s.requests[i].ask) then Goto(s, i, Repairing) else Leave(s, i)
  }

  /** CreateHold, idempotent per owner and key. */
  function AfterCommit(s: Sys, i: int, answer: Answer): Sys
    requires i in s.requests && s.requests[i].phase.Leased?
  {
    var ask, g := s.requests[i].ask, s.requests[i].phase.generation;
    var key := KeyOf(ask);
    if key in s.holds && s.holds[key].booking != ask.binding.booking then Goto(s, i, Releasing(g, true))
    else
      var kept := if key in s.holds then s.holds else s.holds[key := Hold(ask.binding.booking, Some(ask.token))];
      match answer
      case Committed => Goto(s.(holds := kept), i, Finalizing(g))
      case CommittedUnheard => Goto(s.(holds := kept), i, Releasing(g, false))
      case FailedForNow => Goto(s, i, Releasing(g, false))
      case FailedForGood => Goto(s, i, Releasing(g, true))
  }

  ghost function Next(s: Sys, a: Act): Sys
    requires Can(s, a)
  {
    match a
    case Other(c) => s.(room := Run1(s.room, c).room)
    case ColdHold(key, booking) => s.(holds := s.holds[key := Hold(booking, None)])
    case Begin(i, ask) => s.(requests := s.requests[i := Request(ask, LookingUp)])
    case Lookup(i) => AfterLookup(s, i)
    case Acquire(i, now) => AfterAcquire(s, i, now)
    case LookAgain(i) => AfterLookAgain(s, i)
    case NoSlot(i) => Goto(s, i, Releasing(s.requests[i].phase.generation, false))
    case Commit(i, answer) => AfterCommit(s, i, answer)
    case Release(i, now) => Leave(s.(room := Run1(s.room, CallOf(s, a).value).room), i)
    case Finalize(i, now) => Leave(s.(room := Run1(s.room, CallOf(s, a).value).room), i)
    case Locate(i, found) => if found then Goto(s, i, Located) else Leave(s, i)
    case Repair(i, now) => Leave(s.(room := Run1(s.room, CallOf(s, a).value).room), i)
    case Stop(i) => Leave(s, i)
  }

  /** No hold, no request, an empty waiting room. */
  ghost predicate Fresh(s: Sys) {
    && ValidLimits(s.room.limits) && 0 <= s.room.clock
    && s.room == EmptyRoom(s.room.version, s.room.limits, s.room.clock)
    && s.holds == map[] && s.requests == map[]
  }

  ghost predicate SysRun(states: seq<Sys>, acts: seq<Act>) {
    && |states| == |acts| + 1
    && Fresh(states[0])
    && forall i :: 0 <= i < |acts| ==> Goes(states, acts, i)
  }

  ghost predicate Goes(states: seq<Sys>, acts: seq<Act>, i: nat)
    requires i < |acts| < |states|
  {
    Can(states[i], acts[i]) && states[i + 1] == Next(states[i], acts[i])
  }

  // ------------------------------------------------------------------ holds come from grants

  /** The log shows a lease for the token, granted to the owner for the booking. */
  ghost predicate GrantedFor(log: seq<Event>, t: TokenHash, owner: OwnerHash, b: Binding) {
    exists ev :: ev in log && ev.Granted? && ev.token == t && ev.owner == owner && ev.binding == b
  }

  predicate HasLease(p: Phase) {
    p.Leased? || p.Releasing? || p.Finalizing?
  }

  ghost predicate RequestOk(s: Sys, i: int)
    requires i in s.requests
  {
    var r := s.requests[i];
    && (HasLease(r.phase) ==> GrantedFor(s.room.log, r.ask.token, r.ask.owner, r.ask.binding))
    && (r.phase.Finalizing? || r.phase.Repairing? || r.phase.Located? ==> Recorded(s, r.ask))
  }

  ghost predicate HoldOk(s: Sys, key: HoldKey)
    requires key in s.holds
  {
    s.holds[key].token.Some? ==>
      GrantedFor(s.room.log, s.holds[key].token.value, key.owner, Binding(s.holds[key].booking, key.idempotency))
  }

  /** A consumed token has its committed hold. */
  ghost predicate ConsumedOk(s: Sys, t: TokenHash) {
    IsConsumed(s.room, t) ==>
      && s.room.tokens[t].binding.Some?
      && var b := s.room.tokens[t].binding.value;
         var key := HoldKey(s.room.tokens[t].owner, b.idempotency);
         key in s.holds && s.holds[key].booking == b.booking
  }

  ghost predicate SysInv(s: Sys) {
    && Inv(s.room)
    && (forall i :: i in s.requests ==> RequestOk(s, i))
    && (forall key :: key in s.holds ==> HoldOk(s, key))
    && (forall t :: ConsumedOk(s, t))
  }

  /** The log only grows and committed bookings stay. */
  ghost predicate Grows(s: Sys, r: Sys) {
    && s.room.log <= r.room.log
    && (forall key :: key in s.holds ==> key in r.holds && r.holds[key] == s.holds[key])
  }

  lemma GrantedLonger(log: seq<Event>, more: seq<Event>, t: TokenHash, owner: OwnerHash, b: Binding)
    requires GrantedFor(log, t, owner, b) && log <= more
    ensures GrantedFor(more, t, owner, b)
  {
    var ev :| ev in log && ev.Granted? && ev.token == t && ev.owner == owner && ev.binding == b;
    assert ev in more;
  }

  lemma HoldKept(s: Sys, r: Sys, key: HoldKey)
    requires Grows(s, r) && key in s.holds && HoldOk(s, key)
    ensures key in r.holds && HoldOk(r, key)
  {
    if s.holds[key].token.Some? {
      GrantedLonger(s.room.log, r.room.log, s.holds[key].token.value, key.owner,
                    Binding(s.holds[key].booking, key.idempotency));
    }
  }

  lemma RequestKept(s: Sys, r: Sys, i: int)
    requires Grows(s, r) && i in s.requests && RequestOk(s, i) && i in r.requests && r.requests[i] == s.requests[i]
    ensures RequestOk(r, i)
  {
    var q := s.requests[i];
    if HasLease(q.phase) {
      GrantedLonger(s.room.log, r.room.log, q.ask.token, q.ask.owner, q.ask.binding);
    }
  }

  // ------------------------------------------------------------------ what a call does

  /** What a legal call does to everything the protocol relies on. */
  lemma CallKeepsToken(s: Room, c: Call, t: TokenHash)
    requires Inv(s) && Legal(s, c)
    ensures s.log <= Run1(s, c).room.log
    ensures var r := Run1(s, c).room;
            IsConsumed(r, t) && Consumes(c) != Some(t) ==> IsConsumed(s, t) && Evolves(s.tokens[t], r.tokens[t])
  {
    CallPath(s, c);
    PathLogGrows(s, Run1(s, c).room, false);
    CallDerived(s, c, t);
    if t in s.tokens {
      assert TokenTale(s, t);
      PathEvolves(s, Run1(s, c).room, t, false);
    }
  }

  lemma {:induction false} FollowsLogGrows(s: Room, trail: Trail, r: Room, inOrder: bool)
    requires Follows(s, trail, r, inOrder)
    ensures s.log <= r.log
    decreases trail
  {
    match trail
    case Here =>
    case Then(a, m, rest) =>
      StepLog(s, a);
      FollowsLogGrows(m, rest, r, inOrder);
  }

  lemma PathLogGrows(s: Room, r: Room, inOrder: bool)
    requires Path(s, r, inOrder)
    ensures s.log <= r.log
  {
    var trail :| Follows(s, trail, r, inOrder);
    FollowsLogGrows(s, trail, r, inOrder);
  }

  /** A lease that was handed out is in the log, for the asker and its booking. */
  lemma AcquireGrants(s: Room, now: Millis, ask: AcquireRequest)
    requires RoomScripts.Acquire(s, now, ask).reply.Acquired?
    ensures GrantedFor(RoomScripts.Acquire(s, now, ask).room.log, ask.token, ask.owner, ask.binding)
  {
    var r := RoomScripts.Acquire(s, now, ask).room;
    assert r.log[|r.log| - 1] in r.log;
  }

  // ------------------------------------------------------------------ the invariant of the protocol

  /** The waiting room of r is that of s, or follows from it by a call that consumes nothing but
      the token of a recorded booking; records and the untouched requests are kept. */
  lemma RoomKeeps(s: Sys, r: Sys, c: Call)
    requires SysInv(s) && Legal(s.room, c) && r.room == Run1(s.room, c).room && r.holds == s.holds
    requires Consumes(c).None?
    ensures Inv(r.room) && Grows(s, r)
    ensures forall t :: ConsumedOk(r, t)
  {
    CallPath(s.room, c);
    PathInv(s.room, r.room, false);
    PathLogGrows(s.room, r.room, false);
    forall t ensures ConsumedOk(r, t) {
      assert ConsumedOk(s, t);
      CallKeepsToken(s.room, c, t);
    }
  }

  /** A finalize or a repair consumes only the token of a booking that is on record. */
  lemma CommitKeeps(s: Sys, r: Sys, c: Call, ask: AcquireRequest)
    requires SysInv(s) && Legal(s.room, c) && r.room == Run1(s.room, c).room && r.holds == s.holds
    requires Recorded(s, ask)
    requires (c.CallFinalize? && exists g :: c.mutation == MutationOf(ask, g))
          || (c.CallRepair? && c.token == ask.token && c.owner == ask.owner && c.binding == ask.binding)
    ensures Inv(r.room) && Grows(s, r)
    ensures forall t :: ConsumedOk(r, t)
  {
    CallPath(s.room, c);
    PathInv(s.room, r.room, false);
    PathLogGrows(s.room, r.room, false);
    forall t ensures ConsumedOk(r, t) {
      assert ConsumedOk(s, t);
      if t == ask.token {
        CommitOwn(s, r, c, ask);
      } else {
        CallKeepsToken(s.room, c, t);
      }
    }
  }

  lemma CommitOwn(s: Sys, r: Sys, c: Call, ask: AcquireRequest)
    requires r.room == Run1(s.room, c).room && r.holds == s.holds && Recorded(s, ask) && ConsumedOk(s, ask.token)
    requires (c.CallFinalize? && exists g :: c.mutation == MutationOf(ask, g))
          || (c.CallRepair? && c.token == ask.token && c.owner == ask.owner && c.binding == ask.binding)
    ensures ConsumedOk(r, ask.token)
  {
  }

  lemma OthersKept(s: Sys, r: Sys, id: int)
    requires SysInv(s) && Grows(s, r)
    requires forall i :: i in r.requests && i != id ==> i in s.requests && r.requests[i] == s.requests[i]
    ensures forall i :: i in r.requests && i != id ==> RequestOk(r, i)
    ensures forall key :: key in s.holds ==> key in r.holds && HoldOk(r, key)
  {
    forall i | i in r.requests && i != id ensures RequestOk(r, i) {
      RequestKept(s, r, i);
    }
    forall key | key in s.holds ensures key in r.holds && HoldOk(r, key) {
      HoldKept(s, r, key);
    }
  }

  /** A step that only changes what the database and the requests say. */
  lemma LocalKeeps(s: Sys, r: Sys, id: int)
    requires SysInv(s) && r.room == s.room && Grows(s, r)
    requires forall i :: i in r.requests && i != id ==> i in s.requests && r.requests[i] == s.requests[i]
    requires id in r.requests ==> RequestOk(r, id)
    requires forall key :: key in r.holds && key !in s.holds ==> HoldOk(r, key)
    ensures SysInv(r)
  {
    OthersKept(s, r, id);
    forall t ensures ConsumedOk(r, t) { assert ConsumedOk(s, t); }
  }

  /** A step that only calls the waiting room and moves on. */
  lemma RemoteKeeps(s: Sys, r: Sys, id: int)
    requires SysInv(s) && Inv(r.room) && Grows(s, r) && r.holds == s.holds
    requires forall t :: ConsumedOk(r, t)
    requires forall i :: i in r.requests && i != id ==> i in s.requests && r.requests[i] == s.requests[i]
    requires id in r.requests ==> RequestOk(r, id)
    ensures SysInv(r)
  {
    OthersKept(s, r, id);
  }

  lemma AcquireStep(s: Sys, i: int, now: Millis)
    requires SysInv(s) && Can(s, Act.Acquire(i, now))
    ensures SysInv(AfterAcquire(s, i, now))
  {
    var r := AfterAcquire(s, i, now);
    AcquiredOk(s, i, now);
    RoomKeeps(s, r, CallAcquire(now, s.requests[i].ask));
    RemoteKeeps(s, r, i);
  }

  lemma AcquiredOk(s: Sys, i: int, now: Millis)
    requires i in s.requests && s.requests[i].phase.Acquiring?
    ensures i in AfterAcquire(s, i, now).requests ==> RequestOk(AfterAcquire(s, i, now), i)
    ensures AfterAcquire(s, i, now).holds == s.holds
    ensures AfterAcquire(s, i, now).room == RoomScripts.Acquire(s.room, now, s.requests[i].ask).room
    ensures forall j :: j in AfterAcquire(s, i, now).requests && j != i ==>
              j in s.requests && AfterAcquire(s, i, now).requests[j] == s.requests[j]
  {
    if RoomScripts.Acquire(s.room, now, s.requests[i].ask).reply.Acquired? {
      AcquireGrants(s.room, now, s.requests[i].ask);
    }
  }

  lemma CommitStep(s: Sys, i: int, answer: Answer)
    requires SysInv(s) && Can(s, Commit(i, answer))
    ensures SysInv(AfterCommit(s, i, answer))
  {
    assert RequestOk(s, i);
    LocalKeeps(s, AfterCommit(s, i, answer), i);
  }

  lemma FinalStep(s: Sys, i: int, a: Act)
    requires SysInv(s) && (a.Release? || a.Finalize? || a.Repair?) && a.id == i && Can(s, a)
    ensures SysInv(Next(s, a))
  {
    assert RequestOk(s, i);
    var r := Next(s, a);
    if a.Release? {
      RoomKeeps(s, r, CallOf(s, a).value);
    } else {
      CommitKeeps(s, r, CallOf(s, a).value, s.requests[i].ask);
    }
    RemoteKeeps(s, r, i);
  }

  lemma ActKeeps(s: Sys, a: Act)
    requires SysInv(s) && Can(s, a)
    ensures SysInv(Next(s, a))
  {
    match a
    case Other(c) =>
      RoomKeeps(s, Next(s, a), c);
      RemoteKeeps(s, Next(s, a), 0);
    case Acquire(i, now) => AcquireStep(s, i, now);
    case Commit(i, answer) => CommitStep(s, i, answer);
    case Release(i, now) => FinalStep(s, i, a);
    case Finalize(i, now) => FinalStep(s, i, a);
    case Repair(i, now) => FinalStep(s, i, a);
    case _ => LocalStep(s, a);
  }

  lemma LocalStep(s: Sys, a: Act)
    requires SysInv(s) && Can(s, a)
    requires a.ColdHold? || a.Begin? || a.Lookup? || a.LookAgain? || a.NoSlot? || a.Locate? || a.Stop?
    ensures SysInv(Next(s, a))
  {
    match a
    case ColdHold(key, booking) => ColdKeeps(s, key, booking);
    case Begin(i, ask) => BeginKeeps(s, i, ask);
    case Lookup(i) => MoveKeeps(s, i, Next(s, a));
    case LookAgain(i) => MoveKeeps(s, i, Next(s, a));
    case NoSlot(i) =>
      assert RequestOk(s, i);
      MoveKeeps(s, i, Next(s, a));
    case Locate(i, _) =>
      assert RequestOk(s, i);
      MoveKeeps(s, i, Next(s, a));
    case Stop(i) => MoveKeeps(s, i, Next(s, a));
    case _ =>
  }

  lemma ColdKeeps(s: Sys, key: HoldKey, booking: Digest)
    requires SysInv(s) && key !in s.holds
    ensures SysInv(s.(holds := s.holds[key := Hold(booking, None)]))
  {
    var r := s.(holds := s.holds[key := Hold(booking, None)]);
    if 0 in s.requests { assert RequestOk(s, 0); }
    LocalKeeps(s, r, 0);
  }

  lemma BeginKeeps(s: Sys, i: int, ask: AcquireRequest)
    requires SysInv(s) && i !in s.requests
    ensures SysInv(s.(requests := s.requests[i := Request(ask, LookingUp)]))
  {
    LocalKeeps(s, s.(requests := s.requests[i := Request(ask, LookingUp)]), i);
  }

  /** A request moves on to a phase that it may have, or leaves. */
  lemma MoveKeeps(s: Sys, i: int, r: Sys)
    requires SysInv(s) && i in s.requests
    requires r == Leave(s, i) || (r.requests.Keys == s.requests.Keys && r == Goto(s, i, r.requests[i].phase) && RequestOk(r, i))
    ensures SysInv(r)
  {
    LocalKeeps(s, r, i);
  }

  lemma {:induction false} SysRunInv(states: seq<Sys>, acts: seq<Act>, n: nat)
    requires SysRun(states, acts) && n < |states|
    ensures SysInv(states[n])
    decreases n
  {
    if n == 0 {
      var room := states[0].room;
      EmptyInv(room.version, room.limits, room.clock);
    } else {
      SysRunInv(states, acts, n - 1);
      assert Goes(states, acts, n - 1);
      ActKeeps(states[n - 1], acts[n - 1]);
    }
  }

  // ------------------------------------------------------------------ theorems

  /** Over every interleaving of requests, expiries, cancels, repairs and stops, no two hot
      holds were created under the same admission token. */
  lemma OneHoldPerToken(states: seq<Sys>, acts: seq<Act>, n: nat, a: HoldKey, b: HoldKey)
    requires SysRun(states, acts) && n < |states|
    requires a in states[n].holds && b in states[n].holds
    requires states[n].holds[a].token.Some? && states[n].holds[a].token == states[n].holds[b].token
    ensures a == b
  {
    SysRunInv(states, acts, n);
    HoldsOfToken(states[n], a, b);
  }

  lemma HoldsOfToken(s: Sys, a: HoldKey, b: HoldKey)
    requires SysInv(s) && a in s.holds && b in s.holds && s.holds[a].token.Some? && s.holds[a].token == s.holds[b].token
    ensures a == b
  {
    var t, log := s.holds[a].token.value, s.room.log;
    assert HoldOk(s, a) && HoldOk(s, b) && TokenTale(s.room, t);
    GrantsAgree(log, t, a.owner, Binding(s.holds[a].booking, a.idempotency), b.owner, Binding(s.holds[b].booking, b.idempotency));
  }

  /** All grants of a token are for one owner and one booking. */
  lemma GrantsAgree(log: seq<Event>, t: TokenHash, o: OwnerHash, b: Binding, p: OwnerHash, c: Binding)
    requires GrantsOrdered(log, t) && GrantedFor(log, t, o, b) && GrantedFor(log, t, p, c)
    ensures o == p && b == c
  {
    var x :| x in log && x.Granted? && x.token == t && x.owner == o && x.binding == b;
    var y :| y in log && y.Granted? && y.token == t && y.owner == p && y.binding == c;
    var i :| 0 <= i < |log| && log[i] == x;
    var j :| 0 <= j < |log| && log[j] == y;
  }

  /** The keys of the hot holds, and the tokens that were ever issued. */
  ghost function HotHolds(s: Sys): set<HoldKey> {
    set key | key in s.holds && s.holds[key].token.Some?
  }

  ghost function IssuedTokens(s: Sys): set<TokenHash> {
    set i | 0 <= i < |s.room.log| && s.room.log[i].Admitted? :: s.room.log[i].token
  }

  /** Distinct hot holds never outnumber the tokens issued. */
  lemma HoldsWithinTokens(states: seq<Sys>, acts: seq<Act>, n: nat)
    requires SysRun(states, acts) && n < |states|
    ensures |HotHolds(states[n])| <= |IssuedTokens(states[n])|
  {
    SysRunInv(states, acts, n);
    var s := states[n];
    forall key | key in HotHolds(s) ensures s.holds[key].token.value in IssuedTokens(s) {
      TokenOfHold(s, key);
    }
    forall a, b | a in HotHolds(s) && b in HotHolds(s) && s.holds[a].token == s.holds[b].token ensures a == b {
      HoldsOfToken(s, a, b);
    }
    Injection(HotHolds(s), map key | key in s.holds && s.holds[key].token.Some? :: s.holds[key].token.value, IssuedTokens(s));
  }

  lemma TokenOfHold(s: Sys, key: HoldKey)
    requires SysInv(s) && key in HotHolds(s)
    ensures s.holds[key].token.value in IssuedTokens(s)
  {
    var t := s.holds[key].token.value;
    assert HoldOk(s, key) && TokenTale(s.room, t);
    var ev :| ev in s.room.log && ev.Granted? && ev.token == t;
    assert Concerns(ev, t) && Known(s.room.log, t);
    var ad :| ad in s.room.log && ad.Admitted? && ad.token == t;
    var i :| 0 <= i < |s.room.log| && s.room.log[i] == ad;
  }

  lemma {:induction false} Injection<A, B>(xs: set<A>, f: map<A, B>, ys: set<B>)
    requires forall x :: x in xs ==> x in f && f[x] in ys
    requires forall x, y :: x in xs && y in xs && f[x] == f[y] ==> x == y
    ensures |xs| <= |ys|
    decreases |xs|
  {
    if xs != {} {
      var x :| x in xs;
      Injection(xs - {x}, f, ys - {f[x]});
    }
  }

  /** A token is consumed only when its own booking is durably on record. */
  lemma ConsumedIsCommitted(states: seq<Sys>, acts: seq<Act>, n: nat, t: TokenHash)
    requires SysRun(states, acts) && n < |states|
    requires t in states[n].room.tokens && states[n].room.tokens[t].status == TokenConsumed
    ensures var k := states[n].room.tokens[t];
            && k.binding.Some?
            && var key := HoldKey(k.owner, k.binding.value.idempotency);
               key in states[n].holds && states[n].holds[key].booking == k.binding.value.booking
  {
    SysRunInv(states, acts, n);
    assert ConsumedOk(states[n], t);
  }

  /** Replaying a hot hold with the token it was created under always repairs the token, when
      the generation still has it: it never reports a mismatch. */
  lemma RepairMatches(states: seq<Sys>, acts: seq<Act>, n: nat, key: HoldKey, now: Millis)
    requires SysRun(states, acts) && n < |states|
    requires key in states[n].holds && states[n].holds[key].token.Some?
    ensures var s, h := states[n], states[n].holds[key];
            var o := FinalizeCommitted(s.room, now, h.token.value, key.owner, Binding(h.booking, key.idempotency));
            && o.reply != Refused(Mismatch)
            && (s.room.continuity == Some(s.room.version) && h.token.value in s.room.tokens ==>
                  o.reply == Finalized && o.room.tokens[h.token.value].status == TokenConsumed)
  {
    SysRunInv(states, acts, n);
    var s := states[n];
    assert HoldOk(s, key) && TokenTale(s.room, s.holds[key].token.value);
  }

  /** So a request that replays its hold and has found the locator consumes the token it was created
      under, while the generation has the token and its marker. */
  lemma LocatedRepairs(states: seq<Sys>, acts: seq<Act>, n: nat, i: int, now: Millis)
    requires SysRun(states, acts) && n < |states| && Can(states[n], Repair(i, now))
    requires var ask := states[n].requests[i].ask;
             && KeyOf(ask) in states[n].holds && states[n].holds[KeyOf(ask)].token == Some(ask.token)
             && states[n].room.continuity == Some(states[n].room.version) && ask.token in states[n].room.tokens
    ensures var t := states[n].requests[i].ask.token;
            var r := Next(states[n], Repair(i, now)).room;
            t in r.tokens && r.tokens[t].status == TokenConsumed
  {
    SysRunInv(states, acts, n);
    RepairNext(states[n], i, now);
    RepairMatches(states, acts, n, KeyOf(states[n].requests[i].ask), now);
  }

  lemma RepairNext(s: Sys, i: int, now: Millis)
    requires SysInv(s) && Can(s, Repair(i, now))
    ensures Recorded(s, s.requests[i].ask)
    ensures var ask := s.requests[i].ask;
            Next(s, Repair(i, now)).room == FinalizeCommitted(s.room, now, ask.token, ask.owner, ask.binding).room
  {
    assert RequestOk(s, i);
  }
}
