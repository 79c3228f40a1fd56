/**
 Whole runs. Inv is everything a reachable waiting room satisfies; a path of steps
 keeps it, tokens only move forward in life, and admission in queue order is FIFO.
 */
module RoomLife {
  import opened RoomState
  import opened RoomSteps
  import opened RoomInvariant
  import opened RoomHistory
  import opened RoomOrder

  ghost predicate Tales(s: Room) {
    && (forall t :: TokenTale(s, t))
    && (forall e :: EntryTale(s, e))
    && JoinOrder(s.log)
    && RateTale(s)
  }

  ghost predicate Inv(s: Room) {
    Consistent(s) && Tales(s)
  }

  lemma EmptyInv(version: int, limits: Limits, now: Millis)
    requires ValidLimits(limits) && 0 <= now
    ensures Inv(EmptyRoom(version, limits, now)) && Fifo(EmptyRoom(version, limits, now).log)
  {
    var s := EmptyRoom(version, limits, now);
    EmptyConsistent(version, limits, now);
    forall t ensures TokenTale(s, t) {}
    forall e ensures EntryTale(s, e) {}
    forall T: Millis ensures PerSecond(s.log, T) <= limits.rate {}
  }

  lemma StepInv(s: Room, a: Step)
    requires Inv(s) && Enabled(s, a, false)
    ensures Inv(Do(s, a))
  {
    var r := Do(s, a);
    StepConsistent(s, a);
    forall t ensures TokenTale(r, t) { assert TokenTale(s, t); StepTale(s, a, t); }
    forall e ensures EntryTale(r, e) { assert EntryTale(s, e) && EntryOk(s, e); StepEntryTale(s, a, e); }
    StepJoinOrder(s, a);
    StepRate(s, a);
  }

  lemma {:induction false} FollowsInv(s: Room, trail: Trail, r: Room, inOrder: bool)
    requires Inv(s) && Follows(s, trail, r, inOrder)
    ensures Inv(r)
    ensures inOrder && Fifo(s.log) ==> Fifo(r.log)
    decreases trail
  {
    match trail
    case Here =>
    case Then(a, m, rest) =>
      StepInv(s, a);
      if inOrder && Fifo(s.log) {
        StepFifo(s, a);
      }
      FollowsInv(m, rest, r, inOrder);
  }

  /** Everything holds along every run; and queue-order admission stays FIFO. */
  lemma PathInv(s: Room, r: Room, inOrder: bool)
    requires Inv(s) && Path(s, r, inOrder)
    ensures Inv(r)
    ensures inOrder && Fifo(s.log) ==> Fifo(r.log)
  {
    var trail :| Follows(s, trail, r, inOrder);
    FollowsInv(s, trail, r, inOrder);
  }

  // ------------------------------------------------------------------ the life of a token

  /** How a token may change over any stretch of a run. */
  ghost predicate Evolves(k: Token, n: Token) {
    && n.entry == k.entry && n.owner == k.owner && n.fingerprint == k.fingerprint && n.trip == k.trip
    && n.keyId == k.keyId && n.nonce == k.nonce && n.issuedAt == k.issuedAt && n.expiry == k.expiry
    && k.generation <= n.generation
    && (k.binding.Some? ==> n.binding == k.binding)
    && (k.delivered ==> n.delivered)
    && (Terminal(k.status) ==> Terminal(n.status) && n.generation == k.generation)
    && (k.cancelRequested ==>
          Terminal(n.status) || (n.cancelRequested && n.lease == k.lease && n.generation == k.generation))
  }

  lemma StepEvolves(s: Room, a: Step, t: TokenHash)
    requires AllOk(s) && Enabled(s, a, false) && t in s.tokens && t in Do(s, a).tokens
    ensures Evolves(s.tokens[t], Do(s, a).tokens[t])
  {
    assert TokenOk(s, t);
    if ActsOn(a, t) {
      match a
      case _ =>
    } else {
      StepOther(s, a, t);
    }
  }

  /** A deleted token never comes back: its hash is used up. */
  lemma StepStaysGone(s: Room, a: Step, t: TokenHash)
    requires Known(s.log, t) && t !in s.tokens && Enabled(s, a, false)
    ensures Known(Do(s, a).log, t) && t !in Do(s, a).tokens
  {
    StepLog(s, a);
    var ev :| ev in s.log && ev.Admitted? && ev.token == t;
    assert ev in Do(s, a).log;
    if !ActsOn(a, t) {
      StepOther(s, a, t);
    }
  }

  lemma {:induction false} FollowsEvolves(s: Room, trail: Trail, r: Room, t: TokenHash, inOrder: bool)
    requires Inv(s) && Follows(s, trail, r, inOrder) && Known(s.log, t)
    ensures t !in s.tokens ==> t !in r.tokens
    ensures t in s.tokens && t in r.tokens ==> Evolves(s.tokens[t], r.tokens[t])
    decreases trail
  {
    match trail
    case Here =>
    case Then(a, m, rest) =>
      StepInv(s, a);
      StepLog(s, a);
      var ev :| ev in s.log && ev.Admitted? && ev.token == t;
      assert ev in m.log;
      FollowsEvolves(m, rest, r, t, inOrder);
      if t in s.tokens && t in m.tokens {
        StepEvolves(s, a, t);
      } else if t !in s.tokens {
        StepStaysGone(s, a, t);
      }
  }

  /** Over any run a token only moves forward, and once deleted it is gone for good. */
  lemma PathEvolves(s: Room, r: Room, t: TokenHash, inOrder: bool)
    requires Inv(s) && Path(s, r, inOrder) && Known(s.log, t)
    ensures t !in s.tokens ==> t !in r.tokens
    ensures t in s.tokens && t in r.tokens ==> Evolves(s.tokens[t], r.tokens[t])
  {
    var trail :| Follows(s, trail, r, inOrder);
    FollowsEvolves(s, trail, r, t, inOrder);
  }

  // ------------------------------------------------------------------ the identity of an entry

  ghost predicate SameIdentity(x: Entry, y: Entry) {
    y.owner == x.owner && y.fingerprint == x.fingerprint && y.trip == x.trip
    && y.seqNo == x.seqNo && y.joinedAt == x.joinedAt
    && (x.token.Some? ==> y.token == x.token)
  }

  lemma StepSeen(s: Room, a: Step, e: EntryId)
    requires Enabled(s, a, false) && Seen(s.log, e)
    ensures Seen(Do(s, a).log, e)
  {
    StepLog(s, a);
    var ev :| ev in s.log && ev.Joined? && ev.entry == e;
    assert ev in Do(s, a).log;
  }

  /** The entry, if it is still there, is who it was. */
  ghost predicate SameOne(s: Room, r: Room, e: EntryId) {
    e in r.entries ==> e in s.entries && SameIdentity(s.entries[e], r.entries[e])
  }

  lemma CloseSameOne(s: Room, t: TokenHash, status: TokenStatus, keepUntil: Millis, e: EntryId)
    requires t in s.tokens
    ensures SameOne(s, Close(s, t, status, keepUntil), e) && SameOne(s, Delete(s, t), e)
  {
  }

  lemma QueueSameOne(s: Room, f: EntryId, keepUntil: Millis, e: EntryId)
    requires f in s.entries
    ensures SameOne(s, Lapse(s, f, keepUntil), e) && SameOne(s, Withdraw(s, f), e) && SameOne(s, Bury(s, f), e)
  {
  }

  lemma AdmitSameOne(s: Room, c: Candidate, e: EntryId)
    requires Enabled(s, DoAdmit(c), false) && EntryOk(s, e)
    ensures SameOne(s, Admit(s, c), e)
  {
  }

  lemma EnqueueSameOne(s: Room, f: EntryId, o: OwnerHash, d: Digest, trip: Trip, e: EntryId)
    requires Enabled(s, DoEnqueue(f, o, d, trip), false) && Seen(s.log, e)
    ensures SameOne(s, Enqueue(s, f, o, d, trip), e)
  {
  }

  lemma StepIdentity(s: Room, a: Step, e: EntryId)
    requires Enabled(s, a, false) && Seen(s.log, e) && EntryOk(s, e)
    ensures SameOne(s, Do(s, a), e)
  {
    match a
    case DoLapse(f, keepUntil) => QueueSameOne(s, f, keepUntil, e);
    case DoWithdraw(f) => QueueSameOne(s, f, 0, e);
    case DoEnqueue(f, o, d, trip) => EnqueueSameOne(s, f, o, d, trip, e);
    case DoAdmit(c) => AdmitSameOne(s, c, e);
    case DoClose(t, status, keepUntil) => CloseSameOne(s, t, status, keepUntil, e);
    case DoSettleClose(t, status, keepUntil) => CloseSameOne(Settle(s, t), t, status, keepUntil, e);
    case DoDelete(t) => CloseSameOne(s, t, TokenExpired, 0, e);
    case DoBury(f) =>
    case _ => assert Do(s, a).entries == s.entries;
  }

  lemma {:induction false} FollowsIdentity(s: Room, trail: Trail, r: Room, e: EntryId, inOrder: bool)
    requires Consistent(s) && Follows(s, trail, r, inOrder) && Seen(s.log, e)
    ensures e in r.entries ==> e in s.entries && SameIdentity(s.entries[e], r.entries[e])
    decreases trail
  {
    match trail
    case Here =>
    case Then(a, m, rest) =>
      assert EntryOk(s, e);
      StepIdentity(s, a, e);
      StepSeen(s, a, e);
      StepConsistent(s, a);
      FollowsIdentity(m, rest, r, e, inOrder);
  }

  /** Who an entry belongs to, what it asks for, its place and, once it has one, its token
      never change; a deleted entry never comes back. */
  lemma PathIdentity(s: Room, r: Room, e: EntryId, inOrder: bool)
    requires Consistent(s) && Path(s, r, inOrder) && Seen(s.log, e)
    ensures e in r.entries ==> e in s.entries && SameIdentity(s.entries[e], r.entries[e])
  {
    var trail :| Follows(s, trail, r, inOrder);
    FollowsIdentity(s, trail, r, e, inOrder);
  }
}
