/**
 What a poll, a claim, the delivery preflight and a cancel answer and what they do, by the state
 of the entry and its token before.
 */
module PollAnswers {
  import opened RoomState
  import opened RoomSteps
  import opened RoomScripts
  import opened RoomPaths
  import opened RoomFifo
  import opened RoomFrames
  import opened LeaseAnswers

  // ------------------------------------------------------------------ one entry leaves the queue

  /** The queue is as before without e, everybody else in the old order. */
  ghost predicate LeftQueue(q: seq<EntryId>, e: EntryId, r: seq<EntryId>) {
    exists i :: 0 <= i < |q| && q[i] == e && r == q[..i] + q[i + 1..]
  }

  lemma {:induction false} WithoutOne(q: seq<EntryId>, e: EntryId, i: nat)
    requires i < |q| && q[i] == e && forall j :: 0 <= j < |q| && j != i ==> q[j] != e
    ensures Without(q, e) == q[..i] + q[i + 1..]
    decreases |q|
  {
    if i == 0 {
      WithoutNone(q[1..], e);
      assert q[..0] + q[1..] == q[1..];
    } else {
      WithoutOne(q[1..], e, i - 1);
      assert q[..i] == [q[0]] + q[1..][..i - 1] && q[1..][i..] == q[i + 1..];
    }
  }

  lemma {:induction false} WithoutNone(q: seq<EntryId>, e: EntryId)
    requires e !in q
    ensures Without(q, e) == q
    decreases |q|
  {
    if q != [] { WithoutNone(q[1..], e); }
  }

  lemma QueuedOnce(s: Room, e: EntryId)
    requires QueueOrdered(s) && e in s.queue
    ensures LeftQueue(s.queue, e, Without(s.queue, e))
  {
    var i :| 0 <= i < |s.queue| && s.queue[i] == e;
    forall j | 0 <= j < |s.queue| && j != i ensures s.queue[j] != e {
      assert j < i ==> Before(s, s.queue[j], s.queue[i]);
      assert i < j ==> Before(s, s.queue[i], s.queue[j]);
    }
    WithoutOne(s.queue, e, i);
  }

  /** Limits, markers, sequence, rate window, tokens and inflight set are as before. */
  ghost predicate TokensAsBefore(s: Room, r: Room) {
    && r.version == s.version && r.limits == s.limits && r.policyMarker == s.policyMarker && r.continuity == s.continuity
    && r.sequence == s.sequence && r.rate == s.rate && r.tokens == s.tokens && r.inflight == s.inflight
  }

  /** A waiting entry is deleted: it is in no table, not in the queue and not linked. */
  ghost predicate Removed(s: Room, e: EntryId, r: Room)
    requires e in s.entries
  {
    var o := s.entries[e].owner;
    && TokensAsBefore(s, r) && r.clock == s.clock
    && LeftQueue(s.queue, e, r.queue) && e !in r.queue
    && r.entries == s.entries - {e} && r.leases == s.leases
    && r.users - {o} == s.users - {o} && LinkGone(s, r, o, e)
    && r.log == s.log + [Withdrawn(e)]
  }

  /** A waiting entry has run out: it shows it, waits no more, its owner is free to join again,
      and a tombstone is kept for a minute. */
  ghost predicate TimedOut(s: Room, now: Millis, e: EntryId, r: Room)
    requires e in s.entries
  {
    var o := s.entries[e].owner;
    && TokensAsBefore(s, r) && r.clock == now
    && LeftQueue(s.queue, e, r.queue) && e !in r.queue
    && r.entries == s.entries[e := s.entries[e].(status := EntryExpired)]
    && r.leases == s.leases[EntryKey(e) := now + 60000]
    && r.users - {o} == s.users - {o} && LinkGone(s, r, o, e)
    && r.log == s.log + [Lapsed(e)]
  }

  lemma WaitsLinked(s: Room, e: EntryId)
    requires AllOk(s) && e in s.queue
    ensures e in s.entries && s.entries[e].status == EntryQueued && EntryKey(e) !in s.leases
  {
    assert EntryOk(s, e);
  }

  lemma LapseTimesOut(s: Room, now: Millis, e: EntryId)
    requires AllOk(s) && QueueOrdered(s) && e in s.queue
    ensures e in s.entries && TimedOut(s, now, e, Lapse(Tick(s, now), e, now + 60000))
  {
    WaitsLinked(s, e);
    QueuedOnce(s, e);
    LapseFrame(s, now, e);
  }

  lemma LapseFrame(s: Room, now: Millis, e: EntryId)
    requires e in s.entries && LeftQueue(s.queue, e, Without(s.queue, e))
    ensures TimedOut(s, now, e, Lapse(Tick(s, now), e, now + 60000))
  {
    UnlinkedIs(s.users, s.entries[e].owner, e);
  }

  lemma WithdrawRemoves(s: Room, e: EntryId)
    requires AllOk(s) && QueueOrdered(s) && e in s.queue
    ensures e in s.entries && Removed(s, e, Withdraw(s, e))
  {
    WaitsLinked(s, e);
    QueuedOnce(s, e);
    WithdrawFrame(s, e);
  }

  lemma WithdrawFrame(s: Room, e: EntryId)
    requires e in s.entries && EntryKey(e) !in s.leases && LeftQueue(s.queue, e, Without(s.queue, e))
    ensures Removed(s, e, Withdraw(s, e))
  {
    UnlinkedIs(s.users, s.entries[e].owner, e);
    assert s.leases - {EntryKey(e)} == s.leases;
  }

  lemma UnlinkedIs(users: map<OwnerHash, EntryId>, o: OwnerHash, e: EntryId)
    ensures var r := Unlinked(users, o, e);
            && r - {o} == users - {o} && !(o in r && r[o] == e)
            && (o in r ==> o in users && r[o] == users[o]) && (o in users && users[o] != e ==> o in r)
  {
  }

  // ------------------------------------------------------------------ poll and claim

  /** An unknown entry is not found, somebody else's is refused; neither changes anything. */
  lemma GetRefuses(s: Room, now: Millis, e: EntryId, o: OwnerHash, claim: bool)
    requires Open(s)
    ensures var out := Get(s, now, e, o, claim);
            && (out.reply == Refused(NotFound) <==> e !in s.entries)
            && (out.reply == Refused(OwnerMismatch) <==> e in s.entries && s.entries[e].owner != o)
            && (e !in s.entries || s.entries[e].owner != o ==> out.room == s)
  {
  }

  /** When its time is up, a waiting entry runs out; otherwise a poll shows that it waits and its
      place, and a claim has nothing to deliver. */
  ghost predicate WaitingAnswer(s: Room, now: Millis, e: EntryId, claim: bool, out: Outcome)
    requires e in s.entries
  {
    if s.entries[e].expiry <= now then out.reply == Refused(HasExpired) && TimedOut(s, now, e, out.room)
    else
      && OnlyTime(s, now, out.room)
      && if claim then out.reply == Refused(NotAdmitted)
         else out.reply.View? && out.reply.entry == e && out.reply.status == EntryQueued && Stands(s.queue, e, out.reply.position)
  }

  /** e is in the queue at place p, counted from one. */
  ghost predicate Stands(q: seq<EntryId>, e: EntryId, p: int) {
    1 <= p <= |q| && q[p - 1] == e
  }

  /** The owner's poll or claim of an entry that waits. */
  lemma GetWaiting(s: Room, now: Millis, e: EntryId, claim: bool)
    requires AllOk(s) && QueueOrdered(s) && Open(s) && e in s.entries && s.entries[e].status == EntryQueued
    ensures WaitingAnswer(s, now, e, claim, Get(s, now, e, s.entries[e].owner, claim))
  {
    assert EntryOk(s, e);
    if s.entries[e].expiry <= now {
      LapseTimesOut(s, now, e);
      GetRunsOut(s, now, e, claim);
    } else {
      GetStillWaits(s, now, e, claim);
    }
  }

  lemma GetRunsOut(s: Room, now: Millis, e: EntryId, claim: bool)
    requires Open(s) && e in s.entries && s.entries[e].status == EntryQueued && s.entries[e].expiry <= now
    ensures Get(s, now, e, s.entries[e].owner, claim) == Outcome(Lapse(Tick(s, now), e, now + 60000), Refused(HasExpired))
  {
  }

  lemma GetStillWaits(s: Room, now: Millis, e: EntryId, claim: bool)
    requires Open(s) && e in s.entries && s.entries[e].status == EntryQueued && now < s.entries[e].expiry && e in s.queue
    ensures WaitingAnswer(s, now, e, claim, Get(s, now, e, s.entries[e].owner, claim))
  {
  }

  /** When the token's time is up, token and entry expire; otherwise a poll shows that the entry is
      admitted, and a claim hands out its token the first time. */
  ghost predicate AdmittedAnswer(s: Room, now: Millis, e: EntryId, claim: bool, t: TokenHash, out: Outcome)
    requires t in s.tokens && s.tokens[t].entry in s.entries
  {
    var k := s.tokens[t];
    if k.expiry <= now then
      && out.reply == Refused(HasExpired) && out.room.clock == now
      && Ended(s, out.room, t, TokenExpired, EntryExpired, now + 60000)
    else if !claim then out.reply == View(e, EntryAdmitted, -1) && OnlyTime(s, now, out.room)
    else if k.delivered then out.reply == Refused(AlreadyDelivered) && OnlyTime(s, now, out.room)
    else out.reply == Delivery(t) && HandedOut(s, now, t, out.room)
  }

  lemma AdmittedHasToken(s: Room, e: EntryId)
    requires AllOk(s) && e in s.entries && s.entries[e].status == EntryAdmitted
    ensures s.entries[e].token.Some? && s.entries[e].token.value in s.tokens && e !in s.queue
    ensures var t := s.entries[e].token.value; TokenOk(s, t) && s.tokens[t].entry == e && s.tokens[t].owner == s.entries[e].owner
    ensures var t := s.entries[e].token.value; Active(s.tokens[t].status) || s.tokens[t].status == TokenConsumed
  {
    assert EntryOk(s, e);
    assert TokenOk(s, s.entries[e].token.value);
  }

  /** Of an admitted entry. */
  lemma GetAdmitted(s: Room, now: Millis, e: EntryId, claim: bool)
    requires AllOk(s) && Open(s) && e in s.entries && s.entries[e].status == EntryAdmitted
    ensures s.entries[e].token.Some? && s.entries[e].token.value in s.tokens && s.tokens[s.entries[e].token.value].entry == e
    ensures AdmittedAnswer(s, now, e, claim, s.entries[e].token.value, Get(s, now, e, s.entries[e].owner, claim))
  {
    AdmittedHasToken(s, e);
    var t := s.entries[e].token.value;
    if s.tokens[t].expiry <= now {
      TickEnds(s, now, t, TokenExpired, EntryExpired, now + 60000);
      GetExpires(s, now, e, claim, t);
    } else {
      GetShows(s, now, e, claim, t);
    }
  }

  lemma GetExpires(s: Room, now: Millis, e: EntryId, claim: bool, t: TokenHash)
    requires Open(s) && e in s.entries && s.entries[e].status == EntryAdmitted && s.entries[e].token == Some(t)
    requires t in s.tokens && s.tokens[t].expiry <= now
    ensures Get(s, now, e, s.entries[e].owner, claim)
         == Outcome(Close(Tick(s, now), t, TokenExpired, now + 60000), Refused(HasExpired))
  {
  }

  lemma GetShows(s: Room, now: Millis, e: EntryId, claim: bool, t: TokenHash)
    requires Open(s) && e in s.entries && s.entries[e].status == EntryAdmitted && s.entries[e].token == Some(t)
    requires t in s.tokens && now < s.tokens[t].expiry && s.tokens[t].entry == e && e !in s.queue
    ensures AdmittedAnswer(s, now, e, claim, t, Get(s, now, e, s.entries[e].owner, claim))
  {
  }

  /** Only the delivery of t is noted. */
  ghost predicate HandedOut(s: Room, now: Millis, t: TokenHash, r: Room)
    requires t in s.tokens
  {
    && SameFrame(s, r) && r.clock == now && r.entries == s.entries && r.users == s.users && r.inflight == s.inflight
    && r.leases == s.leases && r.tokens == s.tokens[t := s.tokens[t].(delivered := true)] && r.log == s.log + [Claimed(t)]
  }

  /** Of an expired or cancelled entry: a poll shows it, and a claim has nothing to deliver. */
  lemma GetFinished(s: Room, now: Millis, e: EntryId, claim: bool)
    requires AllOk(s) && Open(s) && e in s.entries
    requires s.entries[e].status == EntryExpired || s.entries[e].status == EntryCancelled
    ensures var out := Get(s, now, e, s.entries[e].owner, claim);
            && OnlyTime(s, now, out.room)
            && out.reply == if claim then Refused(NotAdmitted) else View(e, s.entries[e].status, -1)
  {
    assert EntryOk(s, e);
  }

  /** The preflight of a delivery, by the state of the entry and its token. */
  lemma InspectAnswers(s: Room, now: Millis, e: EntryId, o: OwnerHash)
    requires AllOk(s) && Open(s)
    ensures var reply := InspectDelivery(s, now, e, o);
            if e !in s.entries then reply == Refused(NotFound)
            else if s.entries[e].owner != o then reply == Refused(OwnerMismatch)
            else
              match s.entries[e].status
              case EntryExpired => reply == Refused(HasExpired)
              case EntryQueued => reply == Refused(NotAdmitted)
              case EntryCancelled => reply == Refused(NotAdmitted)
              case EntryAdmitted =>
                && s.entries[e].token.Some? && s.entries[e].token.value in s.tokens
                && var t := s.entries[e].token.value;
                   reply == if s.tokens[t].delivered then Refused(AlreadyDelivered)
                            else if s.tokens[t].expiry <= now then Refused(HasExpired) else Delivery(t)
  {
    assert EntryOk(s, e);
  }

  // ------------------------------------------------------------------ cancel

  lemma CancelRefuses(s: Room, e: EntryId, o: OwnerHash)
    requires Open(s)
    ensures var out := Cancel(s, e, o);
            && (out.reply == Refused(NotFound) <==> e !in s.entries)
            && (out.reply == Refused(OwnerMismatch) <==> e in s.entries && s.entries[e].owner != o)
            && (e !in s.entries || s.entries[e].owner != o ==> out.room == s)
  {
  }

  /** A waiting entry is deleted at once. */
  lemma CancelWaiting(s: Room, e: EntryId)
    requires AllOk(s) && QueueOrdered(s) && Open(s) && e in s.entries && s.entries[e].status == EntryQueued
    ensures var out := Cancel(s, e, s.entries[e].owner); out.reply == CancelledDeleted && Removed(s, e, out.room)
  {
    assert EntryOk(s, e);
    WithdrawRemoves(s, e);
  }

  /** An issued token is cancelled, a processing one only learns of the cancel, a consumed one stays. */
  ghost predicate CancelAnswer(s: Room, t: TokenHash, out: Outcome)
    requires t in s.tokens && s.tokens[t].entry in s.entries
  {
    match s.tokens[t].status
    case TokenIssued =>
      && out.reply == CancelledKept && out.room.clock == s.clock
      && Ended(s, out.room, t, TokenCancelled, EntryCancelled, s.tokens[t].expiry)
    case TokenProcessing => out.reply == Refused(InProgress) && OnlyPending(s, t, out.room)
    case _ => out == Outcome(s, Refused(AlreadyTerminal))
  }

  /** The cancel of an admitted entry, by the status of its token. */
  lemma CancelAdmitted(s: Room, e: EntryId)
    requires AllOk(s) && Open(s) && e in s.entries && s.entries[e].status == EntryAdmitted
    ensures s.entries[e].token.Some? && s.entries[e].token.value in s.tokens && s.tokens[s.entries[e].token.value].entry == e
    ensures CancelAnswer(s, s.entries[e].token.value, Cancel(s, e, s.entries[e].owner))
  {
    AdmittedHasToken(s, e);
    CancelCases(s, e, s.entries[e].token.value);
  }

  lemma CancelCases(s: Room, e: EntryId, t: TokenHash)
    requires Open(s) && e in s.entries && s.entries[e].status == EntryAdmitted && s.entries[e].token == Some(t)
    requires t in s.tokens && s.tokens[t].entry == e
    ensures CancelAnswer(s, t, Cancel(s, e, s.entries[e].owner))
  {
    if s.tokens[t].status == TokenIssued {
      ClosingEnds(s, t, TokenCancelled, EntryCancelled, s.tokens[t].expiry);
    }
  }

  /** Nothing changes but that a cancel of t is pending. */
  ghost predicate OnlyPending(s: Room, t: TokenHash, r: Room)
    requires t in s.tokens
  {
    r == s.(tokens := s.tokens[t := s.tokens[t].(cancelRequested := true)])
  }

  lemma CancelFinished(s: Room, e: EntryId)
    requires AllOk(s) && Open(s) && e in s.entries
    requires s.entries[e].status == EntryExpired || s.entries[e].status == EntryCancelled
    ensures Cancel(s, e, s.entries[e].owner) == Outcome(s, Refused(AlreadyTerminal))
  {
  }
}
