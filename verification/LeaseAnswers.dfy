/**
 What acquire, release, finalize and repair answer and what they do, by the state before: which
 fields are compared, which refusal comes when, and what becomes of the token.
 */
module LeaseAnswers {
  import opened RoomState
  import opened RoomSteps
  import opened RoomScripts
  import opened RoomRuns
  import opened RoomTheorems
  import opened RoomFrames

  // ------------------------------------------------------------------ acquire

  /** The request is for the token as it was issued and, once bound, for the same booking. */
  predicate AskedFor(k: Token, req: AcquireRequest) {
    && k.owner == req.owner && k.fingerprint == req.fingerprint
    && k.trip.fromStop == req.trip.fromStop && k.trip.toStop == req.trip.toStop
    && k.trip.seatClass == req.trip.seatClass && k.trip.passengers == req.trip.passengers
    && (k.binding.Some? ==>
          k.binding.value.booking == req.binding.booking && k.binding.value.idempotency == req.binding.idempotency)
  }

  /** An unknown token is not found; a request that differs in any compared field is a mismatch;
      neither changes anything. */
  lemma AcquireRefuses(s: Room, now: Millis, req: AcquireRequest)
    requires Open(s)
    ensures var out := Acquire(s, now, req);
            && (out.reply == Refused(NotFound) <==> req.token !in s.tokens)
            && (out.reply == Refused(Mismatch) <==> req.token in s.tokens && !AskedFor(s.tokens[req.token], req))
            && (out.reply == Refused(NotFound) || out.reply == Refused(Mismatch) ==> out.room == s)
  {
  }

  /** The lease is granted: the token is processing for the booking, under the next generation and
      to the end of one lease, and nothing else changes. */
  ghost predicate Leased(s: Room, now: Millis, req: AcquireRequest, r: Room)
    requires req.token in s.tokens
  {
    var t, k, until := req.token, s.tokens[req.token], now + s.limits.lease;
    && OnlyAt(s, r, t, k.entry, k.owner) && r.clock == now && r.entries == s.entries && r.users == s.users
    && r.inflight == s.inflight
    && t in r.tokens
    && r.tokens[t] == k.(status := TokenProcessing, binding := Some(req.binding), generation := k.generation + 1,
                         lease := Some(Lease(req.holder, until)))
    && TokenKey(t) in r.leases && r.leases[TokenKey(t)] == until
  }

  /** A token that can be leased: for a whole lease, or not at all any more. */
  ghost predicate LeasedOrExpired(s: Room, now: Millis, req: AcquireRequest, out: Outcome)
    requires req.token in s.tokens && s.tokens[req.token].entry in s.entries
  {
    var k := s.tokens[req.token];
    if now + s.limits.lease <= k.expiry then
      out.reply == Acquired(req.holder, k.generation + 1) && Leased(s, now, req, out.room)
    else
      && out.reply == Refused(HasExpired) && out.room.clock == now
      && Ended(s, out.room, req.token, TokenExpired, EntryExpired, now + 60000)
  }

  lemma GrantsOrExpires(s: Room, now: Millis, req: AcquireRequest)
    requires TokenOk(s, req.token) && req.token in s.tokens && s.clock == now && AskedFor(s.tokens[req.token], req)
    requires !s.tokens[req.token].cancelRequested
    ensures LeasedOrExpired(s, now, req, GrantOrExpire(s, req))
  {
    var k, r := s.tokens[req.token], GrantOrExpire(s, req).room;
    if now + s.limits.lease <= k.expiry {
      assert r.tokens - {req.token} == s.tokens - {req.token};
      assert r.leases - {TokenKey(req.token)} == s.leases - {TokenKey(req.token)};
    } else {
      ClosingEnds(s, req.token, TokenExpired, EntryExpired, now + 60000);
    }
  }

  /** Closing a token has the effect that is written out in Ended. */
  lemma ClosingEnds(s: Room, t: TokenHash, status: TokenStatus, shown: EntryStatus, keepUntil: Millis)
    requires t in s.tokens && s.tokens[t].entry in s.entries
    requires status == TokenExpired ==> shown == EntryExpired
    requires status == TokenCancelled ==> shown == EntryCancelled
    requires status == TokenConsumed ==> shown == EntryAdmitted
    requires status == TokenExpired || status == TokenCancelled || status == TokenConsumed
    ensures Ended(s, Close(s, t, status, keepUntil), t, status, shown, keepUntil)
  {
    var r, k := Close(s, t, status, keepUntil), s.tokens[t];
    assert r.tokens - {t} == s.tokens - {t};
    assert r.inflight - {t} == s.inflight - {t};
    assert r.leases - {TokenKey(t)} == s.leases - {TokenKey(t)};
    assert r.entries - {k.entry} == s.entries - {k.entry};
    assert r.users - {k.owner} == s.users - {k.owner};
  }

  lemma EndedThen(s: Room, m: Room, r: Room, t: TokenHash, status: TokenStatus, shown: EntryStatus, keepUntil: Millis)
    requires t in s.tokens && s.tokens[t].entry in s.entries && m.entries == s.entries && m.users == s.users && m.inflight == s.inflight
    requires SameFrame(s, m) && m.leases - {TokenKey(t)} == s.leases - {TokenKey(t)} && m.tokens - {t} == s.tokens - {t}
    requires t in m.tokens && m.tokens[t].entry == s.tokens[t].entry && m.tokens[t].owner == s.tokens[t].owner
    requires m.tokens[t].(status := status, lease := None, cancelRequested := false)
          == s.tokens[t].(status := status, lease := None, cancelRequested := false)
    requires Ended(m, r, t, status, shown, keepUntil)
    ensures Ended(s, r, t, status, shown, keepUntil)
  {
  }

  /** Of an issued token: the lease must fit into what is left of its life. */
  lemma AcquireIssued(s: Room, now: Millis, req: AcquireRequest)
    requires AllOk(s) && Open(s) && req.token in s.tokens && AskedFor(s.tokens[req.token], req)
    requires s.tokens[req.token].status == TokenIssued
    ensures s.tokens[req.token].entry in s.entries && LeasedOrExpired(s, now, req, Acquire(s, now, req))
  {
    HasEntry(s, req.token);
    IssuedLeads(s, now, req);
    LeaseFromTick(s, now, req);
  }

  lemma IssuedLeads(s: Room, now: Millis, req: AcquireRequest)
    requires Open(s) && req.token in s.tokens && AskedFor(s.tokens[req.token], req) && s.tokens[req.token].status == TokenIssued
    ensures Acquire(s, now, req) == GrantOrExpire(Tick(s, now), req)
  {
  }

  lemma LeaseFromTick(s: Room, now: Millis, req: AcquireRequest)
    requires TokenOk(s, req.token) && req.token in s.tokens && AskedFor(s.tokens[req.token], req)
    requires s.tokens[req.token].status == TokenIssued
    ensures LeasedOrExpired(s, now, req, GrantOrExpire(Tick(s, now), req))
  {
    var m := Tick(s, now);
    GrantsOrExpires(m, now, req);
    if s.tokens[req.token].expiry < now + s.limits.lease {
      EndedThen(s, m, GrantOrExpire(m, req).room, req.token, TokenExpired, EntryExpired, now + 60000);
    }
  }

  /** The open lease is waited for; after it, a pending cancel wins, and otherwise the token can be
      leased again. */
  ghost predicate ProcessingAnswer(s: Room, now: Millis, req: AcquireRequest, out: Outcome)
    requires req.token in s.tokens && s.tokens[req.token].entry in s.entries && s.tokens[req.token].lease.Some?
  {
    var k := s.tokens[req.token];
    if now < k.lease.value.deadline then
      out.reply == RetryAfter(k.lease.value.deadline - now) && OnlyTime(s, now, out.room)
    else if k.cancelRequested then
      && out.reply == Refused(AlreadyTerminal) && out.room.clock == now
      && Ended(s, out.room, req.token, TokenCancelled, EntryCancelled, Tombstone(k.expiry, now))
    else LeasedOrExpired(s, now, req, out)
  }

  /** Of a processing token. */
  lemma AcquireProcessing(s: Room, now: Millis, req: AcquireRequest)
    requires AllOk(s) && Open(s) && req.token in s.tokens && AskedFor(s.tokens[req.token], req)
    requires s.tokens[req.token].status == TokenProcessing
    ensures s.tokens[req.token].lease.Some? && s.tokens[req.token].entry in s.entries
    ensures ProcessingAnswer(s, now, req, Acquire(s, now, req))
  {
    HasEntry(s, req.token);
    ProcessingLeads(s, now, req);
    if s.tokens[req.token].lease.value.deadline <= now {
      if s.tokens[req.token].cancelRequested {
        TickEnds(s, now, req.token, TokenCancelled, EntryCancelled, KeepUntil(s.tokens[req.token], now));
      } else {
        RecoveredThenLeased(s, now, req);
      }
    }
  }

  lemma ProcessingLeads(s: Room, now: Millis, req: AcquireRequest)
    requires Open(s) && req.token in s.tokens && AskedFor(s.tokens[req.token], req) && s.tokens[req.token].status == TokenProcessing
    requires s.tokens[req.token].lease.Some?
    ensures var t, k, m := req.token, s.tokens[req.token], Tick(s, now);
            Acquire(s, now, req) ==
            if now < k.lease.value.deadline then Outcome(m, RetryAfter(k.lease.value.deadline - now))
            else if k.cancelRequested then Outcome(Close(m, t, TokenCancelled, KeepUntil(k, now)), Refused(AlreadyTerminal))
            else GrantOrExpire(Return(m, t, Recovered(t)), req)
  {
  }

  lemma RecoveredThenLeased(s: Room, now: Millis, req: AcquireRequest)
    requires TokenOk(s, req.token) && req.token in s.tokens && AskedFor(s.tokens[req.token], req)
    requires s.tokens[req.token].status == TokenProcessing && !s.tokens[req.token].cancelRequested
    ensures LeasedOrExpired(s, now, req, GrantOrExpire(Return(Tick(s, now), req.token, Recovered(req.token)), req))
  {
    var t, k := req.token, s.tokens[req.token];
    var m := Return(Tick(s, now), t, Recovered(t));
    var r := GrantOrExpire(m, req).room;
    assert m.tokens - {t} == s.tokens - {t} && m.leases - {TokenKey(t)} == s.leases - {TokenKey(t)};
    if now + s.limits.lease <= k.expiry {
      assert r.tokens - {t} == s.tokens - {t} && r.leases - {TokenKey(t)} == s.leases - {TokenKey(t)};
    } else {
      ClosingEnds(m, t, TokenExpired, EntryExpired, now + 60000);
      EndedThen(s, m, r, t, TokenExpired, EntryExpired, now + 60000);
    }
  }

  /** A consumed token allows a replay while it has not expired, and expires after that; an expired
      or cancelled one stays. */
  ghost predicate TerminalAnswer(s: Room, now: Millis, t: TokenHash, out: Outcome)
    requires t in s.tokens && s.tokens[t].entry in s.entries
  {
    var k := s.tokens[t];
    if k.status != TokenConsumed then out.reply == Refused(AlreadyTerminal) && OnlyTime(s, now, out.room)
    else if now < k.expiry then out.reply == ReplayAllowed && OnlyTime(s, now, out.room)
    else
      && out.reply == Refused(HasExpired) && out.room.clock == now
      && Ended(s, out.room, t, TokenExpired, EntryExpired, now + 60000)
  }

  lemma HasEntry(s: Room, t: TokenHash)
    requires AllOk(s) && t in s.tokens
    ensures TokenOk(s, t) && s.tokens[t].entry in s.entries
  {
  }

  /** Of a terminal token. */
  lemma AcquireTerminal(s: Room, now: Millis, req: AcquireRequest)
    requires AllOk(s) && Open(s) && req.token in s.tokens && AskedFor(s.tokens[req.token], req)
    requires s.tokens[req.token].status != TokenIssued && s.tokens[req.token].status != TokenProcessing
    ensures s.tokens[req.token].entry in s.entries && TerminalAnswer(s, now, req.token, Acquire(s, now, req))
  {
    HasEntry(s, req.token);
    TerminalCases(s, now, req);
  }

  lemma TerminalCases(s: Room, now: Millis, req: AcquireRequest)
    requires Open(s) && req.token in s.tokens && AskedFor(s.tokens[req.token], req) && TokenOk(s, req.token)
    requires s.tokens[req.token].status != TokenIssued && s.tokens[req.token].status != TokenProcessing
    ensures TerminalAnswer(s, now, req.token, Acquire(s, now, req))
  {
    if s.tokens[req.token].status != TokenConsumed {
      DeadToken(s, now, req);
    } else if now < s.tokens[req.token].expiry {
      EarlyReplay(s, now, req);
    } else {
      LateReplay(s, now, req);
      TickEnds(s, now, req.token, TokenExpired, EntryExpired, now + 60000);
    }
  }

  lemma DeadToken(s: Room, now: Millis, req: AcquireRequest)
    requires Open(s) && req.token in s.tokens && AskedFor(s.tokens[req.token], req)
    requires s.tokens[req.token].status == TokenExpired || s.tokens[req.token].status == TokenCancelled
    ensures Acquire(s, now, req).reply == Refused(AlreadyTerminal) && OnlyTime(s, now, Acquire(s, now, req).room)
  {
  }

  lemma EarlyReplay(s: Room, now: Millis, req: AcquireRequest)
    requires Open(s) && req.token in s.tokens && AskedFor(s.tokens[req.token], req)
    requires s.tokens[req.token].status == TokenConsumed && now < s.tokens[req.token].expiry
    ensures Acquire(s, now, req).reply == ReplayAllowed && OnlyTime(s, now, Acquire(s, now, req).room)
  {
  }

  lemma LateReplay(s: Room, now: Millis, req: AcquireRequest)
    requires Open(s) && req.token in s.tokens && AskedFor(s.tokens[req.token], req)
    requires s.tokens[req.token].status == TokenConsumed && s.tokens[req.token].expiry <= now
    ensures Acquire(s, now, req) == Outcome(Close(Tick(s, now), req.token, TokenExpired, now + 60000), Refused(HasExpired))
  {
  }

  lemma TickEnds(s: Room, now: Millis, t: TokenHash, status: TokenStatus, shown: EntryStatus, keepUntil: Millis)
    requires TokenOk(s, t) && t in s.tokens
    requires status == TokenExpired ==> shown == EntryExpired
    requires status == TokenCancelled ==> shown == EntryCancelled
    requires status == TokenConsumed ==> shown == EntryAdmitted
    requires status == TokenExpired || status == TokenCancelled || status == TokenConsumed
    ensures Ended(s, Close(Tick(s, now), t, status, keepUntil), t, status, shown, keepUntil)
  {
    var m := Tick(s, now);
    ClosingEnds(m, t, status, shown, keepUntil);
    EndedThen(s, m, Close(m, t, status, keepUntil), t, status, shown, keepUntil);
  }

  /** Over every run: a known token is refused as a mismatch exactly when the owner, the
      fingerprint, a field of the trip or an existing binding differs; and whoever is granted a
      lease, told to retry or allowed a replay asked for just what the token was issued for. */
  lemma AcquireComparesAll(states: seq<Room>, calls: seq<Call>, n: nat)
    requires IsRun(states, calls) && n < |calls| && calls[n].CallAcquire? && Open(states[n])
    ensures var s, req, reply := states[n], calls[n].acquire, Run1(states[n], calls[n]).reply;
            && (req.token in s.tokens ==>
                  (reply == Refused(Mismatch) <==> !AskedFor(s.tokens[req.token], req)))
            && (reply == Refused(Mismatch) ==> states[n + 1] == s)
            && (reply.Acquired? || reply == ReplayAllowed || reply.RetryAfter? ==>
                  req.token in s.tokens && AskedFor(s.tokens[req.token], req))
  {
    assert Takes(states, calls, n);
    AcquireRefuses(states[n], calls[n].now, calls[n].acquire);
  }

  // ------------------------------------------------------------------ release and finalize

  predicate SameBooking(k: Token, m: LeaseMutation) {
    && k.owner == m.owner && k.binding.Some?
    && k.binding.value.booking == m.binding.booking && k.binding.value.idempotency == m.binding.idempotency
  }

  /** The mutation presents the lease that is open. */
  predicate Presents(k: Token, m: LeaseMutation) {
    && k.status == TokenProcessing && k.lease.Some? && k.lease.value.holder == m.holder && k.generation == m.generation
  }

  /** When a release or a finalize is refused; then it changes nothing. */
  ghost predicate LeaseRefusals(s: Room, m: LeaseMutation, out: Outcome) {
    && (out.reply == Refused(NotFound) <==> m.token !in s.tokens)
    && (out.reply == Refused(Mismatch) <==> m.token in s.tokens && !SameBooking(s.tokens[m.token], m))
    && (out.reply == Refused(StaleLease) <==>
          m.token in s.tokens && SameBooking(s.tokens[m.token], m) && !Presents(s.tokens[m.token], m))
    && (out.reply.Refused? <==>
          m.token !in s.tokens || !SameBooking(s.tokens[m.token], m) || !Presents(s.tokens[m.token], m))
    && (out.reply.Refused? ==> out.room == s)
  }

  lemma ReleaseRefuses(s: Room, now: Millis, m: LeaseMutation, permanent: bool)
    requires Open(s)
    ensures LeaseRefusals(s, m, Release(s, now, m, permanent))
  {
  }

  lemma FinalizeRefuses(s: Room, now: Millis, m: LeaseMutation)
    requires Open(s)
    ensures LeaseRefusals(s, m, Finalize(s, now, m))
  {
  }

  /** The token is issued again: without lease, otherwise as it was, still inflight and no longer
      in the leases set; nothing else changes, not even the time. */
  ghost predicate GivenBack(s: Room, t: TokenHash, r: Room)
    requires t in s.tokens
  {
    var k := s.tokens[t];
    && OnlyAt(s, r, t, k.entry, k.owner) && r.clock == s.clock && r.entries == s.entries && r.users == s.users
    && r.inflight == s.inflight && t in r.inflight && r.inflight[t] == k.expiry
    && t in r.tokens && r.tokens[t] == k.(status := TokenIssued, lease := None, cancelRequested := false)
    && TokenKey(t) !in r.leases
    && k.entry in r.entries && r.entries[k.entry].status == EntryAdmitted
    && (s.clock < r.entries[k.entry].expiry ==> LinkedTo(r, k.owner, k.entry))
  }

  /** A release of the open lease gives the token back if and only if it is not permanent and no
      cancel was requested; otherwise the token is cancelled. */
  lemma ReleaseSettles(s: Room, now: Millis, m: LeaseMutation, permanent: bool)
    requires Consistent(s) && Open(s) && m.token in s.tokens
    requires SameBooking(s.tokens[m.token], m) && Presents(s.tokens[m.token], m)
    ensures s.tokens[m.token].entry in s.entries
    ensures var out, k := Release(s, now, m, permanent), s.tokens[m.token];
            && out.room.log == s.log + (if permanent || k.cancelRequested
                                        then [Settled(m.token, m.holder, m.generation), Closed(m.token, TokenCancelled)]
                                        else [Settled(m.token, m.holder, m.generation)])
            && if permanent || k.cancelRequested then
                 && out.reply == CancelledToken && out.room.clock == now
                 && Ended(s, out.room, m.token, TokenCancelled, EntryCancelled, Tombstone(k.expiry, now))
               else out.reply == Released && GivenBack(s, m.token, out.room)
  {
    assert TokenOk(s, m.token);
    if permanent || s.tokens[m.token].cancelRequested {
      ReleaseCancels(s, now, m, permanent);
    } else {
      ReleaseReturns(s, now, m);
    }
  }

  lemma ReleaseCancels(s: Room, now: Millis, m: LeaseMutation, permanent: bool)
    requires TokenOk(s, m.token) && Open(s) && m.token in s.tokens
    requires SameBooking(s.tokens[m.token], m) && Presents(s.tokens[m.token], m) && (permanent || s.tokens[m.token].cancelRequested)
    ensures var out := Release(s, now, m, permanent);
            && out.reply == CancelledToken && out.room.clock == now
            && Ended(s, out.room, m.token, TokenCancelled, EntryCancelled, Tombstone(s.tokens[m.token].expiry, now))
            && out.room.log == s.log + [Settled(m.token, m.holder, m.generation), Closed(m.token, TokenCancelled)]
  {
    SettlingEnds(s, now, m.token, TokenCancelled, EntryCancelled);
  }

  lemma ReleaseReturns(s: Room, now: Millis, m: LeaseMutation)
    requires Consistent(s) && Open(s) && m.token in s.tokens
    requires SameBooking(s.tokens[m.token], m) && Presents(s.tokens[m.token], m) && !s.tokens[m.token].cancelRequested
    ensures var out := Release(s, now, m, false);
            && out.reply == Released && GivenBack(s, m.token, out.room)
            && out.room.log == s.log + [Settled(m.token, m.holder, m.generation)]
  {
    assert TokenOk(s, m.token) && EntryOk(s, s.tokens[m.token].entry);
    ReturnGivesBack(s, m.token, Settled(m.token, m.holder, m.generation));
  }

  lemma ReturnGivesBack(s: Room, t: TokenHash, why: Event)
    requires TokenOk(s, t) && t in s.tokens && s.tokens[t].status == TokenProcessing && EntryOk(s, s.tokens[t].entry)
    ensures GivenBack(s, t, Return(s, t, why))
  {
    var r := Return(s, t, why);
    assert r.tokens - {t} == s.tokens - {t};
    assert r.leases - {TokenKey(t)} == s.leases - {TokenKey(t)};
  }

  lemma SettlingEnds(s: Room, now: Millis, t: TokenHash, status: TokenStatus, shown: EntryStatus)
    requires TokenOk(s, t) && t in s.tokens && s.tokens[t].lease.Some?
    requires (status == TokenCancelled && shown == EntryCancelled) || (status == TokenConsumed && shown == EntryAdmitted)
    ensures Ended(s, Close(Settle(Tick(s, now), t), t, status, KeepUntil(s.tokens[t], now)), t, status, shown,
                  Tombstone(s.tokens[t].expiry, now))
  {
    var m, keepUntil := Settle(Tick(s, now), t), KeepUntil(s.tokens[t], now);
    ClosingEnds(m, t, status, shown, keepUntil);
    EndedThen(s, m, Close(m, t, status, keepUntil), t, status, shown, keepUntil);
  }

  /** A finalize of the open lease consumes the token, even when a cancel is pending: its entry
      stays admitted, and its owner is free. */
  lemma FinalizeConsumes(s: Room, now: Millis, m: LeaseMutation)
    requires Consistent(s) && Open(s) && m.token in s.tokens
    requires SameBooking(s.tokens[m.token], m) && Presents(s.tokens[m.token], m)
    ensures s.tokens[m.token].entry in s.entries
    ensures var out, k := Finalize(s, now, m), s.tokens[m.token];
            && out.reply == Finalized && out.room.clock == now
            && Ended(s, out.room, m.token, TokenConsumed, EntryAdmitted, Tombstone(k.expiry, now))
            && out.room.log == s.log + [Settled(m.token, m.holder, m.generation), Closed(m.token, TokenConsumed)]
  {
    assert TokenOk(s, m.token);
    SettlingEnds(s, now, m.token, TokenConsumed, EntryAdmitted);
  }

  // ------------------------------------------------------------------ repair

  /** A repair needs the continuity marker, the token, its owner and its booking, and nothing else:
      then the token is consumed, whatever it was. */
  lemma RepairSettles(s: Room, now: Millis, t: TokenHash, owner: OwnerHash, binding: Binding)
    requires Consistent(s)
    ensures var out := FinalizeCommitted(s, now, t, owner, binding);
            if s.continuity != Some(s.version) then out == Outcome(s, Refused(ContinuityLost))
            else if t !in s.tokens then out == Outcome(s, Refused(NotFound))
            else if s.tokens[t].owner != owner || s.tokens[t].binding.None? || s.tokens[t].binding.value.booking != binding.booking
                    || s.tokens[t].binding.value.idempotency != binding.idempotency then out == Outcome(s, Refused(Mismatch))
            else
              && s.tokens[t].entry in s.entries && out.reply == Finalized && out.room.clock == now
              && Ended(s, out.room, t, TokenConsumed, EntryAdmitted, Tombstone(s.tokens[t].expiry, now))
              && out.room.log == s.log + [Closed(t, TokenConsumed)]
  {
    assert TokenOk(s, t);
    if t in s.tokens {
      TickEnds(s, now, t, TokenConsumed, EntryAdmitted, KeepUntil(s.tokens[t], now));
    }
  }

  // ------------------------------------------------------------------ closed generations

  /** When a marker is missing or shows another version, every script but the repair refuses, the
      policy marker before the continuity marker, and changes nothing; and never otherwise. */
  lemma ClosedRefuses(s: Room, c: Call)
    requires !c.CallRepair? && !c.CallMarkers?
    ensures s.policyMarker != Some(s.version) ==> Run1(s, c) == Outcome(s, Refused(PolicyMismatch))
    ensures s.policyMarker == Some(s.version) && s.continuity != Some(s.version) ==>
              Run1(s, c) == Outcome(s, Refused(ContinuityLost))
    ensures Open(s) ==> Run1(s, c).reply != Refused(PolicyMismatch) && Run1(s, c).reply != Refused(ContinuityLost)
  {
    match c
    case CallJoin(now, e, o, f, trip) => OpenJoin(s, now, e, o, f, trip);
    case CallAcquire(now, req) => OpenAcquire(s, now, req);
    case _ =>
  }

  lemma OpenJoin(s: Room, now: Millis, e: EntryId, o: OwnerHash, f: Digest, trip: Trip)
    ensures Open(s) ==> var reply := Join(s, now, e, o, f, trip).reply;
                        reply != Refused(PolicyMismatch) && reply != Refused(ContinuityLost)
  {
  }

  lemma OpenAcquire(s: Room, now: Millis, req: AcquireRequest)
    ensures Open(s) ==> var reply := Acquire(s, now, req).reply;
                        reply != Refused(PolicyMismatch) && reply != Refused(ContinuityLost)
  {
  }
}
