/**
 How final the terminal statuses are. A terminal token stays terminal, but a consumed one may
 become expired and an expired or cancelled one may become consumed. This is exactly when,
 for every call and over whole runs, with runs in which it happens.
 */
module RoomTerminal {
  import opened RoomState
  import opened RoomSteps
  import opened RoomInvariant
  import opened RoomHistory
  import opened RoomLife
  import opened RoomScripts
  import opened RoomPaths
  import opened RoomRuns
  import opened RoomTheorems
  import opened RoomTokens

  /** An acquire of the token by its owner for its booking, or a poll of its entry by its owner,
      that comes at or after the token's expiry. */
  predicate RunsOut(s: Room, c: Call, t: TokenHash)
    requires t in s.tokens
  {
    && Guard(s).None?
    && (|| (c.CallAcquire? && c.acquire.token == t && Binds(s.tokens[t], c.acquire) && s.tokens[t].expiry <= c.now)
        || (c.CallGet? && c.entry == s.tokens[t].entry && c.owner == s.tokens[t].owner && s.tokens[t].expiry <= c.now))
  }

  /** A repair of the token for its own owner and booking while the continuity marker is there. */
  predicate Repairs(s: Room, c: Call, t: TokenHash)
    requires t in s.tokens
  {
    && s.continuity == Some(s.version) && c.CallRepair? && c.token == t
    && c.owner == s.tokens[t].owner && s.tokens[t].binding == Some(c.binding)
  }

  /** The status a terminal token has after the call, if it is still there. */
  function SettledStatus(s: Room, c: Call, t: TokenHash): TokenStatus
    requires t in s.tokens
  {
    if s.tokens[t].status == TokenConsumed && RunsOut(s, c, t) then TokenExpired
    else if s.tokens[t].status != TokenConsumed && Repairs(s, c, t) then TokenConsumed
    else s.tokens[t].status
  }

  ghost predicate SettlesAs(s: Room, r: Room, t: TokenHash, status: TokenStatus) {
    t in r.tokens ==> r.tokens[t].status == status
  }

  // ------------------------------------------------------------------ the loops leave it alone

  /** Reaping deletes a terminal token or leaves it alone. */
  lemma {:induction false} ReapsSettle(s: Room, batch: seq<LeaseKey>, retention: Millis, t: TokenHash)
    requires t in s.tokens ==> Terminal(s.tokens[t].status)
    ensures var r := ReapLeases(s, batch, retention);
            t in r.tokens ==> t in s.tokens && r.tokens[t].status == s.tokens[t].status
    decreases |batch|
  {
    if batch != [] {
      ReapSettles(s, batch[0], retention, t);
      ReapsSettle(ReapLease(s, batch[0], retention), batch[1..], retention, t);
    }
  }

  lemma ReapSettles(s: Room, key: LeaseKey, retention: Millis, t: TokenHash)
    requires t in s.tokens ==> Terminal(s.tokens[t].status)
    ensures var r := ReapLease(s, key, retention);
            t in r.tokens ==> t in s.tokens && r.tokens[t].status == s.tokens[t].status
  {
  }

  lemma {:induction false} ExpiriesSettle(s: Room, batch: seq<TokenHash>, retention: Millis, t: TokenHash)
    requires t in s.tokens ==> Terminal(s.tokens[t].status)
    ensures var r := ExpireInflights(s, batch, retention);
            t in r.tokens ==> t in s.tokens && r.tokens[t].status == s.tokens[t].status
    decreases |batch|
  {
    if batch != [] {
      ExpiriesSettle(ExpireInflight(s, batch[0], retention), batch[1..], retention, t);
    }
  }

  /** An issue or maintenance call deletes a terminal token or leaves it alone. */
  lemma IssueSettles(s: Room, now: Millis, req: IssueRequest, lb: seq<LeaseKey>, tb: seq<TokenHash>, t: TokenHash)
    requires t in s.tokens && Terminal(s.tokens[t].status) && !Among(req.candidates, t)
    ensures SettlesAs(s, Issue(s, now, req, lb, tb).room, t, s.tokens[t].status)
  {
    if Guard(s).None? {
      var retention := MaxMs(req.tokenTtl, TOMBSTONE_MS);
      var s0 := Tick(s, now);
      var s1 := ReapLeases(s0, lb, retention);
      ReapsSettle(s0, lb, retention, t);
      var s2 := ExpireInflights(s1, tb, retention);
      ExpiriesSettle(s1, tb, retention, t);
      LapsesDerived(s2, Head(s2.queue, req.cleanup), t);
      var m := Cleanup(s0, req, lb, tb);
      AdmitsDerived(m, Head(m.queue, Capacity(m, req)), req.candidates, req.tokenTtl, t);
    }
  }

  // ------------------------------------------------------------------ the other calls

  lemma JoinSettles(s: Room, now: Millis, e: EntryId, o: OwnerHash, f: Digest, trip: Trip)
    ensures Join(s, now, e, o, f, trip).room.tokens == s.tokens
  {
    LapsesDerived(Tick(s, now), Head(s.queue, JOIN_CLEANUP), 0);
  }

  lemma GetSettles(s: Room, c: Call, t: TokenHash)
    requires AllOk(s) && c.CallGet? && t in s.tokens && Terminal(s.tokens[t].status)
    ensures SettlesAs(s, Run1(s, c).room, t, SettledStatus(s, c, t))
  {
    assert TokenOk(s, t) && EntryOk(s, c.entry);
  }

  lemma CancelSettles(s: Room, c: Call, t: TokenHash)
    requires AllOk(s) && c.CallCancel? && t in s.tokens && Terminal(s.tokens[t].status)
    ensures SettlesAs(s, Run1(s, c).room, t, SettledStatus(s, c, t))
  {
    assert TokenOk(s, t) && EntryOk(s, c.entry);
  }

  ghost predicate Untouched(s: Room, r: Room, t: TokenHash) {
    t in s.tokens && t in r.tokens && r.tokens[t] == s.tokens[t]
  }

  lemma GrantOther(s: Room, req: AcquireRequest, t: TokenHash)
    requires req.token in s.tokens && t in s.tokens && req.token != t
    ensures Untouched(s, GrantOrExpire(s, req).room, t)
  {
  }

  lemma AcquireOther(s: Room, now: Millis, req: AcquireRequest, t: TokenHash)
    requires t in s.tokens && req.token != t
    ensures Untouched(s, Acquire(s, now, req).room, t)
  {
    if Guard(s).None? && req.token in s.tokens && Binds(s.tokens[req.token], req) {
      var s1 := Tick(s, now);
      match s1.tokens[req.token].status
      case TokenIssued => GrantOther(s1, req, t);
      case TokenProcessing => GrantOther(Return(s1, req.token, Recovered(req.token)), req, t);
      case _ =>
    }
  }

  lemma AcquireOwn(s: Room, now: Millis, req: AcquireRequest)
    requires req.token in s.tokens && Terminal(s.tokens[req.token].status)
    ensures SettlesAs(s, Acquire(s, now, req).room, req.token, SettledStatus(s, CallAcquire(now, req), req.token))
  {
  }

  lemma AcquireSettles(s: Room, c: Call, t: TokenHash)
    requires c.CallAcquire? && t in s.tokens && Terminal(s.tokens[t].status)
    ensures SettlesAs(s, Run1(s, c).room, t, SettledStatus(s, c, t))
  {
    if c.acquire.token == t {
      AcquireOwn(s, c.now, c.acquire);
    } else {
      AcquireOther(s, c.now, c.acquire, t);
    }
  }

  /** A terminal token has no lease that a release or a finalize could present. */
  lemma LeaseRefused(s: Room, m: LeaseMutation)
    requires m.token in s.tokens && Terminal(s.tokens[m.token].status)
    ensures LeaseCheck(s, m).Some?
  {
  }

  lemma LeaseCallSettles(s: Room, c: Call, t: TokenHash)
    requires (c.CallRelease? || c.CallFinalize?) && t in s.tokens && Terminal(s.tokens[t].status)
    ensures SettlesAs(s, Run1(s, c).room, t, SettledStatus(s, c, t))
  {
    if c.mutation.token == t {
      LeaseRefused(s, c.mutation);
      assert Run1(s, c).room == s;
    } else {
      LeaseCallOther(s, c, t);
    }
  }

  lemma LeaseCallOther(s: Room, c: Call, t: TokenHash)
    requires (c.CallRelease? || c.CallFinalize?) && c.mutation.token != t && t in s.tokens
    ensures t in Run1(s, c).room.tokens && Run1(s, c).room.tokens[t] == s.tokens[t]
  {
  }

  lemma RepairSettles(s: Room, c: Call, t: TokenHash)
    requires c.CallRepair? && t in s.tokens && Terminal(s.tokens[t].status)
    ensures SettlesAs(s, Run1(s, c).room, t, SettledStatus(s, c, t))
  {
  }

  /** The status of a terminal token after any call, if the call does not delete it: consumed
      becomes expired exactly by a call that comes after the expiry, expired and cancelled
      become consumed exactly by a repair, and nothing else changes. */
  lemma TerminalSettles(s: Room, c: Call, t: TokenHash)
    requires Inv(s) && Legal(s, c) && t in s.tokens && Terminal(s.tokens[t].status)
    ensures SettlesAs(s, Run1(s, c).room, t, SettledStatus(s, c, t))
  {
    match c
    case CallJoin(now, e, o, f, trip) => JoinSettles(s, now, e, o, f, trip);
    case CallGet(_, _, _, _) => GetSettles(s, c, t);
    case CallCancel(_, _) => CancelSettles(s, c, t);
    case CallIssue(now, req, lb, tb) =>
      OldNotAmong(s, req.candidates, t);
      IssueSettles(s, now, req, lb, tb, t);
    case CallAcquire(_, _) => AcquireSettles(s, c, t);
    case CallRelease(_, _, _) => LeaseCallSettles(s, c, t);
    case CallFinalize(_, _) => LeaseCallSettles(s, c, t);
    case CallRepair(_, _, _, _) => RepairSettles(s, c, t);
    case CallMarkers(_, _) =>
  }

  /** Candidates are new, so no token in the table is among them. */
  lemma OldNotAmong(s: Room, cs: seq<Candidate>, t: TokenHash)
    requires Inv(s) && FreshCandidates(s.log, cs) && t in s.tokens
    ensures !Among(cs, t)
  {
    assert TokenTale(s, t);
    var ev :| ev in s.log && ev.Admitted? && ev.token == t;
  }

  /** Consumed is left, with the token still there, if and only if an acquire or a poll comes
      after the expiry. */
  lemma ConsumedLeftExactly(s: Room, c: Call, t: TokenHash)
    requires Inv(s) && Legal(s, c) && IsConsumed(s, t) && t in Run1(s, c).room.tokens
    ensures Run1(s, c).room.tokens[t].status != TokenConsumed <==> RunsOut(s, c, t)
  {
    TerminalSettles(s, c, t);
  }

  /** Expired or cancelled becomes consumed if and only if a matching repair runs. */
  lemma ConsumedLateExactly(s: Room, c: Call, t: TokenHash)
    requires Inv(s) && Legal(s, c) && t in s.tokens && t in Run1(s, c).room.tokens
    requires s.tokens[t].status == TokenExpired || s.tokens[t].status == TokenCancelled
    ensures Run1(s, c).room.tokens[t].status == TokenConsumed <==> Repairs(s, c, t)
  {
    TerminalSettles(s, c, t);
  }

  // ------------------------------------------------------------------ whole runs

  /** The call changes the status of the terminal token. */
  ghost predicate Unsettles(s: Room, c: Call, t: TokenHash) {
    t in s.tokens && SettledStatus(s, c, t) != s.tokens[t].status
  }

  ghost predicate StaysFrom(states: seq<Room>, t: TokenHash, i: nat, j: nat)
    requires i <= j < |states| && t in states[i].tokens
  {
    forall k :: i <= k <= j ==> t in states[k].tokens && states[k].tokens[t].status == states[i].tokens[t].status
  }

  /** Over a stretch of a run in which a terminal token is not deleted: its status never changes
      if and only if none of the calls is one that changes it. */
  lemma TerminalIsFinalExactly(states: seq<Room>, calls: seq<Call>, i: nat, j: nat, t: TokenHash)
    requires IsRun(states, calls) && i <= j < |states| && t in states[j].tokens
    requires t in states[i].tokens && Terminal(states[i].tokens[t].status)
    ensures StaysFrom(states, t, i, j) <==> forall k :: i <= k < j ==> !Unsettles(states[k], calls[k], t)
  {
    forall k | i <= k <= j ensures t in states[k].tokens && Terminal(states[k].tokens[t].status) {
      TokenLifeIsOneWay(states, calls, i, k, j, t);
    }
    forall k | i <= k < j ensures states[k + 1].tokens[t].status == SettledStatus(states[k], calls[k], t) {
      assert t in states[k].tokens && t in states[k + 1].tokens;
      RunSettles(states, calls, k, t);
    }
    StaysOrMoves(states, calls, i, j, t);
  }

  lemma RunSettles(states: seq<Room>, calls: seq<Call>, k: nat, t: TokenHash)
    requires IsRun(states, calls) && k < |calls| && t in states[k].tokens && t in states[k + 1].tokens
    requires Terminal(states[k].tokens[t].status)
    ensures states[k + 1].tokens[t].status == SettledStatus(states[k], calls[k], t)
  {
    RunInv(states, calls, k);
    assert Takes(states, calls, k);
    TerminalSettles(states[k], calls[k], t);
  }

  lemma {:induction false} StaysOrMoves(states: seq<Room>, calls: seq<Call>, i: nat, j: nat, t: TokenHash)
    requires i <= j < |states| == |calls| + 1
    requires forall k :: i <= k <= j ==> t in states[k].tokens
    requires forall k :: i <= k < j ==> states[k + 1].tokens[t].status == SettledStatus(states[k], calls[k], t)
    ensures StaysFrom(states, t, i, j) <==> forall k :: i <= k < j ==> !Unsettles(states[k], calls[k], t)
    decreases j
  {
    if i < j {
      StaysOrMoves(states, calls, i, j - 1, t);
      assert states[(j - 1) + 1].tokens[t].status == SettledStatus(states[j - 1], calls[j - 1], t);
      if StaysFrom(states, t, i, j) {
        assert StaysFrom(states, t, i, j - 1);
        assert states[j].tokens[t].status == states[j - 1].tokens[t].status;
      }
      if forall k :: i <= k < j ==> !Unsettles(states[k], calls[k], t) {
        assert StaysFrom(states, t, i, j - 1) && !Unsettles(states[j - 1], calls[j - 1], t);
      }
    }
  }
}
