/**
 The calls that clients and workers make, what the environment guarantees of each, and the
 proof that every legal call is a path of steps. Runs are sequences of these calls; the
 theorems about them are in module RoomTheorems.
 */
module RoomRuns {
  import opened RoomState
  import opened RoomSteps
  import opened RoomInvariant
  import opened RoomHistory
  import opened RoomOrder
  import opened RoomLife
  import opened RoomScripts
  import opened RoomPaths
  import opened RoomFifo

  datatype Call =
    | CallJoin(now: Millis, entry: EntryId, owner: OwnerHash, fingerprint: Digest, trip: Trip)
    | CallGet(now: Millis, entry: EntryId, owner: OwnerHash, claim: bool)
    | CallCancel(entry: EntryId, owner: OwnerHash)
    | CallIssue(now: Millis, req: IssueRequest, leaseBatch: seq<LeaseKey>, tokenBatch: seq<TokenHash>)
    | CallAcquire(now: Millis, acquire: AcquireRequest)
    | CallRelease(now: Millis, mutation: LeaseMutation, permanent: bool)
    | CallFinalize(now: Millis, mutation: LeaseMutation)
    | CallRepair(now: Millis, token: TokenHash, owner: OwnerHash, binding: Binding)
    | CallMarkers(policyMarker: Option<int>, continuity: Option<int>)

  function Run1(s: Room, c: Call): Outcome {
    match c
    case CallJoin(now, e, o, f, trip) => Join(s, now, e, o, f, trip)
    case CallGet(now, e, o, claim) => Get(s, now, e, o, claim)
    case CallCancel(e, o) => Cancel(s, e, o)
    case CallIssue(now, req, lb, tb) => Issue(s, now, req, lb, tb)
    case CallAcquire(now, req) => Acquire(s, now, req)
    case CallRelease(now, m, permanent) => Release(s, now, m, permanent)
    case CallFinalize(now, m) => Finalize(s, now, m)
    case CallRepair(now, t, o, b) => FinalizeCommitted(s, now, t, o, b)
    case CallMarkers(p, c) => Outcome(Remark(s, p, c), Released)
  }

  /** An issue call with this policy's limits, or a maintenance call. */
  ghost predicate GoodRequest(s: Room, req: IssueRequest) {
    && 1 <= req.cleanup
    && req.rate <= s.limits.rate && req.maxInflight <= s.limits.maxInflight
    && FreshCandidates(s.log, req.candidates)
  }

  /** What the environment guarantees of a call: Redis time does not run back, and
      entry ids and token hashes are new. */
  ghost predicate Legal(s: Room, c: Call) {
    match c
    case CallJoin(now, e, _, _, _) => s.clock <= now && FreshEntry(s.log, e)
    case CallGet(now, _, _, _) => s.clock <= now
    case CallCancel(_, _) => true
    case CallIssue(now, req, lb, tb) => s.clock <= now && GoodRequest(s, req) && Batches(Tick(s, now), req, lb, tb)
    case CallAcquire(now, _) => s.clock <= now
    case CallRelease(now, _, _) => s.clock <= now
    case CallFinalize(now, _) => s.clock <= now
    case CallRepair(now, _, _, _) => s.clock <= now
    case CallMarkers(_, _) => true
  }

  /** Candidates that the worker built: one time, genuine bindings. */
  ghost predicate InOrderCall(s: Room, c: Call) {
    c.CallIssue? ==> Uniform(c.req.candidates) && forall i :: 0 <= i < |c.req.candidates| ==> Proper(s, c.req.candidates[i])
  }

  // ------------------------------------------------------------------ every call is a path

  lemma JoinPath(s: Room, now: Millis, e: EntryId, o: OwnerHash, f: Digest, trip: Trip, inOrder: bool)
    requires Consistent(s) && s.clock <= now && FreshEntry(s.log, e) && e !in s.entries
    ensures Path(s, Join(s, now, e, o, f, trip).room, inOrder)
  {
    PathHere(s, inOrder);
    if Guard(s).None? {
      var s1 := Tick(s, now);
      TickPath(s, now, inOrder);
      PathConsistent(s, s1, inOrder);
      var q := Head(s1.queue, JOIN_CLEANUP);
      var s2 := LapseAll(s1, q);
      LapseAllPath(s1, q, inOrder);
      PathJoin(s, s1, s2, inOrder);
      PathConsistent(s, s2, inOrder);
      LapseAllFrame(s1, q, e);
      if !HoldsPlace(s2, o) {
        JoinTail(s, s2, e, o, f, trip, inOrder);
      }
    }
  }

  /** Cleaning up invents no entry and no join. */
  lemma {:induction false} LapseAllFrame(s: Room, q: seq<EntryId>, e: EntryId)
    requires FreshEntry(s.log, e) && e !in s.entries
    ensures FreshEntry(LapseAll(s, q).log, e) && e !in LapseAll(s, q).entries
    ensures LapseAll(s, q).clock == s.clock && LapseAll(s, q).limits == s.limits
    decreases |q|
  {
    if q != [] {
      LapseAllFrame(LapseIfStale(s, q[0]), q[1..], e);
    }
  }

  lemma JoinTail(s: Room, s2: Room, e: EntryId, o: OwnerHash, f: Digest, trip: Trip, inOrder: bool)
    requires Path(s, s2, inOrder) && Consistent(s2) && !HoldsPlace(s2, o)
    requires FreshEntry(s2.log, e) && e !in s2.entries
    ensures Path(s, DropLink(s2, o), inOrder)
    ensures |s2.queue| < s2.limits.maxQueue ==> Path(s, Enqueue(DropLink(s2, o), e, o, f, trip), inOrder)
  {
    var s3 := DropLink(s2, o);
    assert UserOk(s2, o);
    DropLinkPath(s2, o, inOrder);
    PathJoin(s, s2, s3, inOrder);
    if |s2.queue| < s2.limits.maxQueue {
      EnqueuePath(s3, e, o, f, trip, inOrder);
      PathJoin(s, s3, Enqueue(s3, e, o, f, trip), inOrder);
    }
  }

  lemma GetPath(s: Room, now: Millis, e: EntryId, o: OwnerHash, claim: bool, inOrder: bool)
    requires Consistent(s) && s.clock <= now
    ensures Path(s, Get(s, now, e, o, claim).room, inOrder)
  {
    PathHere(s, inOrder);
    if Guard(s).None? && e in s.entries && s.entries[e].owner == o {
      var s1 := Tick(s, now);
      TickPath(s, now, inOrder);
      assert EntryOk(s, e);
      GetTail(s1, e, o, claim, inOrder);
      GetTicks(s, now, e, o, claim);
      PathJoin(s, s1, Get(s, now, e, o, claim).room, inOrder);
    }
  }

  lemma GetTicks(s: Room, now: Millis, e: EntryId, o: OwnerHash, claim: bool)
    requires Guard(s).None? && e in s.entries && s.entries[e].owner == o
    ensures Get(s, now, e, o, claim) == Get(Tick(s, now), now, e, o, claim)
  {
  }

  lemma GetTail(s: Room, e: EntryId, o: OwnerHash, claim: bool, inOrder: bool)
    requires Guard(s).None? && e in s.entries && s.entries[e].owner == o
    requires s.entries[e].status == EntryQueued ==> e in s.queue
    ensures Path(s, Get(s, s.clock, e, o, claim).room, inOrder)
  {
    var x := s.entries[e];
    PathHere(s, inOrder);
    if Stale(s, e) {
      LapsePath(s, e, s.clock + TOMBSTONE_MS, inOrder);
    } else if TokenRunOut(s, x) {
      ClosePath(s, x.token.value, TokenExpired, s.clock + TOMBSTONE_MS, inOrder);
    } else if claim && x.status == EntryAdmitted && x.token.Some? && x.token.value in s.tokens
              && !s.tokens[x.token.value].delivered {
      ClaimPath(s, x.token.value, inOrder);
    }
  }

  lemma CancelPath(s: Room, e: EntryId, o: OwnerHash, inOrder: bool)
    requires EntryOk(s, e)
    ensures Path(s, Cancel(s, e, o).room, inOrder)
  {
    PathHere(s, inOrder);
    if Guard(s).None? && e in s.entries && s.entries[e].owner == o {
      var x := s.entries[e];
      if x.status == EntryQueued {
        WithdrawPath(s, e, inOrder);
      } else if x.status == EntryAdmitted {
        var t := x.token.value;
        if s.tokens[t].status == TokenProcessing {
          RequestCancelPath(s, t, inOrder);
        } else if s.tokens[t].status == TokenIssued {
          ClosePath(s, t, TokenCancelled, s.tokens[t].expiry, inOrder);
        }
      }
    }
  }

  /** The state in which an issue call starts to admit. */
  ghost function Swept(s: Room, now: Millis, req: IssueRequest, lb: seq<LeaseKey>, tb: seq<TokenHash>): Room {
    Cleanup(Tick(s, now), req, lb, tb)
  }

  lemma SweptPath(s: Room, now: Millis, req: IssueRequest, lb: seq<LeaseKey>, tb: seq<TokenHash>, inOrder: bool)
    requires Consistent(s) && s.clock <= now && Batches(Tick(s, now), req, lb, tb)
    ensures Path(s, Swept(s, now, req, lb, tb), inOrder)
  {
    TickPath(s, now, inOrder);
    PathConsistent(s, Tick(s, now), inOrder);
    CleanupPath(Tick(s, now), req, lb, tb, inOrder);
    PathJoin(s, Tick(s, now), Swept(s, now, req, lb, tb), inOrder);
  }

  /** Cleanup admits nobody and changes no limits. */
  lemma SweptFrame(s: Room, now: Millis, req: IssueRequest, lb: seq<LeaseKey>, tb: seq<TokenHash>)
    ensures Swept(s, now, req, lb, tb).limits == s.limits
    ensures Swept(s, now, req, lb, tb).clock == now
    ensures forall t :: FreshToken(s.log, t) ==> FreshToken(Swept(s, now, req, lb, tb).log, t)
    ensures forall c :: Proper(s, c) ==> Proper(Swept(s, now, req, lb, tb), c)
  {
    var retention := MaxMs(req.tokenTtl, TOMBSTONE_MS);
    var s0 := Tick(s, now);
    var s1 := ReapLeases(s0, lb, retention);
    ReapLeasesFrame(s0, lb, retention);
    ExpireInflightsFrame(s1, tb, retention);
    var s2 := ExpireInflights(s1, tb, retention);
    var s3 := LapseAll(s2, Head(s2.queue, req.cleanup));
    LapseAllFresh(s2, Head(s2.queue, req.cleanup));
    forall c | Proper(s, c) ensures Proper(Swept(s, now, req, lb, tb), c) {
      assert Proper(s0, c) && Proper(s1, c) && Proper(s2, c) && Proper(s3, c);
    }
  }

  ghost predicate SameFresh(s: Room, r: Room) {
    && r.limits == s.limits && r.clock == s.clock
    && (forall t :: FreshToken(s.log, t) ==> FreshToken(r.log, t))
    && (forall c :: Proper(s, c) ==> Proper(r, c))
  }

  /** Tokens and entries only go away, and nobody is admitted. */
  ghost predicate Shrinks(s: Room, r: Room) {
    && r.limits == s.limits && r.clock == s.clock
    && (forall t :: t in r.tokens ==> t in s.tokens)
    && (forall e :: e in r.entries ==>
          e in s.entries && r.entries[e].owner == s.entries[e].owner && r.entries[e].fingerprint == s.entries[e].fingerprint)
    && (forall ev :: ev in r.log && ev.Admitted? ==> ev in s.log)
  }

  lemma ShrinksIsFresh(s: Room, r: Room)
    requires Shrinks(s, r)
    ensures SameFresh(s, r)
  {
  }

  lemma CloseShrinks(s: Room, t: TokenHash, status: TokenStatus, keepUntil: Millis)
    requires t in s.tokens
    ensures Shrinks(s, Close(s, t, status, keepUntil))
  {
  }

  lemma DeleteShrinks(s: Room, t: TokenHash)
    requires t in s.tokens
    ensures Shrinks(s, Delete(s, t)) && Shrinks(s, Return(s, t, Recovered(t)))
  {
  }

  lemma ReapLeaseFrame(s: Room, key: LeaseKey, retention: Millis)
    ensures SameFresh(s, ReapLease(s, key, retention))
  {
    if key.TokenKey? && key.token in s.tokens {
      CloseShrinks(s, key.token, TokenExpired, s.clock + retention);
      CloseShrinks(s, key.token, TokenCancelled, s.tokens[key.token].expiry);
      DeleteShrinks(s, key.token);
    }
    assert Shrinks(s, ReapLease(s, key, retention));
    ShrinksIsFresh(s, ReapLease(s, key, retention));
  }

  lemma {:induction false} ReapLeasesFrame(s: Room, batch: seq<LeaseKey>, retention: Millis)
    ensures SameFresh(s, ReapLeases(s, batch, retention))
    decreases |batch|
  {
    if batch != [] {
      ReapLeaseFrame(s, batch[0], retention);
      ReapLeasesFrame(ReapLease(s, batch[0], retention), batch[1..], retention);
    }
  }

  lemma {:induction false} ExpireInflightsFrame(s: Room, batch: seq<TokenHash>, retention: Millis)
    ensures SameFresh(s, ExpireInflights(s, batch, retention))
    decreases |batch|
  {
    if batch != [] {
      if batch[0] in s.tokens {
        CloseShrinks(s, batch[0], TokenExpired, s.clock + retention);
        DeleteShrinks(s, batch[0]);
      }
      assert Shrinks(s, ExpireInflight(s, batch[0], retention));
      ShrinksIsFresh(s, ExpireInflight(s, batch[0], retention));
      ExpireInflightsFrame(ExpireInflight(s, batch[0], retention), batch[1..], retention);
    }
  }

  lemma {:induction false} LapseAllFresh(s: Room, q: seq<EntryId>)
    ensures SameFresh(s, LapseAll(s, q))
    decreases |q|
  {
    if q != [] {
      assert SameFresh(s, LapseIfStale(s, q[0]));
      LapseAllFresh(LapseIfStale(s, q[0]), q[1..]);
    }
  }

  /** The capacity of an issue call leaves room for everybody it may admit. */
  lemma CapacityFits(s: Room, req: IssueRequest)
    requires Consistent(s) && req.rate <= s.limits.rate && req.maxInflight <= s.limits.maxInflight
    ensures RoomFor(s, |Head(s.queue, Capacity(s, req))|)
    ensures Head(s.queue, Capacity(s, req)) <= s.queue
  {
  }

  lemma IssuePath(s: Room, now: Millis, req: IssueRequest, lb: seq<LeaseKey>, tb: seq<TokenHash>)
    requires Consistent(s) && s.clock <= now && GoodRequest(s, req) && Batches(Tick(s, now), req, lb, tb)
    ensures Path(s, Issue(s, now, req, lb, tb).room, false)
  {
    PathHere(s, false);
    if Guard(s).None? {
      var m := Swept(s, now, req, lb, tb);
      SweptPath(s, now, req, lb, tb, false);
      PathConsistent(s, m, false);
      SweptFrame(s, now, req, lb, tb);
      CapacityFits(m, req);
      AdmitAllPath(m, Head(m.queue, Capacity(m, req)), req.candidates, req.tokenTtl);
      PathJoin(s, m, Issue(s, now, req, lb, tb).room, false);
    }
  }

  lemma GrantOrExpirePath(s: Room, req: AcquireRequest, inOrder: bool)
    requires req.token in s.tokens && Binds(s.tokens[req.token], req)
    requires s.tokens[req.token].status == TokenIssued
    ensures Path(s, GrantOrExpire(s, req).room, inOrder)
  {
    GrantOrExpireIs(s, req);
    if s.tokens[req.token].expiry - s.clock < s.limits.lease {
      ClosePath(s, req.token, TokenExpired, s.clock + TOMBSTONE_MS, inOrder);
    } else {
      GrantPath(s, req.token, req.binding, req.holder, s.clock + s.limits.lease, inOrder);
    }
  }

  lemma GrantOrExpireIs(s: Room, req: AcquireRequest)
    requires req.token in s.tokens
    ensures GrantOrExpire(s, req).room ==
            if s.tokens[req.token].expiry - s.clock < s.limits.lease
            then Close(s, req.token, TokenExpired, s.clock + TOMBSTONE_MS)
            else Grant(s, req.token, req.binding, req.holder, s.clock + s.limits.lease)
  {
  }

  lemma AcquirePath(s: Room, now: Millis, req: AcquireRequest, inOrder: bool)
    requires TokenOk(s, req.token) && s.clock <= now
    ensures Path(s, Acquire(s, now, req).room, inOrder)
  {
    PathHere(s, inOrder);
    var t := req.token;
    if Guard(s).None? && t in s.tokens && Binds(s.tokens[t], req) {
      var s1 := Tick(s, now);
      TickPath(s, now, inOrder);
      AcquireTail(s1, req, inOrder);
      PathJoin(s, s1, Acquire(s, now, req).room, inOrder);
    }
  }

  lemma AcquireTail(s: Room, req: AcquireRequest, inOrder: bool)
    requires TokenOk(s, req.token) && Guard(s).None? && req.token in s.tokens && Binds(s.tokens[req.token], req)
    ensures Path(s, Acquire(s, s.clock, req).room, inOrder)
  {
    match s.tokens[req.token].status
    case TokenIssued =>
      AcquireIssuedIs(s, req);
      GrantOrExpirePath(s, req, inOrder);
    case TokenProcessing => AcquireLeased(s, req, inOrder);
    case _ =>
      AcquireTerminalIs(s, req);
      AcquireTerminalPath(s, req, Acquire(s, s.clock, req).room, inOrder);
  }

  lemma AcquireIssuedIs(s: Room, req: AcquireRequest)
    requires Guard(s).None? && req.token in s.tokens && Binds(s.tokens[req.token], req)
    requires s.tokens[req.token].status == TokenIssued
    ensures Acquire(s, s.clock, req) == GrantOrExpire(s, req)
  {
    assert Tick(s, s.clock) == s;
  }

  /** A terminal token at most expires. */
  ghost predicate AtMostExpires(s: Room, t: TokenHash, r: Room) {
    t in s.tokens && (r == s || r == Close(s, t, TokenExpired, s.clock + TOMBSTONE_MS))
  }

  lemma AcquireTerminalIs(s: Room, req: AcquireRequest)
    requires Guard(s).None? && req.token in s.tokens && Binds(s.tokens[req.token], req) && Terminal(s.tokens[req.token].status)
    ensures AtMostExpires(s, req.token, Acquire(s, s.clock, req).room)
  {
    assert Tick(s, s.clock) == s;
  }

  lemma AcquireTerminalPath(s: Room, req: AcquireRequest, r: Room, inOrder: bool)
    requires AtMostExpires(s, req.token, r)
    ensures Path(s, r, inOrder)
  {
    if r == s {
      PathHere(s, inOrder);
    } else {
      ClosesTo(s, req.token, TokenExpired, s.clock + TOMBSTONE_MS, r, inOrder);
    }
  }

  lemma AcquireLeased(s: Room, req: AcquireRequest, inOrder: bool)
    requires Guard(s).None? && req.token in s.tokens && Binds(s.tokens[req.token], req)
    requires s.tokens[req.token].status == TokenProcessing && s.tokens[req.token].lease.Some?
    ensures Path(s, Acquire(s, s.clock, req).room, inOrder)
  {
    var t, k := req.token, s.tokens[req.token];
    if s.clock < k.lease.value.deadline {
      PathHere(s, inOrder);
    } else if k.cancelRequested {
      ClosePath(s, t, TokenCancelled, KeepUntil(k, s.clock), inOrder);
    } else {
      var m := Return(s, t, Recovered(t));
      RecoverPath(s, t, inOrder);
      GrantOrExpirePath(m, req, inOrder);
      PathJoin(s, m, GrantOrExpire(m, req).room, inOrder);
    }
  }

  lemma ReleasePath(s: Room, now: Millis, m: LeaseMutation, permanent: bool, inOrder: bool)
    requires s.clock <= now
    ensures Path(s, Release(s, now, m, permanent).room, inOrder)
  {
    PathHere(s, inOrder);
    if LeaseCheck(s, m).None? {
      var k := s.tokens[m.token];
      if permanent || k.cancelRequested {
        TickPath(s, now, inOrder);
        SettleClosePath(Tick(s, now), m.token, TokenCancelled, KeepUntil(k, now), inOrder);
        PathJoin(s, Tick(s, now), Release(s, now, m, permanent).room, inOrder);
      } else {
        SettleReturnPath(s, m.token, Settled(m.token, m.holder, m.generation), inOrder);
      }
    }
  }

  lemma FinalizePath(s: Room, now: Millis, m: LeaseMutation, inOrder: bool)
    requires s.clock <= now
    ensures Path(s, Finalize(s, now, m).room, inOrder)
  {
    PathHere(s, inOrder);
    if LeaseCheck(s, m).None? {
      TickPath(s, now, inOrder);
      SettleClosePath(Tick(s, now), m.token, TokenConsumed, KeepUntil(s.tokens[m.token], now), inOrder);
      PathJoin(s, Tick(s, now), Finalize(s, now, m).room, inOrder);
    }
  }

  lemma RepairPath(s: Room, now: Millis, t: TokenHash, o: OwnerHash, b: Binding, inOrder: bool)
    requires s.clock <= now
    ensures Path(s, FinalizeCommitted(s, now, t, o, b).room, inOrder)
  {
    PathHere(s, inOrder);
    if FinalizeCommitted(s, now, t, o, b).reply == Finalized {
      TickPath(s, now, inOrder);
      ClosePath(Tick(s, now), t, TokenConsumed, KeepUntil(s.tokens[t], now), inOrder);
      PathJoin(s, Tick(s, now), FinalizeCommitted(s, now, t, o, b).room, inOrder);
    }
  }

  lemma CallPath(s: Room, c: Call)
    requires Inv(s) && Legal(s, c)
    ensures Path(s, Run1(s, c).room, false)
  {
    match c
    case CallJoin(now, e, o, f, trip) => assert EntryTale(s, e); JoinPath(s, now, e, o, f, trip, false);
    case CallGet(now, e, o, claim) => GetPath(s, now, e, o, claim, false);
    case CallCancel(e, o) => assert EntryOk(s, e); CancelPath(s, e, o, false);
    case CallIssue(now, req, lb, tb) => IssuePath(s, now, req, lb, tb);
    case CallAcquire(now, req) => assert TokenOk(s, req.token); AcquirePath(s, now, req, false);
    case CallRelease(now, m, permanent) => ReleasePath(s, now, m, permanent, false);
    case CallFinalize(now, m) => FinalizePath(s, now, m, false);
    case CallRepair(now, t, o, b) => RepairPath(s, now, t, o, b, false);
    case CallMarkers(p, k) => RemarkPath(s, p, k, false);
  }

  /** With the worker's candidates, an issue call admits in queue order. */
  lemma IssueInOrder(s: Room, now: Millis, req: IssueRequest, lb: seq<LeaseKey>, tb: seq<TokenHash>)
    requires Consistent(s) && s.clock <= now && GoodRequest(s, req) && Batches(Tick(s, now), req, lb, tb)
    requires InOrderCall(s, CallIssue(now, req, lb, tb))
    ensures Path(s, Issue(s, now, req, lb, tb).room, true)
  {
    PathHere(s, true);
    if Guard(s).None? {
      var m := Swept(s, now, req, lb, tb);
      SweptPath(s, now, req, lb, tb, true);
      PathConsistent(s, m, true);
      SweptFrame(s, now, req, lb, tb);
      CapacityFits(m, req);
      var q := Head(m.queue, Capacity(m, req));
      UniformSkipFree(m, q, req.candidates, req.tokenTtl);
      SkipFreePath(m, q, req.candidates, req.tokenTtl);
      PathJoin(s, m, Issue(s, now, req, lb, tb).room, true);
    }
  }

  lemma CallInOrder(s: Room, c: Call)
    requires Inv(s) && Legal(s, c) && InOrderCall(s, c)
    ensures Path(s, Run1(s, c).room, true)
  {
    match c
    case CallJoin(now, e, o, f, trip) => assert EntryTale(s, e); JoinPath(s, now, e, o, f, trip, true);
    case CallGet(now, e, o, claim) => GetPath(s, now, e, o, claim, true);
    case CallCancel(e, o) => assert EntryOk(s, e); CancelPath(s, e, o, true);
    case CallIssue(now, req, lb, tb) => IssueInOrder(s, now, req, lb, tb);
    case CallAcquire(now, req) => assert TokenOk(s, req.token); AcquirePath(s, now, req, true);
    case CallRelease(now, m, permanent) => ReleasePath(s, now, m, permanent, true);
    case CallFinalize(now, m) => FinalizePath(s, now, m, true);
    case CallRepair(now, t, o, b) => RepairPath(s, now, t, o, b, true);
    case CallMarkers(p, k) => RemarkPath(s, p, k, true);
  }
}
