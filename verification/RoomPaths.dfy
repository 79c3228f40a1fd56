/**
 Every script is a path of steps. So whatever steps keep, scripts keep, in every
 interleaving of every number of callers.
 */
module RoomPaths {
  import opened RoomState
  import opened RoomSteps
  import opened RoomInvariant
  import opened RoomScripts

  lemma {:induction false} FollowsConsistent(s: Room, trail: Trail, r: Room, inOrder: bool)
    requires Consistent(s) && Follows(s, trail, r, inOrder)
    ensures Consistent(r)
    decreases trail
  {
    match trail
    case Here =>
    case Then(a, m, rest) =>
      StepConsistent(s, a);
      FollowsConsistent(m, rest, r, inOrder);
  }

  lemma PathConsistent(s: Room, r: Room, inOrder: bool)
    requires Consistent(s) && Path(s, r, inOrder)
    ensures Consistent(r)
  {
    var trail :| Follows(s, trail, r, inOrder);
    FollowsConsistent(s, trail, r, inOrder);
  }

  // ------------------------------------------------------------------ single steps

  lemma TickPath(s: Room, now: Millis, inOrder: bool)
    requires s.clock <= now
    ensures Path(s, Tick(s, now), inOrder)
  {
    StepPath(s, DoTick(now), inOrder);
  }

  lemma ClosePath(s: Room, t: TokenHash, status: TokenStatus, keepUntil: Millis, inOrder: bool)
    requires t in s.tokens && Terminal(status)
    ensures Path(s, Close(s, t, status, keepUntil), inOrder)
  {
    StepPath(s, DoClose(t, status, keepUntil), inOrder);
  }

  lemma SettleClosePath(s: Room, t: TokenHash, status: TokenStatus, keepUntil: Millis, inOrder: bool)
    requires t in s.tokens && s.tokens[t].lease.Some? && Terminal(status)
    ensures Path(s, Close(Settle(s, t), t, status, keepUntil), inOrder)
  {
    StepPath(s, DoSettleClose(t, status, keepUntil), inOrder);
  }

  lemma RecoverPath(s: Room, t: TokenHash, inOrder: bool)
    requires t in s.tokens && s.tokens[t].lease.Some? && !s.tokens[t].cancelRequested
    ensures Path(s, Return(s, t, Recovered(t)), inOrder)
  {
    StepPath(s, DoRecover(t), inOrder);
  }

  lemma SettleReturnPath(s: Room, t: TokenHash, why: Event, inOrder: bool)
    requires t in s.tokens && s.tokens[t].lease.Some? && !s.tokens[t].cancelRequested
    requires why == Settled(t, s.tokens[t].lease.value.holder, s.tokens[t].generation)
    ensures Path(s, Return(s, t, why), inOrder)
  {
    StepPath(s, DoSettleReturn(t), inOrder);
  }

  lemma DeletePath(s: Room, t: TokenHash, inOrder: bool)
    requires t in s.tokens && Terminal(s.tokens[t].status)
    ensures Path(s, Delete(s, t), inOrder)
  {
    StepPath(s, DoDelete(t), inOrder);
  }

  lemma BuryPath(s: Room, e: EntryId, inOrder: bool)
    requires EntryKey(e) in s.leases
    ensures Path(s, Bury(s, e), inOrder)
  {
    StepPath(s, DoBury(e), inOrder);
  }

  lemma LapsePath(s: Room, e: EntryId, keepUntil: Millis, inOrder: bool)
    requires e in s.entries && e in s.queue && s.entries[e].expiry <= s.clock
    ensures Path(s, Lapse(s, e, keepUntil), inOrder)
  {
    StepPath(s, DoLapse(e, keepUntil), inOrder);
  }

  lemma AdmitPath(s: Room, c: Candidate, inOrder: bool)
    requires Enabled(s, DoAdmit(c), inOrder)
    ensures Path(s, Admit(s, c), inOrder)
  {
    StepPath(s, DoAdmit(c), inOrder);
  }

  lemma WithdrawPath(s: Room, e: EntryId, inOrder: bool)
    requires e in s.entries && e in s.queue
    ensures Path(s, Withdraw(s, e), inOrder)
  {
    StepPath(s, DoWithdraw(e), inOrder);
  }

  lemma DropLinkPath(s: Room, o: OwnerHash, inOrder: bool)
    requires UserOk(s, o) && (o in s.users ==> s.entries[s.users[o]].expiry <= s.clock)
    ensures Path(s, DropLink(s, o), inOrder)
  {
    StepPath(s, DoDropLink(o), inOrder);
  }

  lemma EnqueuePath(s: Room, e: EntryId, o: OwnerHash, f: Digest, trip: Trip, inOrder: bool)
    requires e !in s.entries && FreshEntry(s.log, e) && o !in s.users && |s.queue| < s.limits.maxQueue
    ensures Path(s, Enqueue(s, e, o, f, trip), inOrder)
  {
    StepPath(s, DoEnqueue(e, o, f, trip), inOrder);
  }

  lemma GrantPath(s: Room, t: TokenHash, b: Binding, holder: LeaseOwner, deadline: Millis, inOrder: bool)
    requires t in s.tokens && s.tokens[t].status == TokenIssued && deadline <= s.tokens[t].expiry
    requires s.tokens[t].binding.Some? ==> s.tokens[t].binding.value == b
    ensures Path(s, Grant(s, t, b, holder, deadline), inOrder)
  {
    StepPath(s, DoGrant(t, b, holder, deadline), inOrder);
  }

  lemma RequestCancelPath(s: Room, t: TokenHash, inOrder: bool)
    requires t in s.tokens && s.tokens[t].status == TokenProcessing
    ensures Path(s, RequestCancel(s, t), inOrder)
  {
    StepPath(s, DoRequestCancel(t), inOrder);
  }

  lemma ClaimPath(s: Room, t: TokenHash, inOrder: bool)
    requires t in s.tokens && !s.tokens[t].delivered
    ensures Path(s, Claim(s, t), inOrder)
  {
    StepPath(s, DoClaim(t), inOrder);
  }

  lemma RemarkPath(s: Room, p: Option<int>, c: Option<int>, inOrder: bool)
    ensures Path(s, Remark(s, p, c), inOrder)
  {
    StepPath(s, DoRemark(p, c), inOrder);
  }

  lemma PrunePath(s: Room, inOrder: bool)
    ensures Path(s, Prune(s), inOrder)
  {
    StepPath(s, DoPrune, inOrder);
  }

  // ------------------------------------------------------------------ loops

  lemma LapseIfStalePath(s: Room, e: EntryId, inOrder: bool)
    requires EntryOk(s, e)
    ensures Path(s, LapseIfStale(s, e), inOrder)
  {
    LapseIfStaleIs(s, e);
    LapsesTo(s, e, LapseIfStale(s, e), inOrder);
  }

  lemma LapsesTo(s: Room, e: EntryId, r: Room, inOrder: bool)
    requires EntryOk(s, e)
    requires if Stale(s, e) then r == Lapse(s, e, s.clock + TOMBSTONE_MS) else r == s
    ensures Path(s, r, inOrder)
  {
    if Stale(s, e) {
      LapsePath(s, e, s.clock + TOMBSTONE_MS, inOrder);
    } else {
      PathHere(s, inOrder);
    }
  }

  lemma LapseIfStaleIs(s: Room, e: EntryId)
    ensures !Stale(s, e) ==> LapseIfStale(s, e) == s
    ensures Stale(s, e) ==> LapseIfStale(s, e) == Lapse(s, e, s.clock + TOMBSTONE_MS)
  {
  }

  lemma {:induction false} LapseAllPath(s: Room, q: seq<EntryId>, inOrder: bool)
    requires Consistent(s)
    ensures Path(s, LapseAll(s, q), inOrder)
    decreases |q|
  {
    if q == [] {
      PathHere(s, inOrder);
    } else {
      var m := LapseIfStale(s, q[0]);
      assert EntryOk(s, q[0]);
      LapseIfStalePath(s, q[0], inOrder);
      PathConsistent(s, m, inOrder);
      LapseAllPath(m, q[1..], inOrder);
      PathJoin(s, m, LapseAll(s, q), inOrder);
    }
  }

  lemma ReapTokenPath(s: Room, t: TokenHash, retention: Millis, inOrder: bool)
    requires TokenKey(t) in s.leases && TokenOk(s, t)
    ensures Path(s, ReapLease(s, TokenKey(t), retention), inOrder)
  {
    if s.tokens[t].status != TokenProcessing {
      DeletePath(s, t, inOrder);
    } else {
      ReapLeasedPath(s, t, retention, inOrder);
    }
  }

  lemma ReapLeasedPath(s: Room, t: TokenHash, retention: Millis, inOrder: bool)
    requires t in s.tokens && s.tokens[t].status == TokenProcessing && s.tokens[t].lease.Some?
    ensures Path(s, ReapLease(s, TokenKey(t), retention), inOrder)
  {
    var r := ReapLease(s, TokenKey(t), retention);
    if s.tokens[t].expiry <= s.clock {
      ReapExpires(s, t, retention);
      ClosesTo(s, t, TokenExpired, s.clock + retention, r, inOrder);
    } else if s.tokens[t].cancelRequested {
      ReapCancels(s, t, retention);
      ClosesTo(s, t, TokenCancelled, s.tokens[t].expiry, r, inOrder);
    } else {
      ReapRecovers(s, t, retention);
      RecoversTo(s, t, r, inOrder);
    }
  }

  lemma ClosesTo(s: Room, t: TokenHash, status: TokenStatus, keepUntil: Millis, r: Room, inOrder: bool)
    requires t in s.tokens && Terminal(status) && r == Close(s, t, status, keepUntil)
    ensures Path(s, r, inOrder)
  {
    ClosePath(s, t, status, keepUntil, inOrder);
  }

  lemma RecoversTo(s: Room, t: TokenHash, r: Room, inOrder: bool)
    requires t in s.tokens && s.tokens[t].lease.Some? && !s.tokens[t].cancelRequested && r == Return(s, t, Recovered(t))
    ensures Path(s, r, inOrder)
  {
    RecoverPath(s, t, inOrder);
  }

  lemma ReapExpires(s: Room, t: TokenHash, retention: Millis)
    requires t in s.tokens && s.tokens[t].status == TokenProcessing && s.tokens[t].expiry <= s.clock
    ensures ReapLease(s, TokenKey(t), retention) == Close(s, t, TokenExpired, s.clock + retention)
  {
  }

  lemma ReapCancels(s: Room, t: TokenHash, retention: Millis)
    requires t in s.tokens && s.tokens[t].status == TokenProcessing
    requires s.clock < s.tokens[t].expiry && s.tokens[t].cancelRequested
    ensures ReapLease(s, TokenKey(t), retention) == Close(s, t, TokenCancelled, s.tokens[t].expiry)
  {
  }

  lemma ReapRecovers(s: Room, t: TokenHash, retention: Millis)
    requires t in s.tokens && s.tokens[t].status == TokenProcessing
    requires s.clock < s.tokens[t].expiry && !s.tokens[t].cancelRequested
    ensures ReapLease(s, TokenKey(t), retention) == Return(s, t, Recovered(t))
  {
  }

  lemma ReapLeasePath(s: Room, key: LeaseKey, retention: Millis, inOrder: bool)
    requires Consistent(s) && key in s.leases
    ensures Path(s, ReapLease(s, key, retention), inOrder)
  {
    match key
    case EntryKey(e) =>
      BuryPath(s, e, inOrder);
    case TokenKey(t) =>
      assert TokenOk(s, t);
      ReapTokenPath(s, t, retention, inOrder);
  }

  /** Dealing with one lease member leaves the other members where they are. */
  lemma ReapLeaseOther(s: Room, key: LeaseKey, retention: Millis, other: LeaseKey)
    requires other in s.leases && other != key
    ensures other in ReapLease(s, key, retention).leases
  {
  }

  lemma {:induction false} ReapLeasesPath(s: Room, batch: seq<LeaseKey>, retention: Millis, inOrder: bool)
    requires Consistent(s)
    requires forall i :: 0 <= i < |batch| ==> batch[i] in s.leases
    requires forall i, j :: 0 <= i < j < |batch| ==> batch[i] != batch[j]
    ensures Path(s, ReapLeases(s, batch, retention), inOrder)
    decreases |batch|
  {
    if batch == [] {
      PathHere(s, inOrder);
    } else {
      var m := ReapLease(s, batch[0], retention);
      ReapLeasePath(s, batch[0], retention, inOrder);
      PathConsistent(s, m, inOrder);
      forall i | 0 <= i < |batch[1..]| ensures batch[1..][i] in m.leases {
        ReapLeaseOther(s, batch[0], retention, batch[1..][i]);
      }
      ReapLeasesPath(m, batch[1..], retention, inOrder);
      PathJoin(s, m, ReapLeases(s, batch, retention), inOrder);
    }
  }

  lemma ExpireInflightIs(s: Room, t: TokenHash, retention: Millis)
    requires t in s.tokens && Active(s.tokens[t].status)
    ensures ExpireInflight(s, t, retention) == Close(s, t, TokenExpired, s.clock + retention)
  {
  }

  lemma ExpireInflightOther(s: Room, t: TokenHash, retention: Millis)
    ensures forall u :: u in s.inflight && u != t ==> u in ExpireInflight(s, t, retention).inflight
  {
  }

  lemma ExpireInflightPath(s: Room, t: TokenHash, retention: Millis, inOrder: bool)
    requires t in s.inflight && TokenOk(s, t)
    ensures Path(s, ExpireInflight(s, t, retention), inOrder)
  {
    ExpireInflightIs(s, t, retention);
    ClosesTo(s, t, TokenExpired, s.clock + retention, ExpireInflight(s, t, retention), inOrder);
  }

  lemma {:induction false} ExpireInflightsPath(s: Room, batch: seq<TokenHash>, retention: Millis, inOrder: bool)
    requires Consistent(s)
    requires forall i :: 0 <= i < |batch| ==> batch[i] in s.inflight
    requires forall i, j :: 0 <= i < j < |batch| ==> batch[i] != batch[j]
    ensures Path(s, ExpireInflights(s, batch, retention), inOrder)
    decreases |batch|
  {
    if batch == [] {
      PathHere(s, inOrder);
    } else {
      var m := ExpireInflight(s, batch[0], retention);
      assert TokenOk(s, batch[0]);
      ExpireInflightPath(s, batch[0], retention, inOrder);
      ExpireInflightOther(s, batch[0], retention);
      PathConsistent(s, m, inOrder);
      ExpireInflightsPath(m, batch[1..], retention, inOrder);
      PathJoin(s, m, ExpireInflights(s, batch, retention), inOrder);
    }
  }

  /** The due members that the two cleanup loops of an issue call may pick. */
  ghost predicate Batches(s: Room, req: IssueRequest, leaseBatch: seq<LeaseKey>, tokenBatch: seq<TokenHash>) {
    && DueBatch(s.leases, s.clock, req.cleanup, leaseBatch)
    && DueBatch(ReapLeases(s, leaseBatch, MaxMs(req.tokenTtl, TOMBSTONE_MS)).inflight, s.clock, req.cleanup, tokenBatch)
  }

  lemma CleanupPath(s: Room, req: IssueRequest, leaseBatch: seq<LeaseKey>, tokenBatch: seq<TokenHash>, inOrder: bool)
    requires Consistent(s) && Batches(s, req, leaseBatch, tokenBatch)
    ensures Path(s, Cleanup(s, req, leaseBatch, tokenBatch), inOrder)
  {
    var retention := MaxMs(req.tokenTtl, TOMBSTONE_MS);
    var s1 := ReapLeases(s, leaseBatch, retention);
    ReapLeasesPath(s, leaseBatch, retention, inOrder);
    PathConsistent(s, s1, inOrder);
    var s2 := ExpireInflights(s1, tokenBatch, retention);
    ExpireInflightsPath(s1, tokenBatch, retention, inOrder);
    PathJoin(s, s1, s2, inOrder);
    PathConsistent(s, s2, inOrder);
    var s3 := LapseAll(s2, Head(s2.queue, req.cleanup));
    LapseAllPath(s2, Head(s2.queue, req.cleanup), inOrder);
    PathJoin(s, s2, s3, inOrder);
    PrunePath(s3, inOrder);
    PathJoin(s, s3, Prune(s3), inOrder);
  }

  // ------------------------------------------------------------------ admission loop

  /** Rejected: its entry waits and is alive, but the candidate fails a check. */
  predicate Rejected(s: Room, c: Candidate, tokenTtl: Millis) {
    c.entry in s.entries && s.entries[c.entry].status == EntryQueued
    && s.clock < s.entries[c.entry].expiry && !Acceptable(s, c, tokenTtl)
  }

  predicate Accepted(s: Room, c: Candidate, tokenTtl: Millis) {
    c.entry in s.entries && s.entries[c.entry].status == EntryQueued
    && s.clock < s.entries[c.entry].expiry && Acceptable(s, c, tokenTtl)
  }

  /** No aligned candidate of the batch is accepted. */
  ghost predicate NoneAccepted(s: Room, q: seq<EntryId>, cs: seq<Candidate>, tokenTtl: Millis)
    decreases |q|
  {
    q == [] || cs == [] || cs[0].entry != q[0]
    || (!Accepted(s, cs[0], tokenTtl) && NoneAccepted(AdmitOne(s, cs[0], tokenTtl), q[1..], cs[1..], tokenTtl))
  }

  /** No aligned candidate is accepted after one was rejected. */
  ghost predicate SkipFree(s: Room, q: seq<EntryId>, cs: seq<Candidate>, tokenTtl: Millis)
    decreases |q|
  {
    if q == [] || cs == [] || cs[0].entry != q[0] then true
    else if Rejected(s, cs[0], tokenTtl) then NoneAccepted(s, q[1..], cs[1..], tokenTtl)
    else SkipFree(AdmitOne(s, cs[0], tokenTtl), q[1..], cs[1..], tokenTtl)
  }

  /** There is room for n more tokens. */
  ghost predicate RoomFor(s: Room, n: int) {
    |s.inflight| + n <= s.limits.maxInflight && |s.rate| + n <= s.limits.rate
  }

  ghost predicate FreshCandidates(log: seq<Event>, cs: seq<Candidate>) {
    && (forall i :: 0 <= i < |cs| ==> FreshToken(log, cs[i].token))
    && (forall i, j :: 0 <= i < j < |cs| ==> cs[i].token != cs[j].token)
  }

  lemma AdmitOnePath(s: Room, c: Candidate, tokenTtl: Millis, inOrder: bool)
    requires EntryOk(s, c.entry) && FreshToken(s.log, c.token) && RoomFor(s, 1)
    requires inOrder && Accepted(s, c, tokenTtl) ==> s.queue != [] && c.entry == s.queue[0]
    ensures Path(s, AdmitOne(s, c, tokenTtl), inOrder)
  {
    if Accepted(s, c, tokenTtl) {
      AdmitIs(s, c, tokenTtl);
      AdmitPath(s, c, inOrder);
    } else {
      PassOverPath(s, c, tokenTtl, inOrder);
    }
  }

  lemma AdmitIs(s: Room, c: Candidate, tokenTtl: Millis)
    requires Accepted(s, c, tokenTtl)
    ensures AdmitOne(s, c, tokenTtl) == Admit(s, c)
  {
  }

  lemma PassOverPath(s: Room, c: Candidate, tokenTtl: Millis, inOrder: bool)
    requires EntryOk(s, c.entry) && !Accepted(s, c, tokenTtl)
    ensures Path(s, AdmitOne(s, c, tokenTtl), inOrder)
  {
    PassOverIs(s, c, tokenTtl);
    LapseIfStalePath(s, c.entry, inOrder);
  }

  lemma PassOverIs(s: Room, c: Candidate, tokenTtl: Millis)
    requires !Accepted(s, c, tokenTtl)
    ensures AdmitOne(s, c, tokenTtl) == LapseIfStale(s, c.entry)
  {
  }

  /** What one turn of the admission loop leaves for the next. */
  lemma AdmitOneLeaves(s: Room, c: Candidate, cs: seq<Candidate>, tokenTtl: Millis, n: int)
    requires RoomFor(s, n + 1) && FreshCandidates(s.log, [c] + cs)
    ensures RoomFor(AdmitOne(s, c, tokenTtl), n)
    ensures FreshCandidates(AdmitOne(s, c, tokenTtl).log, cs)
  {
    var r := AdmitOne(s, c, tokenTtl);
    GrownCard(s.inflight, c.token, c.expiresAt);
    GrownCard(s.rate, c.token, s.clock);
    forall i | 0 <= i < |cs| ensures FreshToken(r.log, cs[i].token) {
      assert ([c] + cs)[i + 1] == cs[i];
      assert ([c] + cs)[0].token != ([c] + cs)[i + 1].token;
    }
    forall i, j | 0 <= i < j < |cs| ensures cs[i].token != cs[j].token {
      assert ([c] + cs)[i + 1].token != ([c] + cs)[j + 1].token;
    }
  }

  lemma {:induction false} AdmitAllPath(s: Room, q: seq<EntryId>, cs: seq<Candidate>, tokenTtl: Millis)
    requires Consistent(s) && RoomFor(s, |q|) && FreshCandidates(s.log, cs)
    ensures Path(s, AdmitAll(s, q, cs, tokenTtl), false)
    decreases |q|
  {
    if q == [] || cs == [] || cs[0].entry != q[0] {
      PathHere(s, false);
    } else {
      var m := AdmitOne(s, cs[0], tokenTtl);
      assert cs == [cs[0]] + cs[1..];
      assert EntryOk(s, cs[0].entry);
      AdmitOnePath(s, cs[0], tokenTtl, false);
      PathConsistent(s, m, false);
      AdmitOneLeaves(s, cs[0], cs[1..], tokenTtl, |q| - 1);
      AdmitAllPath(m, q[1..], cs[1..], tokenTtl);
      PathJoin(s, m, AdmitAll(s, q, cs, tokenTtl), false);
    }
  }
}
