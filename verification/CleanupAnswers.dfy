/**
 What the cleanups do to each entry and each token: which waiting entries run out, what becomes
 of tokens whose lease or life is over, which records are deleted, and what stays as it is.
 */
module CleanupAnswers {
  import opened RoomState
  import opened RoomSteps
  import opened RoomInvariant
  import opened RoomScripts
  import opened RoomPaths
  import opened RoomFifo
  import opened RoomRuns
  import opened RoomProgress
  import opened RoomTokens
  import opened RoomFrames
  import opened PollAnswers

  // ------------------------------------------------------------------ waiting entries

  /** What the sweep of the list q leaves of entry e. */
  ghost predicate EntrySwept(s: Room, q: seq<EntryId>, r: Room, e: EntryId) {
    if e in q && RanOut(s, e) then
      && e in r.entries && r.entries[e] == s.entries[e].(status := EntryExpired)
      && EntryKey(e) in r.leases && r.leases[EntryKey(e)] == s.clock + 60000
    else
      && (e in r.entries <==> e in s.entries) && (e in s.entries ==> r.entries[e] == s.entries[e])
      && (EntryKey(e) in r.leases <==> EntryKey(e) in s.leases)
      && (EntryKey(e) in s.leases ==> r.leases[EntryKey(e)] == s.leases[EntryKey(e)])
  }

  /** The link of owner o goes with the entry it points at. */
  ghost predicate LinkSwept(s: Room, q: seq<EntryId>, r: Room, o: OwnerHash) {
    && (o in r.users <==> o in s.users && !(s.users[o] in q && RanOut(s, s.users[o])))
    && (o in r.users ==> r.users[o] == s.users[o])
  }

  /** Everything but queue, entries, links and tombstones of entries. */
  ghost predicate SweptElsewhere(s: Room, r: Room) {
    && TokensAsBefore(s, r) && r.clock == s.clock
    && forall t :: (TokenKey(t) in r.leases <==> TokenKey(t) in s.leases)
                   && (TokenKey(t) in s.leases ==> r.leases[TokenKey(t)] == s.leases[TokenKey(t)])
  }

  lemma LapseOne(s: Room, e: EntryId)
    ensures EntrySwept(s, [e], LapseIfStale(s, e), e) && SweptElsewhere(s, LapseIfStale(s, e))
    ensures forall f :: f != e ==> EntrySwept(s, [e], LapseIfStale(s, e), f)
  {
  }

  lemma LinksOne(s: Room, e: EntryId, o: OwnerHash)
    requires UserOk(s, o)
    ensures LinkSwept(s, [e], LapseIfStale(s, e), o)
  {
  }

  lemma EntriesThen(s: Room, m: Room, r: Room, q: seq<EntryId>, e: EntryId)
    requires q != [] && EntrySwept(s, [q[0]], m, e) && EntrySwept(m, q[1..], r, e) && m.clock == s.clock
    ensures EntrySwept(s, q, r, e)
  {
    assert e in q <==> e == q[0] || e in q[1..];
  }

  lemma LinksThen(s: Room, m: Room, r: Room, q: seq<EntryId>, o: OwnerHash)
    requires q != [] && LinkSwept(s, [q[0]], m, o) && LinkSwept(m, q[1..], r, o) && m.clock == s.clock
    requires forall e :: EntrySwept(s, [q[0]], m, e)
    ensures LinkSwept(s, q, r, o)
  {
    if o in s.users {
      var e := s.users[o];
      assert e in q <==> e == q[0] || e in q[1..];
      assert EntrySwept(s, [q[0]], m, e);
    }
  }

  lemma {:induction false} SweepIs(s: Room, q: seq<EntryId>, r: Room)
    requires Consistent(s) && r == LapseAll(s, q)
    ensures SweptElsewhere(s, r) && (forall e :: EntrySwept(s, q, r, e)) && (forall o :: LinkSwept(s, q, r, o))
    decreases |q|
  {
    if q != [] {
      var m := LapseIfStale(s, q[0]);
      assert EntryOk(s, q[0]);
      LapseIfStalePath(s, q[0], false);
      PathConsistent(s, m, false);
      SweepIs(m, q[1..], r);
      LapseOne(s, q[0]);
      forall e ensures EntrySwept(s, q, r, e) {
        assert EntrySwept(s, [q[0]], m, e);
        EntriesThen(s, m, r, q, e);
      }
      forall o ensures LinkSwept(s, q, r, o) {
        assert UserOk(s, o);
        LinksOne(s, q[0], o);
        LinksThen(s, m, r, q, o);
      }
    }
  }

  /** The sweep starts at the head: n entries leave, all of them run out, n at most the limit; and
      it stops before the limit only at an entry that has not. */
  ghost predicate HeadSwept(s: Room, limit: int, n: nat, r: Room) {
    && n <= |s.queue| && n <= limit && r.queue == s.queue[n..]
    && (forall i :: 0 <= i < n ==> RanOut(s, s.queue[i]))
    && (n < limit && n < |s.queue| ==> !RanOut(s, s.queue[n]))
  }

  lemma SweepOfHead(s: Room, limit: int) returns (n: nat)
    requires Consistent(s) && 0 <= limit
    ensures HeadSwept(s, limit, n, LapseAll(s, Head(s.queue, limit)))
  {
    var q := Head(s.queue, limit);
    n := StalePrefix(s, q);
    LapseAllRemoves(s, q);
  }

  // ------------------------------------------------------------------ tokens

  /** Token t, its place in the inflight set and its member of the leases set are as before. */
  ghost predicate TokenKept(s: Room, r: Room, t: TokenHash) {
    && (t in r.tokens <==> t in s.tokens) && (t in s.tokens ==> r.tokens[t] == s.tokens[t])
    && (t in r.inflight <==> t in s.inflight) && (t in s.inflight ==> r.inflight[t] == s.inflight[t])
    && (TokenKey(t) in r.leases <==> TokenKey(t) in s.leases)
    && (TokenKey(t) in s.leases ==> r.leases[TokenKey(t)] == s.leases[TokenKey(t)])
  }

  /** Token t is terminal, no longer inflight, and kept to the given time. */
  ghost predicate TokenEnded(s: Room, r: Room, t: TokenHash, status: TokenStatus, keepUntil: Millis)
    requires t in s.tokens
  {
    && t in r.tokens && r.tokens[t] == s.tokens[t].(status := status, lease := None, cancelRequested := false)
    && t !in r.inflight && TokenKey(t) in r.leases && r.leases[TokenKey(t)] == keepUntil
  }

  /** Token t is issued again, still inflight and without a lease. */
  ghost predicate TokenFreed(s: Room, r: Room, t: TokenHash)
    requires t in s.tokens
  {
    && t in r.tokens && r.tokens[t] == s.tokens[t].(status := TokenIssued, lease := None, cancelRequested := false)
    && t in r.inflight && r.inflight[t] == s.tokens[t].expiry && TokenKey(t) !in r.leases
  }

  ghost predicate TokenGone(r: Room, t: TokenHash) {
    t !in r.tokens && t !in r.inflight && TokenKey(t) !in r.leases
  }

  /** A token whose member of the leases set is due: a lease that ran out expires with its token, or
      gives way to a pending cancel, or is taken back; a tombstone is deleted. */
  ghost predicate LeaseFate(s: Room, r: Room, t: TokenHash, retention: Millis)
    requires t in s.tokens
  {
    var k := s.tokens[t];
    if k.status != TokenProcessing then TokenGone(r, t)
    else if k.expiry <= s.clock then TokenEnded(s, r, t, TokenExpired, s.clock + retention)
    else if k.cancelRequested then TokenEnded(s, r, t, TokenCancelled, k.expiry)
    else TokenFreed(s, r, t)
  }

  lemma ReapFate(s: Room, t: TokenHash, retention: Millis)
    requires TokenOk(s, t) && TokenKey(t) in s.leases
    ensures t in s.tokens && LeaseFate(s, ReapLease(s, TokenKey(t), retention), t, retention)
  {
  }

  lemma ReapKeeps(s: Room, key: LeaseKey, retention: Millis, t: TokenHash)
    requires key != TokenKey(t)
    ensures TokenKept(s, ReapLease(s, key, retention), t)
  {
    match key
    case EntryKey(e) =>
    case TokenKey(u) =>
      if u in s.tokens && s.tokens[u].status == TokenProcessing {
        LeasedKeeps(s, u, retention, t);
      } else if u in s.tokens && s.tokens[u].status != TokenIssued {
        CloseKeeps(s, u, TokenExpired, 0, t);
      }
  }

  lemma LeasedKeeps(s: Room, u: TokenHash, retention: Millis, t: TokenHash)
    requires u in s.tokens && u != t && s.tokens[u].status == TokenProcessing
    ensures TokenKept(s, ReapLease(s, TokenKey(u), retention), t)
  {
    if s.tokens[u].expiry <= s.clock {
      CloseKeeps(s, u, TokenExpired, s.clock + retention, t);
    } else if s.tokens[u].cancelRequested {
      CloseKeeps(s, u, TokenCancelled, s.tokens[u].expiry, t);
    } else {
      ReturnKeeps(s, u, t);
    }
  }

  lemma CloseKeeps(s: Room, u: TokenHash, status: TokenStatus, keepUntil: Millis, t: TokenHash)
    requires u in s.tokens && u != t
    ensures TokenKept(s, Close(s, u, status, keepUntil), t) && TokenKept(s, Delete(s, u), t)
  {
  }

  lemma ReturnKeeps(s: Room, u: TokenHash, t: TokenHash)
    requires u in s.tokens && u != t
    ensures TokenKept(s, Return(s, u, Recovered(u)), t)
  {
  }

  lemma ReapTime(s: Room, key: LeaseKey, retention: Millis)
    ensures ReapLease(s, key, retention).clock == s.clock
  {
  }

  /** The lease loop, for one token. */
  ghost predicate ReapedAs(s: Room, batch: seq<LeaseKey>, retention: Millis, t: TokenHash, r: Room) {
    if TokenKey(t) in batch then t in s.tokens && LeaseFate(s, r, t, retention) else TokenKept(s, r, t)
  }

  lemma FateKept(s: Room, m: Room, r: Room, t: TokenHash, retention: Millis)
    requires t in s.tokens && LeaseFate(s, m, t, retention) && TokenKept(m, r, t)
    ensures LeaseFate(s, r, t, retention)
  {
  }

  lemma KeptThenFate(s: Room, m: Room, r: Room, t: TokenHash, retention: Millis)
    requires TokenKept(s, m, t) && m.clock == s.clock && t in m.tokens && LeaseFate(m, r, t, retention)
    ensures t in s.tokens && LeaseFate(s, r, t, retention)
  {
  }

  lemma {:induction false} LeaseLoop(s: Room, batch: seq<LeaseKey>, retention: Millis, t: TokenHash, r: Room)
    requires Consistent(s) && r == ReapLeases(s, batch, retention)
    requires forall i :: 0 <= i < |batch| ==> batch[i] in s.leases
    requires forall i, j :: 0 <= i < j < |batch| ==> batch[i] != batch[j]
    ensures ReapedAs(s, batch, retention, t, r) && r.clock == s.clock
    decreases |batch|
  {
    if batch != [] {
      var m := ReapLease(s, batch[0], retention);
      ReapTurnIs(s, batch, retention, m);
      LeaseLoop(m, batch[1..], retention, t, r);
      LeaseTurn(s, batch, retention, t, m, r);
    }
  }

  /** One turn and the rest of the lease loop. */
  lemma ReapTurnIs(s: Room, batch: seq<LeaseKey>, retention: Millis, m: Room)
    requires Consistent(s) && batch != [] && m == ReapLease(s, batch[0], retention)
    requires forall i :: 0 <= i < |batch| ==> batch[i] in s.leases
    requires forall i, j :: 0 <= i < j < |batch| ==> batch[i] != batch[j]
    ensures Consistent(m) && m.clock == s.clock && forall i :: 0 <= i < |batch[1..]| ==> batch[1..][i] in m.leases
    ensures ReapLeases(s, batch, retention) == ReapLeases(m, batch[1..], retention)
  {
    ReapLeasePath(s, batch[0], retention, false);
    PathConsistent(s, m, false);
    ReapTime(s, batch[0], retention);
    forall i | 0 <= i < |batch[1..]| ensures batch[1..][i] in m.leases {
      ReapLeaseOther(s, batch[0], retention, batch[1..][i]);
    }
  }

  lemma LeaseTurn(s: Room, batch: seq<LeaseKey>, retention: Millis, t: TokenHash, m: Room, r: Room)
    requires TokenOk(s, t) && batch != [] && batch[0] in s.leases && m == ReapLease(s, batch[0], retention)
    requires forall i, j :: 0 <= i < j < |batch| ==> batch[i] != batch[j]
    requires ReapedAs(m, batch[1..], retention, t, r) && m.clock == s.clock
    ensures ReapedAs(s, batch, retention, t, r)
  {
    assert TokenKey(t) in batch <==> TokenKey(t) == batch[0] || TokenKey(t) in batch[1..];
    if batch[0] == TokenKey(t) {
      ReapFate(s, t, retention);
      assert TokenKey(t) !in batch[1..];
      FateKept(s, m, r, t, retention);
    } else {
      ReapKeeps(s, batch[0], retention, t);
      if TokenKey(t) in batch[1..] { KeptThenFate(s, m, r, t, retention); }
    }
  }

  /** The inflight loop, for one token: whose time is up expires. */
  ghost predicate ExpiredAs(s: Room, batch: seq<TokenHash>, retention: Millis, t: TokenHash, r: Room) {
    if t in batch then t in s.tokens && TokenEnded(s, r, t, TokenExpired, s.clock + retention) else TokenKept(s, r, t)
  }

  lemma ExpireOne(s: Room, t: TokenHash, retention: Millis)
    requires TokenOk(s, t) && t in s.inflight
    ensures t in s.tokens && TokenEnded(s, ExpireInflight(s, t, retention), t, TokenExpired, s.clock + retention)
  {
  }

  lemma ExpireKeeps(s: Room, u: TokenHash, retention: Millis, t: TokenHash)
    requires u != t
    ensures TokenKept(s, ExpireInflight(s, u, retention), t)
  {
  }

  lemma {:induction false} InflightLoop(s: Room, batch: seq<TokenHash>, retention: Millis, t: TokenHash, r: Room)
    requires Consistent(s) && r == ExpireInflights(s, batch, retention)
    requires forall i :: 0 <= i < |batch| ==> batch[i] in s.inflight
    requires forall i, j :: 0 <= i < j < |batch| ==> batch[i] != batch[j]
    ensures ExpiredAs(s, batch, retention, t, r) && r.clock == s.clock
    decreases |batch|
  {
    if batch != [] {
      var m := ExpireInflight(s, batch[0], retention);
      ExpireTurnIs(s, batch, retention, m);
      InflightLoop(m, batch[1..], retention, t, r);
      ExpireTurn(s, batch, retention, t, m, r);
    }
  }

  lemma ExpireTurnIs(s: Room, batch: seq<TokenHash>, retention: Millis, m: Room)
    requires Consistent(s) && batch != [] && m == ExpireInflight(s, batch[0], retention)
    requires forall i :: 0 <= i < |batch| ==> batch[i] in s.inflight
    requires forall i, j :: 0 <= i < j < |batch| ==> batch[i] != batch[j]
    ensures Consistent(m) && m.clock == s.clock && forall i :: 0 <= i < |batch[1..]| ==> batch[1..][i] in m.inflight
    ensures ExpireInflights(s, batch, retention) == ExpireInflights(m, batch[1..], retention)
  {
    assert TokenOk(s, batch[0]);
    ExpireInflightPath(s, batch[0], retention, false);
    PathConsistent(s, m, false);
    ExpireInflightOther(s, batch[0], retention);
  }

  lemma ExpireTurn(s: Room, batch: seq<TokenHash>, retention: Millis, t: TokenHash, m: Room, r: Room)
    requires TokenOk(s, t) && batch != [] && batch[0] in s.inflight && m == ExpireInflight(s, batch[0], retention)
    requires forall i, j :: 0 <= i < j < |batch| ==> batch[i] != batch[j]
    requires ExpiredAs(m, batch[1..], retention, t, r) && m.clock == s.clock
    ensures ExpiredAs(s, batch, retention, t, r)
  {
    assert t in batch <==> t == batch[0] || t in batch[1..];
    if batch[0] == t {
      ExpireOne(s, t, retention);
      assert t !in batch[1..];
    } else {
      ExpireKeeps(s, batch[0], retention, t);
    }
  }

  // ------------------------------------------------------------------ the whole cleanup

  /** What the cleanup of an issue call makes of a token that is in the table. */
  ghost predicate TokenFate(s: Room, now: Millis, req: IssueRequest, lb: seq<LeaseKey>, tb: seq<TokenHash>, t: TokenHash, r: Room)
    requires t in s.tokens
  {
    var retention := if req.tokenTtl < 60000 then 60000 else req.tokenTtl;
    if TokenKey(t) in lb then LeaseFate(Tick(s, now), r, t, retention)
    else if t in tb then TokenEnded(s, r, t, TokenExpired, now + retention)
    else TokenKept(s, r, t)
  }

  /** Of the rate window exactly the last second is left. */
  ghost predicate WindowIs(s: Room, now: Millis, r: Room) {
    forall t :: (t in r.rate <==> t in s.rate && now - 1000 < s.rate[t]) && (t in r.rate ==> r.rate[t] == s.rate[t])
  }

  /** The cleanup of an issue call, token by token. */
  lemma CleanupAnswers(s: Room, now: Millis, req: IssueRequest, lb: seq<LeaseKey>, tb: seq<TokenHash>, t: TokenHash)
    requires Consistent(s) && s.clock <= now && Batches(Tick(s, now), req, lb, tb) && t in s.tokens
    ensures TokenFate(s, now, req, lb, tb, t, Swept(s, now, req, lb, tb))
  {
    var retention := MaxMs(req.tokenTtl, TOMBSTONE_MS);
    var s0 := Tick(s, now);
    var s1 := ReapLeases(s0, lb, retention);
    var s2 := ExpireInflights(s1, tb, retention);
    TickConsistent(s, now);
    LeaseLoop(s0, lb, retention, t, s1);
    ReapLeasesPath(s0, lb, retention, false);
    PathConsistent(s0, s1, false);
    InflightLoop(s1, tb, retention, t, s2);
    ExpireInflightsPath(s1, tb, retention, false);
    PathConsistent(s1, s2, false);
    var s3 := LapseAll(s2, Head(s2.queue, req.cleanup));
    SweepIs(s2, Head(s2.queue, req.cleanup), s3);
    FatesJoin(s, now, req, lb, tb, t, s1, s2, s3);
  }

  lemma FatesJoin(s: Room, now: Millis, req: IssueRequest, lb: seq<LeaseKey>, tb: seq<TokenHash>, t: TokenHash, s1: Room, s2: Room, s3: Room)
    requires t in s.tokens && s1.clock == now && SweptElsewhere(s2, s3)
    requires ReapedAs(Tick(s, now), lb, MaxMs(req.tokenTtl, 60000), t, s1)
    requires ExpiredAs(s1, tb, MaxMs(req.tokenTtl, 60000), t, s2)
    requires forall u :: u in tb ==> u in s1.inflight && s1.inflight[u] <= now
    ensures TokenFate(s, now, req, lb, tb, t, Prune(s3))
  {
    assert TokenKey(t) in lb && t in tb ==> t in s1.inflight;
  }

  lemma CleanupWindow(s: Room, now: Millis, req: IssueRequest, lb: seq<LeaseKey>, tb: seq<TokenHash>)
    ensures WindowIs(s, now, Swept(s, now, req, lb, tb))
  {
    var retention := MaxMs(req.tokenTtl, TOMBSTONE_MS);
    var s1 := ReapLeases(Tick(s, now), lb, retention);
    ReapRate(Tick(s, now), lb, retention);
    ExpireRate(s1, tb, retention);
    var s2 := ExpireInflights(s1, tb, retention);
    LapseRate(s2, Head(s2.queue, req.cleanup));
    WindowOf(s, now, LapseAll(s2, Head(s2.queue, req.cleanup)));
  }

  lemma WindowOf(s: Room, now: Millis, m: Room)
    requires m.rate == s.rate && m.clock == now
    ensures WindowIs(s, now, Prune(m))
  {
  }

  lemma {:induction false} ReapRate(s: Room, batch: seq<LeaseKey>, retention: Millis)
    ensures ReapLeases(s, batch, retention).rate == s.rate && ReapLeases(s, batch, retention).clock == s.clock
    decreases |batch|
  {
    if batch != [] {
      ReapOneRate(s, batch[0], retention);
      ReapRate(ReapLease(s, batch[0], retention), batch[1..], retention);
    }
  }

  lemma ReapOneRate(s: Room, key: LeaseKey, retention: Millis)
    ensures ReapLease(s, key, retention).rate == s.rate && ReapLease(s, key, retention).clock == s.clock
  {
    ReapTime(s, key, retention);
    if key.TokenKey? && key.token in s.tokens {
      CloseRate(s, key.token, TokenExpired, s.clock + retention);
      CloseRate(s, key.token, TokenCancelled, s.tokens[key.token].expiry);
    }
  }

  lemma CloseRate(s: Room, t: TokenHash, status: TokenStatus, keepUntil: Millis)
    requires t in s.tokens
    ensures Close(s, t, status, keepUntil).rate == s.rate && Delete(s, t).rate == s.rate
    ensures Return(s, t, Recovered(t)).rate == s.rate
  {
  }

  lemma {:induction false} ExpireRate(s: Room, batch: seq<TokenHash>, retention: Millis)
    ensures ExpireInflights(s, batch, retention).rate == s.rate && ExpireInflights(s, batch, retention).clock == s.clock
    decreases |batch|
  {
    if batch != [] { ExpireRate(ExpireInflight(s, batch[0], retention), batch[1..], retention); }
  }

  lemma {:induction false} LapseRate(s: Room, q: seq<EntryId>)
    ensures LapseAll(s, q).rate == s.rate && LapseAll(s, q).clock == s.clock
    decreases |q|
  {
    if q != [] { LapseRate(LapseIfStale(s, q[0]), q[1..]); }
  }
}
