/**
 Where things come from, over whole runs: an entry from the join that made it, a token from the
 issue call and the candidate that made it; so what is delivered and what is acquired is what
 was asked for and issued.
 */
module RoomOrigins {
  import opened RoomState
  import opened RoomSteps
  import opened RoomHistory
  import opened RoomOrder
  import opened RoomLife
  import opened RoomScripts
  import opened RoomPaths
  import opened RoomRuns
  import opened RoomTheorems
  import opened RoomTokens
  import opened RoomFrames
  import opened LeaseAnswers
  import opened JoinAnswers
  import opened CleanupAnswers
  import opened IssueAnswers

  // ------------------------------------------------------------------ only a join makes entries

  ghost predicate NoNewEntry(s: Room, r: Room) {
    r.entries.Keys <= s.entries.Keys
  }

  lemma {:induction false} ReapsMakeNone(s: Room, batch: seq<LeaseKey>, retention: Millis)
    ensures NoNewEntry(s, ReapLeases(s, batch, retention))
    decreases |batch|
  {
    if batch != [] {
      ReapMakesNone(s, batch[0], retention);
      ReapsMakeNone(ReapLease(s, batch[0], retention), batch[1..], retention);
    }
  }

  lemma ReapMakesNone(s: Room, key: LeaseKey, retention: Millis)
    ensures NoNewEntry(s, ReapLease(s, key, retention))
  {
    if key.TokenKey? && key.token in s.tokens {
      CloseMakesNone(s, key.token, TokenExpired, s.clock + retention);
      CloseMakesNone(s, key.token, TokenCancelled, s.tokens[key.token].expiry);
    }
  }

  lemma CloseMakesNone(s: Room, t: TokenHash, status: TokenStatus, keepUntil: Millis)
    requires t in s.tokens
    ensures NoNewEntry(s, Close(s, t, status, keepUntil)) && NoNewEntry(s, Delete(s, t))
  {
  }

  lemma {:induction false} ExpiriesMakeNone(s: Room, batch: seq<TokenHash>, retention: Millis)
    ensures NoNewEntry(s, ExpireInflights(s, batch, retention))
    decreases |batch|
  {
    if batch != [] {
      if batch[0] in s.tokens { CloseMakesNone(s, batch[0], TokenExpired, s.clock + retention); }
      ExpiriesMakeNone(ExpireInflight(s, batch[0], retention), batch[1..], retention);
    }
  }

  lemma {:induction false} LapsesMakeNone(s: Room, q: seq<EntryId>)
    ensures NoNewEntry(s, LapseAll(s, q))
    decreases |q|
  {
    if q != [] { LapsesMakeNone(LapseIfStale(s, q[0]), q[1..]); }
  }

  lemma {:induction false} AdmitsMakeNone(s: Room, q: seq<EntryId>, cs: seq<Candidate>, tokenTtl: Millis)
    ensures NoNewEntry(s, AdmitAll(s, q, cs, tokenTtl))
    decreases |q|
  {
    if q != [] && cs != [] && cs[0].entry == q[0] {
      AdmitsMakeNone(AdmitOne(s, cs[0], tokenTtl), q[1..], cs[1..], tokenTtl);
    }
  }

  lemma IssueMakesNone(s: Room, now: Millis, req: IssueRequest, lb: seq<LeaseKey>, tb: seq<TokenHash>)
    ensures NoNewEntry(s, Issue(s, now, req, lb, tb).room)
  {
    var retention := MaxMs(req.tokenTtl, TOMBSTONE_MS);
    var s1 := ReapLeases(Tick(s, now), lb, retention);
    ReapsMakeNone(Tick(s, now), lb, retention);
    var s2 := ExpireInflights(s1, tb, retention);
    ExpiriesMakeNone(s1, tb, retention);
    LapsesMakeNone(s2, Head(s2.queue, req.cleanup));
    var m := Swept(s, now, req, lb, tb);
    AdmitsMakeNone(m, Head(m.queue, Capacity(m, req)), req.candidates, req.tokenTtl);
  }

  lemma LeaseCallMakesNone(s: Room, c: Call)
    requires c.CallAcquire? || c.CallRelease? || c.CallFinalize? || c.CallRepair?
    ensures NoNewEntry(s, Run1(s, c).room)
  {
    match c
    case CallAcquire(now, req) => AcquireMakesNone(s, now, req);
    case CallRelease(_, _, _) =>
    case CallFinalize(_, _) =>
    case CallRepair(_, _, _, _) =>
  }

  lemma AcquireMakesNone(s: Room, now: Millis, req: AcquireRequest)
    ensures NoNewEntry(s, Acquire(s, now, req).room)
  {
    if Open(s) && req.token in s.tokens && AskedFor(s.tokens[req.token], req) {
      OpenAcquireMakesNone(s, now, req);
    } else if Open(s) {
      AcquireRefuses(s, now, req);
    } else {
      ClosedRefuses(s, CallAcquire(now, req));
    }
  }

  lemma OpenAcquireMakesNone(s: Room, now: Millis, req: AcquireRequest)
    requires Open(s) && req.token in s.tokens && AskedFor(s.tokens[req.token], req)
    ensures NoNewEntry(s, Acquire(s, now, req).room)
  {
    var t, k, m := req.token, s.tokens[req.token], Tick(s, now);
    match k.status
    case TokenIssued =>
      IssuedLeads(s, now, req);
      GrantMakesNone(m, req);
    case TokenProcessing =>
      CloseMakesNone(m, t, TokenCancelled, KeepUntil(k, now));
      GrantMakesNone(Return(m, t, Recovered(t)), req);
    case _ => CloseMakesNone(m, t, TokenExpired, now + TOMBSTONE_MS);
  }

  lemma GrantMakesNone(s: Room, req: AcquireRequest)
    requires req.token in s.tokens
    ensures NoNewEntry(s, GrantOrExpire(s, req).room)
  {
    CloseMakesNone(s, req.token, TokenExpired, s.clock + TOMBSTONE_MS);
  }

  lemma OtherMakesNone(s: Room, c: Call)
    requires !c.CallJoin?
    ensures NoNewEntry(s, Run1(s, c).room)
  {
    match c
    case CallIssue(now, req, lb, tb) => IssueMakesNone(s, now, req, lb, tb);
    case CallGet(_, _, _, _) =>
    case CallCancel(_, _) =>
    case CallMarkers(_, _) =>
    case _ => LeaseCallMakesNone(s, c);
  }

  /** Call i of the run is the join that made entry e, for this owner, fingerprint and trip. */
  ghost predicate JoinedFor(states: seq<Room>, calls: seq<Call>, i: int, e: EntryId, o: OwnerHash, fingerprint: Digest, trip: Trip)
  {
    && 0 <= i < |calls| < |states| && calls[i].CallJoin? && calls[i].entry == e && Run1(states[i], calls[i]).reply.JoinedAs?
    && calls[i].owner == o && calls[i].fingerprint == fingerprint && calls[i].trip == trip
  }

  lemma NewEntryIsJoined(s: Room, c: Call, e: EntryId)
    requires Inv(s) && Legal(s, c) && e !in s.entries && e in Run1(s, c).room.entries
    ensures c.CallJoin? && c.entry == e && Run1(s, c).reply.JoinedAs?
    ensures var x := Run1(s, c).room.entries[e]; x.owner == c.owner && x.fingerprint == c.fingerprint && x.trip == c.trip
  {
    if !c.CallJoin? {
      OtherMakesNone(s, c);
    } else {
      JoinMakesOne(s, c, e);
    }
  }

  lemma JoinMakesOne(s: Room, c: Call, e: EntryId)
    requires Inv(s) && Legal(s, c) && c.CallJoin? && e !in s.entries && e in Run1(s, c).room.entries
    ensures c.entry == e && Run1(s, c).reply.JoinedAs?
    ensures var x := Run1(s, c).room.entries[e]; x.owner == c.owner && x.fingerprint == c.fingerprint && x.trip == c.trip
  {
    if Open(s) {
      var m, out := Cleaned(s, c.now), Run1(s, c);
      LapsesMakeNone(Tick(s, c.now), RoomScripts.Head(s.queue, 64));
      JoinAnswers.JoinAnswers(s, c.now, c.entry, c.owner, c.fingerprint, c.trip);
    }
  }

  /** Every entry of a run was made by a join, which asked for its owner, fingerprint and trip. */
  lemma {:induction false} EntryIsJoined(states: seq<Room>, calls: seq<Call>, n: nat, e: EntryId) returns (i: int)
    requires IsRun(states, calls) && n < |states| && e in states[n].entries
    ensures 0 <= i < n
    ensures var x := states[n].entries[e]; JoinedFor(states, calls, i, e, x.owner, x.fingerprint, x.trip)
    decreases n
  {
    i := n - 1;
    if n == 0 {
      NothingAtFirst(states, calls, e);
    } else if e in states[n - 1].entries {
      EntryStays(states, calls, n - 1, e);
      i := EntryIsJoined(states, calls, n - 1, e);
    } else {
      EntryIsNew(states, calls, n - 1, e);
    }
  }

  lemma NothingAtFirst(states: seq<Room>, calls: seq<Call>, e: EntryId)
    requires IsRun(states, calls)
    ensures e !in states[0].entries
  {
  }

  lemma EntryIsNew(states: seq<Room>, calls: seq<Call>, i: nat, e: EntryId)
    requires IsRun(states, calls) && i < |calls| && e !in states[i].entries && e in states[i + 1].entries
    ensures var x := states[i + 1].entries[e]; JoinedFor(states, calls, i, e, x.owner, x.fingerprint, x.trip)
  {
    assert Takes(states, calls, i);
    RunInv(states, calls, i);
    NewEntryIsJoined(states[i], calls[i], e);
  }

  lemma EntryStays(states: seq<Room>, calls: seq<Call>, i: nat, e: EntryId)
    requires IsRun(states, calls) && i < |calls| && e in states[i].entries && e in states[i + 1].entries
    ensures var x, y := states[i].entries[e], states[i + 1].entries[e];
            y.owner == x.owner && y.fingerprint == x.fingerprint && y.trip == x.trip
  {
    RunInv(states, calls, i);
    assert EntryTale(states[i], e);
    RunStepPath(states, calls, i);
    PathIdentity(states[i], states[i + 1], e, false);
  }

  // ------------------------------------------------------------------ only an issue call makes tokens

  /** Issue call i of the run made token t for this candidate. */
  ghost predicate IssuedFor(states: seq<Room>, calls: seq<Call>, i: int, c: Candidate, t: TokenHash) {
    && 0 <= i < |calls| < |states| && calls[i].CallIssue? && c in calls[i].req.candidates && t !in states[i].tokens
    && BornOf(states[i], calls[i].now, c, calls[i].req.tokenTtl, t, states[i + 1])
  }

  /** The token holds what the candidate said. */
  predicate Holds(k: Token, c: Candidate) {
    k.entry == c.entry && k.keyId == c.keyId && k.nonce == c.nonce && k.issuedAt == c.issuedAt && k.expiry == c.expiresAt
    && k.owner == c.owner && k.fingerprint == c.fingerprint
  }

  /** Every token of a run was made by an issue call for one of its candidates, and holds what that
      candidate said ever since. */
  lemma {:induction false} TokenIsIssued(states: seq<Room>, calls: seq<Call>, n: nat, t: TokenHash) returns (i: int, c: Candidate)
    requires IsRun(states, calls) && n < |states| && t in states[n].tokens
    ensures 0 <= i < n && IssuedFor(states, calls, i, c, t) && Holds(states[n].tokens[t], c)
    decreases n
  {
    if n == 0 {
      i, c := 0, Candidate(0, 0, 0, 0, 0, 0, 0, 0);
    } else if t in states[n - 1].tokens {
      TokenStays(states, calls, n - 1, t);
      i, c := TokenIsIssued(states, calls, n - 1, t);
    } else {
      i := n - 1;
      c := TokenIsNew(states, calls, i, t);
    }
  }

  lemma TokenIsNew(states: seq<Room>, calls: seq<Call>, i: nat, t: TokenHash) returns (c: Candidate)
    requires IsRun(states, calls) && i < |calls| && t !in states[i].tokens && t in states[i + 1].tokens
    ensures IssuedFor(states, calls, i, c, t) && Holds(states[i + 1].tokens[t], c)
  {
    assert Takes(states, calls, i);
    RunInv(states, calls, i);
    CallDerived(states[i], calls[i], t);
    var k := calls[i];
    var j := NewTokenIsBorn(states[i], k.now, k.req, k.leaseBatch, k.tokenBatch, t);
    c := k.req.candidates[j];
  }

  lemma TokenStays(states: seq<Room>, calls: seq<Call>, i: nat, t: TokenHash)
    requires IsRun(states, calls) && i < |calls| && t in states[i].tokens && t in states[i + 1].tokens
    ensures Evolves(states[i].tokens[t], states[i + 1].tokens[t])
  {
    RunInv(states, calls, i);
    assert TokenTale(states[i], t);
    RunStepPath(states, calls, i);
    PathEvolves(states[i], states[i + 1], t, false);
  }

  // ------------------------------------------------------------------ what is delivered and what is acquired

  /** A delivered token goes to the owner who joined with the entry, and its key id, nonce and times,
      from which the bearer is computed, are those of the issue call's candidate. */
  lemma DeliveredAsIssued(states: seq<Room>, calls: seq<Call>, n: nat, t: TokenHash) returns (i: int, c: Candidate, j: int)
    requires IsRun(states, calls) && n < |calls| && calls[n].CallGet? && Run1(states[n], calls[n]).reply == Delivery(t)
    ensures t in states[n].tokens && 0 <= i < n && IssuedFor(states, calls, i, c, t) && Holds(states[n].tokens[t], c)
    ensures c.entry == calls[n].entry && c.owner == calls[n].owner
    ensures 0 <= j < n && JoinedFor(states, calls, j, c.entry, c.owner, c.fingerprint, states[n].tokens[t].trip)
  {
    DeliveryIsOf(states[n], calls[n], t);
    RunInv(states, calls, n);
    assert TokenOk(states[n], t) && EntryOk(states[n], calls[n].entry);
    i, c := TokenIsIssued(states, calls, n, t);
    j := EntryIsJoined(states, calls, n, calls[n].entry);
  }

  lemma DeliveryIsOf(s: Room, c: Call, t: TokenHash)
    requires c.CallGet? && Run1(s, c).reply == Delivery(t)
    ensures t in s.tokens && c.entry in s.entries && s.entries[c.entry].token == Some(t) && s.entries[c.entry].owner == c.owner
  {
  }

  /** Whoever is granted a lease, told to retry or allowed a replay asked with the owner, the
      fingerprint and the trip of the join that made the token's entry. */
  lemma AcquiredAsJoined(states: seq<Room>, calls: seq<Call>, n: nat) returns (j: int)
    requires IsRun(states, calls) && n < |calls| && calls[n].CallAcquire? && Open(states[n])
    requires var reply := Run1(states[n], calls[n]).reply; reply.Acquired? || reply == ReplayAllowed || reply.RetryAfter?
    ensures var s, req := states[n], calls[n].acquire;
            && req.token in s.tokens && 0 <= j < n
            && JoinedFor(states, calls, j, s.tokens[req.token].entry, req.owner, req.fingerprint, req.trip)
  {
    AcquireComparesAll(states, calls, n);
    RunInv(states, calls, n);
    var s, t := states[n], calls[n].acquire.token;
    assert TokenOk(s, t);
    j := EntryIsJoined(states, calls, n, s.tokens[t].entry);
  }
}
