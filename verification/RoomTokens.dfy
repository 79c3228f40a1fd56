/**
 Where tokens come from and who consumes them: new tokens are candidates of an issue call
 and keep the candidate's expiry; only a finalize or a repair makes a token consumed.
 */
module RoomTokens {
  import opened RoomState
  import opened RoomSteps
  import opened RoomHistory
  import opened RoomLife
  import opened RoomScripts
  import opened RoomPaths
  import opened RoomFifo
  import opened RoomTally
  import opened RoomRuns

  ghost predicate Among(cs: seq<Candidate>, t: TokenHash) {
    exists j :: 0 <= j < |cs| && cs[j].token == t
  }

  ghost predicate From(cs: seq<Candidate>, t: TokenHash, expiry: Millis) {
    exists j :: 0 <= j < |cs| && cs[j].token == t && cs[j].expiresAt == expiry
  }

  lemma LaterFrom(cs: seq<Candidate>, t: TokenHash, expiry: Millis)
    requires cs != []
    ensures From(cs[1..], t, expiry) ==> From(cs, t, expiry)
    ensures Among(cs[1..], t) ==> Among(cs, t)
  {
    if From(cs[1..], t, expiry) {
      var j :| 0 <= j < |cs[1..]| && cs[1..][j].token == t && cs[1..][j].expiresAt == expiry;
      assert cs[j + 1].token == t;
    }
    if Among(cs[1..], t) {
      var j :| 0 <= j < |cs[1..]| && cs[1..][j].token == t;
      assert cs[j + 1].token == t;
    }
  }

  predicate IsConsumed(s: Room, t: TokenHash) {
    t in s.tokens && s.tokens[t].status == TokenConsumed
  }

  /** What a call may do to the token: its expiry is fixed, a new one is a candidate's and issued, it is
      not consumed by anybody but the call that names it, and it is not admitted behind the
      candidates' back. */
  ghost predicate Derived(s: Room, r: Room, t: TokenHash, consumer: Option<TokenHash>, cs: seq<Candidate>) {
    && (t in r.tokens && t in s.tokens && !Among(cs, t) ==> r.tokens[t].expiry == s.tokens[t].expiry)
    && (t in r.tokens && t !in s.tokens ==> From(cs, t, r.tokens[t].expiry) && r.tokens[t].status == TokenIssued)
    && (IsConsumed(r, t) && consumer != Some(t) ==> IsConsumed(s, t))
    && (FreshToken(s.log, t) && !Among(cs, t) ==> FreshToken(r.log, t))
  }

  lemma {:induction false} LapsesDerived(s: Room, q: seq<EntryId>, t: TokenHash)
    ensures LapseAll(s, q).tokens == s.tokens
    ensures FreshToken(s.log, t) ==> FreshToken(LapseAll(s, q).log, t)
    decreases |q|
  {
    if q != [] {
      LapsesDerived(LapseIfStale(s, q[0]), q[1..], t);
    }
  }

  lemma CloseDerived(s: Room, u: TokenHash, status: TokenStatus, keepUntil: Millis, t: TokenHash)
    requires u in s.tokens
    ensures Derived(s, Close(s, u, status, keepUntil), t, if status == TokenConsumed then Some(u) else None, [])
  {
  }

  lemma DeleteDerived(s: Room, u: TokenHash, t: TokenHash)
    requires u in s.tokens
    ensures Derived(s, Delete(s, u), t, None, []) && Derived(s, Return(s, u, Recovered(u)), t, None, [])
  {
  }

  lemma ReapDerived(s: Room, key: LeaseKey, retention: Millis, t: TokenHash)
    ensures Derived(s, ReapLease(s, key, retention), t, None, [])
  {
    if key.TokenKey? && key.token in s.tokens {
      CloseDerived(s, key.token, TokenExpired, s.clock + retention, t);
      CloseDerived(s, key.token, TokenCancelled, s.tokens[key.token].expiry, t);
      DeleteDerived(s, key.token, t);
    }
  }

  lemma {:induction false} ReapsDerived(s: Room, batch: seq<LeaseKey>, retention: Millis, t: TokenHash)
    ensures Derived(s, ReapLeases(s, batch, retention), t, None, [])
    decreases |batch|
  {
    if batch != [] {
      ReapDerived(s, batch[0], retention, t);
      ReapsDerived(ReapLease(s, batch[0], retention), batch[1..], retention, t);
    }
  }

  lemma {:induction false} ExpiriesDerived(s: Room, batch: seq<TokenHash>, retention: Millis, t: TokenHash)
    ensures Derived(s, ExpireInflights(s, batch, retention), t, None, [])
    decreases |batch|
  {
    if batch != [] {
      assert Derived(s, ExpireInflight(s, batch[0], retention), t, None, []);
      ExpiriesDerived(ExpireInflight(s, batch[0], retention), batch[1..], retention, t);
    }
  }

  lemma AdmitDerived(s: Room, c: Candidate, cs: seq<Candidate>, tokenTtl: Millis, t: TokenHash)
    requires cs != [] && cs[0] == c
    ensures Derived(s, AdmitOne(s, c, tokenTtl), t, None, cs)
  {
  }

  lemma {:induction false} AdmitsDerived(s: Room, q: seq<EntryId>, cs: seq<Candidate>, tokenTtl: Millis, t: TokenHash)
    ensures Derived(s, AdmitAll(s, q, cs, tokenTtl), t, None, cs)
    ensures var r := AdmitAll(s, q, cs, tokenTtl);
            t in s.tokens ==> t in r.tokens && r.tokens[t] == s.tokens[t]
    decreases |q|
  {
    if q != [] && cs != [] && cs[0].entry == q[0] {
      var m, r := AdmitOne(s, cs[0], tokenTtl), AdmitAll(s, q, cs, tokenTtl);
      AdmitDerived(s, cs[0], cs, tokenTtl, t);
      AdmitsDerived(m, q[1..], cs[1..], tokenTtl, t);
      LaterFrom(cs, t, if t in r.tokens then r.tokens[t].expiry else 0);
    }
  }

  lemma IssueDerived(s: Room, now: Millis, req: IssueRequest, lb: seq<LeaseKey>, tb: seq<TokenHash>, t: TokenHash)
    ensures Derived(s, Issue(s, now, req, lb, tb).room, t, None, req.candidates)
  {
    if Guard(s).None? {
      var retention := MaxMs(req.tokenTtl, TOMBSTONE_MS);
      var s0 := Tick(s, now);
      var s1 := ReapLeases(s0, lb, retention);
      ReapsDerived(s0, lb, retention, t);
      var s2 := ExpireInflights(s1, tb, retention);
      ExpiriesDerived(s1, tb, retention, t);
      LapsesDerived(s2, Head(s2.queue, req.cleanup), t);
      var m := Cleanup(s0, req, lb, tb);
      AdmitsDerived(m, Head(m.queue, Capacity(m, req)), req.candidates, req.tokenTtl, t);
    }
  }

  lemma JoinDerived(s: Room, now: Millis, e: EntryId, o: OwnerHash, f: Digest, trip: Trip, t: TokenHash)
    ensures Derived(s, Join(s, now, e, o, f, trip).room, t, None, [])
  {
    LapsesDerived(Tick(s, now), Head(s.queue, JOIN_CLEANUP), t);
  }

  lemma GrantDerived(s: Room, req: AcquireRequest, t: TokenHash)
    requires req.token in s.tokens
    ensures Derived(s, GrantOrExpire(s, req).room, t, None, [])
  {
  }

  lemma AcquireDerived(s: Room, now: Millis, req: AcquireRequest, t: TokenHash)
    ensures Derived(s, Acquire(s, now, req).room, t, None, [])
  {
    if Guard(s).None? && req.token in s.tokens && Binds(s.tokens[req.token], req) {
      var s1 := Tick(s, now);
      var k := s1.tokens[req.token];
      match k.status
      case TokenIssued => GrantDerived(s1, req, t);
      case TokenProcessing =>
        var m := Return(s1, req.token, Recovered(req.token));
        assert Derived(s, m, t, None, []);
        GrantDerived(m, req, t);
      case _ =>
    }
  }

  lemma ReleaseDerived(s: Room, now: Millis, m: LeaseMutation, permanent: bool, t: TokenHash)
    ensures Derived(s, Release(s, now, m, permanent).room, t, None, [])
  {
    if LeaseCheck(s, m).None? {
      CloseDerived(Settle(Tick(s, now), m.token), m.token, TokenCancelled, KeepUntil(s.tokens[m.token], now), t);
    }
  }

  lemma GetDerived(s: Room, now: Millis, e: EntryId, o: OwnerHash, claim: bool, t: TokenHash)
    ensures Derived(s, Get(s, now, e, o, claim).room, t, None, [])
  {
    if Guard(s).None? && e in s.entries && TokenRunOut(Tick(s, now), s.entries[e]) {
      CloseDerived(Tick(s, now), s.entries[e].token.value, TokenExpired, now + TOMBSTONE_MS, t);
    }
  }

  lemma CancelDerived(s: Room, e: EntryId, o: OwnerHash, t: TokenHash)
    ensures Derived(s, Cancel(s, e, o).room, t, None, [])
  {
  }

  lemma FinalizeDerived(s: Room, now: Millis, m: LeaseMutation, t: TokenHash)
    ensures Derived(s, Finalize(s, now, m).room, t, Some(m.token), [])
  {
  }

  lemma RepairDerived(s: Room, now: Millis, u: TokenHash, o: OwnerHash, b: Binding, t: TokenHash)
    ensures Derived(s, FinalizeCommitted(s, now, u, o, b).room, t, Some(u), [])
  {
  }

  /** The token that the call may consume. */
  function Consumes(c: Call): Option<TokenHash> {
    match c
    case CallFinalize(_, m) => Some(m.token)
    case CallRepair(_, t, _, _) => Some(t)
    case _ => None
  }

  function Candidates(c: Call): seq<Candidate> {
    if c.CallIssue? then c.req.candidates else []
  }

  lemma CallDerived(s: Room, c: Call, t: TokenHash)
    ensures Derived(s, Run1(s, c).room, t, Consumes(c), Candidates(c))
  {
    match c
    case CallJoin(now, e, o, f, trip) => JoinDerived(s, now, e, o, f, trip, t);
    case CallGet(now, e, o, claim) => GetDerived(s, now, e, o, claim, t);
    case CallCancel(e, o) => CancelDerived(s, e, o, t);
    case CallIssue(now, req, lb, tb) => IssueDerived(s, now, req, lb, tb, t);
    case CallAcquire(now, req) => AcquireDerived(s, now, req, t);
    case CallRelease(now, m, permanent) => ReleaseDerived(s, now, m, permanent, t);
    case CallFinalize(now, m) => FinalizeDerived(s, now, m, t);
    case CallRepair(now, u, o, b) => RepairDerived(s, now, u, o, b, t);
    case CallMarkers(p, k) =>
  }
}
