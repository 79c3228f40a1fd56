/**
 Where tokens come from: an issue call admits a waiting entry for a candidate only when every
 check of the candidate passes, and the token and the entry then hold just what the candidate
 and the entry said.
 */
module IssueAnswers {
  import opened RoomState
  import opened RoomSteps
  import opened RoomHistory
  import opened RoomLife
  import opened RoomScripts
  import opened RoomPaths
  import opened RoomFifo
  import opened RoomRuns
  import opened RoomProgress
  import opened RoomWait
  import opened RoomTokens
  import opened RoomFrames

  /** The candidate passes every check against entry x: it was issued at most five seconds ahead of
      now, has not expired, lives at most the token time and one second more, and is for the
      owner and the fingerprint of the entry, which waits and has not run out. */
  ghost predicate Passes(x: Entry, c: Candidate, now: Millis, tokenTtl: Millis) {
    && x.status == EntryQueued && now < x.expiry
    && c.issuedAt <= now + 5000 && now < c.expiresAt && c.expiresAt - c.issuedAt <= tokenTtl + 1000
    && c.owner == x.owner && c.fingerprint == x.fingerprint
  }

  /** The token that candidate c makes for entry x. */
  ghost predicate TokenOf(x: Entry, c: Candidate, k: Token) {
    && k.status == TokenIssued && k.entry == c.entry
    && k.keyId == c.keyId && k.nonce == c.nonce && k.issuedAt == c.issuedAt && k.expiry == c.expiresAt
    && k.owner == x.owner && k.fingerprint == x.fingerprint
    && k.trip.fromStop == x.trip.fromStop && k.trip.toStop == x.trip.toStop
    && k.trip.seatClass == x.trip.seatClass && k.trip.passengers == x.trip.passengers
    && !k.delivered && k.generation == 0 && k.binding == None && k.lease == None && !k.cancelRequested
  }

  /** The entry as its admission leaves it: it lives at least as long as its token. */
  ghost predicate EntryAfter(x: Entry, c: Candidate, now: Millis, y: Entry) {
    && y.status == EntryAdmitted && y.token == Some(c.token) && y.admittedAt == Some(now)
    && y.expiry == (if x.expiry < c.expiresAt then c.expiresAt else x.expiry)
    && y.owner == x.owner && y.fingerprint == x.fingerprint && y.trip == x.trip && y.seqNo == x.seqNo && y.joinedAt == x.joinedAt
  }

  /** Token t of r was made for candidate c, whose entry waited in m. */
  ghost predicate Born(m: Room, c: Candidate, tokenTtl: Millis, t: TokenHash, r: Room) {
    && c.token == t && c.entry in m.entries && Passes(m.entries[c.entry], c, m.clock, tokenTtl)
    && t in r.tokens && TokenOf(m.entries[c.entry], c, r.tokens[t])
    && c.entry in r.entries && EntryAfter(m.entries[c.entry], c, m.clock, r.entries[c.entry])
    && t in r.inflight && r.inflight[t] == c.expiresAt && t in r.rate && r.rate[t] == m.clock
    && Admitted(c.entry, t, m.clock) in r.log
  }

  /** A turn of the loop admits for a good candidate, and makes no other token. */
  lemma TurnBears(m: Room, c: Candidate, tokenTtl: Millis, t: TokenHash)
    requires t !in m.tokens && t in AdmitOne(m, c, tokenTtl).tokens
    ensures Born(m, c, tokenTtl, t, AdmitOne(m, c, tokenTtl))
  {
    var r := AdmitOne(m, c, tokenTtl);
    assert r.log == m.log + [Admitted(c.entry, c.token, m.clock)];
  }

  /** What a turn leaves alone: the tokens there are, and entries that do not wait. */
  ghost predicate TurnKeeps(m: Room, r: Room) {
    && r.clock == m.clock && m.log <= r.log
    && (forall t :: t in m.tokens ==> t in r.tokens && r.tokens[t] == m.tokens[t])
    && (forall t :: t in m.tokens && t in m.inflight ==> t in r.inflight && r.inflight[t] == m.inflight[t])
    && (forall t :: t in m.tokens && t in m.rate ==> t in r.rate && r.rate[t] == m.rate[t])
    && (forall e :: e in m.entries && m.entries[e].status != EntryQueued ==> e in r.entries && r.entries[e] == m.entries[e])
    && (forall e :: e in r.entries && r.entries[e].status == EntryQueued ==> e in m.entries && r.entries[e] == m.entries[e])
  }

  lemma TurnIsKind(m: Room, c: Candidate, tokenTtl: Millis)
    ensures TurnKeeps(m, AdmitOne(m, c, tokenTtl))
  {
    if Accepted(m, c, tokenTtl) {
      AdmitIsKind(m, c);
    } else if Stale(m, c.entry) {
      LapseIsKind(m, c.entry);
    } else {
      assert AdmitOne(m, c, tokenTtl) == m;
    }
  }

  lemma AdmitIsKind(m: Room, c: Candidate)
    requires c.entry in m.entries && m.entries[c.entry].status == EntryQueued && c.token !in m.tokens
    ensures TurnKeeps(m, Admit(m, c))
  {
  }

  lemma LapseIsKind(m: Room, e: EntryId)
    requires e in m.entries && m.entries[e].status == EntryQueued
    ensures TurnKeeps(m, Lapse(m, e, m.clock + TOMBSTONE_MS))
  {
  }

  lemma KeepsTwice(m: Room, n: Room, r: Room)
    requires TurnKeeps(m, n) && TurnKeeps(n, r)
    ensures TurnKeeps(m, r)
  {
  }

  lemma {:induction false} LoopIsKind(m: Room, q: seq<EntryId>, cs: seq<Candidate>, tokenTtl: Millis, r: Room)
    requires r == AdmitAll(m, q, cs, tokenTtl)
    ensures TurnKeeps(m, r)
    decreases |q|
  {
    if q != [] && cs != [] && cs[0].entry == q[0] {
      var n := AdmitOne(m, cs[0], tokenTtl);
      TurnIsKind(m, cs[0], tokenTtl);
      LoopIsKind(n, q[1..], cs[1..], tokenTtl, r);
      KeepsTwice(m, n, r);
    }
  }

  lemma BornStays(m: Room, c: Candidate, tokenTtl: Millis, t: TokenHash, n: Room, r: Room)
    requires Born(m, c, tokenTtl, t, n) && TurnKeeps(n, r)
    ensures Born(m, c, tokenTtl, t, r)
  {
  }

  /** A later turn finds a waiting entry as it was. */
  lemma BornEarlier(m: Room, n: Room, c: Candidate, tokenTtl: Millis, t: TokenHash, r: Room)
    requires TurnKeeps(m, n) && Born(n, c, tokenTtl, t, r)
    ensures Born(m, c, tokenTtl, t, r)
  {
  }

  /** Every token that the loop makes is born of one of its candidates. */
  lemma {:induction false} LoopBears(m: Room, q: seq<EntryId>, cs: seq<Candidate>, tokenTtl: Millis, t: TokenHash, r: Room) returns (j: nat)
    requires r == AdmitAll(m, q, cs, tokenTtl) && t !in m.tokens && t in r.tokens
    ensures j < |cs| && Born(m, cs[j], tokenTtl, t, r)
    decreases |q|
  {
    var n := AdmitOne(m, cs[0], tokenTtl);
    TurnIsKind(m, cs[0], tokenTtl);
    if t in n.tokens {
      j := 0;
      TurnBears(m, cs[0], tokenTtl, t);
      LoopIsKind(n, q[1..], cs[1..], tokenTtl, r);
      BornStays(m, cs[0], tokenTtl, t, n, r);
    } else {
      j := LoopBears(n, q[1..], cs[1..], tokenTtl, t, r);
      BornEarlier(m, n, cs[j + 1], tokenTtl, t, r);
      j := j + 1;
    }
  }

  /** Token t of r was made by an issue call on s for its candidate c. */
  ghost predicate BornOf(s: Room, now: Millis, c: Candidate, tokenTtl: Millis, t: TokenHash, r: Room) {
    && c.token == t && c.entry in s.entries && Passes(s.entries[c.entry], c, now, tokenTtl)
    && t in r.tokens && TokenOf(s.entries[c.entry], c, r.tokens[t])
    && c.entry in r.entries && EntryAfter(s.entries[c.entry], c, now, r.entries[c.entry])
    && t in r.inflight && r.inflight[t] == c.expiresAt && t in r.rate && r.rate[t] == now
    && Admitted(c.entry, t, now) in r.log
  }

  /** The sweep leaves who still waits as they were. */
  lemma SweptWaits(s: Room, now: Millis, req: IssueRequest, lb: seq<LeaseKey>, tb: seq<TokenHash>, e: EntryId)
    requires Inv(s) && s.clock <= now && 0 <= req.cleanup && Batches(Tick(s, now), req, lb, tb)
    requires e in Swept(s, now, req, lb, tb).entries && Swept(s, now, req, lb, tb).entries[e].status == EntryQueued
    ensures e in s.entries && Swept(s, now, req, lb, tb).entries[e] == s.entries[e]
  {
    var m := Swept(s, now, req, lb, tb);
    SweptPath(s, now, req, lb, tb, false);
    PathInv(s, m, false);
    assert EntryOk(m, e);
    SweepRemoves(s, now, req, lb, tb);
    SweptEntry(s, now, req, lb, tb, e);
  }

  /** Whatever the candidates are: every token that an issue call makes is one of theirs, passed
      every check, and holds the key id, nonce and times of its candidate and the owner,
      fingerprint and trip of the entry as it was before the call. */
  lemma NewTokenIsBorn(s: Room, now: Millis, req: IssueRequest, lb: seq<LeaseKey>, tb: seq<TokenHash>, t: TokenHash) returns (j: nat)
    requires Inv(s) && Legal(s, CallIssue(now, req, lb, tb)) && t !in s.tokens
    requires t in Issue(s, now, req, lb, tb).room.tokens
    ensures j < |req.candidates| && BornOf(s, now, req.candidates[j], req.tokenTtl, t, Issue(s, now, req, lb, tb).room)
  {
    var m, r := Swept(s, now, req, lb, tb), Issue(s, now, req, lb, tb).room;
    SweptMakesNone(s, now, req, lb, tb, t);
    j := LoopBears(m, Head(m.queue, Capacity(m, req)), req.candidates, req.tokenTtl, t, r);
    SweptFrame(s, now, req, lb, tb);
    SweptWaits(s, now, req, lb, tb, req.candidates[j].entry);
  }

  lemma SweptMakesNone(s: Room, now: Millis, req: IssueRequest, lb: seq<LeaseKey>, tb: seq<TokenHash>, t: TokenHash)
    requires t !in s.tokens
    ensures t !in Swept(s, now, req, lb, tb).tokens
  {
    var retention := MaxMs(req.tokenTtl, TOMBSTONE_MS);
    var s1 := ReapLeases(Tick(s, now), lb, retention);
    ReapsDerived(Tick(s, now), lb, retention, t);
    ExpiriesDerived(s1, tb, retention, t);
    var s2 := ExpireInflights(s1, tb, retention);
    LapsesDerived(s2, Head(s2.queue, req.cleanup), t);
  }
}
