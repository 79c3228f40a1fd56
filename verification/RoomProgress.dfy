/**
 Progress: expired entries form a prefix of the queue, every issue or maintenance call
 clears as much of it as its cleanup limit allows, then admission is exactly as large
 as the limits permit, and this bounds how long anybody can wait.
 */
module RoomProgress {
  import opened RoomState
  import opened RoomSteps
  import opened RoomInvariant
  import opened RoomHistory
  import opened RoomOrder
  import opened RoomLife
  import opened RoomScripts
  import opened RoomPaths
  import opened RoomFifo
  import opened RoomRuns
  import opened RoomTheorems

  // ------------------------------------------------------------------ the expired prefix

  /** How many entries at the head of the list are stale. */
  function StalePrefix(s: Room, q: seq<EntryId>): (n: nat)
    ensures n <= |q|
    ensures forall i :: 0 <= i < n ==> Stale(s, q[i])
    ensures n < |q| ==> !Stale(s, q[n])
  {
    if q == [] || !Stale(s, q[0]) then 0 else 1 + StalePrefix(s, q[1..])
  }

  /** Behind the first unexpired entry nobody has expired. */
  lemma StaleIsPrefix(s: Room, i: int)
    requires Consistent(s) && 0 <= i < |s.queue|
    ensures Stale(s, s.queue[i]) <==> i < StalePrefix(s, s.queue)
  {
    var p := StalePrefix(s, s.queue);
    if p <= i {
      assert EntryOk(s, s.queue[p]) && EntryOk(s, s.queue[i]);
      if p < i { assert Before(s, s.queue[p], s.queue[i]); }
    }
  }

  /** The cleanup loop over the first entries removes exactly the stale ones among them. */
  lemma {:induction false} LapseAllRemoves(s: Room, q: seq<EntryId>)
    requires Consistent(s) && q <= s.queue
    ensures LapseAll(s, q).queue == s.queue[StalePrefix(s, q)..]
    decreases |q|
  {
    if q == [] {
    } else if Stale(s, q[0]) {
      var m := LapseIfStale(s, q[0]);
      LapseHead(s, q);
      LapseIfStalePath(s, q[0], false);
      PathConsistent(s, m, false);
      LapseAllRemoves(m, q[1..]);
      StalePrefixKept(s, m, q[1..]);
      assert s.queue[1..][StalePrefix(s, q[1..])..] == s.queue[StalePrefix(s, q)..];
    } else {
      FreshHead(s, q);
      LapseAllIdle(s, q);
    }
  }

  /** A stale head lapses; the others stay as they are. */
  lemma LapseHead(s: Room, q: seq<EntryId>)
    requires Consistent(s) && q != [] && q <= s.queue && Stale(s, q[0])
    ensures var m := LapseIfStale(s, q[0]);
            && EntryOk(s, q[0]) && m.queue == s.queue[1..] && m.clock == s.clock && q[1..] <= m.queue
            && LapseAll(s, q) == LapseAll(m, q[1..])
            && (forall i :: 0 <= i < |q[1..]| ==>
                  (q[1..][i] in m.entries <==> q[1..][i] in s.entries)
                  && (q[1..][i] in s.entries ==> m.entries[q[1..][i]] == s.entries[q[1..][i]]))
  {
    WithoutHead(s);
    assert EntryOk(s, q[0]);
    forall i | 0 <= i < |q[1..]| ensures q[1..][i] != q[0] {
      assert Before(s, s.queue[0], s.queue[i + 1]);
    }
  }

  /** When the head has not expired, nobody has. */
  lemma FreshHead(s: Room, q: seq<EntryId>)
    requires Consistent(s) && q != [] && q <= s.queue && !Stale(s, q[0])
    ensures forall i :: 0 <= i < |q| ==> !Stale(s, q[i])
  {
    assert EntryOk(s, s.queue[0]);
    forall i | 0 <= i < |q| ensures !Stale(s, q[i]) {
      assert q[i] == s.queue[i];
      assert i > 0 ==> Before(s, s.queue[0], s.queue[i]);
    }
  }

  /** Staleness of the others does not depend on who left. */
  lemma {:induction false} StalePrefixKept(s: Room, m: Room, q: seq<EntryId>)
    requires m.clock == s.clock && forall i :: 0 <= i < |q| ==>
               (q[i] in m.entries <==> q[i] in s.entries) && (q[i] in s.entries ==> m.entries[q[i]] == s.entries[q[i]])
    ensures StalePrefix(m, q) == StalePrefix(s, q)
    decreases |q|
  {
    if q != [] {
      StalePrefixKept(s, m, q[1..]);
    }
  }

  lemma {:induction false} LapseAllIdle(s: Room, q: seq<EntryId>)
    requires forall i :: 0 <= i < |q| ==> !Stale(s, q[i])
    ensures LapseAll(s, q) == s
    decreases |q|
  {
    if q != [] {
      LapseAllIdle(s, q[1..]);
    }
  }

  lemma {:induction false} StalePrefixHead(s: Room, q: seq<EntryId>, n: int)
    requires 0 <= n
    ensures StalePrefix(s, Head(q, n)) == MinInt(n, StalePrefix(s, q))
    decreases |q|
  {
    if q != [] && 0 < n && Stale(s, q[0]) {
      StalePrefixHead(s, q[1..], n - 1);
      assert Head(q, n)[1..] == Head(q[1..], n - 1);
      assert Head(q, n)[0] == q[0];
    }
  }

  /** The queue and its entries are untouched. */
  ghost predicate SameQueue(s: Room, r: Room) {
    && r.queue == s.queue && r.clock == s.clock
    && forall e :: e in s.queue ==> (e in r.entries <==> e in s.entries) && (e in s.entries ==> r.entries[e] == s.entries[e])
  }

  lemma ReapLeaseQueue(s: Room, key: LeaseKey, retention: Millis)
    requires AllOk(s) && key in s.leases
    ensures SameQueue(s, ReapLease(s, key, retention))
  {
    match key
    case EntryKey(e) =>
      assert EntryOk(s, e);
    case TokenKey(t) =>
      assert TokenOk(s, t) && EntryOk(s, s.tokens[t].entry);
  }

  lemma {:induction false} ReapLeasesQueue(s: Room, batch: seq<LeaseKey>, retention: Millis)
    requires Consistent(s)
    requires forall i :: 0 <= i < |batch| ==> batch[i] in s.leases
    requires forall i, j :: 0 <= i < j < |batch| ==> batch[i] != batch[j]
    ensures SameQueue(s, ReapLeases(s, batch, retention))
    decreases |batch|
  {
    if batch != [] {
      var m := ReapLease(s, batch[0], retention);
      ReapLeaseQueue(s, batch[0], retention);
      ReapLeasePath(s, batch[0], retention, false);
      PathConsistent(s, m, false);
      forall i | 0 <= i < |batch[1..]| ensures batch[1..][i] in m.leases {
        ReapLeaseOther(s, batch[0], retention, batch[1..][i]);
      }
      ReapLeasesQueue(m, batch[1..], retention);
    }
  }

  lemma {:induction false} ExpireInflightsQueue(s: Room, batch: seq<TokenHash>, retention: Millis)
    requires Consistent(s)
    requires forall i :: 0 <= i < |batch| ==> batch[i] in s.inflight
    requires forall i, j :: 0 <= i < j < |batch| ==> batch[i] != batch[j]
    ensures SameQueue(s, ExpireInflights(s, batch, retention))
    decreases |batch|
  {
    if batch != [] {
      var m := ExpireInflight(s, batch[0], retention);
      assert TokenOk(s, batch[0]) && EntryOk(s, s.tokens[batch[0]].entry);
      ExpireInflightPath(s, batch[0], retention, false);
      ExpireInflightOther(s, batch[0], retention);
      PathConsistent(s, m, false);
      assert SameQueue(s, m);
      ExpireInflightsQueue(m, batch[1..], retention);
    }
  }

  /** What the two lease loops of a sweep leave to the queue loop. */
  ghost function Drained(s: Room, now: Millis, req: IssueRequest, lb: seq<LeaseKey>, tb: seq<TokenHash>): Room {
    var retention := MaxMs(req.tokenTtl, TOMBSTONE_MS);
    ExpireInflights(ReapLeases(Tick(s, now), lb, retention), tb, retention)
  }

  lemma DrainedQueue(s: Room, now: Millis, req: IssueRequest, lb: seq<LeaseKey>, tb: seq<TokenHash>)
    requires Consistent(s) && s.clock <= now && Batches(Tick(s, now), req, lb, tb)
    ensures Consistent(Drained(s, now, req, lb, tb))
    ensures SameQueue(Tick(s, now), Drained(s, now, req, lb, tb))
  {
    var retention := MaxMs(req.tokenTtl, TOMBSTONE_MS);
    var s0 := Tick(s, now);
    TickConsistent(s, now);
    var s1 := ReapLeases(s0, lb, retention);
    ReapLeasesQueue(s0, lb, retention);
    ReapLeasesPath(s0, lb, retention, false);
    PathConsistent(s0, s1, false);
    ExpireInflightsQueue(s1, tb, retention);
    ExpireInflightsPath(s1, tb, retention, false);
    PathConsistent(s1, Drained(s, now, req, lb, tb), false);
  }

  /** The sweep of an issue or maintenance call removes min(cleanup limit, expired prefix)
      entries from the head of the queue and leaves the rest in place. */
  lemma SweepRemoves(s: Room, now: Millis, req: IssueRequest, lb: seq<LeaseKey>, tb: seq<TokenHash>)
    requires Consistent(s) && s.clock <= now && 0 <= req.cleanup && Batches(Tick(s, now), req, lb, tb)
    ensures Swept(s, now, req, lb, tb).queue
         == s.queue[MinInt(req.cleanup, StalePrefix(Tick(s, now), s.queue))..]
  {
    var m := Drained(s, now, req, lb, tb);
    DrainedQueue(s, now, req, lb, tb);
    LapseAllRemoves(m, Head(m.queue, req.cleanup));
    StalePrefixHead(m, m.queue, req.cleanup);
    StalePrefixKept(Tick(s, now), m, s.queue);
  }

  // ------------------------------------------------------------------ exact admission

  /** The candidates line up with the entries, are genuine, and their times are acceptable. */
  ghost predicate Aligned(s: Room, q: seq<EntryId>, cs: seq<Candidate>, tokenTtl: Millis) {
    && |q| <= |cs|
    && ProperBatch(s, cs)
    && forall i :: 0 <= i < |q| ==> cs[i].entry == q[i] && Timely(s.clock, cs[i], tokenTtl)
  }

  ghost function Admissions(cs: seq<Candidate>, n: nat, at: Millis): seq<Event>
    requires n <= |cs|
  {
    if n == 0 then []
    else [Admitted(cs[0].entry, cs[0].token, at)] + Admissions(cs[1..], n - 1, at)
  }

  /** One turn of the admission loop whose candidate is good. */
  lemma GoodTurn(s: Room, q: seq<EntryId>, cs: seq<Candidate>, tokenTtl: Millis)
    requires Consistent(s) && q != [] && RoomFor(s, |q|) && FreshCandidates(s.log, cs) && q <= s.queue
    requires Aligned(s, q, cs, tokenTtl) && forall i :: 0 <= i < |q| ==> !Stale(s, q[i])
    ensures var m := AdmitOne(s, cs[0], tokenTtl);
            && m.queue == s.queue[1..] && m.clock == s.clock
            && m.log == s.log + [Admitted(cs[0].entry, cs[0].token, s.clock)]
            && Path(s, m, false) && RoomFor(m, |q| - 1) && FreshCandidates(m.log, cs[1..])
  {
    var c := cs[0];
    assert cs == [c] + cs[1..];
    assert EntryOk(s, c.entry) && Proper(s, c) && !Stale(s, q[0]);
    AdmitOnePath(s, c, tokenTtl, false);
    AdmitOneLeaves(s, c, cs[1..], tokenTtl, |q| - 1);
    HeadTurn(s, c, tokenTtl);
  }

  lemma LogTail(log: seq<Event>, ev: Event, more: seq<Event>)
    ensures (log + [ev]) + more == log + ([ev] + more)
  {
  }

  /** What a turn of the admission loop relies on: all of q can be admitted. */
  ghost predicate Ready(s: Room, q: seq<EntryId>, cs: seq<Candidate>, tokenTtl: Millis) {
    && RoomFor(s, |q|) && FreshCandidates(s.log, cs) && q <= s.queue
    && Aligned(s, q, cs, tokenTtl) && forall i :: 0 <= i < |q| ==> !Stale(s, q[i])
  }

  lemma ReadyTurn(s: Room, q: seq<EntryId>, cs: seq<Candidate>, tokenTtl: Millis)
    requires Consistent(s) && q != [] && Ready(s, q, cs, tokenTtl)
    ensures var m := AdmitOne(s, cs[0], tokenTtl);
            && Ready(m, q[1..], cs[1..], tokenTtl) && Consistent(m)
            && m.queue == s.queue[1..] && m.clock == s.clock
            && m.log == s.log + [Admitted(cs[0].entry, cs[0].token, s.clock)]
  {
    GoodTurn(s, q, cs, tokenTtl);
    AlignedLater(s, q, cs, tokenTtl);
    PathConsistent(s, AdmitOne(s, cs[0], tokenTtl), false);
  }

  lemma {:induction false} AdmitAllExactly(s: Room, q: seq<EntryId>, cs: seq<Candidate>, tokenTtl: Millis, r: Room)
    requires Consistent(s) && Ready(s, q, cs, tokenTtl) && r == AdmitAll(s, q, cs, tokenTtl)
    ensures AdmittedFirst(s, r, cs, |q|)
    decreases |q|
  {
    if q == [] {
      NoMore(s.queue, s.log);
    } else {
      var m := AdmitOne(s, cs[0], tokenTtl);
      HeadThenTail(s, q, cs, tokenTtl, m);
      AdmitAllExactly(m, q[1..], cs[1..], tokenTtl, r);
      OneMore(s, m, r, cs, |q|);
    }
  }

  /** The head is admitted, and the tail is ready. */
  lemma HeadThenTail(s: Room, q: seq<EntryId>, cs: seq<Candidate>, tokenTtl: Millis, m: Room)
    requires Consistent(s) && q != [] && Ready(s, q, cs, tokenTtl) && m == AdmitOne(s, cs[0], tokenTtl)
    ensures |q| <= |s.queue| && |q| <= |cs| && AdmitsHead(s, m, cs[0])
    ensures Consistent(m) && Ready(m, q[1..], cs[1..], tokenTtl)
    ensures AdmitAll(s, q, cs, tokenTtl) == AdmitAll(m, q[1..], cs[1..], tokenTtl)
  {
    ReadyTurn(s, q, cs, tokenTtl);
    AdmitAllFirst(s, q, cs, tokenTtl);
  }

  ghost predicate AdmitsHead(s: Room, m: Room, c: Candidate) {
    && s.queue != [] && m.queue == s.queue[1..] && m.clock == s.clock
    && m.log == s.log + [Admitted(c.entry, c.token, s.clock)]
  }

  /** The first n of the queue were admitted for the first n candidates, and nothing else happened. */
  ghost predicate AdmittedFirst(s: Room, r: Room, cs: seq<Candidate>, n: nat) {
    n <= |s.queue| && n <= |cs| && r.queue == s.queue[n..] && r.log == s.log + Admissions(cs, n, s.clock)
  }

  lemma NoMore(q: seq<EntryId>, log: seq<Event>)
    ensures q[0..] == q && log + [] == log
  {
  }

  lemma AdmitAllFirst(s: Room, q: seq<EntryId>, cs: seq<Candidate>, tokenTtl: Millis)
    requires q != [] && cs != [] && cs[0].entry == q[0]
    ensures AdmitAll(s, q, cs, tokenTtl) == AdmitAll(AdmitOne(s, cs[0], tokenTtl), q[1..], cs[1..], tokenTtl)
  {
  }

  /** One admission and then n - 1 more are n admissions. */
  lemma OneMore(s: Room, m: Room, r: Room, cs: seq<Candidate>, n: nat)
    requires 1 <= n <= |s.queue| && n <= |cs|
    requires AdmitsHead(s, m, cs[0]) && AdmittedFirst(m, r, cs[1..], n - 1)
    ensures AdmittedFirst(s, r, cs, n)
  {
    LogTail(s.log, Admitted(cs[0].entry, cs[0].token, s.clock), Admissions(cs[1..], n - 1, s.clock));
  }

  lemma AlignedLater(s: Room, q: seq<EntryId>, cs: seq<Candidate>, tokenTtl: Millis)
    requires q != [] && q <= s.queue && QueueOrdered(s) && Aligned(s, q, cs, tokenTtl)
    requires forall i :: 0 <= i < |q| ==> !Stale(s, q[i])
    ensures Aligned(AdmitOne(s, cs[0], tokenTtl), q[1..], cs[1..], tokenTtl)
    ensures forall i :: 0 <= i < |q[1..]| ==> !Stale(AdmitOne(s, cs[0], tokenTtl), q[1..][i])
  {
    var m := AdmitOne(s, cs[0], tokenTtl);
    forall i | 0 <= i < |cs[1..]| ensures Proper(m, cs[1..][i]) {
      assert Proper(s, cs[i + 1]);
      AdmitOneProper(s, cs[0], cs[i + 1], tokenTtl);
    }
    forall i | 0 <= i < |q[1..]| ensures !Stale(m, q[1..][i]) {
      assert !Stale(s, q[i + 1]);
      assert Before(s, s.queue[0], s.queue[i + 1]);
    }
  }

  /** How many entries the limits let an issue call admit. */
  ghost function Allowed(m: Room, req: IssueRequest): int {
    MinInt(MinInt(|req.candidates|, |m.queue|), MinInt(req.rate - |m.rate|, req.maxInflight - |m.inflight|))
  }

  /** How many candidates line up with the list before the first that does not. */
  function Match(q: seq<EntryId>, cs: seq<Candidate>): (n: nat)
    ensures n <= |q| && n <= |cs|
    ensures forall i :: 0 <= i < n ==> cs[i].entry == q[i]
    ensures n < |q| && n < |cs| ==> cs[n].entry != q[n]
  {
    if q == [] || cs == [] || cs[0].entry != q[0] then 0 else 1 + Match(q[1..], cs[1..])
  }

  /** The admission loop sees nothing behind the first candidate that does not line up. */
  lemma {:induction false} AdmitAllStops(s: Room, q: seq<EntryId>, cs: seq<Candidate>, tokenTtl: Millis)
    ensures AdmitAll(s, q, cs, tokenTtl) == AdmitAll(s, q[..Match(q, cs)], cs, tokenTtl)
    decreases |q|
  {
    if q != [] && cs != [] && cs[0].entry == q[0] {
      AdmitAllStops(AdmitOne(s, cs[0], tokenTtl), q[1..], cs[1..], tokenTtl);
      assert q[..Match(q, cs)][1..] == q[1..][..Match(q[1..], cs[1..])];
    }
  }

  /** How many of the candidates line up with as much of the queue as the limits allow. */
  ghost function Lined(m: Room, req: IssueRequest): nat {
    Match(Head(m.queue, Capacity(m, req)), req.candidates)
  }

  lemma LinedIsAllowed(m: Room, req: IssueRequest)
    ensures Lined(m, req) <= |m.queue| && Lined(m, req) <= |req.candidates|
    ensures Lined(m, req) <= (if Allowed(m, req) <= 0 then 0 else Allowed(m, req))
    ensures (forall i :: 0 <= i < Allowed(m, req) ==> req.candidates[i].entry == m.queue[i]) ==>
              Lined(m, req) == (if Allowed(m, req) <= 0 then 0 else Allowed(m, req))
  {
  }

  /** Candidates that only the queue can keep from being admitted. */
  ghost predicate GoodBatch(m: Room, req: IssueRequest) {
    && req.rate <= m.limits.rate && req.maxInflight <= m.limits.maxInflight
    && FreshCandidates(m.log, req.candidates) && ProperBatch(m, req.candidates)
    && forall i :: 0 <= i < |req.candidates| ==> Timely(m.clock, req.candidates[i], req.tokenTtl)
  }

  lemma SweptGood(s: Room, now: Millis, req: IssueRequest, lb: seq<LeaseKey>, tb: seq<TokenHash>, m: Room)
    requires GoodRequest(s, req) && m == Swept(s, now, req, lb, tb)
    requires forall i :: 0 <= i < |req.candidates| ==>
               Proper(s, req.candidates[i]) && Timely(now, req.candidates[i], req.tokenTtl)
    ensures GoodBatch(m, req) && m.clock == now
  {
    SweptFrame(s, now, req, lb, tb);
    forall i | 0 <= i < |req.candidates| ensures FreshToken(m.log, req.candidates[i].token) && Proper(m, req.candidates[i]) {
      assert FreshToken(s.log, req.candidates[i].token) && Proper(s, req.candidates[i]);
    }
  }

  lemma ReadyLined(m: Room, req: IssueRequest)
    requires Consistent(m) && GoodBatch(m, req)
    requires forall i :: 0 <= i < |m.queue| ==> !Stale(m, m.queue[i])
    ensures var q := Head(m.queue, Capacity(m, req));
            Ready(m, q[..Match(q, req.candidates)], req.candidates, req.tokenTtl)
  {
    CapacityFits(m, req);
  }

  /** Once the expired prefix is within the cleanup limit, an issue call with valid candidates
      admits exactly the head of the queue that lines up with them, in order; when all the
      candidates that matter line up, that is min(requested, rate left, inflight left, queue
      length) entries. */
  lemma AdmitsExactly(s: Room, now: Millis, req: IssueRequest, lb: seq<LeaseKey>, tb: seq<TokenHash>)
    requires Inv(s) && Guard(s).None? && Legal(s, CallIssue(now, req, lb, tb))
    requires StalePrefix(Tick(s, now), s.queue) <= req.cleanup
    requires forall i :: 0 <= i < |req.candidates| ==>
               Proper(s, req.candidates[i]) && Timely(now, req.candidates[i], req.tokenTtl)
    ensures var m, r := Swept(s, now, req, lb, tb), Issue(s, now, req, lb, tb).room;
            && AdmittedFirst(m, r, req.candidates, Lined(m, req)) && m.clock == now
            && (Lined(m, req) == 0 ==> r == m)
            && ((forall i :: 0 <= i < Allowed(m, req) ==> req.candidates[i].entry == m.queue[i]) ==>
                  Lined(m, req) == (if Allowed(m, req) <= 0 then 0 else Allowed(m, req)))
  {
    var m := Swept(s, now, req, lb, tb);
    var q := Head(m.queue, Capacity(m, req));
    SweptPath(s, now, req, lb, tb, false);
    PathConsistent(s, m, false);
    SweptGood(s, now, req, lb, tb, m);
    SweptFresh(s, now, req, lb, tb);
    ReadyLined(m, req);
    AdmitAllStops(m, q, req.candidates, req.tokenTtl);
    AdmitAllExactly(m, q[..Match(q, req.candidates)], req.candidates, req.tokenTtl, Issue(s, now, req, lb, tb).room);
    LinedIsAllowed(m, req);
  }

  /** After a sweep that covers the expired prefix, nobody in the queue is stale. */
  lemma SweptFresh(s: Room, now: Millis, req: IssueRequest, lb: seq<LeaseKey>, tb: seq<TokenHash>)
    requires Consistent(s) && s.clock <= now && Batches(Tick(s, now), req, lb, tb)
    requires 0 <= req.cleanup && StalePrefix(Tick(s, now), s.queue) <= req.cleanup
    ensures forall i :: 0 <= i < |Swept(s, now, req, lb, tb).queue| ==>
              !Stale(Swept(s, now, req, lb, tb), Swept(s, now, req, lb, tb).queue[i])
  {
    var m := Swept(s, now, req, lb, tb);
    var p := StalePrefix(Tick(s, now), s.queue);
    SweepRemoves(s, now, req, lb, tb);
    SweptPath(s, now, req, lb, tb, false);
    TickConsistent(s, now);
    SweptFrame(s, now, req, lb, tb);
    forall i | 0 <= i < |m.queue| ensures !Stale(m, m.queue[i]) {
      StaleIsPrefix(Tick(s, now), p + i);
      assert m.queue[i] == s.queue[p + i];
      SweptEntry(s, now, req, lb, tb, m.queue[i]);
    }
  }

  /** An entry that the sweep left in the queue is as it was. */
  lemma SweptEntry(s: Room, now: Millis, req: IssueRequest, lb: seq<LeaseKey>, tb: seq<TokenHash>, e: EntryId)
    requires Consistent(s) && s.clock <= now && Batches(Tick(s, now), req, lb, tb)
    requires e in s.queue && e in Swept(s, now, req, lb, tb).queue
    ensures e in s.entries && e in Swept(s, now, req, lb, tb).entries
    ensures Swept(s, now, req, lb, tb).entries[e] == s.entries[e]
  {
    var s2 := Drained(s, now, req, lb, tb);
    DrainedQueue(s, now, req, lb, tb);
    assert EntryOk(s, e);
    LapseAllEntry(s2, Head(s2.queue, req.cleanup), e);
  }

  lemma {:induction false} LapseAllEntry(s: Room, q: seq<EntryId>, e: EntryId)
    requires e in s.entries && e in LapseAll(s, q).queue
    ensures e in LapseAll(s, q).entries && LapseAll(s, q).entries[e] == s.entries[e] && e in s.queue
    decreases |q|
  {
    if q != [] {
      LapseAllEntry(LapseIfStale(s, q[0]), q[1..], e);
    }
  }
}
