/**
 No leaks. Every record is reachable from the queue, the inflight set or a leases
 deadline; so when time passes all stored deadlines between passes, maintenance with any
 positive cleanup limit empties the generation, one unit of a measure at a time.
 */
module RoomDrain {
  import opened RoomState
  import opened RoomSteps
  import opened RoomInvariant
  import opened RoomScripts
  import opened RoomPaths
  import opened RoomRuns
  import opened RoomTheorems
  import opened RoomProgress

  /** A cleanup loop will come across the token. */
  ghost predicate TokenReachable(s: Room, t: TokenHash) {
    t in s.inflight || TokenKey(t) in s.leases
  }

  ghost predicate EntryReachable(s: Room, e: EntryId) {
    || e in s.queue || EntryKey(e) in s.leases
    || (e in s.entries && s.entries[e].token.Some? && TokenReachable(s, s.entries[e].token.value))
  }

  /** At all times of all runs every token, entry and owner link is within reach of a cleanup loop. */
  lemma NothingLeaks(states: seq<Room>, calls: seq<Call>, i: nat)
    requires IsRun(states, calls) && i < |states|
    ensures forall t :: t in states[i].tokens ==> TokenReachable(states[i], t)
    ensures forall e :: e in states[i].entries ==> EntryReachable(states[i], e)
    ensures forall o :: o in states[i].users ==> EntryReachable(states[i], states[i].users[o])
  {
    RunInv(states, calls, i);
    var s := states[i];
    forall t | t in s.tokens ensures TokenReachable(s, t) { assert TokenOk(s, t); }
    forall e | e in s.entries ensures EntryReachable(s, e) {
      assert EntryOk(s, e);
      if s.entries[e].token.Some? { assert TokenOk(s, s.entries[e].token.value); }
    }
    forall o | o in s.users ensures EntryReachable(s, s.users[o]) { assert UserOk(s, o); }
  }

  // ------------------------------------------------------------------ the measure

  /** What maintenance still has to take away. */
  ghost function Load(s: Room): nat {
    |s.entries| + |s.queue| + |s.inflight|
  }

  ghost predicate InflightDue(s: Room, now: Millis) {
    forall t :: t in s.inflight ==> s.inflight[t] <= now
  }

  /** Time has moved past every stored deadline. */
  ghost predicate AllDue(s: Room, now: Millis) {
    && (forall k :: k in s.leases ==> s.leases[k] <= now)
    && InflightDue(s, now)
    && (forall e :: e in s.queue && e in s.entries ==> s.entries[e].expiry <= now)
  }

  ghost predicate Vacant(s: Room) {
    s.queue == [] && s.entries == map[] && s.users == map[] && s.tokens == map[] && s.inflight == map[] && s.leases == map[]
  }

  lemma NoLoadIsVacant(s: Room)
    requires Consistent(s) && Load(s) == 0
    ensures Vacant(s)
  {
    assert s.entries == map[] && s.inflight == map[];
    forall t ensures t !in s.tokens { assert TokenOk(s, t); }
    forall o ensures o !in s.users { assert UserOk(s, o); }
    forall k ensures k !in s.leases {
      if k.TokenKey? { assert TokenOk(s, k.token); } else { assert EntryOk(s, k.entry); }
    }
    assert s.tokens == map[];
    assert s.users == map[];
    assert s.leases == map[];
  }

  lemma SomeKey<K, V>(m: map<K, V>) returns (k: K)
    requires 0 < |m|
    ensures k in m
  {
    assert m.Keys != {};
    k :| k in m.Keys;
  }

  lemma DroppedCard<K, V>(m: map<K, V>, k: K)
    requires k in m
    ensures |m - {k}| == |m| - 1
  {
    assert (m - {k}).Keys == m.Keys - {k};
  }

  lemma UpdatedCard<K, V>(m: map<K, V>, k: K, v: V)
    requires k in m
    ensures |m[k := v]| == |m|
  {
    assert m[k := v].Keys == m.Keys;
  }

  // ------------------------------------------------------------------ one turn of each loop

  /** An inflight token that becomes terminal costs one inflight token and no entry. */
  lemma CloseLoad(s: Room, t: TokenHash, status: TokenStatus, keepUntil: Millis)
    requires TokenOk(s, t) && t in s.tokens && Active(s.tokens[t].status)
    ensures Load(Close(s, t, status, keepUntil)) == Load(s) - 1
  {
    var e := s.tokens[t].entry;
    DroppedCard(s.inflight, t);
    UpdatedCard(s.entries, e, s.entries[e].(status := EntryStatusFor(status)));
  }

  /** A terminal token that is deleted costs its entry. */
  lemma DeleteLoad(s: Room, t: TokenHash)
    requires TokenOk(s, t) && t in s.tokens && Terminal(s.tokens[t].status)
    ensures Load(Delete(s, t)) == Load(s) - 1 && Delete(s, t).inflight == s.inflight
  {
    assert s.inflight - {t} == s.inflight;
    DroppedCard(s.entries, s.tokens[t].entry);
  }

  /** A due member of the leases set costs exactly one entry or one inflight token. */
  lemma ReapLeaseLoad(s: Room, key: LeaseKey, retention: Millis)
    requires AllOk(s) && key in s.leases && InflightDue(s, s.clock)
    ensures Load(ReapLease(s, key, retention)) == Load(s) - 1
    ensures InflightDue(ReapLease(s, key, retention), s.clock)
  {
    match key
    case EntryKey(e) =>
      assert EntryOk(s, e);
      DroppedCard(s.entries, e);
    case TokenKey(t) =>
      assert TokenOk(s, t);
      ReapTokenLoad(s, t, retention);
  }

  lemma ReapTokenLoad(s: Room, t: TokenHash, retention: Millis)
    requires TokenOk(s, t) && TokenKey(t) in s.leases && InflightDue(s, s.clock)
    ensures Load(ReapLease(s, TokenKey(t), retention)) == Load(s) - 1
    ensures InflightDue(ReapLease(s, TokenKey(t), retention), s.clock)
  {
    if s.tokens[t].status == TokenProcessing {
      CloseLoad(s, t, TokenExpired, s.clock + retention);
    } else {
      DeleteLoad(s, t);
    }
  }

  /** What one turn leaves for the next. */
  lemma ReapTurn(s: Room, batch: seq<LeaseKey>, retention: Millis)
    requires batch != []
    requires forall i :: 0 <= i < |batch| ==> batch[i] in s.leases
    requires forall i, j :: 0 <= i < j < |batch| ==> batch[i] != batch[j]
    ensures ReapLease(s, batch[0], retention).clock == s.clock
    ensures forall i :: 0 <= i < |batch[1..]| ==> batch[1..][i] in ReapLease(s, batch[0], retention).leases
  {
    forall i | 0 <= i < |batch[1..]| ensures batch[1..][i] in ReapLease(s, batch[0], retention).leases {
      ReapLeaseOther(s, batch[0], retention, batch[1..][i]);
    }
  }

  lemma {:induction false} ReapLeasesLoad(s: Room, batch: seq<LeaseKey>, retention: Millis)
    requires Consistent(s) && InflightDue(s, s.clock)
    requires forall i :: 0 <= i < |batch| ==> batch[i] in s.leases
    requires forall i, j :: 0 <= i < j < |batch| ==> batch[i] != batch[j]
    ensures Load(ReapLeases(s, batch, retention)) == Load(s) - |batch|
    decreases |batch|
  {
    if batch != [] {
      ReapTurn(s, batch, retention);
      ReapLeaseLoad(s, batch[0], retention);
      ReapLeasePath(s, batch[0], retention, false);
      PathConsistent(s, ReapLease(s, batch[0], retention), false);
      ReapLeasesLoad(ReapLease(s, batch[0], retention), batch[1..], retention);
    }
  }

  lemma {:induction false} ExpireInflightsLoad(s: Room, batch: seq<TokenHash>, retention: Millis)
    requires Consistent(s)
    requires forall i :: 0 <= i < |batch| ==> batch[i] in s.inflight
    requires forall i, j :: 0 <= i < j < |batch| ==> batch[i] != batch[j]
    ensures Load(ExpireInflights(s, batch, retention)) == Load(s) - |batch|
    decreases |batch|
  {
    if batch != [] {
      var t := batch[0];
      var m := ExpireInflight(s, t, retention);
      assert TokenOk(s, t);
      DroppedCard(s.inflight, t);
      UpdatedCard(s.entries, s.tokens[t].entry, s.entries[s.tokens[t].entry].(status := EntryExpired));
      ExpireInflightPath(s, t, retention, false);
      ExpireInflightOther(s, t, retention);
      PathConsistent(s, m, false);
      ExpireInflightsLoad(m, batch[1..], retention);
    }
  }

  lemma {:induction false} LapseAllTables(s: Room, q: seq<EntryId>)
    ensures LapseAll(s, q).entries.Keys == s.entries.Keys && LapseAll(s, q).inflight == s.inflight
    decreases |q|
  {
    if q != [] {
      LapseAllTables(LapseIfStale(s, q[0]), q[1..]);
    }
  }

  /** When everybody in the queue has expired, the expired prefix is the queue. */
  lemma AllStale(s: Room)
    requires Consistent(s) && forall e :: e in s.queue && e in s.entries ==> s.entries[e].expiry <= s.clock
    ensures StalePrefix(s, s.queue) == |s.queue|
  {
    forall i | 0 <= i < |s.queue| ensures Stale(s, s.queue[i]) {
      assert EntryOk(s, s.queue[i]);
    }
  }

  // ------------------------------------------------------------------ one pass

  /** A maintenance pass, as the worker runs it. */
  datatype Pass = Pass(now: Millis, cleanup: int, leaseBatch: seq<LeaseKey>, tokenBatch: seq<TokenHash>)

  function Maintain(s: Room, p: Pass): Room {
    Issue(s, p.now, MaintenanceRequest(p.cleanup), p.leaseBatch, p.tokenBatch).room
  }

  /** The pass is legal, has a positive cleanup limit and comes after all deadlines. */
  ghost predicate LatePass(s: Room, p: Pass) {
    && Guard(s).None? && 1 <= p.cleanup
    && Legal(s, CallIssue(p.now, MaintenanceRequest(p.cleanup), p.leaseBatch, p.tokenBatch))
    && AllDue(s, p.now)
  }

  lemma DrainedLoad(s: Room, req: IssueRequest, lb: seq<LeaseKey>, tb: seq<TokenHash>)
    requires Consistent(s) && InflightDue(s, s.clock) && Batches(s, req, lb, tb)
    ensures Load(Drained(s, s.clock, req, lb, tb)) == Load(s) - |lb| - |tb|
  {
    var retention := MaxMs(req.tokenTtl, TOMBSTONE_MS);
    assert Tick(s, s.clock) == s;
    ReapLeasesLoad(s, lb, retention);
    ReapLeasesPath(s, lb, retention, false);
    PathConsistent(s, ReapLeases(s, lb, retention), false);
    ExpireInflightsLoad(ReapLeases(s, lb, retention), tb, retention);
  }

  /** The pass takes away exactly the members it found. */
  lemma PassLoad(s: Room, p: Pass)
    requires Consistent(s) && LatePass(s, p)
    ensures Load(Maintain(s, p)) == Load(s) - |p.leaseBatch| - |p.tokenBatch| - MinInt(p.cleanup, |s.queue|)
  {
    var req := MaintenanceRequest(p.cleanup);
    TickPath(s, p.now, false);
    PathConsistent(s, Tick(s, p.now), false);
    DrainedLoad(Tick(s, p.now), req, p.leaseBatch, p.tokenBatch);
    var s2 := Drained(s, p.now, req, p.leaseBatch, p.tokenBatch);
    DrainedQueue(s, p.now, req, p.leaseBatch, p.tokenBatch);
    LapseAllTables(s2, Head(s2.queue, p.cleanup));
    SweepRemoves(s, p.now, req, p.leaseBatch, p.tokenBatch);
    AllStale(Tick(s, p.now));
  }

  /** Without a queue and inflight tokens, every entry has a tombstone. */
  lemma IdleEntry(s: Room, e: EntryId)
    requires AllOk(s) && s.queue == [] && s.inflight == map[] && e in s.entries
    ensures s.leases != map[]
  {
    assert EntryOk(s, e);
    if s.entries[e].token.Some? {
      assert TokenOk(s, s.entries[e].token.value);
      assert TokenKey(s.entries[e].token.value) in s.leases;
    } else {
      assert EntryKey(e) in s.leases;
    }
  }

  /** As long as anything is left, a pass finds something. */
  lemma PassFinds(s: Room, p: Pass)
    requires Consistent(s) && LatePass(s, p) && 0 < Load(s)
    ensures 0 < |p.leaseBatch| + |p.tokenBatch| + MinInt(p.cleanup, |s.queue|)
  {
    var s0 := Tick(s, p.now);
    if s.queue == [] && p.leaseBatch == [] {
      assert forall k :: k in s0.leases ==> k in p.leaseBatch;
      if |s.inflight| == 0 {
        assert s.inflight == map[];
        var e := SomeKey(s.entries);
        IdleEntry(s, e);
      } else {
        var t := SomeKey(s.inflight);
        assert t in s0.inflight && s0.inflight[t] <= s0.clock;
        assert p.tokenBatch != [];
      }
    }
  }

  // ------------------------------------------------------------------ repeated passes

  ghost predicate Drains(states: seq<Room>, passes: seq<Pass>) {
    && |states| == |passes| + 1
    && forall i :: 0 <= i < |passes| ==> DrainsAt(states, passes, i)
  }

  ghost predicate DrainsAt(states: seq<Room>, passes: seq<Pass>, i: nat)
    requires i < |passes| < |states|
  {
    LatePass(states[i], passes[i]) && states[i + 1] == Maintain(states[i], passes[i])
  }

  lemma {:induction false} DrainPath(states: seq<Room>, passes: seq<Pass>, i: nat)
    requires Drains(states, passes) && Consistent(states[0]) && i < |states|
    ensures Path(states[0], states[i], false)
    decreases i
  {
    if i == 0 {
      PathHere(states[0], false);
    } else {
      DrainPath(states, passes, i - 1);
      assert DrainsAt(states, passes, i - 1);
      PathConsistent(states[0], states[i - 1], false);
      PassPath(states[i - 1], passes[i - 1]);
      PathJoin(states[0], states[i - 1], states[i], false);
    }
  }

  lemma PassPath(s: Room, p: Pass)
    requires Consistent(s) && LatePass(s, p)
    ensures Path(s, Maintain(s, p), false)
  {
    IssuePath(s, p.now, MaintenanceRequest(p.cleanup), p.leaseBatch, p.tokenBatch);
  }

  lemma PassDecreases(s: Room, p: Pass)
    requires Consistent(s) && LatePass(s, p)
    ensures 0 < Load(s) ==> Load(Maintain(s, p)) < Load(s)
    ensures Load(Maintain(s, p)) <= Load(s)
  {
    PassLoad(s, p);
    if 0 < Load(s) { PassFinds(s, p); }
  }

  lemma {:induction false} DrainMeasure(states: seq<Room>, passes: seq<Pass>, i: nat)
    requires Drains(states, passes) && Consistent(states[0]) && i < |states|
    ensures Load(states[i]) <= (if i <= Load(states[0]) then Load(states[0]) - i else 0)
    decreases i
  {
    if i > 0 {
      DrainMeasure(states, passes, i - 1);
      DrainPath(states, passes, i - 1);
      PathConsistent(states[0], states[i - 1], false);
      assert DrainsAt(states, passes, i - 1);
      PassDecreases(states[i - 1], passes[i - 1]);
    }
  }

  /** After as many passes as the measure says, nothing at all is left. */
  lemma MaintenanceDrains(states: seq<Room>, passes: seq<Pass>)
    requires Drains(states, passes) && Consistent(states[0]) && Load(states[0]) <= |passes|
    ensures Vacant(states[|passes|])
  {
    DrainMeasure(states, passes, |passes|);
    DrainPath(states, passes, |passes|);
    PathConsistent(states[0], states[|passes|], false);
    NoLoadIsVacant(states[|passes|]);
  }
}
