/**
 What an issue call reports, against what it did: the counters of its loops, and the same
 counters read off the log.
 */
module RoomTally {
  import opened RoomState
  import opened RoomSteps
  import opened RoomScripts
  import opened RoomInvariant
  import opened RoomPaths
  import opened RoomRuns

  // ------------------------------------------------------------------ the counters of the loops

  /** The turn of the lease loop gives an expired lease back. */
  predicate Recovers(s: Room, key: LeaseKey) {
    && key.TokenKey? && key.token in s.tokens && s.tokens[key.token].status == TokenProcessing
    && s.clock < s.tokens[key.token].expiry && !s.tokens[key.token].cancelRequested
  }

  /** The turn of the lease loop finds an expired token. */
  predicate Expires(s: Room, key: LeaseKey) {
    && key.TokenKey? && key.token in s.tokens && s.tokens[key.token].status == TokenProcessing
    && s.tokens[key.token].expiry <= s.clock
  }

  function RecoveredBy(s: Room, batch: seq<LeaseKey>, retention: Millis): nat
    decreases |batch|
  {
    if batch == [] then 0
    else One(Recovers(s, batch[0])) + RecoveredBy(ReapLease(s, batch[0], retention), batch[1..], retention)
  }

  function ExpiredBy(s: Room, batch: seq<LeaseKey>, retention: Millis): nat
    decreases |batch|
  {
    if batch == [] then 0
    else One(Expires(s, batch[0])) + ExpiredBy(ReapLease(s, batch[0], retention), batch[1..], retention)
  }

  function LapsedBy(s: Room, q: seq<EntryId>): nat
    decreases |q|
  {
    if q == [] then 0 else One(Stale(s, q[0])) + LapsedBy(LapseIfStale(s, q[0]), q[1..])
  }

  function LapsedLate(s: Room, q: seq<EntryId>, cs: seq<Candidate>, tokenTtl: Millis): nat
    decreases |q|
  {
    if q == [] || cs == [] || cs[0].entry != q[0] then 0
    else One(Stale(s, q[0])) + LapsedLate(AdmitOne(s, cs[0], tokenTtl), q[1..], cs[1..], tokenTtl)
  }

  function AdmittedBy(s: Room, q: seq<EntryId>, cs: seq<Candidate>, tokenTtl: Millis): seq<EntryId>
    decreases |q|
  {
    if q == [] || cs == [] || cs[0].entry != q[0] then []
    else (if Accepted(s, cs[0], tokenTtl) then [q[0]] else [])
         + AdmittedBy(AdmitOne(s, cs[0], tokenTtl), q[1..], cs[1..], tokenTtl)
  }

  /** One turn of the admission loop, behind what it has admitted so far. */
  lemma AdmittedTurn(s: Room, q: seq<EntryId>, cs: seq<Candidate>, tokenTtl: Millis, so: seq<EntryId>)
    requires q != [] && cs != [] && cs[0].entry == q[0]
    ensures so + AdmittedBy(s, q, cs, tokenTtl)
         == (so + (if Accepted(s, cs[0], tokenTtl) then [q[0]] else []))
            + AdmittedBy(AdmitOne(s, cs[0], tokenTtl), q[1..], cs[1..], tokenTtl)
  {
  }

  lemma AdmittedEnd(s: Room, q: seq<EntryId>, cs: seq<Candidate>, tokenTtl: Millis, so: seq<EntryId>)
    requires q == [] || cs == [] || cs[0].entry != q[0]
    ensures so + AdmittedBy(s, q, cs, tokenTtl) == so
  {
  }

  /** What an issue call reports. */
  datatype Report = Report(recovered: nat, expiredTokens: nat, expiredEntries: nat, issued: seq<EntryId>)

  function CleanupReport(s: Room, req: IssueRequest, lb: seq<LeaseKey>, tb: seq<TokenHash>): Report {
    var retention := MaxMs(req.tokenTtl, TOMBSTONE_MS);
    var s1 := ReapLeases(s, lb, retention);
    var s2 := ExpireInflights(s1, tb, retention);
    Report(RecoveredBy(s, lb, retention), ExpiredBy(s, lb, retention) + |tb|,
           LapsedBy(s2, Head(s2.queue, req.cleanup)), [])
  }

  function IssueReport(s: Room, req: IssueRequest, lb: seq<LeaseKey>, tb: seq<TokenHash>): Report {
    var r, m := CleanupReport(s, req, lb, tb), Cleanup(s, req, lb, tb);
    var q := Head(m.queue, Capacity(m, req));
    Report(r.recovered, r.expiredTokens, r.expiredEntries + LapsedLate(m, q, req.candidates, req.tokenTtl),
           AdmittedBy(m, q, req.candidates, req.tokenTtl))
  }

  // ------------------------------------------------------------------ the counters against the log

  datatype Kind = IsRecovery | IsTokenExpiry | IsEntryExpiry | IsAdmission

  predicate Is(kind: Kind, ev: Event) {
    match kind
    case IsRecovery => ev.Recovered?
    case IsTokenExpiry => ev.Closed? && ev.status == TokenExpired
    case IsEntryExpiry => ev.Lapsed?
    case IsAdmission => ev.Admitted?
  }

  /** How many events of the kind the log holds. */
  function Tally(kind: Kind, log: seq<Event>): nat {
    if log == [] then 0
    else Tally(kind, log[..|log| - 1]) + One(Is(kind, log[|log| - 1]))
  }

  lemma TallyNext(kind: Kind, log: seq<Event>, ev: Event)
    ensures Tally(kind, log + [ev]) == Tally(kind, log) + One(Is(kind, ev))
  {
    assert (log + [ev])[..|log|] == log;
  }

  /** The number a report gives for the kind. */
  function Told(kind: Kind, r: Report): nat {
    match kind
    case IsRecovery => r.recovered
    case IsTokenExpiry => r.expiredTokens
    case IsEntryExpiry => r.expiredEntries
    case IsAdmission => |r.issued|
  }

  /** What the turn of the lease loop writes into the log. */
  function ReapEvents(s: Room, key: LeaseKey): seq<Event> {
    if Recovers(s, key) then [Recovered(key.token)]
    else if Expires(s, key) then [Closed(key.token, TokenExpired)]
    else if key.TokenKey? && key.token in s.tokens && s.tokens[key.token].status == TokenProcessing
    then [Closed(key.token, TokenCancelled)]
    else []
  }

  lemma ReapLog(s: Room, key: LeaseKey, retention: Millis)
    ensures ReapLease(s, key, retention).log == s.log + ReapEvents(s, key)
  {
  }

  function ReapNote(kind: Kind, s: Room, key: LeaseKey): nat {
    match kind
    case IsRecovery => One(Recovers(s, key))
    case IsTokenExpiry => One(Expires(s, key))
    case _ => 0
  }

  lemma ReapLogged(kind: Kind, s: Room, key: LeaseKey, retention: Millis)
    ensures Tally(kind, ReapLease(s, key, retention).log) == Tally(kind, s.log) + ReapNote(kind, s, key)
  {
    ReapLog(s, key, retention);
    var evs := ReapEvents(s, key);
    if evs == [] {
      assert s.log + evs == s.log;
    } else {
      TallyNext(kind, s.log, evs[0]);
    }
  }

  function ReapNotes(kind: Kind, s: Room, batch: seq<LeaseKey>, retention: Millis): nat {
    match kind
    case IsRecovery => RecoveredBy(s, batch, retention)
    case IsTokenExpiry => ExpiredBy(s, batch, retention)
    case _ => 0
  }

  lemma {:induction false} ReapsLogged(kind: Kind, s: Room, batch: seq<LeaseKey>, retention: Millis)
    ensures Tally(kind, ReapLeases(s, batch, retention).log) == Tally(kind, s.log) + ReapNotes(kind, s, batch, retention)
    decreases |batch|
  {
    if batch != [] {
      ReapLogged(kind, s, batch[0], retention);
      ReapsLogged(kind, ReapLease(s, batch[0], retention), batch[1..], retention);
    }
  }

  lemma {:induction false} ExpiriesLogged(kind: Kind, s: Room, batch: seq<TokenHash>, retention: Millis)
    requires forall i :: 0 <= i < |batch| ==> batch[i] in s.tokens && Active(s.tokens[batch[i]].status)
    requires forall i, j :: 0 <= i < j < |batch| ==> batch[i] != batch[j]
    ensures Tally(kind, ExpireInflights(s, batch, retention).log)
         == Tally(kind, s.log) + (if kind == IsTokenExpiry then |batch| else 0)
    decreases |batch|
  {
    if batch != [] {
      TallyNext(kind, s.log, Closed(batch[0], TokenExpired));
      ExpiriesLogged(kind, ExpireInflight(s, batch[0], retention), batch[1..], retention);
    }
  }

  lemma {:induction false} LapsesLogged(kind: Kind, s: Room, q: seq<EntryId>)
    ensures Tally(kind, LapseAll(s, q).log) == Tally(kind, s.log) + (if kind == IsEntryExpiry then LapsedBy(s, q) else 0)
    decreases |q|
  {
    if q != [] {
      TallyNext(kind, s.log, Lapsed(q[0]));
      LapsesLogged(kind, LapseIfStale(s, q[0]), q[1..]);
    }
  }

  function AdmitNote(kind: Kind, s: Room, c: Candidate, tokenTtl: Millis): nat {
    match kind
    case IsEntryExpiry => One(Stale(s, c.entry))
    case IsAdmission => One(Accepted(s, c, tokenTtl))
    case _ => 0
  }

  lemma AdmitLogged(kind: Kind, s: Room, c: Candidate, tokenTtl: Millis)
    ensures Tally(kind, AdmitOne(s, c, tokenTtl).log) == Tally(kind, s.log) + AdmitNote(kind, s, c, tokenTtl)
  {
    TallyNext(kind, s.log, Lapsed(c.entry));
    TallyNext(kind, s.log, Admitted(c.entry, c.token, s.clock));
  }

  function AdmitNotes(kind: Kind, s: Room, q: seq<EntryId>, cs: seq<Candidate>, tokenTtl: Millis): nat {
    match kind
    case IsEntryExpiry => LapsedLate(s, q, cs, tokenTtl)
    case IsAdmission => |AdmittedBy(s, q, cs, tokenTtl)|
    case _ => 0
  }

  lemma {:induction false} AdmitsLogged(kind: Kind, s: Room, q: seq<EntryId>, cs: seq<Candidate>, tokenTtl: Millis)
    ensures Tally(kind, AdmitAll(s, q, cs, tokenTtl).log) == Tally(kind, s.log) + AdmitNotes(kind, s, q, cs, tokenTtl)
    decreases |q|
  {
    if q != [] && cs != [] && cs[0].entry == q[0] {
      AdmitLogged(kind, s, cs[0], tokenTtl);
      AdmitsLogged(kind, AdmitOne(s, cs[0], tokenTtl), q[1..], cs[1..], tokenTtl);
    }
  }

  lemma DueAreActive(s: Room, tb: seq<TokenHash>)
    requires AllOk(s) && forall i :: 0 <= i < |tb| ==> tb[i] in s.inflight
    ensures forall i :: 0 <= i < |tb| ==> tb[i] in s.tokens && Active(s.tokens[tb[i]].status)
  {
    forall i | 0 <= i < |tb| ensures tb[i] in s.tokens && Active(s.tokens[tb[i]].status) {
      assert TokenOk(s, tb[i]);
    }
  }

  lemma CleanupLogged(kind: Kind, s: Room, req: IssueRequest, lb: seq<LeaseKey>, tb: seq<TokenHash>)
    requires Consistent(s) && Batches(s, req, lb, tb)
    ensures Tally(kind, Cleanup(s, req, lb, tb).log) == Tally(kind, s.log) + Told(kind, CleanupReport(s, req, lb, tb))
  {
    var retention := MaxMs(req.tokenTtl, TOMBSTONE_MS);
    var s1 := ReapLeases(s, lb, retention);
    ReapLeasesPath(s, lb, retention, false);
    PathConsistent(s, s1, false);
    DueAreActive(s1, tb);
    LoopsLogged(kind, s, req, lb, tb);
  }

  lemma LoopsLogged(kind: Kind, s: Room, req: IssueRequest, lb: seq<LeaseKey>, tb: seq<TokenHash>)
    requires var s1 := ReapLeases(s, lb, MaxMs(req.tokenTtl, TOMBSTONE_MS));
             && (forall i :: 0 <= i < |tb| ==> tb[i] in s1.tokens && Active(s1.tokens[tb[i]].status))
             && (forall i, j :: 0 <= i < j < |tb| ==> tb[i] != tb[j])
    ensures Tally(kind, Cleanup(s, req, lb, tb).log) == Tally(kind, s.log) + Told(kind, CleanupReport(s, req, lb, tb))
  {
    var retention := MaxMs(req.tokenTtl, TOMBSTONE_MS);
    var s1 := ReapLeases(s, lb, retention);
    var s2 := ExpireInflights(s1, tb, retention);
    ReapsLogged(kind, s, lb, retention);
    ExpiriesLogged(kind, s1, tb, retention);
    LapsesLogged(kind, s2, Head(s2.queue, req.cleanup));
  }

  /** The counters that an issue call returns are exactly the recoveries, expiries and
      admissions it added to the log. */
  lemma ReportIsTrue(kind: Kind, s: Room, now: Millis, req: IssueRequest, lb: seq<LeaseKey>, tb: seq<TokenHash>)
    requires Consistent(s) && Guard(s).None? && Legal(s, CallIssue(now, req, lb, tb))
    ensures Tally(kind, Issue(s, now, req, lb, tb).room.log)
         == Tally(kind, s.log) + Told(kind, IssueReport(Tick(s, now), req, lb, tb))
  {
    var s0 := Tick(s, now);
    TickPath(s, now, false);
    PathConsistent(s, s0, false);
    CleanupLogged(kind, s0, req, lb, tb);
    var m := Cleanup(s0, req, lb, tb);
    AdmitsLogged(kind, m, Head(m.queue, Capacity(m, req)), req.candidates, req.tokenTtl);
  }

  // ------------------------------------------------------------------ facts the loops use

  /** An entry that the queue may hold. */
  predicate Waiting(entries: map<EntryId, Entry>, e: EntryId) {
    e in entries && entries[e].status == EntryQueued && 0 < entries[e].expiry
  }

  /** The queue holds waiting entries, each once. */
  lemma QueueWaits(s: Room)
    requires Consistent(s)
    ensures forall i :: 0 <= i < |s.queue| ==> Waiting(s.entries, s.queue[i])
    ensures forall i, j :: 0 <= i < j < |s.queue| ==> s.queue[i] != s.queue[j]
  {
    forall i | 0 <= i < |s.queue| ensures Waiting(s.entries, s.queue[i]) {
      assert EntryOk(s, s.queue[i]);
    }
    forall i, j | 0 <= i < j < |s.queue| ensures s.queue[i] != s.queue[j] {
      assert Before(s, s.queue[i], s.queue[j]);
    }
  }
}
