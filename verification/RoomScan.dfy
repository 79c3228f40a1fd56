/**
 The detect-only scan agrees with the protocol: on a reachable room it never reports an
 inflight mismatch or an owner mismatch, and what it reports as a duplicate user is
 exactly a live record whose entry has already expired.
 */
module RoomScan {
  import opened RoomState
  import opened RoomSteps
  import opened RoomScripts
  import opened RoomRuns
  import opened RoomTheorems

  /** The counters of the scan. */
  datatype Meter = DuplicateUsers | InflightMismatch | ExpiredInflight | ExpiredLeases | TokenOwnerMismatch

  predicate Linked(s: Room, owner: OwnerHash, e: EntryId) {
    owner in s.users && s.users[owner] == e
  }

  /** The entry's token is missing, or belongs to another entry or owner. */
  predicate Orphaned(s: Room, e: EntryId)
    requires e in s.entries
  {
    var x := s.entries[e];
    x.token.None? || x.token.value !in s.tokens || s.tokens[x.token.value].entry != e || s.tokens[x.token.value].owner != x.owner
  }

  /** What the scan counts for one status field of the entry table. */
  predicate EntryHit(m: Meter, s: Room, e: EntryId)
    requires e in s.entries
  {
    var x := s.entries[e];
    match m
    case DuplicateUsers =>
      || (x.status == EntryQueued && !Linked(s, x.owner, e))
      || (x.status == EntryAdmitted && !Orphaned(s, e)
          && Linked(s, x.owner, e) != Active(s.tokens[x.token.value].status))
    case InflightMismatch =>
      x.status == EntryAdmitted && !Orphaned(s, e) && Active(s.tokens[x.token.value].status) && x.token.value !in s.inflight
    case TokenOwnerMismatch => x.status == EntryAdmitted && Orphaned(s, e)
    case _ => false
  }

  predicate InflightHit(m: Meter, s: Room, t: TokenHash, now: Millis)
    requires t in s.inflight
  {
    match m
    case InflightMismatch => t !in s.tokens || !Active(s.tokens[t].status) || s.tokens[t].expiry != s.inflight[t]
    case ExpiredInflight => s.inflight[t] <= now
    case _ => false
  }

  predicate LeaseHit(m: Meter, s: Room, key: LeaseKey, now: Millis)
    requires key in s.leases
  {
    m == ExpiredLeases && s.leases[key] <= now && key.TokenKey? && key.token in s.tokens
    && s.tokens[key.token].status == TokenProcessing
  }

  /** The three pages that one call of the scan reads; a scan may repeat members. */
  datatype Pages = Pages(entries: seq<EntryId>, inflight: seq<TokenHash>, leases: seq<LeaseKey>)

  predicate PagesOf(s: Room, p: Pages) {
    && (forall e :: e in p.entries ==> e in s.entries)
    && (forall t :: t in p.inflight ==> t in s.inflight)
    && (forall k :: k in p.leases ==> k in s.leases)
  }

  function EntryHits(m: Meter, s: Room, page: seq<EntryId>): nat
    requires forall e :: e in page ==> e in s.entries
  {
    if page == [] then 0 else EntryHits(m, s, page[..|page| - 1]) + One(EntryHit(m, s, page[|page| - 1]))
  }

  function InflightHits(m: Meter, s: Room, page: seq<TokenHash>, now: Millis): nat
    requires forall t :: t in page ==> t in s.inflight
  {
    if page == [] then 0 else InflightHits(m, s, page[..|page| - 1], now) + One(InflightHit(m, s, page[|page| - 1], now))
  }

  function LeaseHits(m: Meter, s: Room, page: seq<LeaseKey>, now: Millis): nat
    requires forall k :: k in page ==> k in s.leases
  {
    if page == [] then 0 else LeaseHits(m, s, page[..|page| - 1], now) + One(LeaseHit(m, s, page[|page| - 1], now))
  }

  /** What one call of the scan reports. */
  function Scan(m: Meter, s: Room, p: Pages, now: Millis): nat
    requires PagesOf(s, p)
  {
    EntryHits(m, s, p.entries) + InflightHits(m, s, p.inflight, now) + LeaseHits(m, s, p.leases, now)
  }

  /** Each of the three loops fills its own counters only. */
  lemma IdleMeters(s: Room, p: Pages, now: Millis)
    requires PagesOf(s, p)
    ensures EntryHits(ExpiredInflight, s, p.entries) == 0 && EntryHits(ExpiredLeases, s, p.entries) == 0
    ensures InflightHits(DuplicateUsers, s, p.inflight, now) == 0 && InflightHits(TokenOwnerMismatch, s, p.inflight, now) == 0
    ensures InflightHits(ExpiredLeases, s, p.inflight, now) == 0
    ensures LeaseHits(DuplicateUsers, s, p.leases, now) == 0 && LeaseHits(TokenOwnerMismatch, s, p.leases, now) == 0
    ensures LeaseHits(InflightMismatch, s, p.leases, now) == 0 && LeaseHits(ExpiredInflight, s, p.leases, now) == 0
  {
    EntriesIdle(s, p.entries);
    InflightIdle(s, p.inflight, now);
    LeasesAgree(DuplicateUsers, s, p.leases, now);
    LeasesAgree(TokenOwnerMismatch, s, p.leases, now);
    LeasesAgree(InflightMismatch, s, p.leases, now);
    LeasesAgree(ExpiredInflight, s, p.leases, now);
  }

  lemma {:induction false} EntriesIdle(s: Room, page: seq<EntryId>)
    requires forall e :: e in page ==> e in s.entries
    ensures EntryHits(ExpiredInflight, s, page) == 0 && EntryHits(ExpiredLeases, s, page) == 0
    decreases |page|
  {
    if page != [] { EntriesIdle(s, page[..|page| - 1]); }
  }

  lemma {:induction false} InflightIdle(s: Room, page: seq<TokenHash>, now: Millis)
    requires forall t :: t in page ==> t in s.inflight
    ensures InflightHits(DuplicateUsers, s, page, now) == 0 && InflightHits(TokenOwnerMismatch, s, page, now) == 0
    ensures InflightHits(ExpiredLeases, s, page, now) == 0
    decreases |page|
  {
    if page != [] { InflightIdle(s, page[..|page| - 1], now); }
  }

  // ------------------------------------------------------------------ agreement with the protocol

  /** One entry: no mismatch; a duplicate is reported exactly for a live record that its
      owner's index no longer points at, and such an entry has expired. */
  lemma EntryHitMeans(s: Room, e: EntryId)
    requires Consistent(s) && e in s.entries
    ensures !EntryHit(InflightMismatch, s, e) && !EntryHit(TokenOwnerMismatch, s, e)
    ensures EntryHit(DuplicateUsers, s, e) <==> LiveStatus(s, e) && !Linked(s, s.entries[e].owner, e)
    ensures EntryHit(DuplicateUsers, s, e) ==> s.entries[e].expiry <= s.clock
  {
    assert EntryOk(s, e) && UserOk(s, s.entries[e].owner);
    if s.entries[e].token.Some? { assert TokenOk(s, s.entries[e].token.value); }
  }

  /** A live record whose entry has expired and is no longer linked. */
  predicate Stranded(s: Room, e: EntryId)
    requires e in s.entries
  {
    LiveStatus(s, e) && !Linked(s, s.entries[e].owner, e) && s.entries[e].expiry <= s.clock
  }

  /** How many such records are on the page. */
  function StrandedOn(s: Room, page: seq<EntryId>): nat
    requires forall e :: e in page ==> e in s.entries
  {
    if page == [] then 0 else StrandedOn(s, page[..|page| - 1]) + One(Stranded(s, page[|page| - 1]))
  }

  lemma {:induction false} EntriesAgree(s: Room, page: seq<EntryId>)
    requires Consistent(s) && forall e :: e in page ==> e in s.entries
    ensures EntryHits(InflightMismatch, s, page) == 0 && EntryHits(TokenOwnerMismatch, s, page) == 0
    ensures EntryHits(DuplicateUsers, s, page) == StrandedOn(s, page)
    decreases |page|
  {
    if page != [] {
      EntryHitMeans(s, page[|page| - 1]);
      EntriesAgree(s, page[..|page| - 1]);
    }
  }

  lemma {:induction false} InflightAgrees(m: Meter, s: Room, page: seq<TokenHash>, now: Millis)
    requires Consistent(s) && m != ExpiredInflight && forall t :: t in page ==> t in s.inflight
    ensures InflightHits(m, s, page, now) == 0
    decreases |page|
  {
    if page != [] {
      assert TokenOk(s, page[|page| - 1]);
      InflightAgrees(m, s, page[..|page| - 1], now);
    }
  }

  lemma {:induction false} LeasesAgree(m: Meter, s: Room, page: seq<LeaseKey>, now: Millis)
    requires m != ExpiredLeases && forall k :: k in page ==> k in s.leases
    ensures LeaseHits(m, s, page, now) == 0
    decreases |page|
  {
    if page != [] {
      LeasesAgree(m, s, page[..|page| - 1], now);
    }
  }

  /** On a consistent room one call reports no mismatch, and as duplicates exactly the stranded
      records on its page. */
  lemma ScanAgrees(s: Room, p: Pages, now: Millis)
    requires Consistent(s) && PagesOf(s, p)
    ensures Scan(InflightMismatch, s, p, now) == 0 && Scan(TokenOwnerMismatch, s, p, now) == 0
    ensures Scan(DuplicateUsers, s, p, now) == StrandedOn(s, p.entries)
  {
    EntriesAgree(s, p.entries);
    InflightAgrees(InflightMismatch, s, p.inflight, now);
    IdleMeters(s, p, now);
  }

  /** One call of a scan in the course of a run: where it happens, what it reads and when. */
  datatype Visit = Visit(at: nat, pages: Pages, now: Millis)

  ghost predicate VisitOf(states: seq<Room>, v: Visit) {
    v.at < |states| && PagesOf(states[v.at], v.pages)
  }

  ghost function Found(m: Meter, states: seq<Room>, v: Visit): nat
    requires VisitOf(states, v)
  {
    Scan(m, states[v.at], v.pages, v.now)
  }

  /** The totals of a scan whose calls are spread over a run. */
  ghost function Total(m: Meter, states: seq<Room>, visits: seq<Visit>): nat
    requires forall i :: 0 <= i < |visits| ==> VisitOf(states, visits[i])
  {
    if visits == [] then 0 else Total(m, states, visits[..|visits| - 1]) + Found(m, states, visits[|visits| - 1])
  }

  /** How many stranded records the calls of the scan came across. */
  ghost function StrandedSeen(states: seq<Room>, visits: seq<Visit>): nat
    requires forall i :: 0 <= i < |visits| ==> VisitOf(states, visits[i])
  {
    if visits == [] then 0 else StrandedSeen(states, visits[..|visits| - 1]) + StrandedAt(states, visits[|visits| - 1])
  }

  ghost function StrandedAt(states: seq<Room>, v: Visit): nat
    requires VisitOf(states, v)
  {
    StrandedOn(states[v.at], v.pages.entries)
  }

  lemma VisitAgrees(states: seq<Room>, calls: seq<Call>, v: Visit)
    requires IsRun(states, calls) && VisitOf(states, v)
    ensures Found(InflightMismatch, states, v) == 0 && Found(TokenOwnerMismatch, states, v) == 0
    ensures Found(DuplicateUsers, states, v) == StrandedAt(states, v)
  {
    RunInv(states, calls, v.at);
    ScanAgrees(states[v.at], v.pages, v.now);
  }

  /** However the scan's calls interleave with the run, whatever pages they read: no mismatch is
      ever reported, and the duplicates are exactly the live records of expired entries that
      their owners' links no longer point at, as often as a page had them. */
  lemma {:induction false} ScanAgreesWithProtocol(states: seq<Room>, calls: seq<Call>, visits: seq<Visit>)
    requires IsRun(states, calls)
    requires forall i :: 0 <= i < |visits| ==> VisitOf(states, visits[i])
    ensures Total(InflightMismatch, states, visits) == 0 && Total(TokenOwnerMismatch, states, visits) == 0
    ensures Total(DuplicateUsers, states, visits) == StrandedSeen(states, visits)
    decreases |visits|
  {
    if visits != [] {
      ScanAgreesWithProtocol(states, calls, visits[..|visits| - 1]);
      VisitAgrees(states, calls, visits[|visits| - 1]);
    }
  }

  // ------------------------------------------------------------------ what a clean scan means

  /** The pages cover the whole entry table and the whole inflight set. */
  ghost predicate Covers(s: Room, p: Pages) {
    PagesOf(s, p) && (forall e :: e in s.entries ==> e in p.entries) && (forall t :: t in s.inflight ==> t in p.inflight)
  }

  /** What the tables of any room, reachable or not, have to agree on. */
  ghost predicate Agrees(s: Room) {
    && (forall e :: e in s.entries && s.entries[e].status == EntryQueued ==>
          s.entries[e].owner in s.users && s.users[s.entries[e].owner] == e)
    && (forall e :: e in s.entries && s.entries[e].status == EntryAdmitted ==>
          var x := s.entries[e];
          && x.token.Some? && x.token.value in s.tokens
          && s.tokens[x.token.value].entry == e && s.tokens[x.token.value].owner == x.owner
          && (Active(s.tokens[x.token.value].status) ==>
                x.token.value in s.inflight && x.owner in s.users && s.users[x.owner] == e)
          && (Terminal(s.tokens[x.token.value].status) ==> !(x.owner in s.users && s.users[x.owner] == e)))
    && (forall t :: t in s.inflight ==>
          t in s.tokens && Active(s.tokens[t].status) && s.tokens[t].expiry == s.inflight[t])
  }

  lemma {:induction false} NoEntryHit(m: Meter, s: Room, page: seq<EntryId>, e: EntryId)
    requires (forall f :: f in page ==> f in s.entries) && e in page && EntryHits(m, s, page) == 0
    ensures !EntryHit(m, s, e)
    decreases |page|
  {
    if page[|page| - 1] != e {
      NoEntryHit(m, s, page[..|page| - 1], e);
    }
  }

  lemma {:induction false} NoInflightHit(m: Meter, s: Room, page: seq<TokenHash>, now: Millis, t: TokenHash)
    requires (forall u :: u in page ==> u in s.inflight) && t in page && InflightHits(m, s, page, now) == 0
    ensures !InflightHit(m, s, t, now)
    decreases |page|
  {
    if page[|page| - 1] != t {
      NoInflightHit(m, s, page[..|page| - 1], now, t);
    }
  }

  /** Of any room at all: when a scan of everything reports no duplicate, no mismatch and no foreign
      owner, then queue, entries, tokens, inflight set and owner index agree. */
  lemma CleanScanMeansAgreement(s: Room, p: Pages, now: Millis)
    requires Covers(s, p)
    requires Scan(DuplicateUsers, s, p, now) == 0 && Scan(InflightMismatch, s, p, now) == 0 && Scan(TokenOwnerMismatch, s, p, now) == 0
    ensures Agrees(s)
  {
    forall e | e in s.entries
      ensures !EntryHit(DuplicateUsers, s, e) && !EntryHit(InflightMismatch, s, e) && !EntryHit(TokenOwnerMismatch, s, e)
    {
      NoEntryHit(DuplicateUsers, s, p.entries, e);
      NoEntryHit(InflightMismatch, s, p.entries, e);
      NoEntryHit(TokenOwnerMismatch, s, p.entries, e);
    }
    forall t | t in s.inflight ensures !InflightHit(InflightMismatch, s, t, now) {
      NoInflightHit(InflightMismatch, s, p.inflight, now, t);
    }
  }

  /** Overdue tokens and leases are reported exactly when a page has one. */
  lemma {:induction false} OverdueInflight(s: Room, page: seq<TokenHash>, now: Millis)
    requires forall t :: t in page ==> t in s.inflight
    ensures InflightHits(ExpiredInflight, s, page, now) == 0 <==> forall t :: t in page ==> now < s.inflight[t]
    decreases |page|
  {
    if page != [] {
      OverdueInflight(s, page[..|page| - 1], now);
      assert page == page[..|page| - 1] + [page[|page| - 1]];
    }
  }

  lemma {:induction false} OverdueLeases(s: Room, page: seq<LeaseKey>, now: Millis)
    requires forall k :: k in page ==> k in s.leases
    ensures LeaseHits(ExpiredLeases, s, page, now) == 0 <==>
              forall t :: TokenKey(t) in page && t in s.tokens && s.tokens[t].status == TokenProcessing ==> now < s.leases[TokenKey(t)]
    decreases |page|
  {
    if page != [] {
      OverdueLeases(s, page[..|page| - 1], now);
      assert page == page[..|page| - 1] + [page[|page| - 1]];
    }
  }
}
