/**
 The admission scripts as functions on the state of a generation. Each is one atomic
 Redis step. The imperative form, statement by statement, is class WaitingRoom.
 */
module RoomScripts {
  import opened RoomState
  import opened RoomSteps

  datatype Refusal =
    | PolicyMismatch | ContinuityLost | QueueFull | JoinConflict | NotFound | NotAdmitted
    | AlreadyDelivered | OwnerMismatch | AlreadyTerminal | HasExpired | InProgress | Mismatch | StaleLease

  datatype Reply =
    | Refused(why: Refusal)
    | JoinedAs(entry: EntryId, position: int)
    | DuplicateOf(entry: EntryId, position: int)
    | View(entry: EntryId, status: EntryStatus, position: int)
    | Delivery(token: TokenHash)
    | CancelledKept
    | CancelledDeleted
    | Acquired(holder: LeaseOwner, generation: int)
    | RetryAfter(wait: Millis)
    | ReplayAllowed
    | Released
    | CancelledToken
    | Finalized
    | Issued

  datatype Outcome = Outcome(room: Room, reply: Reply)

  /** The two marker checks that open every script. */
  function Guard(s: Room): Option<Refusal> {
    if s.policyMarker != Some(s.version) then Some(PolicyMismatch)
    else if s.continuity != Some(s.version) then Some(ContinuityLost)
    else None
  }

  /** What a hit adds to a counter. */
  function One(hit: bool): nat {
    if hit then 1 else 0
  }

  /** ZRANK plus one, or -1. */
  function Position(q: seq<EntryId>, e: EntryId): int {
    if e in q then IndexOf(q, e) + 1 else -1
  }

  function IndexOf(q: seq<EntryId>, e: EntryId): (i: nat)
    requires e in q
    ensures i < |q| && q[i] == e && e !in q[..i]
  {
    if q[0] == e then 0 else 1 + IndexOf(q[1..], e)
  }

  /** ZRANGE queue 0 n-1. */
  function Head(q: seq<EntryId>, n: int): seq<EntryId> {
    if n <= 0 then [] else if n < |q| then q[..n] else q
  }

  // ------------------------------------------------------------------ join

  const JOIN_CLEANUP := 64

  predicate Stale(s: Room, e: EntryId) {
    e in s.entries && s.entries[e].status == EntryQueued && s.entries[e].expiry <= s.clock
  }

  function LapseIfStale(s: Room, e: EntryId): Room {
    if Stale(s, e) then Lapse(s, e, s.clock + TOMBSTONE_MS) else s
  }

  /** Every stale entry of the list lapses. */
  function LapseAll(s: Room, q: seq<EntryId>): Room
    decreases |q|
  {
    if q == [] then s else LapseAll(LapseIfStale(s, q[0]), q[1..])
  }

  predicate HoldsPlace(s: Room, owner: OwnerHash) {
    && owner in s.users && s.users[owner] in s.entries
    && var x := s.entries[s.users[owner]];
       (x.status == EntryQueued || x.status == EntryAdmitted) && s.clock < x.expiry
  }

  function Join(s: Room, now: Millis, e: EntryId, owner: OwnerHash, fingerprint: Digest, trip: Trip): Outcome {
    match Guard(s)
    case Some(why) => Outcome(s, Refused(why))
    case None =>
      var s1 := Tick(s, now);
      Enter(LapseAll(s1, Head(s1.queue, JOIN_CLEANUP)), e, owner, fingerprint, trip)
  }

  /** What join does after its cleanup. */
  function Enter(s: Room, e: EntryId, owner: OwnerHash, fingerprint: Digest, trip: Trip): Outcome {
    if HoldsPlace(s, owner) then
      var f := s.users[owner];
      if s.entries[f].fingerprint != fingerprint then Outcome(s, Refused(JoinConflict))
      else Outcome(s, DuplicateOf(f, Position(s.queue, f)))
    else
      var s1 := DropLink(s, owner);
      if |s1.queue| >= s1.limits.maxQueue then Outcome(s1, Refused(QueueFull))
      else Outcome(Enqueue(s1, e, owner, fingerprint, trip), JoinedAs(e, |s1.queue| + 1))
  }

  // ------------------------------------------------------------------ get and claim

  predicate TokenRunOut(s: Room, x: Entry) {
    x.status == EntryAdmitted && x.token.Some? && x.token.value in s.tokens
    && s.tokens[x.token.value].expiry <= s.clock
  }

  function Get(s: Room, now: Millis, e: EntryId, owner: OwnerHash, claim: bool): Outcome {
    match Guard(s)
    case Some(why) => Outcome(s, Refused(why))
    case None =>
      if e !in s.entries then Outcome(s, Refused(NotFound))
      else if s.entries[e].owner != owner then Outcome(s, Refused(OwnerMismatch))
      else
        var s1 := Tick(s, now);
        var x := s1.entries[e];
        if Stale(s1, e) then Outcome(Lapse(s1, e, now + TOMBSTONE_MS), Refused(HasExpired))
        else if TokenRunOut(s1, x) then
          Outcome(Close(s1, x.token.value, TokenExpired, now + TOMBSTONE_MS), Refused(HasExpired))
        else if !claim then Outcome(s1, View(e, x.status, Position(s1.queue, e)))
        else if x.status != EntryAdmitted || x.token.None? || x.token.value !in s1.tokens then
          Outcome(s1, Refused(NotAdmitted))
        else if s1.tokens[x.token.value].delivered then Outcome(s1, Refused(AlreadyDelivered))
        else Outcome(Claim(s1, x.token.value), Delivery(x.token.value))
  }

  /** The read-only preflight of a delivery. */
  function InspectDelivery(s: Room, now: Millis, e: EntryId, owner: OwnerHash): Reply {
    match Guard(s)
    case Some(why) => Refused(why)
    case None =>
      if e !in s.entries then Refused(NotFound)
      else
        var x := s.entries[e];
        if x.owner != owner then Refused(OwnerMismatch)
        else if x.status == EntryExpired then Refused(HasExpired)
        else if x.status != EntryAdmitted || x.token.None? || x.token.value !in s.tokens then Refused(NotAdmitted)
        else if s.tokens[x.token.value].delivered then Refused(AlreadyDelivered)
        else if s.tokens[x.token.value].expiry <= now then Refused(HasExpired)
        else Delivery(x.token.value)
  }

  // ------------------------------------------------------------------ cancel

  function Cancel(s: Room, e: EntryId, owner: OwnerHash): Outcome {
    match Guard(s)
    case Some(why) => Outcome(s, Refused(why))
    case None =>
      if e !in s.entries then Outcome(s, Refused(NotFound))
      else
        var x := s.entries[e];
        if x.owner != owner then Outcome(s, Refused(OwnerMismatch))
        else if x.status == EntryCancelled || x.status == EntryExpired then Outcome(s, Refused(AlreadyTerminal))
        else if x.token.None? || x.token.value !in s.tokens then Outcome(Withdraw(s, e), CancelledDeleted)
        else
          var t := x.token.value;
          var k := s.tokens[t];
          if k.status == TokenProcessing then Outcome(RequestCancel(s, t), Refused(InProgress))
          else if Terminal(k.status) then Outcome(s, Refused(AlreadyTerminal))
          else Outcome(Close(s, t, TokenCancelled, k.expiry), CancelledKept)
  }

  // ------------------------------------------------------------------ issue

  datatype IssueRequest = IssueRequest(
    rate: int,
    maxInflight: int,
    tokenTtl: Millis,
    cleanup: int,
    candidates: seq<Candidate>)

  /** ZRANGEBYSCORE -inf now LIMIT 0 n: the due members with the lowest scores. */
  ghost predicate DueBatch<K(!new)>(z: map<K, Millis>, now: Millis, n: int, batch: seq<K>) {
    && |batch| <= n
    && (forall i, j :: 0 <= i < j < |batch| ==> batch[i] != batch[j])
    && (forall i :: 0 <= i < |batch| ==> batch[i] in z && z[batch[i]] <= now)
    && (forall i, j :: 0 <= i < j < |batch| ==> z[batch[i]] <= z[batch[j]])
    && (forall k :: k in z && z[k] <= now && k !in batch ==>
          |batch| == n && forall i :: 0 <= i < |batch| ==> z[batch[i]] <= z[k])
  }

  /** One due member of the leases set is dealt with. */
  function ReapLease(s: Room, key: LeaseKey, retention: Millis): Room {
    match key
    case EntryKey(e) => Bury(s, e)
    case TokenKey(t) =>
      if t !in s.tokens then s.(leases := s.leases - {key})
      else
        var k := s.tokens[t];
        match k.status
        case TokenIssued => s.(leases := s.leases - {key})
        case TokenProcessing =>
          if k.expiry <= s.clock then Close(s, t, TokenExpired, s.clock + retention)
          else if k.cancelRequested then Close(s, t, TokenCancelled, k.expiry)
          else Return(s, t, Recovered(t))
        case _ => Delete(s, t)
  }

  function ReapLeases(s: Room, batch: seq<LeaseKey>, retention: Millis): Room
    decreases |batch|
  {
    if batch == [] then s else ReapLeases(ReapLease(s, batch[0], retention), batch[1..], retention)
  }

  /** One inflight token whose expiry has passed is dealt with. */
  function ExpireInflight(s: Room, t: TokenHash, retention: Millis): Room {
    if t !in s.tokens then s.(inflight := s.inflight - {t})
    else if Active(s.tokens[t].status) then Close(s, t, TokenExpired, s.clock + retention)
    else Delete(s, t)
  }

  function ExpireInflights(s: Room, batch: seq<TokenHash>, retention: Millis): Room
    decreases |batch|
  {
    if batch == [] then s else ExpireInflights(ExpireInflight(s, batch[0], retention), batch[1..], retention)
  }

  /** The checks a candidate must pass against its queued, unexpired entry. */
  predicate Acceptable(s: Room, c: Candidate, tokenTtl: Millis)
    requires c.entry in s.entries
  {
    && c.issuedAt <= s.clock + 5000
    && s.clock < c.expiresAt
    && c.expiresAt - c.issuedAt <= tokenTtl + 1000
    && c.owner == s.entries[c.entry].owner
    && c.fingerprint == s.entries[c.entry].fingerprint
    && c.token !in s.tokens
  }

  function AdmitOne(s: Room, c: Candidate, tokenTtl: Millis): Room {
    if c.entry !in s.entries || s.entries[c.entry].status != EntryQueued then s
    else if s.entries[c.entry].expiry <= s.clock then Lapse(s, c.entry, s.clock + TOMBSTONE_MS)
    else if Acceptable(s, c, tokenTtl) then Admit(s, c)
    else s
  }

  /** Candidates are matched against the head of the queue until one does not line up. */
  function AdmitAll(s: Room, q: seq<EntryId>, cs: seq<Candidate>, tokenTtl: Millis): Room
    decreases |q|
  {
    if q == [] || cs == [] || cs[0].entry != q[0] then s
    else AdmitAll(AdmitOne(s, cs[0], tokenTtl), q[1..], cs[1..], tokenTtl)
  }

  /** The three cleanup loops and the rate window. */
  function Cleanup(s: Room, req: IssueRequest, leaseBatch: seq<LeaseKey>, tokenBatch: seq<TokenHash>): Room {
    var retention := MaxMs(req.tokenTtl, TOMBSTONE_MS);
    var s1 := ReapLeases(s, leaseBatch, retention);
    var s2 := ExpireInflights(s1, tokenBatch, retention);
    Prune(LapseAll(s2, Head(s2.queue, req.cleanup)))
  }

  function Capacity(s: Room, req: IssueRequest): int {
    MinInt(|req.candidates|, MinInt(req.rate - |s.rate|, req.maxInflight - |s.inflight|))
  }

  function Issue(s: Room, now: Millis, req: IssueRequest, leaseBatch: seq<LeaseKey>, tokenBatch: seq<TokenHash>): Outcome {
    match Guard(s)
    case Some(why) => Outcome(s, Refused(why))
    case None =>
      var s1 := Cleanup(Tick(s, now), req, leaseBatch, tokenBatch);
      Outcome(AdmitAll(s1, Head(s1.queue, Capacity(s1, req)), req.candidates, req.tokenTtl), Issued)
  }

  /** Maintenance is the issue script without candidates. */
  function MaintenanceRequest(cleanup: int): IssueRequest {
    IssueRequest(1, 1, 1, cleanup, [])
  }

  // ------------------------------------------------------------------ acquire, release, finalize

  datatype AcquireRequest = AcquireRequest(
    token: TokenHash,
    owner: OwnerHash,
    fingerprint: Digest,
    trip: Trip,
    binding: Binding,
    holder: LeaseOwner)

  /** A tombstone is kept to the token's expiry, or a minute when that has passed. */
  function KeepUntil(k: Token, now: Millis): Millis {
    if k.expiry <= now then now + TOMBSTONE_MS else k.expiry
  }

  predicate Binds(k: Token, req: AcquireRequest) {
    && k.owner == req.owner && k.fingerprint == req.fingerprint && k.trip == req.trip
    && (k.binding.Some? ==> k.binding.value == req.binding)
  }

  function Acquire(s: Room, now: Millis, req: AcquireRequest): Outcome {
    match Guard(s)
    case Some(why) => Outcome(s, Refused(why))
    case None =>
      var t := req.token;
      if t !in s.tokens then Outcome(s, Refused(NotFound))
      else if !Binds(s.tokens[t], req) then Outcome(s, Refused(Mismatch))
      else
        var s1 := Tick(s, now);
        var k := s1.tokens[t];
        match k.status
        case TokenIssued => GrantOrExpire(s1, req)
        case TokenProcessing =>
          if k.lease.Some? && now < k.lease.value.deadline then Outcome(s1, RetryAfter(k.lease.value.deadline - now))
          else if k.cancelRequested then
            Outcome(Close(s1, t, TokenCancelled, KeepUntil(k, now)), Refused(AlreadyTerminal))
          else GrantOrExpire(Return(s1, t, Recovered(t)), req)
        case TokenConsumed =>
          if k.expiry <= now then Outcome(Close(s1, t, TokenExpired, now + TOMBSTONE_MS), Refused(HasExpired))
          else Outcome(s1, ReplayAllowed)
        case _ => Outcome(s1, Refused(AlreadyTerminal))
  }

  /** The lease must fit into what is left of the token's life. */
  function GrantOrExpire(s: Room, req: AcquireRequest): Outcome
    requires req.token in s.tokens
  {
    var k := s.tokens[req.token];
    if k.expiry - s.clock < s.limits.lease then
      Outcome(Close(s, req.token, TokenExpired, s.clock + TOMBSTONE_MS), Refused(HasExpired))
    else
      Outcome(Grant(s, req.token, req.binding, req.holder, s.clock + s.limits.lease),
              Acquired(req.holder, k.generation + 1))
  }

  datatype LeaseMutation = LeaseMutation(
    token: TokenHash,
    owner: OwnerHash,
    binding: Binding,
    holder: LeaseOwner,
    generation: int)

  /** Why a lease mutation is refused, if it is. */
  function LeaseCheck(s: Room, m: LeaseMutation): Option<Refusal> {
    match Guard(s)
    case Some(why) => Some(why)
    case None =>
      if m.token !in s.tokens then Some(NotFound)
      else
        var k := s.tokens[m.token];
        if k.owner != m.owner || k.binding != Some(m.binding) then Some(Mismatch)
        else if k.status != TokenProcessing || k.lease.None? || k.lease.value.holder != m.holder
             || k.generation != m.generation then Some(StaleLease)
        else None
  }

  function Release(s: Room, now: Millis, m: LeaseMutation, permanent: bool): Outcome {
    match LeaseCheck(s, m)
    case Some(why) => Outcome(s, Refused(why))
    case None =>
      var k := s.tokens[m.token];
      if permanent || k.cancelRequested then
        Outcome(Close(Settle(Tick(s, now), m.token), m.token, TokenCancelled, KeepUntil(k, now)), CancelledToken)
      else
        Outcome(Return(s, m.token, Settled(m.token, m.holder, m.generation)), Released)
  }

  function Finalize(s: Room, now: Millis, m: LeaseMutation): Outcome {
    match LeaseCheck(s, m)
    case Some(why) => Outcome(s, Refused(why))
    case None =>
      var k := s.tokens[m.token];
      Outcome(Close(Settle(Tick(s, now), m.token), m.token, TokenConsumed, KeepUntil(k, now)), Finalized)
  }

  /** The repair step: only the continuity marker is checked, and no lease. */
  function FinalizeCommitted(s: Room, now: Millis, t: TokenHash, owner: OwnerHash, binding: Binding): Outcome {
    if s.continuity != Some(s.version) then Outcome(s, Refused(ContinuityLost))
    else if t !in s.tokens then Outcome(s, Refused(NotFound))
    else if s.tokens[t].owner != owner || s.tokens[t].binding != Some(binding) then Outcome(s, Refused(Mismatch))
    else Outcome(Close(Tick(s, now), t, TokenConsumed, KeepUntil(s.tokens[t], now)), Finalized)
  }
}
