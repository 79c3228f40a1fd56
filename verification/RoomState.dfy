/**
 The state of one waiting-room generation: the Redis structures that the
 admission scripts share, plus the log of what the scripts did. Identities
 (entry ids, token hashes, owner hashes, digests) are only ever compared, so
 they are integers here. Times are Redis milliseconds.
 */
module RoomState {

  datatype Option<+T> = None | Some(value: T)

  type EntryId = int
  type TokenHash = int
  type OwnerHash = int
  type Digest = int
  type LeaseOwner = int
  type Millis = int

  /** Tombstones of terminal records are kept at least this long. */
  const TOMBSTONE_MS: Millis := 60000

  datatype EntryStatus = EntryQueued | EntryAdmitted | EntryExpired | EntryCancelled

  datatype TokenStatus =
    | TokenIssued
    | TokenProcessing
    | TokenConsumed
    | TokenExpired
    | TokenCancelled

  /** An inflight token: it still counts against the inflight limit. */
  predicate Active(status: TokenStatus) {
    status == TokenIssued || status == TokenProcessing
  }

  predicate Terminal(status: TokenStatus) {
    !Active(status)
  }

  /** The status an entry has while its token has the given status. */
  function EntryStatusFor(status: TokenStatus): EntryStatus {
    match status
    case TokenIssued => EntryAdmitted
    case TokenProcessing => EntryAdmitted
    case TokenConsumed => EntryAdmitted
    case TokenExpired => EntryExpired
    case TokenCancelled => EntryCancelled
  }

  /** The trip an entry asks for: stop indices, seat class and passenger count. */
  datatype Trip = Trip(fromStop: int, toStop: int, seatClass: int, passengers: int)

  datatype Entry = Entry(
    status: EntryStatus,
    seqNo: int,
    owner: OwnerHash,
    fingerprint: Digest,
    trip: Trip,
    joinedAt: Millis,
    expiry: Millis,
    admittedAt: Option<Millis>,
    token: Option<TokenHash>)

  /** The booking a token is bound to by its first acquire. */
  datatype Binding = Binding(booking: Digest, idempotency: Digest)

  datatype Lease = Lease(holder: LeaseOwner, deadline: Millis)

  datatype Token = Token(
    status: TokenStatus,
    entry: EntryId,
    owner: OwnerHash,
    fingerprint: Digest,
    trip: Trip,
    keyId: int,
    nonce: int,
    issuedAt: Millis,
    expiry: Millis,
    delivered: bool,
    generation: int,
    binding: Option<Binding>,
    lease: Option<Lease>,
    cancelRequested: bool)

  /** Members of the leases set: a token hash, or "entry:" followed by an entry id. */
  datatype LeaseKey = TokenKey(token: TokenHash) | EntryKey(entry: EntryId)

  /** The limits of one policy version, as admission/domain/policy.go accepts them. */
  datatype Limits = Limits(
    maxQueue: int,
    rate: int,
    maxInflight: int,
    tokenTtl: Millis,
    lease: Millis,
    entryTtl: Millis)

  predicate ValidLimits(l: Limits) {
    && 1 <= l.maxQueue <= 100_000
    && 1 <= l.rate <= 10_000
    && 1 <= l.maxInflight <= 10_000
    && 6_000 <= l.tokenTtl <= 900_000
    && 5_000 <= l.lease <= 120_000
    && l.lease < l.tokenTtl
    && 60_000 <= l.entryTtl <= 86_400_000
    && l.tokenTtl + l.lease <= l.entryTtl
  }

  /** One line of the log per thing a script did to an entry or a token. */
  datatype Event =
    | Joined(entry: EntryId, seqNo: int)
    | Lapsed(entry: EntryId)
    | Withdrawn(entry: EntryId)
    | Admitted(entry: EntryId, token: TokenHash, at: Millis)
    | Granted(token: TokenHash, owner: OwnerHash, binding: Binding, holder: LeaseOwner, generation: int)
    | Settled(token: TokenHash, holder: LeaseOwner, generation: int)
    | Recovered(token: TokenHash)
    | Closed(token: TokenHash, status: TokenStatus)
    | Claimed(token: TokenHash)

  datatype Room = Room(
    version: int,
    limits: Limits,
    policyMarker: Option<int>,
    continuity: Option<int>,
    clock: Millis,
    queue: seq<EntryId>,
    sequence: int,
    entries: map<EntryId, Entry>,
    users: map<OwnerHash, EntryId>,
    tokens: map<TokenHash, Token>,
    inflight: map<TokenHash, Millis>,
    rate: map<TokenHash, Millis>,
    leases: map<LeaseKey, Millis>,
    log: seq<Event>)

  /** A generation as the first join finds it. */
  function EmptyRoom(version: int, limits: Limits, now: Millis): Room {
    Room(version, limits, Some(version), Some(version), now,
         [], 0, map[], map[], map[], map[], map[], map[], [])
  }

  // ------------------------------------------------------------------ invariant

  /** An entry that is waiting, or that was admitted and whose token is still inflight. */
  predicate LiveStatus(s: Room, e: EntryId)
    requires e in s.entries
  {
    var x := s.entries[e];
    || x.status == EntryQueued
    || (x.status == EntryAdmitted && x.token.Some? && x.token.value in s.tokens
        && Active(s.tokens[x.token.value].status))
  }

  /** What holds of one entry id: the queue and the entry tombstones agree with the
      entry table, an entry is reachable from the queue, its token or its tombstone,
      and an unexpired live entry is the one its owner's index points at. */
  ghost predicate EntryOk(s: Room, e: EntryId) {
    && (e in s.queue <==> e in s.entries && s.entries[e].status == EntryQueued)
    && (EntryKey(e) in s.leases <==>
          e in s.entries && s.entries[e].token.None? && s.entries[e].status == EntryExpired)
    && (e in s.entries ==>
          var x := s.entries[e];
          && 0 < x.expiry
          && (x.token.None? ==> x.status == EntryQueued || x.status == EntryExpired)
          && (x.status == EntryQueued ==>
                x.token.None? && x.seqNo <= s.sequence && x.expiry <= s.clock + s.limits.entryTtl)
          && (x.token.Some? ==> x.token.value in s.tokens && s.tokens[x.token.value].entry == e)
          && (LiveStatus(s, e) && s.clock < x.expiry ==> x.owner in s.users && s.users[x.owner] == e))
  }

  /** What holds of one token hash: the inflight set and the leases set agree with the
      token table, and the token agrees with its entry. */
  ghost predicate TokenOk(s: Room, t: TokenHash) {
    && (t in s.inflight <==> t in s.tokens && Active(s.tokens[t].status))
    && (TokenKey(t) in s.leases <==> t in s.tokens && s.tokens[t].status != TokenIssued)
    && (t in s.tokens ==>
          var k := s.tokens[t];
          && k.entry in s.entries
          && s.entries[k.entry].token == Some(t)
          && s.entries[k.entry].owner == k.owner
          && s.entries[k.entry].fingerprint == k.fingerprint
          && s.entries[k.entry].trip == k.trip
          && s.entries[k.entry].status == EntryStatusFor(k.status)
          && k.expiry <= s.entries[k.entry].expiry
          && 0 < k.expiry
          && 0 <= k.generation
          && (k.binding.Some? <==> 0 < k.generation)
          && (k.lease.Some? <==> k.status == TokenProcessing)
          && (k.cancelRequested ==> k.status == TokenProcessing)
          && (Active(k.status) ==> s.inflight[t] == k.expiry)
          && (k.lease.Some? ==>
                && k.lease.value.deadline <= k.expiry
                && s.leases[TokenKey(t)] == k.lease.value.deadline
                && 0 < k.generation))
  }

  /** The owner index never points at a dead entry or at somebody else's. */
  ghost predicate UserOk(s: Room, o: OwnerHash) {
    o in s.users ==>
      && s.users[o] in s.entries
      && s.entries[s.users[o]].owner == o
      && LiveStatus(s, s.users[o])
  }

  ghost predicate AllOk(s: Room) {
    && (forall e :: EntryOk(s, e))
    && (forall t :: TokenOk(s, t))
    && (forall o :: UserOk(s, o))
  }

  ghost predicate Before(s: Room, e: EntryId, f: EntryId) {
    && e in s.entries && f in s.entries
    && s.entries[e].seqNo < s.entries[f].seqNo
    && s.entries[e].expiry <= s.entries[f].expiry
  }

  /** The queue is in sequence order, and later entries expire later. */
  ghost predicate QueueOrdered(s: Room) {
    forall i, j :: 0 <= i < j < |s.queue| ==> Before(s, s.queue[i], s.queue[j])
  }

  ghost predicate Bounded(s: Room) {
    && |s.queue| <= s.limits.maxQueue
    && |s.inflight| <= s.limits.maxInflight
    && |s.rate| <= s.limits.rate
  }

  /** The structural invariant that every script keeps. */
  ghost predicate Consistent(s: Room) {
    && ValidLimits(s.limits)
    && 0 <= s.clock
    && AllOk(s)
    && QueueOrdered(s)
    && Bounded(s)
  }

  lemma EmptyConsistent(version: int, limits: Limits, now: Millis)
    requires ValidLimits(limits) && 0 <= now
    ensures Consistent(EmptyRoom(version, limits, now))
  {
  }
}
