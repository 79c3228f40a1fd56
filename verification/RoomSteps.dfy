/**
 The atomic changes that the admission scripts are made of. Every script is a
 sequence of these; each keeps the invariant (module RoomInvariant).
 */
module RoomSteps {
  import opened RoomState

  /** ZREM on the queue. */
  function Without(q: seq<EntryId>, e: EntryId): (r: seq<EntryId>)
    ensures e !in r
    ensures forall f :: f in r <==> f in q && f != e
  {
    if q == [] then []
    else if q[0] == e then Without(q[1..], e)
    else [q[0]] + Without(q[1..], e)
  }

  /** HDEL of the owner index, only when it still points at e. */
  function Unlinked(users: map<OwnerHash, EntryId>, owner: OwnerHash, e: EntryId): map<OwnerHash, EntryId> {
    if owner in users && users[owner] == e then users - {owner} else users
  }

  /** A script reads Redis TIME. */
  function Tick(s: Room, now: Millis): Room {
    s.(clock := now)
  }

  /** A queued entry runs out: it leaves the queue and keeps a tombstone. */
  function Lapse(s: Room, e: EntryId, keepUntil: Millis): Room
    requires e in s.entries
  {
    s.(queue := Without(s.queue, e),
       users := Unlinked(s.users, s.entries[e].owner, e),
       entries := s.entries[e := s.entries[e].(status := EntryExpired)],
       leases := s.leases[EntryKey(e) := keepUntil],
       log := s.log + [Lapsed(e)])
  }

  /** A queued entry is cancelled: it is deleted at once. */
  function Withdraw(s: Room, e: EntryId): Room
    requires e in s.entries
  {
    s.(queue := Without(s.queue, e),
       users := Unlinked(s.users, s.entries[e].owner, e),
       entries := s.entries - {e},
       leases := s.leases - {EntryKey(e)},
       log := s.log + [Withdrawn(e)])
  }

  /** The owner index entry of a stale entry is dropped by the owner's next join. */
  function DropLink(s: Room, owner: OwnerHash): Room {
    s.(users := s.users - {owner})
  }

  /** A new entry joins the tail of the queue. */
  function Enqueue(s: Room, e: EntryId, owner: OwnerHash, fingerprint: Digest, trip: Trip): Room {
    var n := s.sequence + 1;
    s.(queue := s.queue + [e],
       sequence := n,
       entries := s.entries[e := Entry(EntryQueued, n, owner, fingerprint, trip,
                                       s.clock, s.clock + s.limits.entryTtl, None, None)],
       users := s.users[owner := e],
       log := s.log + [Joined(e, n)])
  }

  /** What the worker prepared for one queued entry. */
  datatype Candidate = Candidate(
    entry: EntryId,
    token: TokenHash,
    keyId: int,
    nonce: int,
    issuedAt: Millis,
    expiresAt: Millis,
    owner: OwnerHash,
    fingerprint: Digest)

  function MaxMs(a: Millis, b: Millis): Millis {
    if a > b then a else b
  }

  function MinInt(a: int, b: int): int {
    if a < b then a else b
  }

  /** A queued entry is admitted: its token becomes inflight and counts against the rate. */
  function Admit(s: Room, c: Candidate): Room
    requires c.entry in s.entries
  {
    var x := s.entries[c.entry];
    s.(queue := Without(s.queue, c.entry),
       tokens := s.tokens[c.token := Token(TokenIssued, c.entry, x.owner, x.fingerprint, x.trip,
                                           c.keyId, c.nonce, c.issuedAt, c.expiresAt,
                                           false, 0, None, None, false)],
       entries := s.entries[c.entry := x.(status := EntryAdmitted, token := Some(c.token),
                                          admittedAt := Some(s.clock),
                                          expiry := MaxMs(x.expiry, c.expiresAt))],
       inflight := s.inflight[c.token := c.expiresAt],
       rate := s.rate[c.token := s.clock],
       log := s.log + [Admitted(c.entry, c.token, s.clock)])
  }

  /** Rate records that fell out of the one-second window are forgotten. */
  function Prune(s: Room): Room {
    s.(rate := map t | t in s.rate && s.clock - 1000 < s.rate[t] :: s.rate[t])
  }

  /** A token becomes terminal, whatever it was: it leaves the inflight set, its
      entry follows, and a tombstone is kept. */
  function Close(s: Room, t: TokenHash, status: TokenStatus, keepUntil: Millis): Room
    requires t in s.tokens
  {
    var k := s.tokens[t];
    s.(inflight := s.inflight - {t},
       leases := s.leases[TokenKey(t) := keepUntil],
       users := Unlinked(s.users, k.owner, k.entry),
       entries := if k.entry in s.entries
                  then s.entries[k.entry := s.entries[k.entry].(status := EntryStatusFor(status))]
                  else s.entries,
       tokens := s.tokens[t := k.(status := status, lease := None, cancelRequested := false)],
       log := s.log + [Closed(t, status)])
  }

  /** A token and its entry are deleted. */
  function Delete(s: Room, t: TokenHash): Room
    requires t in s.tokens
  {
    var k := s.tokens[t];
    s.(users := Unlinked(s.users, k.owner, k.entry),
       entries := s.entries - {k.entry},
       inflight := s.inflight - {t},
       leases := s.leases - {TokenKey(t)},
       tokens := s.tokens - {t})
  }

  /** The tombstone of an expired entry is reaped together with the entry. */
  function Bury(s: Room, e: EntryId): Room {
    s.(users := if e in s.entries then Unlinked(s.users, s.entries[e].owner, e) else s.users,
       entries := s.entries - {e},
       leases := s.leases - {EntryKey(e)})
  }

  /** An issued token gets a processing lease; its first one binds it to a booking. */
  function Grant(s: Room, t: TokenHash, binding: Binding, holder: LeaseOwner, deadline: Millis): Room
    requires t in s.tokens
  {
    var k := s.tokens[t];
    var b := if k.binding.Some? then k.binding.value else binding;
    s.(tokens := s.tokens[t := k.(status := TokenProcessing, binding := Some(b),
                                  generation := k.generation + 1,
                                  lease := Some(Lease(holder, deadline)))],
       leases := s.leases[TokenKey(t) := deadline],
       log := s.log + [Granted(t, k.owner, b, holder, k.generation + 1)])
  }

  /** A processing token goes back to issued and gives up its lease; why says how. */
  function Return(s: Room, t: TokenHash, why: Event): Room
    requires t in s.tokens
  {
    s.(tokens := s.tokens[t := s.tokens[t].(status := TokenIssued, lease := None, cancelRequested := false)],
       leases := s.leases - {TokenKey(t)},
       log := s.log + [why])
  }

  /** A cancel arrives while the token is being processed. */
  function RequestCancel(s: Room, t: TokenHash): Room
    requires t in s.tokens
  {
    s.(tokens := s.tokens[t := s.tokens[t].(cancelRequested := true)])
  }

  /** The bearer of a token is handed out. */
  function Claim(s: Room, t: TokenHash): Room
    requires t in s.tokens
  {
    s.(tokens := s.tokens[t := s.tokens[t].(delivered := true)],
       log := s.log + [Claimed(t)])
  }

  /** Some other script or an operator rewrites the version markers, or they are lost. */
  function Remark(s: Room, policyMarker: Option<int>, continuity: Option<int>): Room {
    s.(policyMarker := policyMarker, continuity := continuity)
  }

  /** A lease holder presents its lease to release or finalize. */
  function Settle(s: Room, t: TokenHash): Room
    requires t in s.tokens && s.tokens[t].lease.Some?
  {
    s.(log := s.log + [Settled(t, s.tokens[t].lease.value.holder, s.tokens[t].generation)])
  }

  // ------------------------------------------------------------------ steps and paths

  datatype Step =
    | DoTick(now: Millis)
    | DoRemark(policyMarker: Option<int>, continuity: Option<int>)
    | DoLapse(entry: EntryId, keepUntil: Millis)
    | DoWithdraw(entry: EntryId)
    | DoDropLink(owner: OwnerHash)
    | DoEnqueue(entry: EntryId, owner: OwnerHash, fingerprint: Digest, trip: Trip)
    | DoAdmit(candidate: Candidate)
    | DoPrune
    | DoClose(token: TokenHash, status: TokenStatus, keepUntil: Millis)
    | DoSettleClose(token: TokenHash, status: TokenStatus, keepUntil: Millis)
    | DoSettleReturn(token: TokenHash)
    | DoRecover(token: TokenHash)
    | DoDelete(token: TokenHash)
    | DoBury(entry: EntryId)
    | DoGrant(token: TokenHash, binding: Binding, holder: LeaseOwner, deadline: Millis)
    | DoRequestCancel(token: TokenHash)
    | DoClaim(token: TokenHash)

  /** An entry id or token hash that no earlier step used. */
  ghost predicate FreshEntry(log: seq<Event>, e: EntryId) {
    forall ev :: ev in log && ev.Joined? ==> ev.entry != e
  }

  ghost predicate FreshToken(log: seq<Event>, t: TokenHash) {
    forall ev :: ev in log && ev.Admitted? ==> ev.token != t
  }

  /** When a step may happen. With inOrder, only the head of the queue is admitted. */
  ghost predicate Enabled(s: Room, a: Step, inOrder: bool) {
    match a
    case DoTick(now) => s.clock <= now
    case DoRemark(_, _) => true
    case DoLapse(e, _) => e in s.entries && e in s.queue && s.entries[e].expiry <= s.clock
    case DoWithdraw(e) => e in s.entries && e in s.queue
    case DoDropLink(o) =>
      o in s.users ==> s.users[o] in s.entries && s.entries[s.users[o]].expiry <= s.clock
    case DoEnqueue(e, o, _, _) =>
      e !in s.entries && FreshEntry(s.log, e) && o !in s.users && |s.queue| < s.limits.maxQueue
    case DoAdmit(c) =>
      && c.entry in s.queue && c.entry in s.entries
      && s.clock < s.entries[c.entry].expiry && s.clock < c.expiresAt
      && c.token !in s.tokens && FreshToken(s.log, c.token)
      && |s.inflight| < s.limits.maxInflight && |s.rate| < s.limits.rate
      && (inOrder ==> c.entry == s.queue[0])
    case DoPrune => true
    case DoClose(t, status, _) => t in s.tokens && Terminal(status)
    case DoSettleClose(t, status, _) =>
      t in s.tokens && s.tokens[t].lease.Some? && Terminal(status)
    case DoSettleReturn(t) =>
      t in s.tokens && s.tokens[t].lease.Some? && !s.tokens[t].cancelRequested
    case DoRecover(t) =>
      t in s.tokens && s.tokens[t].lease.Some? && !s.tokens[t].cancelRequested
    case DoDelete(t) => t in s.tokens && (Terminal(s.tokens[t].status))
    case DoBury(e) => EntryKey(e) in s.leases
    case DoGrant(t, b, _, deadline) =>
      && t in s.tokens && s.tokens[t].status == TokenIssued
      && deadline <= s.tokens[t].expiry
      && (s.tokens[t].binding.Some? ==> s.tokens[t].binding.value == b)
    case DoRequestCancel(t) => t in s.tokens && s.tokens[t].status == TokenProcessing
    case DoClaim(t) => t in s.tokens && !s.tokens[t].delivered
  }

  ghost function Do(s: Room, a: Step): Room
    requires Enabled(s, a, false)
  {
    match a
    case DoTick(now) => Tick(s, now)
    case DoRemark(p, c) => Remark(s, p, c)
    case DoLapse(e, keepUntil) => Lapse(s, e, keepUntil)
    case DoWithdraw(e) => Withdraw(s, e)
    case DoDropLink(o) => DropLink(s, o)
    case DoEnqueue(e, o, f, trip) => Enqueue(s, e, o, f, trip)
    case DoAdmit(c) => Admit(s, c)
    case DoPrune => Prune(s)
    case DoClose(t, status, keepUntil) => Close(s, t, status, keepUntil)
    case DoSettleClose(t, status, keepUntil) => Close(Settle(s, t), t, status, keepUntil)
    case DoSettleReturn(t) =>
      Return(s, t, Settled(t, s.tokens[t].lease.value.holder, s.tokens[t].generation))
    case DoRecover(t) => Return(s, t, Recovered(t))
    case DoDelete(t) => Delete(s, t)
    case DoBury(e) => Bury(s, e)
    case DoGrant(t, b, holder, deadline) => Grant(s, t, b, holder, deadline)
    case DoRequestCancel(t) => RequestCancel(s, t)
    case DoClaim(t) => Claim(s, t)
  }

  /** One step, in relational form. */
  ghost predicate Moves(s: Room, a: Step, r: Room, inOrder: bool) {
    Enabled(s, a, inOrder) && Enabled(s, a, false) && r == Do(s, a)
  }

  datatype Trail = Here | Then(step: Step, next: Room, rest: Trail)

  /** r is reached from s along the trail, each step enabled where it happens. */
  ghost predicate Follows(s: Room, trail: Trail, r: Room, inOrder: bool)
    decreases trail
  {
    match trail
    case Here => s == r
    case Then(a, m, rest) => Moves(s, a, m, inOrder) && Follows(m, rest, r, inOrder)
  }

  /** r is reached from s by some steps. */
  ghost predicate Path(s: Room, r: Room, inOrder: bool) {
    exists trail :: Follows(s, trail, r, inOrder)
  }

  lemma PathHere(s: Room, inOrder: bool)
    ensures Path(s, s, inOrder)
  {
    assert Follows(s, Here, s, inOrder);
  }

  lemma PathOne(s: Room, a: Step, r: Room, inOrder: bool)
    requires Moves(s, a, r, inOrder)
    ensures Path(s, r, inOrder)
  {
    assert Follows(r, Here, r, inOrder);
    assert Follows(s, Then(a, r, Here), r, inOrder);
  }

  lemma StepPath(s: Room, a: Step, inOrder: bool)
    requires Enabled(s, a, inOrder)
    ensures Enabled(s, a, false) && Path(s, Do(s, a), inOrder)
  {
    PathOne(s, a, Do(s, a), inOrder);
  }

  function Append(xs: Trail, ys: Trail): Trail {
    match xs
    case Here => ys
    case Then(a, m, rest) => Then(a, m, Append(rest, ys))
  }

  lemma {:induction false} FollowsJoin(s: Room, xs: Trail, m: Room, ys: Trail, r: Room, inOrder: bool)
    requires Follows(s, xs, m, inOrder) && Follows(m, ys, r, inOrder)
    ensures Follows(s, Append(xs, ys), r, inOrder)
    decreases xs
  {
    match xs
    case Here =>
    case Then(a, n, rest) => FollowsJoin(n, rest, m, ys, r, inOrder);
  }

  lemma PathJoin(s: Room, m: Room, r: Room, inOrder: bool)
    requires Path(s, m, inOrder) && Path(m, r, inOrder)
    ensures Path(s, r, inOrder)
  {
    var xs :| Follows(s, xs, m, inOrder);
    var ys :| Follows(m, ys, r, inOrder);
    FollowsJoin(s, xs, m, ys, r, inOrder);
  }
}
