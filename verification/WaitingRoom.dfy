/**
 The admission scripts as they run: statement by statement over the Redis structures of
 one generation. Every method is proved to be its specification in RoomScripts, and to
 keep the invariant.
 */
module WaitingRoom {
  import opened RoomState
  import opened RoomSteps
  import opened RoomInvariant
  import opened RoomLife
  import opened RoomScripts
  import opened RoomPaths
  import opened RoomRuns
  import opened RoomTally
  import opened RoomPeek
  import opened RoomScan

  /** (m - {k})[k := v] is m[k := v]: ZREM followed by ZADD. */
  lemma Readd<K, V>(m: map<K, V>, k: K, v: V)
    ensures (m - {k})[k := v] == m[k := v]
  {
  }

  lemma CallKeepsInv(s: Room, c: Call)
    requires Inv(s) && Legal(s, c)
    ensures Inv(Run1(s, c).room)
  {
    CallPath(s, c);
    PathInv(s, Run1(s, c).room, false);
  }

  /** A room that differs in the right fields is the closed room. */
  lemma FieldsOfClose(s: Room, r: Room, t: TokenHash, status: TokenStatus, keepUntil: Millis)
    requires t in s.tokens && s.tokens[t].entry in s.entries
    requires r.version == s.version && r.limits == s.limits && r.policyMarker == s.policyMarker && r.continuity == s.continuity
    requires r.clock == s.clock && r.sequence == s.sequence && r.rate == s.rate && r.queue == s.queue
    requires r.inflight == s.inflight - {t}
    requires r.leases == s.leases[TokenKey(t) := keepUntil]
    requires r.users == Unlinked(s.users, s.tokens[t].owner, s.tokens[t].entry)
    requires r.entries == s.entries[s.tokens[t].entry := s.entries[s.tokens[t].entry].(status := EntryStatusFor(status))]
    requires r.tokens == s.tokens[t := s.tokens[t].(status := status, lease := None, cancelRequested := false)]
    requires r.log == s.log + [Closed(t, status)]
    ensures r == Close(s, t, status, keepUntil)
  {
  }

  /** What cancel relies on: an entry with a token is out of the queue, and the token is its own. */
  predicate CancelReady(s: Room, e: EntryId) {
    && e in s.entries
    && (s.entries[e].token.Some? ==>
          && e !in s.queue && s.entries[e].token.value in s.tokens
          && s.tokens[s.entries[e].token.value].entry == e && 0 < s.tokens[s.entries[e].token.value].expiry)
  }

  lemma ReadyToCancel(s: Room, e: EntryId)
    requires AllOk(s)
    ensures e in s.entries ==> CancelReady(s, e)
  {
    assert EntryOk(s, e);
    if e in s.entries && s.entries[e].token.Some? { assert TokenOk(s, s.entries[e].token.value); }
  }

  /** Writing the status an entry has changes nothing. */
  lemma SameStatus(entries: map<EntryId, Entry>, e: EntryId)
    requires e in entries
    ensures entries[e := entries[e].(status := entries[e].status)] == entries
  {
  }

  /** Deleting a token does not depend on the tombstone it has. */
  lemma DeleteOfClose(s: Room, bare: Room, t: TokenHash, keepUntil: Millis)
    requires t in s.tokens && s.tokens[t].entry in s.entries
    requires bare == Close(s, t, TokenCancelled, keepUntil).(leases := s.leases - {TokenKey(t)})
    ensures Delete(bare, t) == Delete(Close(s, t, TokenCancelled, keepUntil), t)
  {
    assert (s.leases - {TokenKey(t)}) - {TokenKey(t)} == s.leases[TokenKey(t) := keepUntil] - {TokenKey(t)};
  }

  /** The member with the lowest score. */
  method Lowest<K(==)>(z: map<K, Millis>, due: set<K>) returns (low: K)
    requires due != {} && due <= z.Keys
    ensures low in due && forall k :: k in due ==> z[low] <= z[k]
  {
    low :| low in due;
    var rest := due - {low};
    while rest != {}
      invariant low in due && rest <= due
      invariant forall k :: k in due && k !in rest ==> z[low] <= z[k]
    {
      var k :| k in rest;
      if z[k] < z[low] { low := k; }
      rest := rest - {k};
    }
  }

  /** ZRANGEBYSCORE -inf now LIMIT 0 n. */
  method RangeByScore<K(==, !new)>(z: map<K, Millis>, now: Millis, n: nat) returns (batch: seq<K>)
    ensures DueBatch(z, now, n, batch)
  {
    var due := set k | k in z && z[k] <= now;
    batch := [];
    while |batch| < n && due != {}
      invariant |batch| <= n
      invariant forall k :: k in due <==> k in z && z[k] <= now && k !in batch
      invariant forall i :: 0 <= i < |batch| ==> batch[i] in z && z[batch[i]] <= now
      invariant forall i, j :: 0 <= i < j < |batch| ==> batch[i] != batch[j] && z[batch[i]] <= z[batch[j]]
      invariant forall i, k :: 0 <= i < |batch| && k in due ==> z[batch[i]] <= z[k]
      decreases n - |batch|
    {
      var low := Lowest(z, due);
      batch := batch + [low];
      due := due - {low};
    }
  }

  class Generation {
    const version: int
    const limits: Limits
    var policyMarker: Option<int>
    var continuity: Option<int>
    var queue: seq<EntryId>
    var sequence: int
    var entries: map<EntryId, Entry>
    var users: map<OwnerHash, EntryId>
    var tokens: map<TokenHash, Token>
    var inflight: map<TokenHash, Millis>
    var rate: map<TokenHash, Millis>
    var leases: map<LeaseKey, Millis>
    ghost var clock: Millis
    ghost var log: seq<Event>

    ghost function View(): Room
      reads this
    {
      Room(version, limits, policyMarker, continuity, clock, queue, sequence,
           entries, users, tokens, inflight, rate, leases, log)
    }

    ghost predicate Valid()
      reads this
    {
      Inv(View())
    }

    constructor (version: int, limits: Limits, now: Millis)
      requires ValidLimits(limits) && 0 <= now
      ensures Valid() && View() == EmptyRoom(version, limits, now)
    {
      this.version, this.limits := version, limits;
      policyMarker, continuity := Some(version), Some(version);
      queue, sequence := [], 0;
      entries, users, tokens, inflight, rate, leases := map[], map[], map[], map[], map[], map[];
      clock, log := now, [];
      new;
      EmptyInv(version, limits, now);
    }

    /** The marker checks at the head of a script. */
    method Check() returns (why: Option<Refusal>)
      ensures why == Guard(View())
    {
      if policyMarker != Some(version) { return Some(PolicyMismatch); }
      if continuity != Some(version) { return Some(ContinuityLost); }
      return None;
    }

    // ---------------------------------------------------------------- shared pieces

    /** expire_entry of join, terminalize_entry_expired of issue. */
    method ExpireEntry(e: EntryId, now: Millis)
      requires e in entries
      modifies this
      ensures View() == Lapse(old(View()), e, now + TOMBSTONE_MS)
    {
      var owner := entries[e].owner;
      queue := Without(queue, e);
      entries := entries[e := entries[e].(status := EntryExpired)];
      users := Unlinked(users, owner, e);
      leases := leases[EntryKey(e) := now + TOMBSTONE_MS];
      log := log + [Lapsed(e)];
    }

    /** Three statements that most scripts share: ZREM of the inflight set, ZREM of the leases set,
        HDEL of the owner index if it still points at the token's entry. */
    method Detach(t: TokenHash)
      requires t in tokens
      modifies this`inflight, this`leases, this`users
      ensures inflight == old(inflight) - {t} && leases == old(leases) - {TokenKey(t)}
      ensures users == Unlinked(old(users), tokens[t].owner, tokens[t].entry)
    {
      inflight := inflight - {t};
      leases := leases - {TokenKey(t)};
      users := Unlinked(users, tokens[t].owner, tokens[t].entry);
    }

    /** HSET of a token's status and HDEL of its lease and cancel fields. */
    method Stamp(t: TokenHash, status: TokenStatus)
      requires t in tokens
      modifies this`tokens, this`log
      ensures tokens == old(tokens)[t := old(tokens[t]).(status := status, lease := None, cancelRequested := false)]
      ensures log == old(log) + [Closed(t, status)]
    {
      tokens := tokens[t := tokens[t].(status := status)];
      tokens := tokens[t := tokens[t].(lease := None, cancelRequested := false)];
      log := log + [Closed(t, status)];
    }

    /** ZREM of the queue and HSET of an entry's status. */
    method Unqueue(e: EntryId, status: EntryStatus)
      requires e in entries && e !in queue
      modifies this`queue, this`entries
      ensures queue == old(queue) && entries == old(entries)[e := old(entries[e]).(status := status)]
    {
      WithoutAbsent(queue, e);
      queue := Without(queue, e);
      entries := entries[e := entries[e].(status := status)];
    }

    /** terminalize_expired of get. */
    method ExpireOnGet(t: TokenHash, now: Millis)
      requires t in tokens && tokens[t].entry in entries && tokens[t].entry !in queue
      modifies this`inflight, this`leases, this`users, this`queue, this`entries, this`tokens, this`log
      ensures View() == Close(old(View()), t, TokenExpired, now + TOMBSTONE_MS)
    {
      var e := tokens[t].entry;
      Detach(t);
      Unqueue(e, EntryExpired);
      Stamp(t, TokenExpired);
      leases := leases[TokenKey(t) := now + TOMBSTONE_MS];
      Readd(old(leases), TokenKey(t), now + TOMBSTONE_MS);
      FieldsOfClose(old(View()), View(), t, TokenExpired, now + TOMBSTONE_MS);
    }

    /** delete_token_state of issue. */
    method DeleteTokenState(t: TokenHash)
      requires t in tokens && tokens[t].entry !in queue
      modifies this`queue, this`users, this`entries, this`inflight, this`leases, this`tokens
      ensures View() == Delete(old(View()), t)
    {
      var e, owner := tokens[t].entry, tokens[t].owner;
      users := Unlinked(users, owner, e);
      WithoutAbsent(queue, e);
      queue := Without(queue, e);
      entries := entries - {e};
      inflight := inflight - {t};
      leases := leases - {TokenKey(t)};
      tokens := tokens - {t};
    }

    /** terminalize_expired of issue, which keeps the tombstone for the retention. */
    method ExpireOnIssue(t: TokenHash, now: Millis, retention: Millis)
      requires t in tokens && tokens[t].entry in entries && tokens[t].entry !in queue
      modifies this`inflight, this`leases, this`users, this`queue, this`entries, this`tokens, this`log
      ensures View() == Close(old(View()), t, TokenExpired, now + retention)
    {
      var e := tokens[t].entry;
      Detach(t);
      Unqueue(e, EntryExpired);
      Stamp(t, TokenExpired);
      leases := leases[TokenKey(t) := now + retention];
      Readd(old(leases), TokenKey(t), now + retention);
      FieldsOfClose(old(View()), View(), t, TokenExpired, now + retention);
    }

    /** terminalize_cancelled of issue: a token past its expiry is deleted at once. */
    method CancelOnIssue(t: TokenHash, now: Millis)
      requires t in tokens && tokens[t].entry in entries && tokens[t].entry !in queue
      modifies this`inflight, this`leases, this`users, this`queue, this`entries, this`tokens, this`log
      ensures var r := Close(old(View()), t, TokenCancelled, old(tokens[t].expiry));
              View() == if now < old(tokens[t].expiry) then r else Delete(r, t)
    {
      var e, expiry := tokens[t].entry, tokens[t].expiry;
      CancelMarks(t);
      if expiry > now {
        leases := leases[TokenKey(t) := expiry];
        Readd(old(leases), TokenKey(t), expiry);
        FieldsOfClose(old(View()), View(), t, TokenCancelled, expiry);
      } else {
        ghost var bare := View();
        DeleteTokenState(t);
        DeleteOfClose(old(View()), bare, t, expiry);
      }
    }

    /** The statements of terminalize_cancelled before it looks at the expiry. */
    method CancelMarks(t: TokenHash)
      requires t in tokens && tokens[t].entry in entries && tokens[t].entry !in queue
      modifies this`inflight, this`leases, this`users, this`queue, this`entries, this`tokens, this`log
      ensures inflight == old(inflight) - {t} && leases == old(leases) - {TokenKey(t)} && queue == old(queue)
      ensures users == Unlinked(old(users), old(tokens[t]).owner, old(tokens[t]).entry)
      ensures entries == old(entries)[old(tokens[t]).entry := old(entries[tokens[t].entry]).(status := EntryCancelled)]
      ensures tokens == old(tokens)[t := old(tokens[t]).(status := TokenCancelled, lease := None, cancelRequested := false)]
      ensures log == old(log) + [Closed(t, TokenCancelled)]
    {
      var e := tokens[t].entry;
      Detach(t);
      Unqueue(e, EntryCancelled);
      Stamp(t, TokenCancelled);
    }

    /** The tail of cancel for an issued token: the entry first, then the token. */
    method CancelIssued(t: TokenHash)
      requires t in tokens && tokens[t].entry in entries && tokens[t].entry !in queue && 0 < tokens[t].expiry
      modifies this`inflight, this`leases, this`users, this`queue, this`entries, this`tokens, this`log
      ensures View() == Close(old(View()), t, TokenCancelled, old(tokens[t].expiry))
    {
      var k := tokens[t];
      CancelEntryRecord(k.entry, k.owner);
      inflight := inflight - {t};
      leases := leases - {TokenKey(t)};
      Stamp(t, TokenCancelled);
      leases := if k.expiry > 0 then leases[TokenKey(t) := k.expiry] else leases;
      Readd(old(leases), TokenKey(t), k.expiry);
      FieldsOfClose(old(View()), View(), t, TokenCancelled, k.expiry);
    }

    /** The first half of that tail: ZREM of the queue, the owner index, the entry's status. */
    method CancelEntryRecord(e: EntryId, owner: OwnerHash)
      requires e in entries && e !in queue
      modifies this`queue, this`users, this`entries
      ensures queue == old(queue) && users == Unlinked(old(users), owner, e)
      ensures entries == old(entries)[e := old(entries[e]).(status := EntryCancelled)]
    {
      WithoutAbsent(queue, e);
      queue := Without(queue, e);
      users := Unlinked(users, owner, e);
      entries := entries[e := entries[e].(status := EntryCancelled)];
    }

    /** expire_token of acquire, which does not touch the queue. */
    method ExpireOnAcquire(t: TokenHash, now: Millis)
      requires t in tokens && tokens[t].entry in entries
      modifies this`inflight, this`leases, this`users, this`entries, this`tokens, this`log
      ensures View() == Close(old(View()), t, TokenExpired, now + TOMBSTONE_MS)
    {
      var e := tokens[t].entry;
      Detach(t);
      entries := entries[e := entries[e].(status := EntryExpired)];
      Stamp(t, TokenExpired);
      leases := leases[TokenKey(t) := now + TOMBSTONE_MS];
      Readd(old(leases), TokenKey(t), now + TOMBSTONE_MS);
      FieldsOfClose(old(View()), View(), t, TokenExpired, now + TOMBSTONE_MS);
    }

    /** cancel_token of acquire. */
    method CancelOnAcquire(t: TokenHash, now: Millis)
      requires t in tokens && tokens[t].entry in entries
      modifies this`inflight, this`leases, this`users, this`entries, this`tokens, this`log
      ensures View() == Close(old(View()), t, TokenCancelled, KeepUntil(old(tokens[t]), now))
    {
      var e, expires := tokens[t].entry, tokens[t].expiry;
      Detach(t);
      entries := entries[e := entries[e].(status := EntryCancelled)];
      Stamp(t, TokenCancelled);
      expires := if expires <= now then now + TOMBSTONE_MS else expires;
      leases := leases[TokenKey(t) := expires];
      Readd(old(leases), TokenKey(t), expires);
      FieldsOfClose(old(View()), View(), t, TokenCancelled, expires);
    }

    /** The cancel branch of release: the lease goes first, before the branch is chosen. */
    method CancelOnRelease(t: TokenHash, now: Millis)
      requires t in tokens && tokens[t].entry in entries
      modifies this`inflight, this`leases, this`users, this`entries, this`tokens, this`log
      ensures View() == Close(old(View()), t, TokenCancelled, KeepUntil(old(tokens[t]), now))
    {
      leases := leases - {TokenKey(t)};
      var k := tokens[t];
      LeaveInflight(t, k.owner, k.entry);
      Stamp(t, TokenCancelled);
      var expires := if k.expiry <= now then now + TOMBSTONE_MS else k.expiry;
      leases := leases[TokenKey(t) := expires];
      Readd(old(leases), TokenKey(t), expires);
      FieldsOfClose(old(View()), View(), t, TokenCancelled, expires);
    }

    method LeaveInflight(t: TokenHash, owner: OwnerHash, e: EntryId)
      requires e in entries
      modifies this`inflight, this`users, this`entries
      ensures inflight == old(inflight) - {t} && users == Unlinked(old(users), owner, e)
      ensures entries == old(entries)[e := old(entries[e]).(status := EntryCancelled)]
    {
      inflight := inflight - {t};
      users := Unlinked(users, owner, e);
      entries := entries[e := entries[e].(status := EntryCancelled)];
    }

    /** The tail of finalize. It leaves the entry alone, whose status is admitted already. */
    method ConsumeOnFinalize(t: TokenHash, now: Millis)
      requires t in tokens && tokens[t].entry in entries && entries[tokens[t].entry].status == EntryAdmitted
      modifies this`inflight, this`leases, this`users, this`tokens, this`log
      ensures View() == Close(old(View()), t, TokenConsumed, KeepUntil(old(tokens[t]), now))
    {
      var expires := tokens[t].expiry;
      Detach(t);
      Stamp(t, TokenConsumed);
      expires := if expires <= now then now + TOMBSTONE_MS else expires;
      leases := leases[TokenKey(t) := expires];
      Readd(old(leases), TokenKey(t), expires);
      SameStatus(entries, old(tokens[t]).entry);
      FieldsOfClose(old(View()), View(), t, TokenConsumed, expires);
    }

    /** The tail of the repair step, which writes the entry back to admitted. */
    method ConsumeOnRepair(t: TokenHash, now: Millis)
      requires t in tokens && tokens[t].entry in entries
      modifies this`inflight, this`leases, this`users, this`entries, this`tokens, this`log
      ensures View() == Close(old(View()), t, TokenConsumed, KeepUntil(old(tokens[t]), now))
    {
      var e, expires := tokens[t].entry, tokens[t].expiry;
      Detach(t);
      entries := entries[e := entries[e].(status := EntryAdmitted)];
      Stamp(t, TokenConsumed);
      expires := if expires <= now then now + TOMBSTONE_MS else expires;
      leases := leases[TokenKey(t) := expires];
      Readd(old(leases), TokenKey(t), expires);
      FieldsOfClose(old(View()), View(), t, TokenConsumed, expires);
    }

    // ---------------------------------------------------------------- join

    /** The cleanup of join: the stale ones among the first 64 of the queue. */
    method ExpireHead(now: Millis)
      requires clock == now
      requires forall i :: 0 <= i < |queue| ==> Waiting(entries, queue[i])
      requires forall i, j :: 0 <= i < j < |queue| ==> queue[i] != queue[j]
      modifies this
      ensures View() == LapseAll(old(View()), Head(old(queue), JOIN_CLEANUP)) && clock == now
    {
      ghost var start := View();
      var stale := Head(queue, JOIN_CLEANUP);
      ghost var rest := stale;
      for i := 0 to |stale|
        invariant clock == now && rest == stale[i..]
        invariant LapseAll(View(), rest) == LapseAll(start, stale)
        invariant forall j :: i <= j < |stale| ==> Waiting(entries, stale[j])
      {
        var e := stale[i];
        ghost var before := View();
        var expiry := if e in entries then entries[e].expiry else 0;
        if expiry > 0 && expiry <= now {
          ExpireEntry(e, now);
        }
        assert View() == LapseIfStale(before, e);
        rest := rest[1..];
      }
      assert rest == [];
    }

    /** The owner keeps an unexpired place, or a new entry goes to the tail of the queue. */
    method Enter(e: EntryId, owner: OwnerHash, fingerprint: Digest, trip: Trip, now: Millis) returns (reply: Reply)
      requires clock == now
      modifies this
      ensures Outcome(View(), reply) == RoomScripts.Enter(old(View()), e, owner, fingerprint, trip)
    {
      if owner in users {
        var existing := users[owner];
        if existing in entries && (entries[existing].status == EntryQueued || entries[existing].status == EntryAdmitted)
           && entries[existing].expiry > now {
          if entries[existing].fingerprint != fingerprint { return Refused(JoinConflict); }
          return DuplicateOf(existing, Position(queue, existing));
        }
        users := users - {owner};
      }
      assert View() == DropLink(old(View()), owner);
      if |queue| >= limits.maxQueue { return Refused(QueueFull); }
      Append(e, owner, fingerprint, trip, now);
      return JoinedAs(e, |queue|);
    }

    method Append(e: EntryId, owner: OwnerHash, fingerprint: Digest, trip: Trip, now: Millis)
      requires clock == now
      modifies this
      ensures View() == Enqueue(old(View()), e, owner, fingerprint, trip)
    {
      sequence := sequence + 1;
      var expires := now + limits.entryTtl;
      queue := queue + [e];
      entries := entries[e := Entry(EntryQueued, sequence, owner, fingerprint, trip, now, expires, None, None)];
      users := users[owner := e];
      log := log + [Joined(e, sequence)];
    }

    method Join(now: Millis, e: EntryId, owner: OwnerHash, fingerprint: Digest, trip: Trip) returns (reply: Reply)
      requires Valid() && Legal(View(), CallJoin(now, e, owner, fingerprint, trip))
      modifies this
      ensures Outcome(View(), reply) == RoomScripts.Join(old(View()), now, e, owner, fingerprint, trip)
      ensures Valid()
    {
      CallKeepsInv(View(), CallJoin(now, e, owner, fingerprint, trip));
      QueueWaits(View());
      var why := Check();
      if why.Some? { return Refused(why.value); }
      clock := now;
      ExpireHead(now);
      reply := Enter(e, owner, fingerprint, trip, now);
    }

    // ---------------------------------------------------------------- get and claim

    /** The part of get that follows the owner check. */
    method Look(now: Millis, e: EntryId, owner: OwnerHash, claim: bool) returns (reply: Reply)
      requires clock == now && Guard(View()).None? && e in entries && entries[e].owner == owner
      requires entries[e].token.Some? ==> entries[e].token.value in tokens && tokens[entries[e].token.value].entry == e
      requires entries[e].status == EntryAdmitted ==> e !in queue
      modifies this
      ensures Outcome(View(), reply) == RoomScripts.Get(old(View()), now, e, owner, claim)
    {
      var x := entries[e];
      assert Tick(View(), now) == View();
      if x.status == EntryQueued && x.expiry <= now {
        ExpireEntry(e, now);
        return Refused(HasExpired);
      }
      if x.status == EntryAdmitted && x.token.Some? && tokens[x.token.value].expiry <= now {
        ExpireOnGet(x.token.value, now);
        return Refused(HasExpired);
      }
      if claim {
        if x.status != EntryAdmitted || x.token.None? { return Refused(NotAdmitted); }
        var t := x.token.value;
        if tokens[t].delivered { return Refused(AlreadyDelivered); }
        tokens := tokens[t := tokens[t].(delivered := true)];
        log := log + [Claimed(t)];
        return Delivery(t);
      }
      return RoomScripts.View(e, x.status, Position(queue, e));
    }

    method Get(now: Millis, e: EntryId, owner: OwnerHash, claim: bool) returns (reply: Reply)
      requires Valid() && Legal(View(), CallGet(now, e, owner, claim))
      modifies this
      ensures Outcome(View(), reply) == RoomScripts.Get(old(View()), now, e, owner, claim)
      ensures Valid()
    {
      CallKeepsInv(View(), CallGet(now, e, owner, claim));
      assert EntryOk(View(), e);
      var why := Check();
      if why.Some? { return Refused(why.value); }
      if e !in entries { return Refused(NotFound); }
      if entries[e].owner != owner { return Refused(OwnerMismatch); }
      clock := now;
      reply := Look(now, e, owner, claim);
    }

    /** The preflight of a delivery changes nothing. */
    method InspectDelivery(now: Millis, e: EntryId, owner: OwnerHash) returns (reply: Reply)
      requires Valid()
      ensures reply == RoomScripts.InspectDelivery(View(), now, e, owner)
    {
      assert EntryOk(View(), e);
      var why := Check();
      if why.Some? { return Refused(why.value); }
      if e !in entries { return Refused(NotFound); }
      if entries[e].owner != owner { return Refused(OwnerMismatch); }
      if entries[e].status == EntryExpired { return Refused(HasExpired); }
      if entries[e].status != EntryAdmitted || entries[e].token.None? { return Refused(NotAdmitted); }
      var t := entries[e].token.value;
      if tokens[t].delivered { return Refused(AlreadyDelivered); }
      if tokens[t].expiry <= now { return Refused(HasExpired); }
      return Delivery(t);
    }

    // ---------------------------------------------------------------- cancel

    method CancelEntry(e: EntryId, owner: OwnerHash) returns (reply: Reply)
      requires Guard(View()).None? && CancelReady(View(), e) && entries[e].owner == owner
      modifies this
      ensures Outcome(View(), reply) == RoomScripts.Cancel(old(View()), e, owner)
    {
      var x := entries[e];
      if x.status == EntryCancelled || x.status == EntryExpired { return Refused(AlreadyTerminal); }
      if x.token.Some? {
        var t := x.token.value;
        if tokens[t].status == TokenProcessing {
          tokens := tokens[t := tokens[t].(cancelRequested := true)];
          return Refused(InProgress);
        }
        if Terminal(tokens[t].status) { return Refused(AlreadyTerminal); }
        CancelIssued(t);
        return CancelledKept;
      }
      queue := Without(queue, e);
      users := Unlinked(users, owner, e);
      leases := leases - {EntryKey(e)};
      entries := entries - {e};
      log := log + [Withdrawn(e)];
      return CancelledDeleted;
    }

    method Cancel(e: EntryId, owner: OwnerHash) returns (reply: Reply)
      requires Valid()
      modifies this
      ensures Outcome(View(), reply) == RoomScripts.Cancel(old(View()), e, owner)
      ensures Valid()
    {
      CallKeepsInv(View(), CallCancel(e, owner));
      ReadyToCancel(View(), e);
      var why := Check();
      if why.Some? { return Refused(why.value); }
      if e !in entries { return Refused(NotFound); }
      if entries[e].owner != owner { return Refused(OwnerMismatch); }
      reply := CancelEntry(e, owner);
    }

    // ---------------------------------------------------------------- acquire, release, finalize

    /** The lease must fit into what is left of the token's life. */
    method Lend(req: AcquireRequest, now: Millis) returns (reply: Reply)
      requires clock == now && req.token in tokens && tokens[req.token].entry in entries
      modifies this
      ensures Outcome(View(), reply) == GrantOrExpire(old(View()), req)
    {
      var t := req.token;
      var k := tokens[t];
      if k.expiry - now < limits.lease {
        ExpireOnAcquire(t, now);
        return Refused(HasExpired);
      }
      var b := if k.binding.None? then req.binding else k.binding.value;
      var deadline := now + limits.lease;
      tokens := tokens[t := k.(status := TokenProcessing, binding := Some(b), generation := k.generation + 1,
                               lease := Some(Lease(req.holder, deadline)))];
      leases := leases[TokenKey(t) := deadline];
      log := log + [Granted(t, k.owner, b, req.holder, k.generation + 1)];
      return Acquired(req.holder, k.generation + 1);
    }

    /** An expired lease is given back before the token is lent again. */
    method Recover(t: TokenHash)
      requires t in tokens && !tokens[t].cancelRequested
      modifies this
      ensures View() == Return(old(View()), t, Recovered(t))
    {
      tokens := tokens[t := tokens[t].(status := TokenIssued, lease := None)];
      leases := leases - {TokenKey(t)};
      log := log + [Recovered(t)];
    }

    method Borrow(now: Millis, req: AcquireRequest) returns (reply: Reply)
      requires clock == now && Guard(View()).None? && req.token in tokens && Binds(tokens[req.token], req)
      requires tokens[req.token].entry in entries
      requires tokens[req.token].lease.Some? <==> tokens[req.token].status == TokenProcessing
      modifies this
      ensures Outcome(View(), reply) == RoomScripts.Acquire(old(View()), now, req)
    {
      var t := req.token;
      var k := tokens[t];
      assert Tick(View(), now) == View();
      if k.status == TokenProcessing {
        var leaseExpires := k.lease.value.deadline;
        if leaseExpires > now { return RetryAfter(leaseExpires - now); }
        if k.cancelRequested {
          CancelOnAcquire(t, now);
          return Refused(AlreadyTerminal);
        }
        Recover(t);
        reply := Lend(req, now);
        return;
      }
      if k.status == TokenConsumed {
        if k.expiry <= now {
          ExpireOnAcquire(t, now);
          return Refused(HasExpired);
        }
        return ReplayAllowed;
      }
      if k.status != TokenIssued { return Refused(AlreadyTerminal); }
      reply := Lend(req, now);
    }

    method Acquire(now: Millis, req: AcquireRequest) returns (reply: Reply)
      requires Valid() && Legal(View(), CallAcquire(now, req))
      modifies this
      ensures Outcome(View(), reply) == RoomScripts.Acquire(old(View()), now, req)
      ensures Valid()
    {
      CallKeepsInv(View(), CallAcquire(now, req));
      assert TokenOk(View(), req.token);
      var why := Check();
      if why.Some? { return Refused(why.value); }
      if req.token !in tokens { return Refused(NotFound); }
      if !Binds(tokens[req.token], req) { return Refused(Mismatch); }
      clock := now;
      reply := Borrow(now, req);
    }

    /** The identity and lease checks of release and finalize. */
    method CheckLease(m: LeaseMutation) returns (why: Option<Refusal>)
      ensures why == LeaseCheck(View(), m)
    {
      why := Check();
      if why.Some? { return; }
      if m.token !in tokens { return Some(NotFound); }
      var k := tokens[m.token];
      if k.owner != m.owner || k.binding != Some(m.binding) { return Some(Mismatch); }
      if k.status != TokenProcessing || k.lease.None? || k.lease.value.holder != m.holder || k.generation != m.generation {
        return Some(StaleLease);
      }
      return None;
    }

    method Release(now: Millis, m: LeaseMutation, permanent: bool) returns (reply: Reply)
      requires Valid() && Legal(View(), CallRelease(now, m, permanent))
      modifies this
      ensures Outcome(View(), reply) == RoomScripts.Release(old(View()), now, m, permanent)
      ensures Valid()
    {
      CallKeepsInv(View(), CallRelease(now, m, permanent));
      assert TokenOk(View(), m.token);
      var why := CheckLease(m);
      if why.Some? { return Refused(why.value); }
      reply := GiveBack(now, m, permanent);
    }

    method GiveBack(now: Millis, m: LeaseMutation, permanent: bool) returns (reply: Reply)
      requires LeaseCheck(View(), m).None? && tokens[m.token].entry in entries
      modifies this
      ensures Outcome(View(), reply) == RoomScripts.Release(old(View()), now, m, permanent)
    {
      var t := m.token;
      var k := tokens[t];
      if permanent || k.cancelRequested {
        clock := now;
        log := log + [Settled(t, m.holder, m.generation)];
        CancelOnRelease(t, now);
        return CancelledToken;
      }
      leases := leases - {TokenKey(t)};
      tokens := tokens[t := k.(status := TokenIssued, lease := None, cancelRequested := false)];
      log := log + [Settled(t, m.holder, m.generation)];
      return Released;
    }

    method Finalize(now: Millis, m: LeaseMutation) returns (reply: Reply)
      requires Valid() && Legal(View(), CallFinalize(now, m))
      modifies this
      ensures Outcome(View(), reply) == RoomScripts.Finalize(old(View()), now, m)
      ensures Valid()
    {
      CallKeepsInv(View(), CallFinalize(now, m));
      assert TokenOk(View(), m.token);
      var why := CheckLease(m);
      if why.Some? { return Refused(why.value); }
      reply := Complete(now, m);
    }

    method Complete(now: Millis, m: LeaseMutation) returns (reply: Reply)
      requires LeaseCheck(View(), m).None? && tokens[m.token].entry in entries
      requires entries[tokens[m.token].entry].status == EntryAdmitted
      modifies this
      ensures Outcome(View(), reply) == RoomScripts.Finalize(old(View()), now, m)
    {
      clock := now;
      log := log + [Settled(m.token, m.holder, m.generation)];
      ConsumeOnFinalize(m.token, now);
      return Finalized;
    }

    /** The repair step. It does not look at the policy marker or at any lease. */
    method FinalizeCommitted(now: Millis, t: TokenHash, owner: OwnerHash, binding: Binding) returns (reply: Reply)
      requires Valid() && Legal(View(), CallRepair(now, t, owner, binding))
      modifies this
      ensures Outcome(View(), reply) == RoomScripts.FinalizeCommitted(old(View()), now, t, owner, binding)
      ensures Valid()
    {
      CallKeepsInv(View(), CallRepair(now, t, owner, binding));
      assert TokenOk(View(), t);
      if continuity != Some(version) { return Refused(ContinuityLost); }
      if t !in tokens { return Refused(NotFound); }
      var k := tokens[t];
      if k.owner != owner || k.binding != Some(binding) { return Refused(Mismatch); }
      clock := now;
      ConsumeOnRepair(t, now);
      return Finalized;
    }

    // ---------------------------------------------------------------- peek and the state scan

    method Peek(now: Millis, limit: int) returns (why: Option<Refusal>, result: seq<EntryId>)
      ensures why == Guard(View())
      ensures result == if why.Some? then [] else RoomPeek.Peek(View(), now, limit)
    {
      result := [];
      why := Check();
      if why.Some? { return; }
      result := PeekLoop(Head(queue, limit * 2), now, limit);
    }

    method PeekLoop(ids: seq<EntryId>, now: Millis, limit: int) returns (result: seq<EntryId>)
      ensures result == PeekFrom(View(), now, ids, limit)
    {
      result := [];
      ghost var v, rest := View(), ids;
      ghost var all := PeekFrom(v, now, ids, limit);
      for i := 0 to |ids|
        invariant rest == ids[i..] && PeekSoFar(v, now, rest, limit, result, all)
      {
        if |result| >= limit { break; }
        var e := ids[i];
        PeekOn(v, now, rest, limit, result, all);
        if e in entries && entries[e].status == EntryQueued && entries[e].expiry > now {
          result := result + [e];
        }
        rest := rest[1..];
      }
      PeekDone(v, now, rest, limit, result, all);
    }

    /** The pages that HSCAN and ZSCAN returned are walked; nothing is changed. */
    method InspectState(now: Millis, p: Pages)
      returns (ok: bool, duplicates: nat, mismatches: nat, expiredInflight: nat, expiredLeases: nat, owners: nat)
      requires PagesOf(View(), p)
      ensures ok == (continuity == Some(version))
      ensures ok ==> duplicates == Scan(DuplicateUsers, View(), p, now) && mismatches == Scan(InflightMismatch, View(), p, now)
      ensures ok ==> expiredInflight == Scan(ExpiredInflight, View(), p, now)
      ensures ok ==> expiredLeases == Scan(ExpiredLeases, View(), p, now) && owners == Scan(TokenOwnerMismatch, View(), p, now)
    {
      ok, duplicates, mismatches, expiredInflight, expiredLeases, owners := continuity == Some(version), 0, 0, 0, 0, 0;
      if !ok { return; }
      duplicates, mismatches, owners := InspectEntries(p.entries);
      var more;
      more, expiredInflight := InspectInflight(now, p.inflight);
      mismatches := mismatches + more;
      expiredLeases := InspectLeases(now, p.leases);
      IdleMeters(View(), p, now);
    }

    method InspectInflight(now: Millis, page: seq<TokenHash>) returns (mismatches: nat, expired: nat)
      requires forall t :: t in page ==> t in inflight
      ensures mismatches == InflightHits(InflightMismatch, View(), page, now)
      ensures expired == InflightHits(ExpiredInflight, View(), page, now)
    {
      mismatches, expired := 0, 0;
      for i := 0 to |page|
        invariant mismatches == InflightHits(InflightMismatch, View(), page[..i], now)
        invariant expired == InflightHits(ExpiredInflight, View(), page[..i], now)
      {
        var t := page[i];
        assert page[..i + 1][..i] == page[..i] && t in page;
        if t !in tokens || !Active(tokens[t].status) || tokens[t].expiry != inflight[t] { mismatches := mismatches + 1; }
        if inflight[t] <= now { expired := expired + 1; }
      }
      assert page[..|page|] == page;
    }

    method InspectLeases(now: Millis, page: seq<LeaseKey>) returns (expired: nat)
      requires forall k :: k in page ==> k in leases
      ensures expired == LeaseHits(ExpiredLeases, View(), page, now)
    {
      expired := 0;
      for i := 0 to |page|
        invariant expired == LeaseHits(ExpiredLeases, View(), page[..i], now)
      {
        var k := page[i];
        assert page[..i + 1][..i] == page[..i] && k in page;
        if leases[k] <= now && k.TokenKey? && k.token in tokens && tokens[k.token].status == TokenProcessing {
          expired := expired + 1;
        }
      }
      assert page[..|page|] == page;
    }

    method InspectEntries(page: seq<EntryId>) returns (duplicates: nat, mismatches: nat, owners: nat)
      requires forall e :: e in page ==> e in entries
      ensures duplicates == EntryHits(DuplicateUsers, View(), page)
      ensures mismatches == EntryHits(InflightMismatch, View(), page)
      ensures owners == EntryHits(TokenOwnerMismatch, View(), page)
    {
      duplicates, mismatches, owners := 0, 0, 0;
      for i := 0 to |page|
        invariant duplicates == EntryHits(DuplicateUsers, View(), page[..i])
        invariant mismatches == EntryHits(InflightMismatch, View(), page[..i])
        invariant owners == EntryHits(TokenOwnerMismatch, View(), page[..i])
      {
        var e := page[i];
        assert page[..i + 1][..i] == page[..i] && e in page;
        var d, m, o := InspectEntry(e);
        duplicates, mismatches, owners := duplicates + d, mismatches + m, owners + o;
      }
      assert page[..|page|] == page;
    }

    method InspectEntry(e: EntryId) returns (duplicate: nat, mismatch: nat, owner: nat)
      requires e in entries
      ensures duplicate == One(EntryHit(DuplicateUsers, View(), e))
      ensures mismatch == One(EntryHit(InflightMismatch, View(), e)) && owner == One(EntryHit(TokenOwnerMismatch, View(), e))
    {
      duplicate, mismatch, owner := 0, 0, 0;
      var x := entries[e];
      var linked := x.owner in users && users[x.owner] == e;
      if x.status == EntryQueued {
        if !linked { duplicate := 1; }
      } else if x.status == EntryAdmitted {
        if x.token.None? || x.token.value !in tokens || tokens[x.token.value].entry != e
           || tokens[x.token.value].owner != x.owner {
          owner := 1;
        } else if Active(tokens[x.token.value].status) {
          if !linked { duplicate := 1; }
          if x.token.value !in inflight { mismatch := 1; }
        } else if linked {
          duplicate := 1;
        }
      }
    }

    // ---------------------------------------------------------------- issue

    /** The two loops over the leases and the inflight set. The ghost results are the due
        members that the loops worked on. */
    method Drain(now: Millis, cleanup: int, retention: Millis)
      returns (recovered: nat, expired: nat, ghost lb: seq<LeaseKey>, ghost tb: seq<TokenHash>)
      requires clock == now && Consistent(View()) && 0 <= cleanup
      modifies this
      ensures DueBatch(old(leases), now, cleanup, lb)
      ensures var s1 := ReapLeases(old(View()), lb, retention);
              && DueBatch(s1.inflight, now, cleanup, tb)
              && View() == ExpireInflights(s1, tb, retention) && clock == now
      ensures recovered == RecoveredBy(old(View()), lb, retention)
      ensures expired == ExpiredBy(old(View()), lb, retention) + |tb|
    {
      ghost var s0 := View();
      var leaseBatch := RangeByScore(leases, now, cleanup);
      lb := leaseBatch;
      recovered, expired := ReapLoop(leaseBatch, now, retention);
      ReapLeasesPath(s0, leaseBatch, retention, false);
      PathConsistent(s0, View(), false);
      var tokenBatch := RangeByScore(inflight, now, cleanup);
      tb := tokenBatch;
      var more := ExpireLoop(tokenBatch, now, retention);
      expired := expired + more;
    }

    /** The three cleanup loops and the rate window. */
    method CleanUp(now: Millis, req: IssueRequest)
      returns (report: Report, ghost lb: seq<LeaseKey>, ghost tb: seq<TokenHash>)
      requires clock == now && Consistent(View()) && 0 <= req.cleanup
      modifies this
      ensures Batches(old(View()), req, lb, tb)
      ensures View() == Cleanup(old(View()), req, lb, tb) && clock == now
      ensures report == CleanupReport(old(View()), req, lb, tb)
    {
      var retention := if req.tokenTtl > TOMBSTONE_MS then req.tokenTtl else TOMBSTONE_MS;
      var recovered, expiredTokens;
      recovered, expiredTokens, lb, tb := Drain(now, req.cleanup, retention);
      var expiredEntries := LapseLoop(Head(queue, req.cleanup), now);
      SlideWindow(now);
      report := Report(recovered, expiredTokens, expiredEntries, []);
    }

    /** ZREMRANGEBYSCORE of the rate set. */
    method SlideWindow(now: Millis)
      requires clock == now
      modifies this`rate
      ensures View() == Prune(old(View()))
    {
      rate := map t | t in rate && now - 1000 < rate[t] :: rate[t];
    }

    method AdmitUpTo(now: Millis, req: IssueRequest, report0: Report) returns (report: Report)
      requires clock == now
      modifies this
      ensures var s := old(View()); var q := Head(s.queue, Capacity(s, req));
              && View() == AdmitAll(s, q, req.candidates, req.tokenTtl)
              && report == Report(report0.recovered, report0.expiredTokens,
                                  report0.expiredEntries + LapsedLate(s, q, req.candidates, req.tokenTtl),
                                  AdmittedBy(s, q, req.candidates, req.tokenTtl))
    {
      var rateRemaining := req.rate - |rate|;
      var inflightRemaining := req.maxInflight - |inflight|;
      var capacity := MinInt(|req.candidates|, MinInt(rateRemaining, inflightRemaining));
      if capacity <= 0 { return report0.(issued := []); }
      var lapsed, issued := AdmitLoop(Head(queue, capacity), req.candidates, now, req.tokenTtl);
      report := Report(report0.recovered, report0.expiredTokens, report0.expiredEntries + lapsed, issued);
    }

    method Issue(now: Millis, req: IssueRequest)
      returns (reply: Reply, report: Report, ghost lb: seq<LeaseKey>, ghost tb: seq<TokenHash>)
      requires Valid() && clock <= now && GoodRequest(View(), req)
      modifies this
      ensures Outcome(View(), reply) == RoomScripts.Issue(old(View()), now, req, lb, tb)
      ensures reply == Issued ==> Legal(old(View()), CallIssue(now, req, lb, tb))
      ensures reply == Issued ==> report == IssueReport(Tick(old(View()), now), req, lb, tb)
      ensures Valid()
    {
      report, lb, tb := Report(0, 0, 0, []), [], [];
      var why := Check();
      if why.Some? { return Refused(why.value), report, lb, tb; }
      ghost var start := View();
      TickPath(start, now, false);
      PathConsistent(start, Tick(start, now), false);
      clock := now;
      report, lb, tb := Work(now, req);
      CallKeepsInv(start, CallIssue(now, req, lb, tb));
      reply := Issued;
    }

    method Work(now: Millis, req: IssueRequest)
      returns (report: Report, ghost lb: seq<LeaseKey>, ghost tb: seq<TokenHash>)
      requires clock == now && Consistent(View()) && 0 <= req.cleanup
      modifies this
      ensures Batches(old(View()), req, lb, tb)
      ensures var m := Cleanup(old(View()), req, lb, tb);
              View() == AdmitAll(m, Head(m.queue, Capacity(m, req)), req.candidates, req.tokenTtl)
      ensures report == IssueReport(old(View()), req, lb, tb)
    {
      report, lb, tb := CleanUp(now, req);
      report := AdmitUpTo(now, req, report);
    }

    // ---------------------------------------------------------------- issue: the cleanup loops

    /** One due token of the leases set: a lease that ran out, or a tombstone. */
    method ReapToken(t: TokenHash, now: Millis, retention: Millis) returns (recovered: nat, expired: nat)
      requires clock == now && t in tokens && tokens[t].status != TokenIssued
      requires tokens[t].entry in entries && tokens[t].entry !in queue
      modifies this
      ensures View() == ReapLease(old(View()), TokenKey(t), retention)
      ensures recovered == One(Recovers(old(View()), TokenKey(t))) && expired == One(Expires(old(View()), TokenKey(t)))
    {
      recovered, expired := 0, 0;
      var k := tokens[t];
      Reaped(View(), t);
      leases := leases - {TokenKey(t)};
      if k.status == TokenProcessing {
        if k.expiry <= now {
          expired := 1;
          ExpireOnIssue(t, now, retention);
        } else if k.cancelRequested {
          CancelOnIssue(t, now);
        } else {
          Recover(t);
          recovered := 1;
        }
      } else {
        DeleteTokenState(t);
      }
    }

    method ReapLoop(batch: seq<LeaseKey>, now: Millis, retention: Millis) returns (recovered: nat, expired: nat)
      requires clock == now && Consistent(View())
      requires forall i :: 0 <= i < |batch| ==> batch[i] in leases
      requires forall i, j :: 0 <= i < j < |batch| ==> batch[i] != batch[j]
      modifies this
      ensures View() == ReapLeases(old(View()), batch, retention) && clock == now
      ensures recovered == RecoveredBy(old(View()), batch, retention)
      ensures expired == ExpiredBy(old(View()), batch, retention)
    {
      recovered, expired := 0, 0;
      ghost var start, rest := View(), batch;
      PathHere(start, false);
      for i := 0 to |batch|
        invariant clock == now && rest == batch[i..] && Path(start, View(), false)
        invariant ReapLeases(View(), rest, retention) == ReapLeases(start, batch, retention)
        invariant forall j :: i <= j < |batch| ==> batch[j] in leases
        invariant recovered + RecoveredBy(View(), rest, retention) == RecoveredBy(start, batch, retention)
        invariant expired + ExpiredBy(View(), rest, retention) == ExpiredBy(start, batch, retention)
      {
        ReapReady(start, View(), batch[i], retention);
        match batch[i] {
          case EntryKey(e) => BuryEntry(e);
          case TokenKey(t) =>
            var r, x := ReapToken(t, now, retention);
            recovered, expired := recovered + r, expired + x;
        }
        rest := rest[1..];
      }
    }

    /** The inflight tokens whose expiry has passed. */
    method ExpireLoop(batch: seq<TokenHash>, now: Millis, retention: Millis) returns (expired: nat)
      requires clock == now && Consistent(View())
      requires forall i :: 0 <= i < |batch| ==> batch[i] in inflight
      requires forall i, j :: 0 <= i < j < |batch| ==> batch[i] != batch[j]
      modifies this
      ensures View() == ExpireInflights(old(View()), batch, retention) && clock == now && expired == |batch|
    {
      expired := 0;
      ghost var start, rest := View(), batch;
      PathHere(start, false);
      for i := 0 to |batch|
        invariant clock == now && rest == batch[i..] && Path(start, View(), false) && expired == i
        invariant ExpireInflights(View(), rest, retention) == ExpireInflights(start, batch, retention)
        invariant forall j :: i <= j < |batch| ==> batch[j] in inflight
      {
        ExpireReady(start, View(), batch[i], retention);
        var x := ExpireOne(batch[i], now, retention);
        expired := expired + x;
        rest := rest[1..];
      }
    }

    method ExpireOne(t: TokenHash, now: Millis, retention: Millis) returns (expired: nat)
      requires clock == now && t in tokens && tokens[t].entry in entries && tokens[t].entry !in queue
      modifies this
      ensures View() == ExpireInflight(old(View()), t, retention) && expired == One(Active(old(tokens[t].status)))
    {
      expired := 0;
      if Active(tokens[t].status) {
        expired := 1;
        ExpireOnIssue(t, now, retention);
      } else {
        DeleteTokenState(t);
      }
    }

    /** The expired ones at the head of the queue. */
    method LapseLoop(head: seq<EntryId>, now: Millis) returns (expired: nat)
      requires clock == now
      modifies this
      ensures View() == LapseAll(old(View()), head) && clock == now && expired == LapsedBy(old(View()), head)
    {
      expired := 0;
      ghost var start, rest := View(), head;
      for i := 0 to |head|
        invariant clock == now && rest == head[i..] && LapseAll(View(), rest) == LapseAll(start, head)
        invariant expired + LapsedBy(View(), rest) == LapsedBy(start, head)
      {
        var e := head[i];
        if e in entries && entries[e].status == EntryQueued && entries[e].expiry <= now {
          ExpireEntry(e, now);
          expired := expired + 1;
        }
        rest := rest[1..];
      }
    }

    // ---------------------------------------------------------------- issue: the admission loop

    /** A queued entry gets its token. */
    method AdmitEntry(c: Candidate, now: Millis)
      requires clock == now && c.entry in entries
      modifies this
      ensures View() == Admit(old(View()), c)
    {
      var x := entries[c.entry];
      var retention := if c.expiresAt > x.expiry then c.expiresAt else x.expiry;
      tokens := tokens[c.token := Token(TokenIssued, c.entry, x.owner, x.fingerprint, x.trip, c.keyId, c.nonce,
                                        c.issuedAt, c.expiresAt, false, 0, None, None, false)];
      entries := entries[c.entry := x.(status := EntryAdmitted, token := Some(c.token), admittedAt := Some(now),
                                       expiry := retention)];
      queue := Without(queue, c.entry);
      inflight := inflight[c.token := c.expiresAt];
      rate := rate[c.token := now];
      log := log + [Admitted(c.entry, c.token, now)];
    }

    /** One turn of the admission loop. */
    method AdmitTurn(c: Candidate, now: Millis, tokenTtl: Millis) returns (lapsed: nat, issued: seq<EntryId>)
      requires clock == now
      modifies this
      ensures View() == AdmitOne(old(View()), c, tokenTtl)
      ensures lapsed == One(Stale(old(View()), c.entry))
      ensures issued == if Accepted(old(View()), c, tokenTtl) then [c.entry] else []
    {
      lapsed, issued := 0, [];
      var e := c.entry;
      if e in entries && entries[e].status == EntryQueued && entries[e].expiry <= now {
        ExpireEntry(e, now);
        lapsed := 1;
      } else if e in entries && entries[e].status == EntryQueued
                && c.issuedAt <= now + 5000 && now < c.expiresAt && c.expiresAt - c.issuedAt <= tokenTtl + 1000
                && c.owner == entries[e].owner && c.fingerprint == entries[e].fingerprint && c.token !in tokens {
        AdmitEntry(c, now);
        issued := [e];
      }
    }

    /** The head of the queue against the candidates, until one does not line up. */
    method AdmitLoop(head: seq<EntryId>, cs: seq<Candidate>, now: Millis, tokenTtl: Millis)
      returns (lapsed: nat, issued: seq<EntryId>)
      requires clock == now && |head| <= |cs|
      modifies this
      ensures View() == AdmitAll(old(View()), head, cs, tokenTtl)
      ensures lapsed == LapsedLate(old(View()), head, cs, tokenTtl)
      ensures issued == AdmittedBy(old(View()), head, cs, tokenTtl)
    {
      lapsed, issued := 0, [];
      ghost var start, q, rest := View(), head, cs;
      for i := 0 to |head|
        invariant clock == now && q == head[i..] && rest == cs[i..]
        invariant AdmitAll(View(), q, rest, tokenTtl) == AdmitAll(start, head, cs, tokenTtl)
        invariant lapsed + LapsedLate(View(), q, rest, tokenTtl) == LapsedLate(start, head, cs, tokenTtl)
        invariant issued + AdmittedBy(View(), q, rest, tokenTtl) == AdmittedBy(start, head, cs, tokenTtl)
      {
        if cs[i].entry != head[i] { break; }
        AdmittedTurn(View(), q, rest, tokenTtl, issued);
        var l, a := AdmitTurn(cs[i], now, tokenTtl);
        lapsed, issued := lapsed + l, issued + a;
        q, rest := q[1..], rest[1..];
      }
      AdmittedEnd(View(), q, rest, tokenTtl, issued);
    }

    /** An entry tombstone comes due. */
    method BuryEntry(e: EntryId)
      requires e !in queue && e in entries
      modifies this
      ensures View() == Bury(old(View()), e)
    {
      leases := leases - {EntryKey(e)};
      users := Unlinked(users, entries[e].owner, e);
      WithoutAbsent(queue, e);
      queue := Without(queue, e);
      entries := entries - {e};
    }
  }

  /** Removing the member first makes no difference to what follows. */
  lemma Reaped(s: Room, t: TokenHash)
    requires t in s.tokens
    ensures var r := s.(leases := s.leases - {TokenKey(t)});
            && (forall status, keepUntil :: Close(r, t, status, keepUntil) == Close(s, t, status, keepUntil))
            && Delete(r, t) == Delete(s, t) && Return(r, t, Recovered(t)) == Return(s, t, Recovered(t))
  {
    var r := s.(leases := s.leases - {TokenKey(t)});
    forall status, keepUntil ensures Close(r, t, status, keepUntil) == Close(s, t, status, keepUntil) {
      Readd(s.leases, TokenKey(t), keepUntil);
    }
    assert (s.leases - {TokenKey(t)}) - {TokenKey(t)} == s.leases - {TokenKey(t)};
  }

  predicate Reapable(s: Room, key: LeaseKey) {
    match key
    case EntryKey(e) => e !in s.queue && e in s.entries
    case TokenKey(t) =>
      && t in s.tokens && s.tokens[t].status != TokenIssued
      && s.tokens[t].entry in s.entries && s.tokens[t].entry !in s.queue
  }

  /** What the lease loop knows when it comes to a member. */
  lemma ReapReady(start: Room, s: Room, key: LeaseKey, retention: Millis)
    requires Consistent(start) && Path(start, s, false) && key in s.leases
    ensures Reapable(s, key)
    ensures Path(start, ReapLease(s, key, retention), false) && ReapLease(s, key, retention).clock == s.clock
    ensures forall other :: other in s.leases && other != key ==> other in ReapLease(s, key, retention).leases
  {
    forall other | other in s.leases && other != key ensures other in ReapLease(s, key, retention).leases {
      ReapLeaseOther(s, key, retention, other);
    }
    PathConsistent(start, s, false);
    ReapLeasePath(s, key, retention, false);
    PathJoin(start, s, ReapLease(s, key, retention), false);
    ReapKnows(s, key);
  }

  lemma ReapKnows(s: Room, key: LeaseKey)
    requires AllOk(s) && key in s.leases
    ensures Reapable(s, key)
  {
    match key
    case EntryKey(e) => assert EntryOk(s, e);
    case TokenKey(t) => assert TokenOk(s, t) && EntryOk(s, s.tokens[t].entry);
  }

  /** What the expiry loop knows when it comes to a token. */
  lemma ExpireReady(start: Room, s: Room, t: TokenHash, retention: Millis)
    requires Consistent(start) && Path(start, s, false) && t in s.inflight
    ensures t in s.tokens && Active(s.tokens[t].status)
    ensures s.tokens[t].entry in s.entries && s.tokens[t].entry !in s.queue
    ensures var r := ExpireInflight(s, t, retention);
            && Path(start, r, false) && r.clock == s.clock
            && forall other :: other in s.inflight && other != t ==> other in r.inflight
  {
    PathConsistent(start, s, false);
    assert TokenOk(s, t) && EntryOk(s, s.tokens[t].entry);
    ExpireInflightPath(s, t, retention, false);
    ExpireInflightOther(s, t, retention);
    PathJoin(start, s, ExpireInflight(s, t, retention), false);
  }
}
