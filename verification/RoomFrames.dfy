/**
 What a call changes and what it leaves alone, written out field by field. The lemmas about the
 answers of the scripts are stated with these and not with the scripts' own steps.
 */
module RoomFrames {
  import opened RoomState

  /** Both version markers are there and show this generation. */
  predicate Open(s: Room) {
    s.policyMarker == Some(s.version) && s.continuity == Some(s.version)
  }

  predicate LinkedTo(s: Room, o: OwnerHash, e: EntryId) {
    o in s.users && s.users[o] == e
  }

  /** A waiting entry whose time is up. */
  predicate RanOut(s: Room, e: EntryId) {
    e in s.entries && s.entries[e].status == EntryQueued && s.entries[e].expiry <= s.clock
  }

  /** p is the place of e in the queue, counted from one, or -1. */
  ghost predicate PlaceIn(q: seq<EntryId>, e: EntryId, p: int) {
    if e in q then 1 <= p <= |q| && q[p - 1] == e else p == -1
  }

  /** The limits, the markers, the sequence, the rate window and the queue are as before. */
  ghost predicate SameFrame(s: Room, r: Room) {
    && r.version == s.version && r.limits == s.limits && r.policyMarker == s.policyMarker && r.continuity == s.continuity
    && r.sequence == s.sequence && r.rate == s.rate && r.queue == s.queue
  }

  /** Nothing but the time has changed. */
  ghost predicate OnlyTime(s: Room, now: Millis, r: Room) {
    && SameFrame(s, r) && r.clock == now && r.entries == s.entries && r.users == s.users && r.tokens == s.tokens
    && r.inflight == s.inflight && r.leases == s.leases && r.log == s.log
  }

  /** Only token t, its entry and its owner's link are touched. */
  ghost predicate OnlyAt(s: Room, r: Room, t: TokenHash, e: EntryId, o: OwnerHash) {
    && SameFrame(s, r)
    && r.tokens - {t} == s.tokens - {t} && r.inflight - {t} == s.inflight - {t}
    && r.leases - {TokenKey(t)} == s.leases - {TokenKey(t)}
    && r.entries - {e} == s.entries - {e} && r.users - {o} == s.users - {o}
  }

  /** The link of the owner is gone if it pointed at e; otherwise it is as it was. */
  ghost predicate LinkGone(s: Room, r: Room, o: OwnerHash, e: EntryId) {
    && !LinkedTo(r, o, e)
    && forall f :: f != e ==> (LinkedTo(r, o, f) <==> LinkedTo(s, o, f))
  }

  /** Token t has become terminal: token and entry show it, its lease and a pending cancel are
      gone, it no longer counts as inflight, its owner is free to join again, and a tombstone
      is kept to the given time. */
  ghost predicate Ended(s: Room, r: Room, t: TokenHash, status: TokenStatus, shown: EntryStatus, keepUntil: Millis)
    requires t in s.tokens && s.tokens[t].entry in s.entries
  {
    var k := s.tokens[t];
    && OnlyAt(s, r, t, k.entry, k.owner)
    && t in r.tokens && r.tokens[t] == k.(status := status, lease := None, cancelRequested := false)
    && t !in r.inflight
    && k.entry in r.entries && r.entries[k.entry] == s.entries[k.entry].(status := shown)
    && LinkGone(s, r, k.owner, k.entry)
    && TokenKey(t) in r.leases && r.leases[TokenKey(t)] == keepUntil
  }

  /** A tombstone is kept to the expiry, or for a minute when that has passed. */
  function Tombstone(expiry: Millis, now: Millis): Millis {
    if now < expiry then expiry else now + 60000
  }
}
