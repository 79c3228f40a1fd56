/**
 Delivery of a bearer: a read-only preflight, then a claim. Any calls may come in between.
 */
module RoomDelivery {
  import opened RoomState
  import opened RoomSteps
  import opened RoomHistory
  import opened RoomOrder
  import opened RoomLife
  import opened RoomScripts
  import opened RoomRuns
  import opened RoomTheorems

  /** The preflight announces a token exactly when a claim at that moment would hand it out. */
  lemma PreflightPredictsClaim(s: Room, now: Millis, e: EntryId, o: OwnerHash, t: TokenHash)
    ensures InspectDelivery(s, now, e, o) == Delivery(t) <==> Get(s, now, e, o, true).reply == Delivery(t)
  {
  }

  /** When a later claim succeeds, it is for the announced token, and everything its bearer is
      computed from is as the preflight read it: the two reconstructions agree. */
  lemma ClaimMatchesPreflight(states: seq<Room>, calls: seq<Call>, i: nat, j: nat, e: EntryId, o: OwnerHash, now: Millis, t: TokenHash)
    requires IsRun(states, calls) && i <= j < |calls| && InspectDelivery(states[i], now, e, o) == Delivery(t)
    requires calls[j].CallGet? && calls[j].entry == e && calls[j].claim && Run1(states[j], calls[j]).reply.Delivery?
    ensures Run1(states[j], calls[j]).reply == Delivery(t)
    ensures t in states[i].tokens && t in states[j].tokens
    ensures var k, n := states[i].tokens[t], states[j].tokens[t];
            && n.keyId == k.keyId && n.nonce == k.nonce && n.issuedAt == k.issuedAt && n.expiry == k.expiry
            && n.entry == k.entry && n.owner == k.owner && n.fingerprint == k.fingerprint
  {
    RunInv(states, calls, i);
    RunPath(states, calls, i, j);
    assert EntryTale(states[i], e) && TokenTale(states[i], t);
    PathIdentity(states[i], states[j], e, false);
    PathEvolves(states[i], states[j], t, false);
  }
}
