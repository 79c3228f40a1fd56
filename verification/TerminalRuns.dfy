/**
 Runs in which a terminal token changes its status: consumed becomes expired, expired becomes
 consumed, cancelled becomes consumed.
 */
module TerminalRuns {
  import opened RoomState
  import opened RoomSteps
  import opened RoomScripts
  import opened RoomRuns
  import opened RoomTheorems
  import opened RoomExample

  const BOOKING := Binding(1, 2)

  function Ask(): AcquireRequest { AcquireRequest(100, 10, 0, TRIP, BOOKING, 9) }

  function Mine(): LeaseMutation { LeaseMutation(100, 10, BOOKING, 9, 1) }

  /** Token 100 is leased, consumed, then expired; or leased and cancelled. */
  function Leased(): Room { Grant(Admitted1(), 100, BOOKING, 9, 5_000) }

  function Consumed(): Room { Close(RoomSteps.Settle(Leased(), 100), 100, TokenConsumed, 6_000) }

  function Expired(): Room { Close(Tick(Consumed(), 6_000), 100, TokenExpired, 66_000) }

  function Cancelled(): Room { Close(RoomSteps.Settle(Leased(), 100), 100, TokenCancelled, 6_000) }

  function Repair(now: Millis): Call { CallRepair(now, 100, 10, BOOKING) }

  lemma LeasedByAcquire()
    ensures Legal(Admitted1(), CallAcquire(0, Ask())) && Run1(Admitted1(), CallAcquire(0, Ask())).room == Leased()
    ensures Leased().tokens[100].lease == Some(Lease(9, 5_000)) && Leased().tokens[100].generation == 1
  {
    var s := Admitted1();
    assert Tick(s, 0) == s && s.tokens[100].expiry == 6_000;
  }

  lemma ConsumedByFinalize()
    ensures Legal(Leased(), CallFinalize(0, Mine())) && Run1(Leased(), CallFinalize(0, Mine())).room == Consumed()
    ensures Consumed().tokens[100].status == TokenConsumed && Consumed().tokens[100].binding == Some(BOOKING)
  {
    LeasedByAcquire();
    assert Tick(Leased(), 0) == Leased();
  }

  lemma CancelledByRelease()
    ensures Legal(Leased(), CallRelease(0, Mine(), true)) && Run1(Leased(), CallRelease(0, Mine(), true)).room == Cancelled()
    ensures Cancelled().tokens[100].status == TokenCancelled && Cancelled().tokens[100].binding == Some(BOOKING)
  {
    LeasedByAcquire();
    assert Tick(Leased(), 0) == Leased();
  }

  lemma ExpiredByAcquire()
    ensures Legal(Consumed(), CallAcquire(6_000, Ask())) && Run1(Consumed(), CallAcquire(6_000, Ask())).room == Expired()
    ensures Expired().tokens[100].status == TokenExpired && Expired().tokens[100].binding == Some(BOOKING)
  {
    ConsumedByFinalize();
    assert Consumed().tokens[100].expiry == 6_000;
  }

  // ------------------------------------------------------------------ the runs

  function LeasedStates(): seq<Room> { [Start(), OneWaits(), Admitted1(), Leased()] }

  function LeasedCalls(): seq<Call> { [JoinFirst(), IssueOne(), CallAcquire(0, Ask())] }

  lemma LeasedRun()
    ensures IsRun(LeasedStates(), LeasedCalls())
  {
    FirstRun();
    FirstIssue();
    RunLonger([Start(), OneWaits()], [JoinFirst()], IssueOne(), Admitted1());
    LeasedByAcquire();
    RunLonger([Start(), OneWaits()] + [Admitted1()], [JoinFirst()] + [IssueOne()], CallAcquire(0, Ask()), Leased());
    assert [Start(), OneWaits()] + [Admitted1()] + [Leased()] == LeasedStates();
    assert [JoinFirst()] + [IssueOne()] + [CallAcquire(0, Ask())] == LeasedCalls();
  }

  lemma ConsumedRun()
    ensures IsRun(LeasedStates() + [Consumed()] + [Expired()],
                  LeasedCalls() + [CallFinalize(0, Mine())] + [CallAcquire(6_000, Ask())])
  {
    LeasedRun();
    ConsumedByFinalize();
    RunLonger(LeasedStates(), LeasedCalls(), CallFinalize(0, Mine()), Consumed());
    ExpiredByAcquire();
    RunLonger(LeasedStates() + [Consumed()], LeasedCalls() + [CallFinalize(0, Mine())], CallAcquire(6_000, Ask()), Expired());
  }

  /** A repair of a token with the booking consumes it, whatever terminal status it has. */
  lemma Repaired(s: Room, now: Millis)
    requires 100 in s.tokens && s.tokens[100].owner == 10 && s.tokens[100].binding == Some(BOOKING)
    requires s.continuity == Some(s.version) && s.clock <= now
    ensures Legal(s, Repair(now)) && 100 in Run1(s, Repair(now)).room.tokens
    ensures Run1(s, Repair(now)).room.tokens[100].status == TokenConsumed
  {
  }

  /** Consumed, then expired by an acquire at the expiry, then consumed again by a repair. */
  lemma ConsumedExpiresRun() returns (states: seq<Room>, calls: seq<Call>)
    ensures IsRun(states, calls) && |calls| == 6
    ensures 100 in states[4].tokens && states[4].tokens[100].status == TokenConsumed
    ensures 100 in states[5].tokens && states[5].tokens[100].status == TokenExpired
    ensures 100 in states[6].tokens && states[6].tokens[100].status == TokenConsumed
  {
    ConsumedRun();
    ConsumedByFinalize();
    ExpiredByAcquire();
    states := LeasedStates() + [Consumed()] + [Expired()];
    calls := LeasedCalls() + [CallFinalize(0, Mine())] + [CallAcquire(6_000, Ask())];
    Repaired(Expired(), 6_000);
    var last := Run1(Expired(), Repair(6_000)).room;
    RunLonger(states, calls, Repair(6_000), last);
    states, calls := states + [last], calls + [Repair(6_000)];
  }

  /** Cancelled by a permanent failure, then consumed by a repair. */
  lemma CancelledConsumedRun() returns (states: seq<Room>, calls: seq<Call>)
    ensures IsRun(states, calls) && |calls| == 5
    ensures 100 in states[4].tokens && states[4].tokens[100].status == TokenCancelled
    ensures 100 in states[5].tokens && states[5].tokens[100].status == TokenConsumed
  {
    LeasedRun();
    CancelledByRelease();
    RunLonger(LeasedStates(), LeasedCalls(), CallRelease(0, Mine(), true), Cancelled());
    states, calls := LeasedStates() + [Cancelled()], LeasedCalls() + [CallRelease(0, Mine(), true)];
    Repaired(Cancelled(), 0);
    var last := Run1(Cancelled(), Repair(0)).room;
    RunLonger(states, calls, Repair(0), last);
    states, calls := states + [last], calls + [Repair(0)];
  }
}
