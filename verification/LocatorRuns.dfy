/**
 The two ways to lose the locator of an inflight token, as runs from an empty generation: a
 bearer presented before the token is issued, and a repair script that runs while the
 continuity marker is missing.
 */
module LocatorRuns {
  import opened RoomState
  import opened RoomSteps
  import opened RoomScripts
  import opened RoomRuns
  import opened RoomExample
  import opened Locators

  const UNTIL: Millis := 311_000
  const BOOKING := Binding(0, 0)

  function Empty(): Sys { Sys(1, Start(), map[], map[], map[], {}) }

  function Waiting(): Sys { Sys(1, OneWaits(), map[], map[], map[], {}) }

  function Begun(): Sys { Sys(1, OneWaits(), map[], map[7 := Writing([Good()], 0)], map[], {100}) }

  /** The worker has written the locator and not yet called issue. */
  function Ahead(): Sys {
    Sys(1, OneWaits(), map[100 := Locator(1, UNTIL)], map[7 := Writing([Good()], 1)], map[], {100})
  }

  function ActsAhead(): seq<Act> { [Other(JoinFirst()), Begin(7, 0, [Good()]), Write(7, 0)] }

  function StatesAhead(): seq<Sys> { [Empty(), Waiting(), Begun(), Ahead()] }

  lemma JoinAct()
    ensures Can(Empty(), Other(JoinFirst())) && Next(Empty(), Other(JoinFirst())) == Waiting()
  {
    FirstJoin();
  }

  lemma BeginAct()
    ensures Can(Waiting(), Begin(7, 0, [Good()])) && Next(Waiting(), Begin(7, 0, [Good()])) == Begun()
  {
    var cs := [Good()];
    assert (set j | 0 <= j < |cs| :: cs[j].token) == {100} by { assert cs[0].token == 100; }
    assert Tick(OneWaits(), 0) == OneWaits();
  }

  lemma WriteAct()
    ensures Can(Begun(), Write(7, 0)) && Next(Begun(), Write(7, 0)) == Ahead()
  {
    assert Tick(OneWaits(), 0) == OneWaits();
  }

  lemma RunAhead()
    ensures SysRun(StatesAhead(), ActsAhead())
  {
    assert SysRun([Empty()], []);
    JoinAct();
    RunLonger([Empty()], [], Other(JoinFirst()), Waiting());
    BeginAct();
    RunLonger([Empty()] + [Waiting()], [] + [Other(JoinFirst())], Begin(7, 0, [Good()]), Begun());
    WriteAct();
    RunLonger([Empty()] + [Waiting()] + [Begun()], [] + [Other(JoinFirst())] + [Begin(7, 0, [Good()])], Write(7, 0), Ahead());
    assert [Empty()] + [Waiting()] + [Begun()] + [Ahead()] == StatesAhead();
    assert [] + [Other(JoinFirst())] + [Begin(7, 0, [Good()])] + [Write(7, 0)] == ActsAhead();
  }

  // ------------------------------------------------------------------ presenting, finishing, dropping

  function Presenting(): Act { Present(5, 0, 100, 10, BOOKING, false) }

  function With(s: Sys, p: Repair): Sys { s.(repairs := map[5 := p]) }

  /** From a state in which token 100 has its live locator and no repair runs: a repair whose
      script finds no token or no marker erases the locator and changes nothing else. */
  lemma ErasingRepair(states: seq<Sys>, acts: seq<Act>, s: Sys) returns (more: seq<Sys>, all: seq<Act>)
    requires SysRun(states, acts) && states[|acts|] == s
    requires s.scope == 1 && s.room.clock == 0 && s.locators == map[100 := Locator(1, UNTIL)] && s.repairs == map[]
    requires FinalizeCommitted(s.room, 0, 100, 10, BOOKING).reply == Refused(NotFound)
          || FinalizeCommitted(s.room, 0, 100, 10, BOOKING).reply == Refused(ContinuityLost)
    ensures SysRun(more, all) && |more| == |states| + 3 && acts < all && states < more
    ensures more[|all|] == s.(locators := map[])
  {
    var s1 := With(s, Located(100, 10, BOOKING));
    assert Tick(s.room, 0) == s.room;
    assert Next(s, Presenting()) == s1;
    RunLonger(states, acts, Presenting(), s1);
    var s2 := With(s, Dropping(100));
    assert s1.repairs[5 := Dropping(100)] == map[5 := Dropping(100)];
    assert Next(s1, Finish(5, 0)) == s2;
    RunLonger(states + [s1], acts + [Presenting()], Finish(5, 0), s2);
    var s3 := s.(locators := map[]);
    assert s2.locators - {100} == map[] && s2.repairs - {5} == map[];
    assert Next(s2, Drop(5)) == s3;
    RunLonger(states + [s1] + [s2], acts + [Presenting()] + [Finish(5, 0)], Drop(5), s3);
    more, all := states + [s1] + [s2] + [s3], acts + [Presenting()] + [Finish(5, 0)] + [Drop(5)];
  }

  /** The issue call whose answer is lost. */
  function Admitting(): Act { Admit(7, 0, Request(), [], [], false) }

  lemma AdmitAct(s: Sys)
    requires s.room == OneWaits() && s.workers == map[7 := Writing([Good()], 1)]
    ensures Can(s, Admitting()) && Next(s, Admitting()) == s.(room := Admitted1(), workers := map[])
  {
    FirstIssue();
    assert s.workers - {7} == map[];
  }

  // ------------------------------------------------------------------ the two runs

  /** The bearer is presented before the token is issued: the locator is erased, and then the
      token is issued without one. */
  lemma EarlyBearerRun() returns (states: seq<Sys>, acts: seq<Act>)
    ensures SysRun(states, acts)
    ensures ActiveNow(states[|acts|], 100) && 100 !in states[|acts|].locators
  {
    RunAhead();
    var gone := Ahead().(locators := map[]);
    states, acts := ErasingRepair(StatesAhead(), ActsAhead(), Ahead());
    AdmitAct(gone);
    var last := gone.(room := Admitted1(), workers := map[]);
    RunLonger(states, acts, Admitting(), last);
    states, acts := states + [last], acts + [Admitting()];
  }

  function Unmarking(): Act { Other(CallMarkers(Some(1), None)) }

  function IssuedAhead(): Sys { Ahead().(room := Admitted1(), workers := map[]) }

  lemma RunIssued()
    ensures SysRun(StatesAhead() + [IssuedAhead()], ActsAhead() + [Admitting()])
  {
    RunAhead();
    AdmitAct(Ahead());
    RunLonger(StatesAhead(), ActsAhead(), Admitting(), IssuedAhead());
  }

  /** The token is issued, the continuity marker gets lost, and a repair script runs: it reports
      the loss, and the locator of the issued token is erased. */
  lemma LostMarkerRun() returns (states: seq<Sys>, acts: seq<Act>)
    ensures SysRun(states, acts)
    ensures ActiveNow(states[|acts|], 100) && 100 !in states[|acts|].locators
  {
    RunIssued();
    states, acts := StatesAhead() + [IssuedAhead()], ActsAhead() + [Admitting()];
    var lost := IssuedAhead().(room := Remark(Admitted1(), Some(1), None));
    RunLonger(states, acts, Unmarking(), lost);
    states, acts := ErasingRepair(states + [lost], acts + [Unmarking()], lost);
  }
}
