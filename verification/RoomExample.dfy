/**
 Small concrete rooms, reached by script calls. The first use: why the worker must build a
 batch at one instant. Two entries wait, the candidate of the first carries an expiry that
 has passed, the candidate of the second is good; the issue call passes over the first and
 admits the second.
 */
module RoomExample {
  import opened RoomState
  import opened RoomSteps
  import opened RoomOrder
  import opened RoomLife
  import opened RoomScripts
  import opened RoomPaths
  import opened RoomRuns
  import opened RoomTheorems

  const SMALL := Limits(10, 10, 10, 6_000, 5_000, 60_000)
  const TRIP := Trip(0, 1, 0, 1)

  function Start(): Room { EmptyRoom(1, SMALL, 0) }

  /** Entry 1 of owner 10 waits; then entry 2 of owner 20 too. */
  function OneWaits(): Room { Enqueue(Start(), 1, 10, 0, TRIP) }

  function TwoWait(): Room { Enqueue(OneWaits(), 2, 20, 0, TRIP) }

  function JoinFirst(): Call { CallJoin(0, 1, 10, 0, TRIP) }

  function JoinSecond(): Call { CallJoin(0, 2, 20, 0, TRIP) }

  lemma FirstJoin()
    ensures Legal(Start(), JoinFirst()) && Run1(Start(), JoinFirst()).room == OneWaits()
    ensures OneWaits().queue == [1] && OneWaits().users == map[10 := 1] && OneWaits().log == [Joined(1, 1)]
  {
    var s := Start();
    assert Head(s.queue, JOIN_CLEANUP) == [] && Tick(s, 0) == s && DropLink(s, 10) == s;
  }

  lemma SecondJoin()
    ensures Legal(OneWaits(), JoinSecond()) && Run1(OneWaits(), JoinSecond()).room == TwoWait()
    ensures TwoWait().queue == [1, 2] && TwoWait().entries[1].expiry == 60_000 && TwoWait().entries[2].expiry == 60_000
  {
    FirstJoin();
    var s := OneWaits();
    assert Head(s.queue, JOIN_CLEANUP) == [1] && Tick(s, 0) == s;
    assert LapseAll(s, [1]) == LapseAll(LapseIfStale(s, 1), []) == s;
    assert DropLink(s, 20) == s;
  }

  // ------------------------------------------------------------------ a batch that overtakes

  /** One candidate that has expired and one that is good. */
  function Batch(): seq<Candidate> {
    [Candidate(1, 100, 0, 0, 0, 0, 10, 0), Candidate(2, 200, 0, 0, 0, 6_000, 20, 0)]
  }

  function Mixed(): IssueRequest { IssueRequest(10, 10, 6_000, 1, Batch()) }

  /** Nothing is due, so the sweep changes nothing. */
  lemma NothingToSweep()
    ensures Legal(TwoWait(), CallIssue(0, Mixed(), [], [])) && Swept(TwoWait(), 0, Mixed(), [], []) == TwoWait()
  {
    SecondJoin();
    NobodyLapses();
    MixedLegal();
    NothingDue(TwoWait(), Mixed());
  }

  lemma NobodyLapses()
    ensures LapseAll(TwoWait(), Head(TwoWait().queue, 1)) == TwoWait() && Prune(TwoWait()) == TwoWait()
  {
    SecondJoin();
    var s := TwoWait();
    assert Head(s.queue, 1) == [1] && LapseIfStale(s, 1) == s;
    assert LapseAll(s, [1]) == LapseAll(LapseIfStale(s, 1), []);
  }

  lemma MixedLegal()
    ensures Legal(TwoWait(), CallIssue(0, Mixed(), [], []))
  {
    SecondJoin();
  }

  /** A sweep without due members only looks at the head of the queue. */
  lemma NothingDue(s: Room, req: IssueRequest)
    requires LapseAll(s, Head(s.queue, req.cleanup)) == s && Prune(s) == s
    ensures Swept(s, s.clock, req, [], []) == s
  {
    assert Tick(s, s.clock) == s;
  }

  /** The second candidate is accepted behind the first, which is rejected. */
  lemma BatchSkips()
    ensures !SkipFree(TwoWait(), Head(TwoWait().queue, Capacity(TwoWait(), Mixed())), Batch(), 6_000)
  {
    var s, cs := TwoWait(), Batch();
    SecondJoin();
    assert Head(s.queue, Capacity(s, Mixed())) == [1, 2];
    assert Rejected(s, cs[0], 6_000);
    assert [1, 2][1..] == [2] && cs[1..][0] == cs[1];
    assert Accepted(s, cs[1], 6_000);
    assert !NoneAccepted(s, [2], cs[1..], 6_000);
  }

  lemma FirstRun()
    ensures IsRun([Start(), OneWaits()], [JoinFirst()])
  {
    FirstJoin();
    assert IsRun([Start()], []);
    RunLonger([Start()], [], JoinFirst(), OneWaits());
    assert [Start()] + [OneWaits()] == [Start(), OneWaits()] && [] + [JoinFirst()] == [JoinFirst()];
  }

  lemma SecondRun()
    ensures IsRun([Start(), OneWaits(), TwoWait()], [JoinFirst(), JoinSecond()])
  {
    FirstRun();
    SecondJoin();
    RunLonger([Start(), OneWaits()], [JoinFirst()], JoinSecond(), TwoWait());
    assert [Start(), OneWaits()] + [TwoWait()] == [Start(), OneWaits(), TwoWait()];
    assert [JoinFirst()] + [JoinSecond()] == [JoinFirst(), JoinSecond()];
  }

  /** A run of two joins and one issue call whose candidates were not built at one instant: the
      second to join is admitted while the first still waits. */
  lemma MixedBatchOvertakes() returns (states: seq<Room>, calls: seq<Call>)
    ensures IsRun(states, calls) && |calls| == 3 && Fifo(states[2].log) && !Fifo(states[3].log)
  {
    var c := CallIssue(0, Mixed(), [], []);
    SecondRun();
    NothingToSweep();
    RunLonger([Start(), OneWaits(), TwoWait()], [JoinFirst(), JoinSecond()], c, Run1(TwoWait(), c).room);
    states := [Start(), OneWaits(), TwoWait()] + [Run1(TwoWait(), c).room];
    calls := [JoinFirst(), JoinSecond()] + [c];
    Overtaken();
  }

  lemma Overtaken()
    ensures Fifo(TwoWait().log) && !Fifo(Run1(TwoWait(), CallIssue(0, Mixed(), [], [])).room.log)
  {
    SecondRun();
    AdmissionIsFifo([Start(), OneWaits(), TwoWait()], [JoinFirst(), JoinSecond()], 2);
    RunInv([Start(), OneWaits(), TwoWait()], [JoinFirst(), JoinSecond()], 2);
    NothingToSweep();
    BatchSkips();
    IssueFifoExactly(TwoWait(), 0, Mixed(), [], []);
  }

  // ------------------------------------------------------------------ a token

  function Good(): Candidate { Candidate(1, 100, 0, 0, 0, 6_000, 10, 0) }

  function Request(): IssueRequest { IssueRequest(10, 10, 6_000, 1, [Good()]) }

  function IssueOne(): Call { CallIssue(0, Request(), [], []) }

  /** Entry 1 has token 100, which expires at 6000. */
  function Admitted1(): Room { Admit(OneWaits(), Good()) }

  /** Nothing is due. */
  lemma NothingToSweepFirst()
    ensures Swept(OneWaits(), 0, Request(), [], []) == OneWaits()
  {
    FirstJoin();
    var s := OneWaits();
    assert Head(s.queue, 1) == [1] && LapseIfStale(s, 1) == s && Prune(s) == s;
    assert LapseAll(s, [1]) == LapseAll(LapseIfStale(s, 1), []);
    NothingDue(s, Request());
  }

  lemma GoodIsAdmitted()
    ensures AdmitAll(OneWaits(), [1], [Good()], 6_000) == Admitted1()
  {
    FirstJoin();
    var s := OneWaits();
    assert AdmitOne(s, Good(), 6_000) == Admitted1();
    assert AdmitAll(s, [1], [Good()], 6_000) == AdmitAll(AdmitOne(s, Good(), 6_000), [], [], 6_000);
  }

  lemma IssueOneLegal()
    ensures Legal(OneWaits(), IssueOne())
  {
    FirstJoin();
  }

  lemma FirstIssue()
    ensures Legal(OneWaits(), IssueOne()) && Run1(OneWaits(), IssueOne()) == Outcome(Admitted1(), Issued)
  {
    IssueOneLegal();
    NothingToSweepFirst();
    GoodIsAdmitted();
    FirstCapacity();
    IssueIs(OneWaits(), 0, Request(), OneWaits(), [1]);
  }

  lemma FirstCapacity()
    ensures Head(OneWaits().queue, Capacity(OneWaits(), Request())) == [1]
  {
    FirstJoin();
  }

  /** An issue call whose sweep leads to m. */
  lemma IssueIs(s: Room, now: Millis, req: IssueRequest, m: Room, q: seq<EntryId>)
    requires Guard(s).None? && Swept(s, now, req, [], []) == m && Head(m.queue, Capacity(m, req)) == q
    ensures Issue(s, now, req, [], []) == Outcome(AdmitAll(m, q, req.candidates, req.tokenTtl), Issued)
  {
  }
}
