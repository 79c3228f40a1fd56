/**
 Order and rate: what the log says about entries leaving the queue and about how
 fast they are admitted, and that every step keeps it.
 */
module RoomOrder {
  import opened RoomState
  import opened RoomSteps
  import opened RoomInvariant
  import opened RoomHistory

  // ------------------------------------------------------------------ entries

  /** Nobody leaves the queue twice. */
  ghost predicate LeavesOnce(log: seq<Event>, e: EntryId) {
    forall i, j :: 0 <= i < j < |log| ==> !Leaves(log[i], e) || !Leaves(log[j], e)
  }

  /** An entry that joined is in the queue or has left it, never both. */
  ghost predicate EntryTale(s: Room, e: EntryId) {
    && LeavesOnce(s.log, e)
    && (e in s.entries ==> Seen(s.log, e))
    && (Seen(s.log, e) ==> e in s.queue || Left(s.log, e))
    && (e in s.queue ==> !Left(s.log, e))
    && (Left(s.log, e) ==> Seen(s.log, e))
    && (forall ev :: ev in s.log && ev.Joined? && ev.entry == e ==>
          ev.seqNo <= s.sequence && (e in s.entries ==> s.entries[e].seqNo == ev.seqNo))
  }

  predicate JoinsOrLeaves(ev: Event, e: EntryId) {
    Leaves(ev, e) || (ev.Joined? && ev.entry == e)
  }

  lemma EntryTaleKept(s: Room, r: Room, more: seq<Event>, e: EntryId)
    requires EntryTale(s, e)
    requires r.log == s.log + more && forall ev :: ev in more ==> !JoinsOrLeaves(ev, e)
    requires e in r.entries ==> e in s.entries && r.entries[e].seqNo == s.entries[e].seqNo
    requires (e in r.queue <==> e in s.queue) && s.sequence <= r.sequence
    ensures EntryTale(r, e)
  {
    forall i | |s.log| <= i < |r.log| ensures !JoinsOrLeaves(r.log[i], e) {
      assert r.log[i] in more;
    }
    if Seen(s.log, e) {
      var ev :| ev in s.log && ev.Joined? && ev.entry == e;
      assert ev in r.log;
    }
    if Left(s.log, e) {
      var ev :| ev in s.log && Leaves(ev, e);
      assert ev in r.log;
    }
  }

  /** An entry that leaves the queue. */
  lemma EntryTaleLeft(s: Room, r: Room, ev: Event, e: EntryId)
    requires EntryTale(s, e) && e in s.queue && e in s.entries && Leaves(ev, e)
    requires r.log == s.log + [ev] && e !in r.queue && r.sequence == s.sequence
    requires e in r.entries ==> r.entries[e].seqNo == s.entries[e].seqNo
    ensures EntryTale(r, e)
  {
    forall i | 0 <= i < |s.log| ensures !Leaves(s.log[i], e) { assert s.log[i] in s.log; }
    var j :| j in s.log && j.Joined? && j.entry == e;
    assert j in r.log;
    assert ev in r.log;
  }

  lemma EntryTaleJoined(s: Room, e: EntryId, o: OwnerHash, f: Digest, trip: Trip)
    requires EntryTale(s, e) && e !in s.queue && Enabled(s, DoEnqueue(e, o, f, trip), false)
    ensures EntryTale(Enqueue(s, e, o, f, trip), e)
  {
    var r := Enqueue(s, e, o, f, trip);
    var ev := Joined(e, s.sequence + 1);
    assert ev in r.log;
    assert !Seen(s.log, e);
    forall i | 0 <= i < |s.log| ensures !Leaves(s.log[i], e) { assert s.log[i] in s.log; }
  }

  /** The entry a step moves into or out of the queue. */
  predicate Moved(a: Step, e: EntryId) {
    match a
    case DoLapse(f, _) => f == e
    case DoWithdraw(f) => f == e
    case DoEnqueue(f, _, _, _) => f == e
    case DoAdmit(c) => c.entry == e
    case _ => false
  }

  /** The entry, if it is still there, was there with the same number. */
  ghost predicate SameNumber(s: Room, r: Room, e: EntryId) {
    e in r.entries ==> e in s.entries && r.entries[e].seqNo == s.entries[e].seqNo
  }

  lemma CloseSameNumber(s: Room, t: TokenHash, status: TokenStatus, keepUntil: Millis, e: EntryId)
    requires t in s.tokens
    ensures SameNumber(s, Close(s, t, status, keepUntil), e) && SameNumber(s, Delete(s, t), e)
  {
  }

  lemma StepEntryOther(s: Room, a: Step, e: EntryId)
    requires Enabled(s, a, false) && !Moved(a, e)
    ensures SameNumber(s, Do(s, a), e)
  {
    match a
    case DoClose(t, status, keepUntil) => CloseSameNumber(s, t, status, keepUntil, e);
    case DoSettleClose(t, status, keepUntil) => CloseSameNumber(Settle(s, t), t, status, keepUntil, e);
    case DoDelete(t) => CloseSameNumber(s, t, TokenExpired, 0, e);
    case DoLapse(_, _) =>
    case DoWithdraw(_) =>
    case DoEnqueue(_, _, _, _) =>
    case DoAdmit(_) =>
    case DoBury(_) =>
    case _ => assert Do(s, a).entries == s.entries;
  }

  lemma StepQueueOther(s: Room, a: Step, e: EntryId)
    requires Enabled(s, a, false) && !Moved(a, e)
    ensures e in Do(s, a).queue <==> e in s.queue
    ensures s.sequence <= Do(s, a).sequence
  {
    match a
    case DoLapse(f, _) => assert Do(s, a).queue == Without(s.queue, f);
    case DoWithdraw(f) => assert Do(s, a).queue == Without(s.queue, f);
    case DoAdmit(c) => assert Do(s, a).queue == Without(s.queue, c.entry);
    case DoEnqueue(f, _, _, _) => assert Do(s, a).queue == s.queue + [f];
    case _ => assert Do(s, a).queue == s.queue;
  }

  lemma AddedElsewhere(s: Room, a: Step, e: EntryId)
    requires Enabled(s, a, false) && !Moved(a, e)
    ensures forall ev :: ev in Added(s, a) ==> !JoinsOrLeaves(ev, e)
  {
    forall ev | ev in Added(s, a) ensures !JoinsOrLeaves(ev, e) {
      match a
      case _ =>
    }
  }

  lemma StepEntryTale(s: Room, a: Step, e: EntryId)
    requires EntryOk(s, e) && EntryTale(s, e) && Enabled(s, a, false)
    ensures EntryTale(Do(s, a), e)
  {
    StepLog(s, a);
    if Moved(a, e) {
      match a
      case DoLapse(_, _) => EntryTaleLeft(s, Do(s, a), Lapsed(e), e);
      case DoWithdraw(_) => EntryTaleLeft(s, Do(s, a), Withdrawn(e), e);
      case DoEnqueue(_, o, f, trip) => EntryTaleJoined(s, e, o, f, trip);
      case DoAdmit(c) => EntryTaleLeft(s, Do(s, a), Admitted(e, c.token, s.clock), e);
    } else {
      StepEntryOther(s, a, e);
      StepQueueOther(s, a, e);
      AddedElsewhere(s, a, e);
      EntryTaleKept(s, Do(s, a), Added(s, a), e);
    }
  }

  // ------------------------------------------------------------------ join order

  /** Sequence numbers grow in join order. */
  ghost predicate JoinOrder(log: seq<Event>) {
    forall i, j :: 0 <= i < j < |log| && log[i].Joined? && log[j].Joined? ==>
      log[i].seqNo < log[j].seqNo && log[i].entry != log[j].entry
  }

  lemma StepJoinOrder(s: Room, a: Step)
    requires JoinOrder(s.log) && (forall e :: EntryTale(s, e)) && Enabled(s, a, false)
    ensures JoinOrder(Do(s, a).log)
  {
    StepLog(s, a);
    var r := Do(s, a);
    forall i, j | 0 <= i < j < |r.log| && r.log[i].Joined? && r.log[j].Joined?
      ensures r.log[i].seqNo < r.log[j].seqNo && r.log[i].entry != r.log[j].entry
    {
      if j >= |s.log| {
        assert a.DoEnqueue? by { AddedJoin(s, a, r.log[j]); }
        assert s.log[i] in s.log;
        assert EntryTale(s, s.log[i].entry);
      }
    }
  }

  lemma AddedJoin(s: Room, a: Step, ev: Event)
    requires Enabled(s, a, false) && ev in Added(s, a) && ev.Joined?
    ensures a.DoEnqueue? && ev == Joined(a.entry, s.sequence + 1)
  {
    match a
    case _ =>
  }

  // ------------------------------------------------------------------ first in, first out

  /** Whenever an entry is admitted, everybody who joined before it has already left. */
  ghost predicate Fifo(log: seq<Event>) {
    forall i, j, k :: AdmitsLater(log, i, j, k) ==> LeftBy(log, k, log[i].entry)
  }

  /** Line k admits the entry of line j, which joined after the entry of line i. */
  ghost predicate AdmitsLater(log: seq<Event>, i: int, j: int, k: int) {
    && 0 <= i < j < |log| && 0 <= k < |log|
    && log[i].Joined? && log[j].Joined? && log[k].Admitted? && log[k].entry == log[j].entry
  }

  /** The entry has left according to the first n lines. */
  ghost predicate LeftBy(log: seq<Event>, n: int, e: EntryId) {
    exists m :: 0 <= m < n && m < |log| && Leaves(log[m], e)
  }

  /** Nobody in the queue has a smaller sequence number than its head. */
  lemma EarlierNotQueued(s: Room, f: EntryId)
    requires AllOk(s) && QueueOrdered(s) && s.queue != [] && s.queue[0] in s.entries
    requires f in s.entries ==> s.entries[f].seqNo < s.entries[s.queue[0]].seqNo
    ensures f !in s.queue
  {
    forall n | 0 <= n < |s.queue| ensures s.queue[n] != f {
      assert EntryOk(s, s.queue[n]);
      if 0 < n { assert Before(s, s.queue[0], s.queue[n]); }
    }
  }

  /** Admitting the head of the queue: whoever joined earlier is gone. */
  lemma HeadIsFirst(s: Room, i: int, j: int) returns (m: int)
    requires AllOk(s) && QueueOrdered(s) && (forall e :: EntryTale(s, e)) && JoinOrder(s.log)
    requires 0 <= i < j < |s.log| && s.log[i].Joined? && s.log[j].Joined?
    requires s.queue != [] && s.log[j].entry == s.queue[0]
    ensures 0 <= m < |s.log| && Leaves(s.log[m], s.log[i].entry)
  {
    var f, e := s.log[i].entry, s.queue[0];
    assert s.log[i] in s.log && s.log[j] in s.log;
    assert EntryTale(s, f) && EntryTale(s, e) && EntryOk(s, e);
    EarlierNotQueued(s, f);
    var ev :| ev in s.log && Leaves(ev, f);
    m :| 0 <= m < |s.log| && s.log[m] == ev;
  }

  /** Everybody who joined before e has left. */
  ghost predicate Cleared(log: seq<Event>, e: EntryId) {
    forall i, j :: 0 <= i < j < |log| && log[i].Joined? && log[j].Joined? && log[j].entry == e ==>
      LeftBy(log, |log|, log[i].entry)
  }

  lemma LeftStays(past: seq<Event>, log: seq<Event>, n: int, e: EntryId)
    requires past <= log && LeftBy(past, n, e) && n <= |past|
    ensures LeftBy(log, n, e)
  {
    var m :| 0 <= m < n && m < |past| && Leaves(past[m], e);
    assert log[m] == past[m];
  }

  /** The entry that is admitted is the first of those who wait. */
  lemma FifoAppend(past: seq<Event>, ev: Event)
    requires Fifo(past) && ev.Admitted? && Cleared(past, ev.entry)
    ensures Fifo(past + [ev])
  {
    var log := past + [ev];
    forall i, j, k | AdmitsLater(log, i, j, k) ensures LeftBy(log, k, log[i].entry) {
      assert past[i] == log[i] && past[j] == log[j];
      if k < |past| {
        assert AdmitsLater(past, i, j, k);
      }
      LeftStays(past, log, k, past[i].entry);
    }
  }

  lemma HeadIsCleared(s: Room)
    requires AllOk(s) && QueueOrdered(s) && (forall e :: EntryTale(s, e)) && JoinOrder(s.log) && s.queue != []
    ensures Cleared(s.log, s.queue[0])
  {
    forall i, j | 0 <= i < j < |s.log| && s.log[i].Joined? && s.log[j].Joined? && s.log[j].entry == s.queue[0]
      ensures LeftBy(s.log, |s.log|, s.log[i].entry)
    {
      var m := HeadIsFirst(s, i, j);
    }
  }

  lemma FifoAdmit(s: Room, c: Candidate)
    requires AllOk(s) && QueueOrdered(s) && (forall e :: EntryTale(s, e)) && JoinOrder(s.log) && Fifo(s.log)
    requires c.entry in s.entries && s.queue != [] && c.entry == s.queue[0]
    ensures Fifo(Admit(s, c).log)
  {
    HeadIsCleared(s);
    FifoAppend(s.log, Admitted(c.entry, c.token, s.clock));
  }

  /** Lines that admit nobody keep the order; a join must be of a fresh entry. */
  lemma FifoKept(log: seq<Event>, more: seq<Event>)
    requires Fifo(log)
    requires forall k :: 0 <= k < |more| ==> !more[k].Admitted?
    requires forall i, k :: 0 <= i < |more| && more[i].Joined? && 0 <= k < |log| ==> !Leaves(log[k], more[i].entry)
    ensures Fifo(log + more)
  {
    var all := log + more;
    forall k | |log| <= k < |all| ensures !all[k].Admitted? { assert all[k] == more[k - |log|]; }
    forall j, k | |log| <= j < |all| && all[j].Joined? && 0 <= k < |log| ensures !Leaves(all[k], all[j].entry) {
      assert all[j] == more[j - |log|];
    }
    forall i, j, k | AdmitsLater(all, i, j, k) ensures LeftBy(all, k, all[i].entry) {
      assert k < |log| && all[k] == log[k];
      assert Leaves(all[k], all[j].entry);
      assert j < |log| && all[j] == log[j] && all[i] == log[i];
      assert AdmitsLater(log, i, j, k);
      LeftStays(log, all, k, log[i].entry);
    }
  }

  lemma StepFifo(s: Room, a: Step)
    requires AllOk(s) && QueueOrdered(s) && (forall e :: EntryTale(s, e)) && JoinOrder(s.log) && Fifo(s.log)
    requires Enabled(s, a, true) && Enabled(s, a, false)
    ensures Fifo(Do(s, a).log)
  {
    if a.DoAdmit? {
      FifoAdmit(s, a.candidate);
    } else {
      StepLog(s, a);
      var more := Added(s, a);
      forall k | 0 <= k < |more| ensures !more[k].Admitted? {
        if more[k].Admitted? { AddedAdmit(s, a, more[k]); }
      }
      forall i, k | 0 <= i < |more| && more[i].Joined? && 0 <= k < |s.log| ensures !Leaves(s.log[k], more[i].entry) {
        AddedJoin(s, a, more[i]);
        NotBefore(s, a.entry, k);
      }
      FifoKept(s.log, more);
    }
  }

  /** A fresh entry has not been admitted yet. */
  lemma NotBefore(s: Room, e: EntryId, k: int)
    requires FreshEntry(s.log, e) && EntryTale(s, e)
    requires 0 <= k < |s.log|
    ensures !Leaves(s.log[k], e)
  {
    assert s.log[k] in s.log;
  }

  lemma AddedAdmit(s: Room, a: Step, ev: Event)
    requires Enabled(s, a, false) && ev in Added(s, a) && ev.Admitted?
    ensures a.DoAdmit? && Added(s, a) == [ev] && ev == Admitted(a.candidate.entry, a.candidate.token, s.clock)
  {
    match a
    case _ =>
  }

  // ------------------------------------------------------------------ sliding-window rate

  /** How many admissions happened in the half-open window (lo, hi]. */
  ghost function CountIn(log: seq<Event>, lo: Millis, hi: Millis): nat {
    if log == [] then 0
    else
      var ev := log[|log| - 1];
      CountIn(log[..|log| - 1], lo, hi) + (if ev.Admitted? && lo < ev.at <= hi then 1 else 0)
  }

  lemma CountGrows(log: seq<Event>, ev: Event, lo: Millis, hi: Millis)
    ensures CountIn(log + [ev], lo, hi)
         == CountIn(log, lo, hi) + (if ev.Admitted? && lo < ev.at <= hi then 1 else 0)
  {
    assert (log + [ev])[..|log|] == log;
  }

  ghost predicate DistinctTokens(log: seq<Event>) {
    forall i, j :: 0 <= i < j < |log| && log[i].Admitted? && log[j].Admitted? ==> log[i].token != log[j].token
  }

  /** Distinct tokens of a window are at most as many as any set that holds them. */
  lemma {:induction false} CountBound(log: seq<Event>, lo: Millis, hi: Millis, held: set<TokenHash>)
    requires DistinctTokens(log)
    requires forall i :: 0 <= i < |log| && log[i].Admitted? && lo < log[i].at <= hi ==> log[i].token in held
    ensures CountIn(log, lo, hi) <= |held|
  {
    if log != [] {
      var n := |log| - 1;
      var ev := log[n];
      if ev.Admitted? && lo < ev.at <= hi {
        CountBound(log[..n], lo, hi, held - {ev.token});
      } else {
        CountBound(log[..n], lo, hi, held);
      }
    }
  }

  /** A narrower window holds no more. */
  lemma {:induction false} CountNarrow(log: seq<Event>, lo: Millis, lo': Millis, hi: Millis, hi': Millis)
    requires lo <= lo'
    requires forall i :: 0 <= i < |log| && log[i].Admitted? && lo' < log[i].at <= hi' ==> log[i].at <= hi
    ensures CountIn(log, lo', hi') <= CountIn(log, lo, hi)
  {
    if log != [] {
      CountNarrow(log[..|log| - 1], lo, lo', hi, hi');
    }
  }

  /** Admissions in the second that ends at T. */
  ghost function PerSecond(log: seq<Event>, T: Millis): nat {
    CountIn(log, T - 1000, T)
  }

  /** In no second of the run were more entries admitted than the limit. */
  ghost predicate RateLimited(log: seq<Event>, limit: int) {
    forall T: Millis :: PerSecond(log, T) <= limit
  }

  /** The rate set holds every admission of the last second. */
  ghost predicate RateTale(s: Room) {
    && DistinctTokens(s.log)
    && RateLimited(s.log, s.limits.rate)
    && (forall ev :: ev in s.log && ev.Admitted? ==>
          ev.at <= s.clock && (s.clock - 1000 < ev.at ==> ev.token in s.rate && s.rate[ev.token] == ev.at))
  }

  /** The second that ends now: all its admissions are in the rate set. */
  lemma RateNow(s: Room, c: Candidate)
    requires RateTale(s) && c.entry in s.entries && FreshToken(s.log, c.token) && |s.rate| < s.limits.rate
    ensures DistinctTokens(Admit(s, c).log)
    ensures PerSecond(Admit(s, c).log, s.clock) <= s.limits.rate
  {
    var r := Admit(s, c);
    forall i | 0 <= i < |s.log| && s.log[i].Admitted?
      ensures s.log[i].token != c.token && (s.clock - 1000 < s.log[i].at ==> s.log[i].token in s.rate)
    {
      assert s.log[i] in s.log;
    }
    CountBound(r.log, s.clock - 1000, s.clock, r.rate.Keys);
    GrownCard(s.rate, c.token, s.clock);
  }

  lemma RateAdmit(s: Room, c: Candidate)
    requires RateTale(s) && c.entry in s.entries && FreshToken(s.log, c.token) && |s.rate| < s.limits.rate
    ensures RateTale(Admit(s, c))
  {
    var r := Admit(s, c);
    var ev := Admitted(c.entry, c.token, s.clock);
    RateNow(s, c);
    forall T: Millis ensures PerSecond(r.log, T) <= r.limits.rate {
      if T < s.clock {
        assert PerSecond(s.log, T) <= s.limits.rate;
        CountGrows(s.log, ev, T - 1000, T);
      } else {
        forall i | 0 <= i < |r.log| && r.log[i].Admitted? ensures r.log[i].at <= s.clock {
          if i < |s.log| { assert s.log[i] in s.log; }
        }
        CountNarrow(r.log, s.clock - 1000, T - 1000, s.clock, T);
      }
    }
    forall x | x in r.log && x.Admitted?
      ensures x.at <= r.clock && (r.clock - 1000 < x.at ==> x.token in r.rate && r.rate[x.token] == x.at)
    {
      if x != ev {
        assert x in s.log;
        assert x.token != c.token;
      }
    }
  }

  /** A step that admits nobody. */
  lemma {:induction false} CountSame(log: seq<Event>, more: seq<Event>, lo: Millis, hi: Millis)
    requires forall ev :: ev in more ==> !ev.Admitted?
    ensures CountIn(log + more, lo, hi) == CountIn(log, lo, hi)
    decreases |more|
  {
    if more == [] {
      assert log + more == log;
    } else {
      var n := |more| - 1;
      CountSame(log, more[..n], lo, hi);
      CountGrows(log + more[..n], more[n], lo, hi);
      assert log + more == log + more[..n] + [more[n]];
    }
  }

  lemma RateKept(s: Room, r: Room, more: seq<Event>)
    requires RateTale(s) && r.log == s.log + more && forall ev :: ev in more ==> !ev.Admitted?
    requires s.clock <= r.clock && r.limits == s.limits
    requires forall t :: t in s.rate && r.clock - 1000 < s.rate[t] ==> t in r.rate && r.rate[t] == s.rate[t]
    ensures RateTale(r)
  {
    forall T: Millis ensures PerSecond(r.log, T) <= r.limits.rate {
      assert PerSecond(s.log, T) <= s.limits.rate;
      CountSame(s.log, more, T - 1000, T);
    }
    forall i | |s.log| <= i < |r.log| ensures !r.log[i].Admitted? { assert r.log[i] in more; }
  }

  lemma StepRate(s: Room, a: Step)
    requires Consistent(s) && RateTale(s) && Enabled(s, a, false)
    ensures RateTale(Do(s, a))
  {
    StepLog(s, a);
    if a.DoAdmit? {
      RateAdmit(s, a.candidate);
    } else {
      forall ev | ev in Added(s, a) ensures !ev.Admitted? {
        if ev.Admitted? { AddedAdmit(s, a, ev); }
      }
      StepRateFrame(s, a);
      RateKept(s, Do(s, a), Added(s, a));
    }
  }

  /** Rate records within the window are kept. */
  ghost predicate WindowKept(s: Room, r: Room) {
    forall t :: t in s.rate && r.clock - 1000 < s.rate[t] ==> t in r.rate && r.rate[t] == s.rate[t]
  }

  lemma StepRateFrame(s: Room, a: Step)
    requires Enabled(s, a, false) && !a.DoAdmit?
    ensures s.clock <= Do(s, a).clock && Do(s, a).limits == s.limits && WindowKept(s, Do(s, a))
  {
    match a
    case DoTick(now) =>
    case DoPrune => PruneKeeps(s);
    case DoAdmit(_) =>
    case _ => OtherRate(s, a);
  }

  lemma PruneKeeps(s: Room)
    ensures WindowKept(s, Prune(s))
  {
  }

  ghost predicate SameRate(s: Room, r: Room) {
    r.rate == s.rate && r.clock == s.clock && r.limits == s.limits
  }

  lemma OtherRate(s: Room, a: Step)
    requires Enabled(s, a, false) && !a.DoTick? && !a.DoPrune? && !a.DoAdmit?
    ensures SameRate(s, Do(s, a))
  {
    match a
    case DoLapse(e, keepUntil) => assert SameRate(s, Lapse(s, e, keepUntil));
    case DoWithdraw(e) => assert SameRate(s, Withdraw(s, e));
    case DoEnqueue(e, o, f, trip) => assert SameRate(s, Enqueue(s, e, o, f, trip));
    case DoClose(t, status, keepUntil) => assert SameRate(s, Close(s, t, status, keepUntil));
    case DoSettleClose(t, status, keepUntil) => assert SameRate(s, Close(Settle(s, t), t, status, keepUntil));
    case DoDelete(t) => assert SameRate(s, Delete(s, t));
    case DoTick(_) =>
    case DoPrune =>
    case DoAdmit(_) =>
    case _ =>
  }
}
