/**
 What the log of a waiting room says, and how it agrees with the tables. The log
 predicates are the whole-run properties; every step keeps them.
 */
module RoomHistory {
  import opened RoomState
  import opened RoomSteps
  import opened RoomInvariant

  // ------------------------------------------------------------------ reading the log

  /** The event is about the token, after its admission. */
  predicate Concerns(ev: Event, t: TokenHash) {
    (ev.Granted? || ev.Settled? || ev.Recovered? || ev.Closed? || ev.Claimed?) && ev.token == t
  }

  /** The event starts or ends a lease of the token. */
  predicate TouchesLease(ev: Event, t: TokenHash) {
    (ev.Granted? || ev.Settled? || ev.Recovered? || ev.Closed?) && ev.token == t
  }

  predicate Mentions(ev: Event, t: TokenHash) {
    Concerns(ev, t) || (ev.Admitted? && ev.token == t)
  }

  /** The event takes the entry out of the queue. */
  predicate Leaves(ev: Event, e: EntryId) {
    (ev.Lapsed? || ev.Withdrawn? || ev.Admitted?) && ev.entry == e
  }

  ghost predicate Known(log: seq<Event>, t: TokenHash) {
    exists ev :: ev in log && ev.Admitted? && ev.token == t
  }

  ghost predicate Seen(log: seq<Event>, e: EntryId) {
    exists ev :: ev in log && ev.Joined? && ev.entry == e
  }

  ghost predicate Left(log: seq<Event>, e: EntryId) {
    exists ev :: ev in log && Leaves(ev, e)
  }

  ghost predicate IsGrant(ev: Event, t: TokenHash, holder: LeaseOwner, generation: int) {
    ev.Granted? && ev.token == t && ev.holder == holder && ev.generation == generation
  }

  /** Just before position n, the token's latest lease is the given one and nothing ended it. */
  ghost predicate LeaseOpen(log: seq<Event>, n: int, t: TokenHash, holder: LeaseOwner, generation: int) {
    exists j :: 0 <= j < n <= |log| && IsGrant(log[j], t, holder, generation)
             && forall m :: j < m < n ==> !TouchesLease(log[m], t)
  }

  // ------------------------------------------------------------------ tokens

  /** Grants of one token: generations strictly increase, owner and booking never change. */
  ghost predicate GrantsOrdered(log: seq<Event>, t: TokenHash) {
    forall i, j :: 0 <= i < j < |log| && log[i].Granted? && log[j].Granted? && log[i].token == t && log[j].token == t ==>
      log[i].generation < log[j].generation && log[i].owner == log[j].owner && log[i].binding == log[j].binding
  }

  /** A lease is released or finalized only while it is the latest one and still open. */
  ghost predicate Fenced(log: seq<Event>, t: TokenHash) {
    forall k :: 0 <= k < |log| && log[k].Settled? && log[k].token == t ==>
      LeaseOpen(log, k, t, log[k].holder, log[k].generation)
  }

  /** A bearer is handed out at most once. */
  ghost predicate ClaimedOnce(log: seq<Event>, t: TokenHash) {
    forall i, j :: 0 <= i < j < |log| ==> log[i] != Claimed(t) || log[j] != Claimed(t)
  }

  ghost predicate GrantsMatch(s: Room, t: TokenHash)
    requires t in s.tokens
  {
    forall ev :: ev in s.log && ev.Granted? && ev.token == t ==>
      && ev.generation <= s.tokens[t].generation
      && ev.owner == s.tokens[t].owner
      && s.tokens[t].binding == Some(ev.binding)
  }

  ghost predicate TokenTale(s: Room, t: TokenHash) {
    && GrantsOrdered(s.log, t)
    && Fenced(s.log, t)
    && ClaimedOnce(s.log, t)
    && (forall ev :: ev in s.log && Concerns(ev, t) ==> Known(s.log, t))
    && (t in s.tokens ==>
          && Known(s.log, t)
          && GrantsMatch(s, t)
          && (Claimed(t) in s.log ==> s.tokens[t].delivered)
          && (s.tokens[t].lease.Some? ==>
                LeaseOpen(s.log, |s.log|, t, s.tokens[t].lease.value.holder, s.tokens[t].generation)))
  }

  lemma OpenKept(log: seq<Event>, more: seq<Event>, n: int, t: TokenHash, holder: LeaseOwner, generation: int)
    requires 0 <= n <= |log| && LeaseOpen(log, n, t, holder, generation)
    ensures LeaseOpen(log + more, n, t, holder, generation)
  {
    var j :| 0 <= j < n <= |log| && IsGrant(log[j], t, holder, generation)
             && forall m :: j < m < n ==> !TouchesLease(log[m], t);
    assert IsGrant((log + more)[j], t, holder, generation);
  }

  lemma OpenLonger(log: seq<Event>, more: seq<Event>, t: TokenHash, holder: LeaseOwner, generation: int)
    requires LeaseOpen(log, |log|, t, holder, generation)
    requires forall ev :: ev in more ==> !TouchesLease(ev, t)
    ensures LeaseOpen(log + more, |log + more|, t, holder, generation)
  {
    var j :| 0 <= j < |log| && IsGrant(log[j], t, holder, generation)
             && forall m :: j < m < |log| ==> !TouchesLease(log[m], t);
    var all := log + more;
    assert IsGrant(all[j], t, holder, generation);
    forall m | j < m < |all| ensures !TouchesLease(all[m], t) {
      if m >= |log| { assert all[m] in more; }
    }
  }

  /** Old settlements stay fenced when the log grows. */
  lemma FencedKept(log: seq<Event>, more: seq<Event>, t: TokenHash)
    requires Fenced(log, t)
    requires forall k :: 0 <= k < |more| && more[k].Settled? && more[k].token == t ==>
               k == 0 && LeaseOpen(log, |log|, t, more[k].holder, more[k].generation)
    ensures Fenced(log + more, t)
  {
    var all := log + more;
    forall k | 0 <= k < |all| && all[k].Settled? && all[k].token == t
      ensures LeaseOpen(all, k, t, all[k].holder, all[k].generation)
    {
      if k < |log| {
        OpenKept(log, more, k, t, all[k].holder, all[k].generation);
      } else {
        assert more[k - |log|] == all[k];
        OpenKept(log, more, |log|, t, all[k].holder, all[k].generation);
      }
    }
  }

  /** A token that a step neither changes nor mentions keeps its tale. */
  lemma TaleKept(s: Room, r: Room, more: seq<Event>, t: TokenHash)
    requires TokenTale(s, t)
    requires r.log == s.log + more && forall ev :: ev in more ==> !Mentions(ev, t)
    requires t in r.tokens ==> t in s.tokens
    requires t in r.tokens ==>
               var k, k' := s.tokens[t], r.tokens[t];
               k'.generation == k.generation && k'.owner == k.owner && k'.binding == k.binding
               && (k.delivered ==> k'.delivered) && (k'.lease.Some? ==> k'.lease == k.lease)
    ensures TokenTale(r, t)
  {
    forall k | 0 <= k < |more| ensures !Mentions(more[k], t) { assert more[k] in more; }
    FencedKept(s.log, more, t);
    forall i | |s.log| <= i < |r.log| ensures !Mentions(r.log[i], t) {
      assert r.log[i] in more;
    }
    if Known(s.log, t) {
      var ev :| ev in s.log && ev.Admitted? && ev.token == t;
      assert ev in r.log;
    }
    if t in r.tokens && r.tokens[t].lease.Some? {
      OpenLonger(s.log, more, t, r.tokens[t].lease.value.holder, r.tokens[t].generation);
    }
  }

  lemma AdmitTale(s: Room, c: Candidate)
    requires TokenTale(s, c.token) && Enabled(s, DoAdmit(c), false)
    ensures TokenTale(Admit(s, c), c.token)
  {
    var r := Admit(s, c);
    var ev := Admitted(c.entry, c.token, s.clock);
    assert !Known(s.log, c.token);
    assert ev in r.log;
    FencedKept(s.log, [ev], c.token);
    forall i | 0 <= i < |r.log| ensures !Concerns(r.log[i], c.token) {
      if i < |s.log| { assert s.log[i] in s.log; }
    }
  }

  /** A token whose lease, if any, ends keeps its tale. */
  lemma LeaseEndTale(s: Room, r: Room, more: seq<Event>, t: TokenHash)
    requires TokenTale(s, t) && t in s.tokens && t in r.tokens
    requires r.log == s.log + more
    requires forall k :: 0 <= k < |more| ==>
               && (more[k].Settled? || more[k].Recovered? || more[k].Closed?)
               && (more[k].Settled? ==> k == 0 && LeaseOpen(s.log, |s.log|, t, more[k].holder, more[k].generation))
    requires r.tokens[t].generation == s.tokens[t].generation && r.tokens[t].owner == s.tokens[t].owner
             && r.tokens[t].binding == s.tokens[t].binding && r.tokens[t].delivered == s.tokens[t].delivered
             && r.tokens[t].lease.None?
    ensures TokenTale(r, t)
  {
    FencedKept(s.log, more, t);
    var a :| a in s.log && a.Admitted? && a.token == t;
    assert a in r.log;
    forall i | |s.log| <= i < |r.log| ensures !r.log[i].Granted? && !r.log[i].Claimed? {
      assert r.log[i] == more[i - |s.log|];
    }
  }

  lemma CloseTale(s: Room, t: TokenHash, status: TokenStatus, keepUntil: Millis)
    requires TokenTale(s, t) && t in s.tokens
    ensures TokenTale(Close(s, t, status, keepUntil), t)
  {
    LeaseEndTale(s, Close(s, t, status, keepUntil), [Closed(t, status)], t);
  }

  lemma SettleCloseTale(s: Room, t: TokenHash, status: TokenStatus, keepUntil: Millis)
    requires TokenTale(s, t) && t in s.tokens && s.tokens[t].lease.Some?
    ensures TokenTale(Close(Settle(s, t), t, status, keepUntil), t)
  {
    var r := Close(Settle(s, t), t, status, keepUntil);
    var more := [Settled(t, s.tokens[t].lease.value.holder, s.tokens[t].generation), Closed(t, status)];
    assert r.log == s.log + more;
    LeaseEndTale(s, r, more, t);
  }

  lemma ReturnTale(s: Room, t: TokenHash, why: Event)
    requires TokenTale(s, t) && t in s.tokens && s.tokens[t].lease.Some?
    requires why == Recovered(t) || why == Settled(t, s.tokens[t].lease.value.holder, s.tokens[t].generation)
    ensures TokenTale(Return(s, t, why), t)
  {
    LeaseEndTale(s, Return(s, t, why), [why], t);
  }

  lemma GrantTale(s: Room, t: TokenHash, b: Binding, holder: LeaseOwner, deadline: Millis)
    requires TokenTale(s, t) && t in s.tokens
    requires s.tokens[t].binding.Some? ==> s.tokens[t].binding.value == b
    ensures TokenTale(Grant(s, t, b, holder, deadline), t)
  {
    var r := Grant(s, t, b, holder, deadline);
    var ev := Granted(t, s.tokens[t].owner, b, holder, s.tokens[t].generation + 1);
    assert r.log == s.log + [ev];
    FencedKept(s.log, [ev], t);
    GrantOrdered(s, t, ev);
    assert IsGrant(r.log[|s.log|], t, holder, ev.generation);
    var a :| a in s.log && a.Admitted? && a.token == t;
    assert a in r.log;
  }

  /** A new grant continues the order of the earlier ones. */
  lemma GrantOrdered(s: Room, t: TokenHash, ev: Event)
    requires GrantsOrdered(s.log, t) && t in s.tokens && GrantsMatch(s, t)
    requires ev.Granted? && ev.generation > s.tokens[t].generation && ev.owner == s.tokens[t].owner
    requires s.tokens[t].binding.Some? ==> s.tokens[t].binding.value == ev.binding
    ensures GrantsOrdered(s.log + [ev], t)
  {
    forall i | 0 <= i < |s.log| && s.log[i].Granted? && s.log[i].token == t
      ensures s.log[i].generation < ev.generation && s.log[i].owner == ev.owner && s.log[i].binding == ev.binding
    {
      assert s.log[i] in s.log;
    }
  }

  lemma ClaimTale(s: Room, t: TokenHash)
    requires TokenTale(s, t) && t in s.tokens && !s.tokens[t].delivered
    ensures TokenTale(Claim(s, t), t)
  {
    var r := Claim(s, t);
    FencedKept(s.log, [Claimed(t)], t);
    forall i | 0 <= i < |s.log| ensures s.log[i] != Claimed(t) { assert s.log[i] in s.log; }
    if s.tokens[t].lease.Some? {
      OpenLonger(s.log, [Claimed(t)], t, s.tokens[t].lease.value.holder, s.tokens[t].generation);
    }
    var a :| a in s.log && a.Admitted? && a.token == t;
    assert a in r.log;
  }

  /** The lines a step adds to the log. */
  ghost function Added(s: Room, a: Step): seq<Event>
    requires Enabled(s, a, false)
  {
    match a
    case DoLapse(e, _) => [Lapsed(e)]
    case DoWithdraw(e) => [Withdrawn(e)]
    case DoEnqueue(e, _, _, _) => [Joined(e, s.sequence + 1)]
    case DoAdmit(c) => [Admitted(c.entry, c.token, s.clock)]
    case DoClose(t, status, _) => [Closed(t, status)]
    case DoSettleClose(t, status, _) =>
      [Settled(t, s.tokens[t].lease.value.holder, s.tokens[t].generation), Closed(t, status)]
    case DoSettleReturn(t) => [Settled(t, s.tokens[t].lease.value.holder, s.tokens[t].generation)]
    case DoRecover(t) => [Recovered(t)]
    case DoGrant(t, b, holder, _) => [Granted(t, s.tokens[t].owner, b, holder, s.tokens[t].generation + 1)]
    case DoClaim(t) => [Claimed(t)]
    case _ => []
  }

  /** The token a step is about. */
  predicate ActsOn(a: Step, t: TokenHash) {
    match a
    case DoAdmit(c) => c.token == t
    case DoClose(u, _, _) => u == t
    case DoSettleClose(u, _, _) => u == t
    case DoSettleReturn(u) => u == t
    case DoRecover(u) => u == t
    case DoDelete(u) => u == t
    case DoGrant(u, _, _, _) => u == t
    case DoRequestCancel(u) => u == t
    case DoClaim(u) => u == t
    case _ => false
  }

  lemma SettleCloseLog(s: Room, t: TokenHash, status: TokenStatus, keepUntil: Millis)
    requires t in s.tokens && s.tokens[t].lease.Some?
    ensures Close(Settle(s, t), t, status, keepUntil).log
         == s.log + [Settled(t, s.tokens[t].lease.value.holder, s.tokens[t].generation), Closed(t, status)]
  {
  }

  lemma StepLog(s: Room, a: Step)
    requires Enabled(s, a, false)
    ensures Do(s, a).log == s.log + Added(s, a)
  {
    assert s.log + [] == s.log;
    match a
    case DoSettleClose(t, status, keepUntil) => SettleCloseLog(s, t, status, keepUntil);
    case DoTick(_) =>
    case DoRemark(_, _) =>
    case DoLapse(_, _) =>
    case DoWithdraw(_) =>
    case DoDropLink(_) =>
    case DoEnqueue(_, _, _, _) =>
    case DoAdmit(_) =>
    case DoPrune =>
    case DoClose(_, _, _) =>
    case DoSettleReturn(_) =>
    case DoRecover(_) =>
    case DoDelete(_) =>
    case DoBury(_) =>
    case DoGrant(_, _, _, _) =>
    case DoRequestCancel(_) =>
    case DoClaim(_) =>
  }

  /** A step leaves alone every token it is not about. */
  lemma StepOther(s: Room, a: Step, t: TokenHash)
    requires Enabled(s, a, false) && !ActsOn(a, t)
    ensures t in Do(s, a).tokens <==> t in s.tokens
    ensures t in s.tokens ==> Do(s, a).tokens[t] == s.tokens[t]
  {
    match a
    case _ =>
  }

  lemma AddedOther(s: Room, a: Step, t: TokenHash)
    requires Enabled(s, a, false) && !ActsOn(a, t)
    ensures forall ev :: ev in Added(s, a) ==> !Mentions(ev, t)
  {
    forall ev | ev in Added(s, a) ensures !Mentions(ev, t) {
      match a
      case _ =>
    }
  }

  /** Every step keeps every token's tale. */
  lemma StepTale(s: Room, a: Step, t: TokenHash)
    requires TokenTale(s, t) && Enabled(s, a, false)
    ensures TokenTale(Do(s, a), t)
  {
    StepLog(s, a);
    if ActsOn(a, t) {
      StepTaleOn(s, a, t);
    } else {
      StepOther(s, a, t);
      AddedOther(s, a, t);
      TaleKept(s, Do(s, a), Added(s, a), t);
    }
  }

  lemma StepTaleOn(s: Room, a: Step, t: TokenHash)
    requires TokenTale(s, t) && Enabled(s, a, false) && ActsOn(a, t)
    ensures TokenTale(Do(s, a), t)
  {
    match a
    case DoAdmit(c) => AdmitTale(s, c);
    case DoClose(_, status, keepUntil) => CloseTale(s, t, status, keepUntil);
    case DoSettleClose(_, status, keepUntil) => SettleCloseTale(s, t, status, keepUntil);
    case DoSettleReturn(_) =>
      ReturnTale(s, t, Settled(t, s.tokens[t].lease.value.holder, s.tokens[t].generation));
    case DoRecover(_) => ReturnTale(s, t, Recovered(t));
    case DoDelete(_) => TaleKept(s, Delete(s, t), [], t);
    case DoGrant(_, b, holder, deadline) => GrantTale(s, t, b, holder, deadline);
    case DoRequestCancel(_) => TaleKept(s, RequestCancel(s, t), [], t);
    case DoClaim(_) => ClaimTale(s, t);
  }
}
