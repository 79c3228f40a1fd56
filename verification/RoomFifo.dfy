/**
 Order of admission inside one issue call: it is first in, first out exactly when no
 candidate is accepted after one was rejected, and a batch that the worker builds
 from one peek and one Redis time is always of that kind.
 */
module RoomFifo {
  import opened RoomState
  import opened RoomSteps
  import opened RoomInvariant
  import opened RoomHistory
  import opened RoomOrder
  import opened RoomLife
  import opened RoomScripts
  import opened RoomPaths

  /** Taking the head out of an ordered queue leaves its tail. */
  lemma WithoutHead(s: Room)
    requires QueueOrdered(s) && s.queue != []
    ensures s.queue[0] !in s.queue[1..]
    ensures Without(s.queue, s.queue[0]) == s.queue[1..]
  {
    forall n | 0 < n < |s.queue| ensures s.queue[n] != s.queue[0] {
      assert Before(s, s.queue[0], s.queue[n]);
    }
    WithoutAbsent(s.queue[1..], s.queue[0]);
  }

  /** A turn that accepts nobody is a path in any order. */
  lemma {:induction false} NoneAcceptedPath(s: Room, q: seq<EntryId>, cs: seq<Candidate>, tokenTtl: Millis)
    requires Consistent(s) && RoomFor(s, |q|) && FreshCandidates(s.log, cs) && NoneAccepted(s, q, cs, tokenTtl)
    ensures Path(s, AdmitAll(s, q, cs, tokenTtl), true)
    decreases |q|
  {
    if q == [] || cs == [] || cs[0].entry != q[0] {
      PathHere(s, true);
    } else {
      var m := AdmitOne(s, cs[0], tokenTtl);
      assert cs == [cs[0]] + cs[1..];
      assert EntryOk(s, cs[0].entry);
      AdmitOnePath(s, cs[0], tokenTtl, true);
      PathConsistent(s, m, true);
      AdmitOneLeaves(s, cs[0], cs[1..], tokenTtl, |q| - 1);
      NoneAcceptedPath(m, q[1..], cs[1..], tokenTtl);
      PathJoin(s, m, AdmitAll(s, q, cs, tokenTtl), true);
    }
  }

  /** The head of the queue, met by its candidate, leaves unless it is rejected. */
  lemma HeadTurn(s: Room, c: Candidate, tokenTtl: Millis)
    requires Consistent(s) && s.queue != [] && c.entry == s.queue[0] && !Rejected(s, c, tokenTtl)
    ensures AdmitOne(s, c, tokenTtl).queue == s.queue[1..]
  {
    assert EntryOk(s, c.entry);
    WithoutHead(s);
  }

  lemma {:induction false} SkipFreePath(s: Room, q: seq<EntryId>, cs: seq<Candidate>, tokenTtl: Millis)
    requires Consistent(s) && RoomFor(s, |q|) && FreshCandidates(s.log, cs) && SkipFree(s, q, cs, tokenTtl)
    requires q <= s.queue
    ensures Path(s, AdmitAll(s, q, cs, tokenTtl), true)
    decreases |q|
  {
    if q == [] || cs == [] || cs[0].entry != q[0] {
      PathHere(s, true);
    } else {
      var m := AdmitOne(s, cs[0], tokenTtl);
      assert cs == [cs[0]] + cs[1..];
      assert EntryOk(s, cs[0].entry);
      AdmitOnePath(s, cs[0], tokenTtl, true);
      PathConsistent(s, m, true);
      AdmitOneLeaves(s, cs[0], cs[1..], tokenTtl, |q| - 1);
      if Rejected(s, cs[0], tokenTtl) {
        NoneAcceptedPath(m, q[1..], cs[1..], tokenTtl);
      } else {
        HeadTurn(s, cs[0], tokenTtl);
        SkipFreePath(m, q[1..], cs[1..], tokenTtl);
      }
      PathJoin(s, m, AdmitAll(s, q, cs, tokenTtl), true);
    }
  }

  // ------------------------------------------------------------------ skipping breaks the order

  /** An entry that the rest of the batch does not name stays where it is. */
  lemma {:induction false} AdmitAllKeeps(s: Room, q: seq<EntryId>, cs: seq<Candidate>, tokenTtl: Millis, f: EntryId)
    requires f in s.queue && f !in q
    ensures f in AdmitAll(s, q, cs, tokenTtl).queue
    decreases |q|
  {
    if q != [] && cs != [] && cs[0].entry == q[0] {
      AdmitAllKeeps(AdmitOne(s, cs[0], tokenTtl), q[1..], cs[1..], tokenTtl, f);
    }
  }

  /** The log only grows. */
  lemma {:induction false} AdmitAllLog(s: Room, q: seq<EntryId>, cs: seq<Candidate>, tokenTtl: Millis, ev: Event)
    requires ev in s.log
    ensures ev in AdmitAll(s, q, cs, tokenTtl).log
    decreases |q|
  {
    if q != [] && cs != [] && cs[0].entry == q[0] {
      AdmitAllLog(AdmitOne(s, cs[0], tokenTtl), q[1..], cs[1..], tokenTtl, ev);
    }
  }

  /** If some candidate is accepted, the log says so. */
  lemma {:induction false} SomeAdmitted(s: Room, q: seq<EntryId>, cs: seq<Candidate>, tokenTtl: Millis) returns (ev: Event)
    requires !NoneAccepted(s, q, cs, tokenTtl)
    ensures ev.Admitted? && ev.entry in q && ev in AdmitAll(s, q, cs, tokenTtl).log
    decreases |q|
  {
    var m := AdmitOne(s, cs[0], tokenTtl);
    if Accepted(s, cs[0], tokenTtl) {
      ev := Admitted(cs[0].entry, cs[0].token, s.clock);
      assert ev in m.log;
      AdmitAllLog(m, q[1..], cs[1..], tokenTtl, ev);
    } else {
      ev := SomeAdmitted(m, q[1..], cs[1..], tokenTtl);
    }
  }

  /** Somebody was admitted while an earlier entry had not left. */
  lemma Overtaken(log: seq<Event>, i: int, j: int, k: int)
    requires 0 <= i < j < |log| && 0 <= k < |log|
    requires log[i].Joined? && log[j].Joined? && log[k].Admitted? && log[k].entry == log[j].entry
    requires !Left(log, log[i].entry)
    ensures !Fifo(log)
  {
    assert AdmitsLater(log, i, j, k);
    forall m | 0 <= m < k ensures !Leaves(log[m], log[i].entry) {
      assert log[m] in log;
    }
  }

  /** Sequence order is log order. */
  lemma JoinedBefore(s: Room, f: EntryId, e: EntryId) returns (i: int, j: int)
    requires EntryTale(s, f) && EntryTale(s, e) && JoinOrder(s.log) && Before(s, f, e)
    ensures 0 <= i < j < |s.log| && s.log[i].Joined? && s.log[i].entry == f
    ensures s.log[j].Joined? && s.log[j].entry == e
  {
    var jf :| jf in s.log && jf.Joined? && jf.entry == f;
    var je :| je in s.log && je.Joined? && je.entry == e;
    i :| 0 <= i < |s.log| && s.log[i] == jf;
    j :| 0 <= j < |s.log| && s.log[j] == je;
  }

  /** The head was passed over, somebody behind it was admitted. */
  lemma PassedOver(s: Room, r: Room, ev: Event)
    requires Inv(s) && Inv(r) && s.queue != [] && s.queue[0] in r.queue && s.log <= r.log
    requires ev.Admitted? && ev in r.log && ev.entry in s.queue[1..]
    ensures !Fifo(r.log)
  {
    var f, e := s.queue[0], ev.entry;
    var n :| 0 <= n < |s.queue[1..]| && s.queue[1..][n] == e;
    assert Before(s, s.queue[0], s.queue[n + 1]);
    assert EntryTale(s, f) && EntryTale(s, e) && EntryTale(r, f);
    var i, j := JoinedBefore(s, f, e);
    var k :| 0 <= k < |r.log| && r.log[k] == ev;
    Overtaken(r.log, i, j, k);
  }

  lemma {:induction false} AdmitAllPrefix(s: Room, q: seq<EntryId>, cs: seq<Candidate>, tokenTtl: Millis)
    ensures s.log <= AdmitAll(s, q, cs, tokenTtl).log
    decreases |q|
  {
    if q != [] && cs != [] && cs[0].entry == q[0] {
      AdmitAllPrefix(AdmitOne(s, cs[0], tokenTtl), q[1..], cs[1..], tokenTtl);
    }
  }

  /** The head is rejected and a later candidate accepted. */
  lemma RejectedHead(s: Room, q: seq<EntryId>, cs: seq<Candidate>, tokenTtl: Millis)
    requires Inv(s) && RoomFor(s, |q|) && FreshCandidates(s.log, cs) && q <= s.queue
    requires q != [] && cs != [] && cs[0].entry == q[0]
    requires Rejected(s, cs[0], tokenTtl) && !NoneAccepted(s, q[1..], cs[1..], tokenTtl)
    ensures !Fifo(AdmitAll(s, q, cs, tokenTtl).log)
  {
    var r := AdmitAll(s, q, cs, tokenTtl);
    var ev := SomeAdmitted(s, q[1..], cs[1..], tokenTtl);
    assert q[1..] <= s.queue[1..];
    assert ev.entry in s.queue[1..];
    AdmitAllPath(s, q, cs, tokenTtl);
    PathInv(s, r, false);
    WithoutHead(s);
    AdmitAllKeeps(s, q[1..], cs[1..], tokenTtl, q[0]);
    AdmitAllPrefix(s, q, cs, tokenTtl);
    PassedOver(s, r, ev);
  }

  /** What the admission loop relies on. */
  ghost predicate Started(s: Room, q: seq<EntryId>, cs: seq<Candidate>) {
    Inv(s) && RoomFor(s, |q|) && FreshCandidates(s.log, cs) && q <= s.queue
  }

  /** A turn that does not reject leads to a turn for the next. */
  lemma UnrejectedTurn(s: Room, q: seq<EntryId>, cs: seq<Candidate>, tokenTtl: Millis, m: Room)
    requires Started(s, q, cs) && q != [] && cs != [] && cs[0].entry == q[0]
    requires !Rejected(s, cs[0], tokenTtl) && m == AdmitOne(s, cs[0], tokenTtl)
    ensures Started(m, q[1..], cs[1..])
  {
    assert cs == [cs[0]] + cs[1..];
    TurnInv(s, cs[0], tokenTtl, m);
    AdmitOneLeaves(s, cs[0], cs[1..], tokenTtl, |q| - 1);
    HeadTurn(s, cs[0], tokenTtl);
  }

  lemma TurnInv(s: Room, c: Candidate, tokenTtl: Millis, m: Room)
    requires Inv(s) && FreshToken(s.log, c.token) && RoomFor(s, 1) && m == AdmitOne(s, c, tokenTtl)
    ensures Inv(m)
  {
    assert EntryOk(s, c.entry);
    AdmitOnePath(s, c, tokenTtl, false);
    PathInv(s, m, false);
  }

  /** One turn of the loop and of what is said about it. */
  lemma SkipFreeTurn(s: Room, q: seq<EntryId>, cs: seq<Candidate>, tokenTtl: Millis)
    requires !SkipFree(s, q, cs, tokenTtl)
    ensures q != [] && cs != [] && cs[0].entry == q[0]
    ensures Rejected(s, cs[0], tokenTtl) ==> !NoneAccepted(s, q[1..], cs[1..], tokenTtl)
    ensures !Rejected(s, cs[0], tokenTtl) ==> !SkipFree(AdmitOne(s, cs[0], tokenTtl), q[1..], cs[1..], tokenTtl)
    ensures AdmitAll(s, q, cs, tokenTtl) == AdmitAll(AdmitOne(s, cs[0], tokenTtl), q[1..], cs[1..], tokenTtl)
  {
  }

  lemma {:induction false} SkippingBreaksFifo(s: Room, q: seq<EntryId>, cs: seq<Candidate>, tokenTtl: Millis, r: Room)
    requires Started(s, q, cs) && !SkipFree(s, q, cs, tokenTtl) && r == AdmitAll(s, q, cs, tokenTtl)
    ensures !Fifo(r.log)
    decreases |q|
  {
    SkipFreeTurn(s, q, cs, tokenTtl);
    if Rejected(s, cs[0], tokenTtl) {
      RejectedHead(s, q, cs, tokenTtl);
    } else {
      var m := AdmitOne(s, cs[0], tokenTtl);
      UnrejectedTurn(s, q, cs, tokenTtl, m);
      SkippingBreaksFifo(m, q[1..], cs[1..], tokenTtl, r);
    }
  }

  // ------------------------------------------------------------------ the worker's batches

  /** One Redis time for the whole batch. */
  ghost predicate Uniform(cs: seq<Candidate>) {
    forall i, j :: 0 <= i < |cs| && 0 <= j < |cs| ==>
      cs[i].issuedAt == cs[j].issuedAt && cs[i].expiresAt == cs[j].expiresAt
  }

  /** Owner and fingerprint as the entry has them, and a token hash that is not taken. */
  ghost predicate Proper(s: Room, c: Candidate) {
    && c.token !in s.tokens
    && (c.entry in s.entries ==>
          c.owner == s.entries[c.entry].owner && c.fingerprint == s.entries[c.entry].fingerprint)
  }

  ghost predicate ProperBatch(s: Room, cs: seq<Candidate>) {
    && (forall i :: 0 <= i < |cs| ==> Proper(s, cs[i]))
    && (forall i, j :: 0 <= i < j < |cs| ==> cs[i].token != cs[j].token)
  }

  ghost predicate Timely(now: Millis, c: Candidate, tokenTtl: Millis) {
    c.issuedAt <= now + 5000 && now < c.expiresAt && c.expiresAt - c.issuedAt <= tokenTtl + 1000
  }

  lemma AdmitOneProper(s: Room, c: Candidate, d: Candidate, tokenTtl: Millis)
    requires Proper(s, d) && d.token != c.token
    ensures Proper(AdmitOne(s, c, tokenTtl), d) && AdmitOne(s, c, tokenTtl).clock == s.clock
  {
  }

  lemma {:induction false} UntimelyNoneAccepted(s: Room, q: seq<EntryId>, cs: seq<Candidate>, tokenTtl: Millis)
    requires forall i :: 0 <= i < |cs| ==> !Timely(s.clock, cs[i], tokenTtl)
    ensures NoneAccepted(s, q, cs, tokenTtl)
    decreases |q|
  {
    if q != [] && cs != [] && cs[0].entry == q[0] {
      UntimelyNoneAccepted(AdmitOne(s, cs[0], tokenTtl), q[1..], cs[1..], tokenTtl);
    }
  }

  /** A batch with one time and genuine bindings never skips a waiting entry. */
  lemma {:induction false} UniformSkipFree(s: Room, q: seq<EntryId>, cs: seq<Candidate>, tokenTtl: Millis)
    requires Uniform(cs) && ProperBatch(s, cs)
    ensures SkipFree(s, q, cs, tokenTtl)
    decreases |q|
  {
    if q != [] && cs != [] && cs[0].entry == q[0] {
      assert Proper(s, cs[0]);
      if Rejected(s, cs[0], tokenTtl) {
        UntimelyNoneAccepted(s, q[1..], cs[1..], tokenTtl);
      } else {
        var m := AdmitOne(s, cs[0], tokenTtl);
        forall i | 0 <= i < |cs[1..]| ensures Proper(m, cs[1..][i]) {
          AdmitOneProper(s, cs[0], cs[i + 1], tokenTtl);
        }
        UniformSkipFree(m, q[1..], cs[1..], tokenTtl);
      }
    }
  }
}
