/**
 What a join answers and what it does: first the cleanup of the head of the queue, then a
 duplicate, a conflict, a full queue or a new entry at the tail.
 */
module JoinAnswers {
  import opened RoomState
  import opened RoomSteps
  import opened RoomInvariant
  import opened RoomScripts
  import opened RoomPaths
  import opened RoomRuns
  import opened RoomPeek
  import opened RoomFrames
  import opened PollAnswers
  import opened CleanupAnswers

  /** The room as the cleanup of a join leaves it. */
  function Cleaned(s: Room, now: Millis): Room {
    LapseAll(Tick(s, now), Head(s.queue, 64))
  }

  /** The cleanup takes from the head of the queue the entries that have run out, at most 64, and
      touches nothing else. */
  lemma JoinCleans(s: Room, now: Millis) returns (n: nat)
    requires Consistent(s) && s.clock <= now
    ensures var m := Cleaned(s, now);
            && Consistent(m) && m.clock == now
            && HeadSwept(Tick(s, now), 64, n, m) && SweptElsewhere(Tick(s, now), m)
            && (forall e :: EntrySwept(Tick(s, now), Head(s.queue, 64), m, e))
            && (forall o :: LinkSwept(Tick(s, now), Head(s.queue, 64), m, o))
  {
    TickConsistent(s, now);
    n := SweepOfHead(Tick(s, now), 64);
    SweepIs(Tick(s, now), Head(s.queue, 64), Cleaned(s, now));
    LapseAllPath(Tick(s, now), Head(s.queue, 64), false);
    PathConsistent(Tick(s, now), Cleaned(s, now), false);
  }

  /** The owner's link names an entry that waits or was admitted and has not run out. */
  predicate HoldsAt(m: Room, o: OwnerHash, f: EntryId) {
    && LinkedTo(m, o, f) && f in m.entries && m.clock < m.entries[f].expiry
    && (m.entries[f].status == EntryQueued || m.entries[f].status == EntryAdmitted)
  }

  ghost predicate HoldsNone(m: Room, o: OwnerHash) {
    forall f :: !HoldsAt(m, o, f)
  }

  /** Only the link of o is dropped, if it had one. */
  ghost predicate OnlyUnlinked(m: Room, o: OwnerHash, r: Room) {
    r == m.(users := m.users - {o})
  }

  /** The entry joins at the tail, linked and with what was asked for. */
  ghost predicate Entered(m: Room, e: EntryId, o: OwnerHash, fingerprint: Digest, trip: Trip, r: Room) {
    && TokensAsBefore(m, r.(sequence := m.sequence)) && r.clock == m.clock && r.leases == m.leases
    && r.queue == m.queue + [e] && LinkedTo(r, o, e) && r.users - {o} == m.users - {o}
    && r.sequence == m.sequence + 1 && r.log == m.log + [Joined(e, r.sequence)]
    && r.entries - {e} == m.entries - {e} && e in r.entries
    && var x := r.entries[e];
       && x.status == EntryQueued && x.seqNo == r.sequence && x.token == None && x.admittedAt == None
       && x.owner == o && x.fingerprint == fingerprint && x.trip.fromStop == trip.fromStop && x.trip.toStop == trip.toStop
       && x.trip.seatClass == trip.seatClass && x.trip.passengers == trip.passengers
       && x.joinedAt == m.clock && x.expiry == m.clock + m.limits.entryTtl
  }

  /** What a join answers after its cleanup has left m: a duplicate for the same fingerprint, with
      its place in the queue or -1; a conflict for another; otherwise a full queue or a new entry. */
  ghost predicate JoinAnswer(m: Room, e: EntryId, o: OwnerHash, fingerprint: Digest, trip: Trip, out: Outcome) {
    && (forall f, p :: out.reply == DuplicateOf(f, p) <==>
          HoldsAt(m, o, f) && m.entries[f].fingerprint == fingerprint && PlaceIn(m.queue, f, p))
    && (out.reply == Refused(JoinConflict) <==> exists f :: HoldsAt(m, o, f) && m.entries[f].fingerprint != fingerprint)
    && (out.reply == Refused(QueueFull) <==> HoldsNone(m, o) && m.limits.maxQueue <= |m.queue|)
    && (out.reply.JoinedAs? <==> HoldsNone(m, o) && |m.queue| < m.limits.maxQueue)
    && (!HoldsNone(m, o) ==> out.room == m)
    && (out.reply == Refused(QueueFull) ==> OnlyUnlinked(m, o, out.room))
    && (out.reply.JoinedAs? ==>
          out.reply == JoinedAs(e, |out.room.queue|) && Entered(m, e, o, fingerprint, trip, out.room))
  }

  lemma PlaceIsIndex(m: Room, f: EntryId, p: int)
    requires QueueOrdered(m)
    ensures PlaceIn(m.queue, f, p) <==> p == Position(m.queue, f)
  {
    OrderedDistinct(m);
  }

  lemma EnterHolds(m: Room, e: EntryId, o: OwnerHash, fingerprint: Digest, trip: Trip, f: EntryId)
    requires HoldsAt(m, o, f)
    ensures Enter(m, e, o, fingerprint, trip)
         == Outcome(m, if m.entries[f].fingerprint == fingerprint then DuplicateOf(f, Position(m.queue, f)) else Refused(JoinConflict))
  {
  }

  lemma EnterHeld(m: Room, e: EntryId, o: OwnerHash, fingerprint: Digest, trip: Trip, f: EntryId)
    requires QueueOrdered(m) && HoldsAt(m, o, f)
    ensures JoinAnswer(m, e, o, fingerprint, trip, Enter(m, e, o, fingerprint, trip))
  {
    var out := Enter(m, e, o, fingerprint, trip);
    EnterHolds(m, e, o, fingerprint, trip, f);
    forall g, p ensures out.reply == DuplicateOf(g, p) <==>
                        HoldsAt(m, o, g) && m.entries[g].fingerprint == fingerprint && PlaceIn(m.queue, g, p)
    {
      PlaceIsIndex(m, g, p);
    }
  }

  lemma EnterNew(m: Room, e: EntryId, o: OwnerHash, fingerprint: Digest, trip: Trip)
    requires HoldsNone(m, o)
    ensures JoinAnswer(m, e, o, fingerprint, trip, Enter(m, e, o, fingerprint, trip))
  {
    assert HoldsPlace(m, o) ==> HoldsAt(m, o, m.users[o]);
    if |m.queue| < m.limits.maxQueue {
      EnterEnters(m, e, o, fingerprint, trip);
    }
  }

  lemma EnterEnters(m: Room, e: EntryId, o: OwnerHash, fingerprint: Digest, trip: Trip)
    requires !HoldsPlace(m, o) && |m.queue| < m.limits.maxQueue
    ensures var out := Enter(m, e, o, fingerprint, trip);
            out.reply == JoinedAs(e, |out.room.queue|) && Entered(m, e, o, fingerprint, trip, out.room)
  {
    var r := Enter(m, e, o, fingerprint, trip).room;
    assert r.users - {o} == m.users - {o};
    assert r.entries - {e} == m.entries - {e};
  }

  /** The answer of a join to an open generation, from the room that its cleanup leaves. */
  lemma JoinAnswers(s: Room, now: Millis, e: EntryId, o: OwnerHash, fingerprint: Digest, trip: Trip)
    requires Consistent(s) && Open(s) && s.clock <= now
    ensures JoinAnswer(Cleaned(s, now), e, o, fingerprint, trip, Join(s, now, e, o, fingerprint, trip))
  {
    var m := Cleaned(s, now);
    var n := JoinCleans(s, now);
    JoinEnters(s, now, e, o, fingerprint, trip);
    if HoldsNone(m, o) {
      EnterNew(m, e, o, fingerprint, trip);
    } else {
      var f :| HoldsAt(m, o, f);
      EnterHeld(m, e, o, fingerprint, trip, f);
    }
  }

  lemma JoinEnters(s: Room, now: Millis, e: EntryId, o: OwnerHash, fingerprint: Digest, trip: Trip)
    requires Open(s)
    ensures Join(s, now, e, o, fingerprint, trip) == Enter(Cleaned(s, now), e, o, fingerprint, trip)
  {
  }

  /** So a client that repeats its own join while it still holds its place gets its entry back, and
      another request of the same owner is a conflict; the cleanup takes nothing from it. */
  lemma RepeatedJoin(s: Room, now: Millis, e: EntryId, o: OwnerHash, fingerprint: Digest, trip: Trip, f: EntryId)
    requires Consistent(s) && Open(s) && s.clock <= now
    requires HoldsAt(Tick(s, now), o, f)
    ensures var out := Join(s, now, e, o, fingerprint, trip);
            if s.entries[f].fingerprint == fingerprint
            then out.reply.DuplicateOf? && out.reply.entry == f && (f in out.room.queue <==> out.reply.position != -1)
            else out.reply == Refused(JoinConflict)
  {
    var m, out := Cleaned(s, now), Join(s, now, e, o, fingerprint, trip);
    JoinAnswers(s, now, e, o, fingerprint, trip);
    var n := JoinCleans(s, now);
    assert EntrySwept(Tick(s, now), Head(s.queue, 64), m, f) && LinkSwept(Tick(s, now), Head(s.queue, 64), m, o);
    assert HoldsAt(m, o, f);
    var p := Position(m.queue, f);
    PlaceIsIndex(m, f, p);
    assert s.entries[f].fingerprint == fingerprint ==> out.reply == DuplicateOf(f, p);
  }
}
