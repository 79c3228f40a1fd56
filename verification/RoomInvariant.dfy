/** Each atomic change keeps the structural invariant. */
module RoomInvariant {
  import opened RoomState
  import opened RoomSteps

  // ------------------------------------------------------------------ queue facts

  lemma {:induction false} WithoutAbsent(q: seq<EntryId>, e: EntryId)
    requires e !in q
    ensures Without(q, e) == q
  {
    if q != [] {
      WithoutAbsent(q[1..], e);
    }
  }

  /** Removing a member keeps the order of the others. */
  lemma {:induction false} WithoutOrdered(s: Room, q: seq<EntryId>, e: EntryId)
    requires forall i, j :: 0 <= i < j < |q| ==> Before(s, q[i], q[j])
    ensures forall i, j :: 0 <= i < j < |Without(q, e)| ==> Before(s, Without(q, e)[i], Without(q, e)[j])
    ensures |Without(q, e)| <= |q|
  {
    if q != [] {
      WithoutOrdered(s, q[1..], e);
      var r := Without(q[1..], e);
      forall f | f in r ensures Before(s, q[0], f) {
        assert f in q[1..];
      }
    }
  }

  /** Queue order only looks at the entries that are still in the queue. */
  lemma QueueShrinks(s: Room, r: Room, e: EntryId)
    requires QueueOrdered(s)
    requires r.queue == Without(s.queue, e)
    requires forall f :: f in r.queue ==> f in s.entries && f in r.entries && r.entries[f] == s.entries[f]
    ensures QueueOrdered(r) && |r.queue| <= |s.queue|
  {
    WithoutOrdered(s, s.queue, e);
    forall i, j | 0 <= i < j < |r.queue| ensures Before(r, r.queue[i], r.queue[j]) {
      assert Before(s, r.queue[i], r.queue[j]);
    }
  }

  lemma QueueKept(s: Room, r: Room)
    requires QueueOrdered(s)
    requires r.queue == s.queue
    requires forall f :: f in s.queue ==> f in s.entries && f in r.entries && r.entries[f] == s.entries[f]
    ensures QueueOrdered(r)
  {
    forall i, j | 0 <= i < j < |r.queue| ensures Before(r, r.queue[i], r.queue[j]) {
      assert Before(s, s.queue[i], s.queue[j]);
    }
  }

  // ------------------------------------------------------------------ framing

  ghost predicate SameEntry(s: Room, r: Room, e: EntryId) {
    && (e in r.entries <==> e in s.entries)
    && (e in s.entries ==> r.entries[e] == s.entries[e])
    && (e in r.queue <==> e in s.queue)
    && (EntryKey(e) in r.leases <==> EntryKey(e) in s.leases)
  }

  ghost predicate SameToken(s: Room, r: Room, t: TokenHash) {
    && (t in r.tokens <==> t in s.tokens)
    && (t in s.tokens ==> r.tokens[t] == s.tokens[t])
    && (t in r.inflight <==> t in s.inflight)
    && (t in s.inflight ==> r.inflight[t] == s.inflight[t])
    && (TokenKey(t) in r.leases <==> TokenKey(t) in s.leases)
    && (TokenKey(t) in s.leases ==> r.leases[TokenKey(t)] == s.leases[TokenKey(t)])
  }

  /** r differs from s only in the entries of es, the tokens of ts, and the owner
      index where it points into es. */
  ghost predicate Frame(s: Room, r: Room, es: set<EntryId>, ts: set<TokenHash>) {
    && r.clock == s.clock && r.limits == s.limits && s.sequence <= r.sequence
    && (forall e :: e !in es ==> SameEntry(s, r, e))
    && (forall t :: t !in ts ==> SameToken(s, r, t))
    && (forall o :: o in s.users && s.users[o] !in es ==> o in r.users && r.users[o] == s.users[o])
    && (forall o :: o in r.users && r.users[o] !in es ==> o in s.users && r.users[o] == s.users[o])
    && (forall e :: e in es && e in s.entries && s.entries[e].token.Some? ==> s.entries[e].token.value in ts)
    && (forall t :: t in ts && t in s.tokens ==> s.tokens[t].entry in es)
  }

  /** Outside its frame a change keeps the invariant, so only the frame needs checking. */
  lemma FrameKeeps(s: Room, r: Room, es: set<EntryId>, ts: set<TokenHash>)
    requires AllOk(s) && Frame(s, r, es, ts)
    requires forall e :: e in es ==> EntryOk(r, e)
    requires forall t :: t in ts ==> TokenOk(r, t)
    requires forall o :: o in r.users && r.users[o] in es ==> UserOk(r, o)
    ensures AllOk(r)
  {
    forall e ensures EntryOk(r, e) {
      if e !in es {
        assert SameEntry(s, r, e) && EntryOk(s, e);
        if e in s.entries && s.entries[e].token.Some? {
          var t := s.entries[e].token.value;
          assert t !in ts;
          assert SameToken(s, r, t);
        }
      }
    }
    forall t ensures TokenOk(r, t) {
      if t !in ts {
        assert SameToken(s, r, t) && TokenOk(s, t);
        if t in s.tokens {
          var e := s.tokens[t].entry;
          assert s.entries[e].token == Some(t);
          assert e !in es;
          assert SameEntry(s, r, e);
        }
      }
    }
    forall o ensures UserOk(r, o) {
      if o in r.users && r.users[o] !in es {
        var e := r.users[o];
        assert UserOk(s, o) && SameEntry(s, r, e) && EntryOk(s, e);
        if s.entries[e].token.Some? {
          var t := s.entries[e].token.value;
          assert s.tokens[t].entry == e;
          assert t !in ts;
          assert SameToken(s, r, t);
        }
      }
    }
  }

  // ------------------------------------------------------------------ one lemma per change

  lemma TickConsistent(s: Room, now: Millis)
    requires Consistent(s) && s.clock <= now
    ensures Consistent(Tick(s, now))
  {
    var r := Tick(s, now);
    forall e ensures EntryOk(r, e) { assert EntryOk(s, e); }
    forall t ensures TokenOk(r, t) { assert TokenOk(s, t); }
    forall o ensures UserOk(r, o) { assert UserOk(s, o); }
    forall f | f in s.queue ensures f in s.entries { assert EntryOk(s, f); }
    QueueKept(s, r);
  }

  lemma LapseFrame(s: Room, e: EntryId, keepUntil: Millis)
    requires e in s.entries && s.entries[e].token.None?
    ensures Frame(s, Lapse(s, e, keepUntil), {e}, {})
  {
  }

  /** After Unlinked, nobody's index points at e. */
  lemma Unlinks(s: Room, users: map<OwnerHash, EntryId>, e: EntryId)
    requires AllOk(s) && e in s.entries && users == Unlinked(s.users, s.entries[e].owner, e)
    ensures forall o :: o in users ==> users[o] != e
  {
    forall o | o in users ensures users[o] != e { assert UserOk(s, o); }
  }

  lemma LapseConsistent(s: Room, e: EntryId, keepUntil: Millis)
    requires Consistent(s) && e in s.queue
    ensures e in s.entries && Consistent(Lapse(s, e, keepUntil))
  {
    assert EntryOk(s, e);
    var r := Lapse(s, e, keepUntil);
    LapseFrame(s, e, keepUntil);
    Unlinks(s, r.users, e);
    FrameKeeps(s, r, {e}, {});
    forall f | f in r.queue ensures f in s.entries { assert EntryOk(s, f); }
    QueueShrinks(s, r, e);
  }

  /** The queue of a consistent room holds queued entries only. */
  lemma QueueEntries(s: Room)
    requires AllOk(s)
    ensures forall f :: f in s.queue ==> f in s.entries && s.entries[f].status == EntryQueued
  {
    forall f | f in s.queue ensures f in s.entries && s.entries[f].status == EntryQueued {
      assert EntryOk(s, f);
    }
  }

  lemma WithdrawFrame(s: Room, e: EntryId)
    requires e in s.entries && s.entries[e].token.None?
    ensures Frame(s, Withdraw(s, e), {e}, {})
  {
  }

  lemma WithdrawConsistent(s: Room, e: EntryId)
    requires Consistent(s) && e in s.queue
    ensures e in s.entries && Consistent(Withdraw(s, e))
  {
    assert EntryOk(s, e);
    var r := Withdraw(s, e);
    WithdrawFrame(s, e);
    Unlinks(s, r.users, e);
    FrameKeeps(s, r, {e}, {});
    QueueEntries(s);
    QueueShrinks(s, r, e);
  }

  lemma DropLinkConsistent(s: Room, owner: OwnerHash)
    requires Consistent(s)
    requires owner in s.users ==> s.users[owner] in s.entries && s.entries[s.users[owner]].expiry <= s.clock
    ensures Consistent(DropLink(s, owner))
  {
    var r := DropLink(s, owner);
    forall e ensures EntryOk(r, e) { assert EntryOk(s, e); }
    forall t ensures TokenOk(r, t) { assert TokenOk(s, t); }
    forall o ensures UserOk(r, o) { assert UserOk(s, o); }
    QueueEntries(s);
    QueueKept(s, r);
  }

  lemma EnqueueFrame(s: Room, e: EntryId, owner: OwnerHash, fingerprint: Digest, trip: Trip)
    requires e !in s.entries && owner !in s.users
    ensures Frame(s, Enqueue(s, e, owner, fingerprint, trip), {e}, {})
  {
  }

  lemma EnqueueOrdered(s: Room, e: EntryId, owner: OwnerHash, fingerprint: Digest, trip: Trip)
    requires Consistent(s) && e !in s.entries
    ensures QueueOrdered(Enqueue(s, e, owner, fingerprint, trip))
  {
    var r := Enqueue(s, e, owner, fingerprint, trip);
    forall i, j | 0 <= i < j < |r.queue| ensures Before(r, r.queue[i], r.queue[j]) {
      assert EntryOk(s, s.queue[i]);
      if j < |s.queue| {
        assert Before(s, s.queue[i], s.queue[j]);
      }
    }
  }

  lemma EnqueueConsistent(s: Room, e: EntryId, owner: OwnerHash, fingerprint: Digest, trip: Trip)
    requires Consistent(s)
    requires e !in s.entries && owner !in s.users && |s.queue| < s.limits.maxQueue
    ensures Consistent(Enqueue(s, e, owner, fingerprint, trip))
  {
    var r := Enqueue(s, e, owner, fingerprint, trip);
    assert EntryOk(s, e);
    EnqueueFrame(s, e, owner, fingerprint, trip);
    forall o | o in r.users && r.users[o] in {e} ensures UserOk(r, o) { assert UserOk(s, o); }
    FrameKeeps(s, r, {e}, {});
    EnqueueOrdered(s, e, owner, fingerprint, trip);
  }

  lemma GrownCard(m: map<int, Millis>, k: int, v: Millis)
    ensures |m[k := v]| <= |m| + 1
  {
    if k in m {
      assert m[k := v].Keys == m.Keys;
    } else {
      assert m[k := v].Keys == m.Keys + {k};
    }
  }

  lemma ShrunkCard(m: map<int, Millis>, n: map<int, Millis>)
    requires n.Keys <= m.Keys
    ensures |n| <= |m|
  {
    SubsetCard(n.Keys, m.Keys);
  }

  lemma SubsetCard<T>(a: set<T>, b: set<T>)
    requires a <= b
    ensures |a| <= |b|
  {
    assert b == a + (b - a);
  }

  lemma AdmitFrame(s: Room, c: Candidate)
    requires c.entry in s.entries && s.entries[c.entry].token.None? && c.token !in s.tokens
    ensures Frame(s, Admit(s, c), {c.entry}, {c.token})
  {
  }

  lemma AdmitConsistent(s: Room, c: Candidate)
    requires Consistent(s) && Enabled(s, DoAdmit(c), false)
    ensures Consistent(Admit(s, c))
  {
    var e := c.entry;
    assert EntryOk(s, e) && TokenOk(s, c.token);
    var r := Admit(s, c);
    AdmitFrame(s, c);
    forall o | o in r.users && r.users[o] in {e} ensures UserOk(r, o) { assert UserOk(s, o); }
    FrameKeeps(s, r, {e}, {c.token});
    QueueEntries(s);
    QueueShrinks(s, r, e);
    GrownCard(s.inflight, c.token, c.expiresAt);
    GrownCard(s.rate, c.token, s.clock);
  }

  lemma PruneConsistent(s: Room)
    requires Consistent(s)
    ensures Consistent(Prune(s))
  {
    var r := Prune(s);
    forall e ensures EntryOk(r, e) { assert EntryOk(s, e); }
    forall t ensures TokenOk(r, t) { assert TokenOk(s, t); }
    forall o ensures UserOk(r, o) { assert UserOk(s, o); }
    QueueEntries(s);
    QueueKept(s, r);
    ShrunkCard(s.rate, r.rate);
  }

  /** The log and the markers are no part of the structural invariant. */
  lemma LogConsistent(s: Room, r: Room)
    requires Consistent(s)
    requires r == s.(log := r.log, policyMarker := r.policyMarker, continuity := r.continuity)
    ensures Consistent(r)
  {
    forall e ensures EntryOk(r, e) { assert EntryOk(s, e); }
    forall t ensures TokenOk(r, t) { assert TokenOk(s, t); }
    forall o ensures UserOk(r, o) { assert UserOk(s, o); }
    QueueEntries(s);
    QueueKept(s, r);
  }

  lemma CloseFrame(s: Room, t: TokenHash, status: TokenStatus, keepUntil: Millis)
    requires t in s.tokens && s.tokens[t].entry in s.entries
    requires s.entries[s.tokens[t].entry].token == Some(t)
    ensures Frame(s, Close(s, t, status, keepUntil), {s.tokens[t].entry}, {t})
  {
  }

  lemma CloseLocal(s: Room, t: TokenHash, status: TokenStatus, keepUntil: Millis)
    requires t in s.tokens && Terminal(status)
    requires TokenOk(s, t) && EntryOk(s, s.tokens[t].entry)
    ensures TokenOk(Close(s, t, status, keepUntil), t)
    ensures EntryOk(Close(s, t, status, keepUntil), s.tokens[t].entry)
  {
  }

  lemma CloseConsistent(s: Room, t: TokenHash, status: TokenStatus, keepUntil: Millis)
    requires Consistent(s) && t in s.tokens && Terminal(status)
    ensures Consistent(Close(s, t, status, keepUntil))
  {
    assert TokenOk(s, t);
    var e := s.tokens[t].entry;
    assert EntryOk(s, e);
    var r := Close(s, t, status, keepUntil);
    CloseFrame(s, t, status, keepUntil);
    CloseLocal(s, t, status, keepUntil);
    Unlinks(s, r.users, e);
    FrameKeeps(s, r, {e}, {t});
    QueueEntries(s);
    QueueKept(s, r);
    ShrunkCard(s.inflight, r.inflight);
  }

  lemma DeleteFrame(s: Room, t: TokenHash)
    requires t in s.tokens && s.tokens[t].entry in s.entries
    requires s.entries[s.tokens[t].entry].token == Some(t)
    ensures Frame(s, Delete(s, t), {s.tokens[t].entry}, {t})
  {
  }

  lemma DeleteConsistent(s: Room, t: TokenHash)
    requires Consistent(s) && t in s.tokens
    ensures Consistent(Delete(s, t))
  {
    assert TokenOk(s, t);
    var e := s.tokens[t].entry;
    assert EntryOk(s, e);
    var r := Delete(s, t);
    DeleteFrame(s, t);
    Unlinks(s, r.users, e);
    FrameKeeps(s, r, {e}, {t});
    QueueEntries(s);
    QueueKept(s, r);
    ShrunkCard(s.inflight, r.inflight);
  }

  lemma BuryFrame(s: Room, e: EntryId)
    requires e in s.entries && s.entries[e].token.None?
    ensures Frame(s, Bury(s, e), {e}, {})
  {
  }

  lemma BuryConsistent(s: Room, e: EntryId)
    requires Consistent(s) && EntryKey(e) in s.leases
    ensures Consistent(Bury(s, e))
  {
    assert EntryOk(s, e);
    var r := Bury(s, e);
    BuryFrame(s, e);
    Unlinks(s, r.users, e);
    FrameKeeps(s, r, {e}, {});
    QueueEntries(s);
    QueueKept(s, r);
  }

  /** A change of one token that keeps it inflight keeps everything else in place. */
  lemma TokenFrame(s: Room, r: Room, t: TokenHash)
    requires t in s.tokens && s.tokens[t].entry in s.entries
    requires s.entries[s.tokens[t].entry].token == Some(t)
    requires r == s.(tokens := r.tokens, leases := r.leases, log := r.log)
    requires t in r.tokens && r.tokens == s.tokens[t := r.tokens[t]]
    requires forall k :: k != TokenKey(t) ==>
               (k in r.leases <==> k in s.leases) && (k in s.leases ==> r.leases[k] == s.leases[k])
    ensures Frame(s, r, {s.tokens[t].entry}, {t})
  {
  }

  lemma TokenChangeConsistent(s: Room, r: Room, t: TokenHash)
    requires Consistent(s) && t in s.tokens
    requires r == s.(tokens := r.tokens, leases := r.leases, log := r.log)
    requires t in r.tokens && r.tokens == s.tokens[t := r.tokens[t]]
    requires r.tokens[t].entry == s.tokens[t].entry
    requires forall k :: k != TokenKey(t) ==>
               (k in r.leases <==> k in s.leases) && (k in s.leases ==> r.leases[k] == s.leases[k])
    requires Active(r.tokens[t].status) <==> Active(s.tokens[t].status)
    requires TokenOk(r, t)
    ensures Consistent(r)
  {
    assert TokenOk(s, t);
    var e := s.tokens[t].entry;
    assert EntryOk(s, e);
    TokenFrame(s, r, t);
    forall o | o in r.users && r.users[o] in {e} ensures UserOk(r, o) { assert UserOk(s, o); }
    FrameKeeps(s, r, {e}, {t});
    QueueEntries(s);
    QueueKept(s, r);
  }

  lemma GrantConsistent(s: Room, t: TokenHash, binding: Binding, holder: LeaseOwner, deadline: Millis)
    requires Consistent(s) && t in s.tokens && s.tokens[t].status == TokenIssued
    requires deadline <= s.tokens[t].expiry
    ensures Consistent(Grant(s, t, binding, holder, deadline))
  {
    assert TokenOk(s, t);
    TokenChangeConsistent(s, Grant(s, t, binding, holder, deadline), t);
  }

  lemma ReturnConsistent(s: Room, t: TokenHash, why: Event)
    requires Consistent(s) && t in s.tokens && s.tokens[t].lease.Some?
    ensures Consistent(Return(s, t, why))
  {
    assert TokenOk(s, t);
    TokenChangeConsistent(s, Return(s, t, why), t);
  }

  lemma RequestCancelConsistent(s: Room, t: TokenHash)
    requires Consistent(s) && t in s.tokens && s.tokens[t].status == TokenProcessing
    ensures Consistent(RequestCancel(s, t))
  {
    assert TokenOk(s, t);
    TokenChangeConsistent(s, RequestCancel(s, t), t);
  }

  lemma ClaimConsistent(s: Room, t: TokenHash)
    requires Consistent(s) && t in s.tokens
    ensures Consistent(Claim(s, t))
  {
    assert TokenOk(s, t);
    TokenChangeConsistent(s, Claim(s, t), t);
  }

  /** Every step keeps the structural invariant. */
  lemma StepConsistent(s: Room, a: Step)
    requires Consistent(s) && Enabled(s, a, false)
    ensures Consistent(Do(s, a))
  {
    match a
    case DoTick(now) => TickConsistent(s, now);
    case DoRemark(p, c) => LogConsistent(s, Remark(s, p, c));
    case DoLapse(e, keepUntil) => LapseConsistent(s, e, keepUntil);
    case DoWithdraw(e) => WithdrawConsistent(s, e);
    case DoDropLink(o) => DropLinkConsistent(s, o);
    case DoEnqueue(e, o, f, trip) => EnqueueConsistent(s, e, o, f, trip);
    case DoAdmit(c) => AdmitConsistent(s, c);
    case DoPrune => PruneConsistent(s);
    case DoClose(t, status, keepUntil) => CloseConsistent(s, t, status, keepUntil);
    case DoSettleClose(t, status, keepUntil) =>
      LogConsistent(s, Settle(s, t));
      CloseConsistent(Settle(s, t), t, status, keepUntil);
    case DoSettleReturn(t) =>
      ReturnConsistent(s, t, Settled(t, s.tokens[t].lease.value.holder, s.tokens[t].generation));
    case DoRecover(t) => ReturnConsistent(s, t, Recovered(t));
    case DoDelete(t) => DeleteConsistent(s, t);
    case DoBury(e) => BuryConsistent(s, e);
    case DoGrant(t, b, holder, deadline) => GrantConsistent(s, t, b, holder, deadline);
    case DoRequestCancel(t) => RequestCancelConsistent(s, t);
    case DoClaim(t) => ClaimConsistent(s, t);
  }
}
