/**
 Write-ahead locators. A worker writes a locator for every candidate before the issue call
 may admit it, and erases only those that the call definitively did not admit. A repair
 resolves the locator of a presented bearer, runs its script and erases the locator when the
 script finds no token or no continuity marker. Workers and repairs run at once, each may
 stop between any two commands, and the answer of an issue call may be lost.
 */
module Locators {
  import opened RoomState
  import opened RoomSteps
  import opened RoomHistory
  import opened RoomLife
  import opened RoomScripts
  import opened RoomPaths
  import opened RoomTally
  import opened RoomRuns
  import opened RoomTheorems
  import opened RoomTokens

  const MARGIN_MS: Millis := 300_000
  const MIN_TTL: Millis := 60_000
  const MAX_TTL: Millis := 86_400_000

  function TokenLocatorTtl(l: Limits): Millis { l.tokenTtl + l.lease + MARGIN_MS }

  function EntryLocatorTtl(l: Limits): Millis { l.entryTtl + MARGIN_MS }

  function GenerationTtl(l: Limits): Millis {
    (if l.entryTtl > l.tokenTtl + l.lease then l.entryTtl else l.tokenTtl + l.lease) + MARGIN_MS
  }

  predicate AcceptedTtl(ttl: Millis) { MIN_TTL <= ttl <= MAX_TTL + MARGIN_MS }

  /** With limits that a policy may have, the store accepts all three times to live, the
      generation outlives both locators, and the token locator a token and one lease. */
  lemma TtlsFit(l: Limits)
    requires ValidLimits(l)
    ensures AcceptedTtl(TokenLocatorTtl(l)) && AcceptedTtl(EntryLocatorTtl(l)) && AcceptedTtl(GenerationTtl(l))
    ensures TokenLocatorTtl(l) <= EntryLocatorTtl(l) == GenerationTtl(l)
    ensures l.tokenTtl + l.lease + MARGIN_MS <= TokenLocatorTtl(l)
  {
  }

  datatype Locator = Locator(scope: int, until: Millis)

  /** A worker writes its locators, the first ones done; or erases those of unadmitted candidates. */
  datatype Stage = Writing(cs: seq<Candidate>, written: nat) | Erasing(rest: seq<TokenHash>)

  /** A repair has resolved the locator of a bearer, or is about to erase it. */
  datatype Repair = Located(token: TokenHash, owner: OwnerHash, binding: Binding) | Dropping(token: TokenHash)

  datatype Sys = Sys(
    scope: int,
    room: Room,
    locators: map<TokenHash, Locator>,
    workers: map<int, Stage>,
    repairs: map<int, Repair>,
    used: set<TokenHash>)

  datatype Act =
    | Other(call: Call)
    | Begin(id: int, now: Millis, cs: seq<Candidate>)
    | Write(id: int, now: Millis)
    | Admit(id: int, now: Millis, req: IssueRequest, lb: seq<LeaseKey>, tb: seq<TokenHash>, heard: bool)
    | Erase(id: int)
    | Stop(id: int)
    | Present(id: int, now: Millis, token: TokenHash, owner: OwnerHash, binding: Binding, gone: bool)
    | Finish(id: int, now: Millis)
    | Drop(id: int)
    | GiveUp(id: int)
    | Elsewhere(token: TokenHash, locator: Locator)

  ghost predicate Can(s: Sys, a: Act) {
    match a
    case Other(c) => Legal(s.room, c) && Candidates(c) == [] && !c.CallRepair?
    case Begin(i, now, cs) =>
      // freshly generated tokens, all issued at the Redis time just read
      && i !in s.workers && s.room.clock <= now
      && (forall j :: 0 <= j < |cs| ==> cs[j].token !in s.used && cs[j].expiresAt == now + s.room.limits.tokenTtl)
      && (forall j, k :: 0 <= j < k < |cs| ==> cs[j].token != cs[k].token)
    case Write(i, now) => i in s.workers && s.workers[i].Writing? && s.workers[i].written < |s.workers[i].cs| && s.room.clock <= now
    case Admit(i, now, req, lb, tb, _) =>
      && i in s.workers && s.workers[i].Writing? && s.workers[i].written == |s.workers[i].cs|
      && req.candidates == s.workers[i].cs && Legal(s.room, CallIssue(now, req, lb, tb))
    case Erase(i) => i in s.workers && s.workers[i].Erasing? && s.workers[i].rest != []
    case Stop(i) => i in s.workers
    case Present(k, now, _, _, _, _) => k !in s.repairs && s.room.clock <= now
    case Finish(k, now) => k in s.repairs && s.repairs[k].Located? && s.room.clock <= now
    case Drop(k) => k in s.repairs && s.repairs[k].Dropping?
    case GiveUp(k) => k in s.repairs
    case Elsewhere(t, l) => t !in s.used && l.scope != s.scope
  }

  /** putLocatorScript: it refuses to overwrite a live locator of another generation. */
  function Put(s: Sys, t: TokenHash, now: Millis, ttl: Millis): Option<map<TokenHash, Locator>> {
    if t in s.locators && now < s.locators[t].until && s.locators[t].scope != s.scope then None
    else Some(s.locators[t := Locator(s.scope, now + ttl)])
  }

  function AfterWrite(s: Sys, i: int, now: Millis): Sys
    requires i in s.workers && s.workers[i].Writing? && s.workers[i].written < |s.workers[i].cs|
  {
    var w := s.workers[i];
    match Put(s, w.cs[w.written].token, now, TokenLocatorTtl(s.room.limits))
    case None => s.(room := Tick(s.room, now), workers := s.workers - {i})
    case Some(locators) =>
      s.(room := Tick(s.room, now), locators := locators, workers := s.workers[i := w.(written := w.written + 1)])
  }

  /** The tokens of the candidates whose entries the answer does not name. */
  function Unissued(cs: seq<Candidate>, issued: seq<EntryId>): seq<TokenHash> {
    if cs == [] then []
    else (if cs[0].entry in issued then [] else [cs[0].token]) + Unissued(cs[1..], issued)
  }

  function AfterAdmit(s: Sys, i: int, now: Millis, req: IssueRequest, lb: seq<LeaseKey>, tb: seq<TokenHash>, heard: bool): Sys {
    var o := Issue(s.room, now, req, lb, tb);
    var issued := IssueReport(Tick(s.room, now), req, lb, tb).issued;
    if heard && o.reply == Issued then
      s.(room := o.room, workers := s.workers[i := Erasing(Unissued(req.candidates, issued))])
    else s.(room := o.room, workers := s.workers - {i})
  }

  /** ResolveTokenLocator. Without a live locator the repair ends; a locator of another
      generation sends it there, and gone says whether that generation reports a loss. */
  function AfterPresent(s: Sys, k: int, now: Millis, t: TokenHash, o: OwnerHash, b: Binding, gone: bool): Sys {
    var r := s.(room := Tick(s.room, now));
    if t !in s.locators || s.locators[t].until <= now then r
    else if s.locators[t].scope == s.scope then r.(repairs := s.repairs[k := Located(t, o, b)])
    else if gone then r.(repairs := s.repairs[k := Dropping(t)])
    else r
  }

  /** The script of FinalizeCommitted; not_found and continuity_lost lead to the erasure. */
  function AfterFinish(s: Sys, k: int, now: Millis): Sys
    requires k in s.repairs && s.repairs[k].Located?
  {
    var p := s.repairs[k];
    var out := FinalizeCommitted(s.room, now, p.token, p.owner, p.binding);
    s.(room := out.room,
       repairs := if out.reply == Refused(NotFound) || out.reply == Refused(ContinuityLost)
                  then s.repairs[k := Dropping(p.token)] else s.repairs - {k})
  }

  /** DeleteTokenLocator. */
  function AfterDrop(s: Sys, k: int): Sys
    requires k in s.repairs
  {
    s.(locators := s.locators - {s.repairs[k].token}, repairs := s.repairs - {k})
  }

  ghost function Next(s: Sys, a: Act): Sys
    requires Can(s, a)
  {
    match a
    case Other(c) => s.(room := Run1(s.room, c).room)
    case Begin(i, now, cs) =>
      s.(room := Tick(s.room, now), workers := s.workers[i := Writing(cs, 0)],
         used := s.used + set j | 0 <= j < |cs| :: cs[j].token)
    case Write(i, now) => AfterWrite(s, i, now)
    case Admit(i, now, req, lb, tb, heard) => AfterAdmit(s, i, now, req, lb, tb, heard)
    case Erase(i) =>
      s.(locators := s.locators - {s.workers[i].rest[0]}, workers := s.workers[i := Erasing(s.workers[i].rest[1..])])
    case Stop(i) => s.(workers := s.workers - {i})
    case Present(k, now, t, o, b, gone) => AfterPresent(s, k, now, t, o, b, gone)
    case Finish(k, now) => AfterFinish(s, k, now)
    case Drop(k) => AfterDrop(s, k)
    case GiveUp(k) => s.(repairs := s.repairs - {k})
    case Elsewhere(t, l) => s.(locators := s.locators[t := l], used := s.used + {t})
  }

  // ------------------------------------------------------------------ the invariant

  /** The token has a locator to its own generation that outlives the given expiry by a lease
      and the cleanup margin. */
  ghost predicate Covered(s: Sys, t: TokenHash, expiry: Millis) {
    t in s.locators && s.locators[t].scope == s.scope && expiry + s.room.limits.lease + MARGIN_MS <= s.locators[t].until
  }

  ghost predicate TokenCovered(s: Sys, t: TokenHash) {
    && (t in s.room.tokens && Active(s.room.tokens[t].status) ==> Covered(s, t, s.room.tokens[t].expiry))
    && (!FreshToken(s.room.log, t) ==> t in s.used)
  }

  /** The token belongs to a worker that has not finished with it, and nobody admitted it. */
  ghost predicate Pending(s: Sys, t: TokenHash) {
    FreshToken(s.room.log, t) && t in s.used
  }

  ghost predicate StageOk(s: Sys, w: Stage) {
    match w
    case Writing(cs, n) =>
      && n <= |cs|
      && (forall j, k :: 0 <= j < k < |cs| ==> cs[j].token != cs[k].token)
      && (forall j :: 0 <= j < |cs| ==> Pending(s, cs[j].token) && cs[j].expiresAt <= s.room.clock + s.room.limits.tokenTtl)
      && (forall j :: 0 <= j < n ==> Covered(s, cs[j].token, cs[j].expiresAt))
      && (forall j :: n <= j < |cs| ==> cs[j].token !in s.locators)
    case Erasing(rest) => forall j :: 0 <= j < |rest| ==> Pending(s, rest[j])
  }

  ghost predicate Has(w: Stage, t: TokenHash) {
    match w
    case Writing(cs, _) => Among(cs, t)
    case Erasing(rest) => t in rest
  }

  /** No two workers have the same token. */
  ghost predicate Apart(s: Sys) {
    forall i, j, t :: i in s.workers && j in s.workers && Has(s.workers[i], t) && Has(s.workers[j], t) ==> i == j
  }

  /** Every inflight token and every candidate that may still be admitted is covered. */
  ghost predicate CoverInv(s: Sys) {
    && Inv(s.room)
    && (forall t :: TokenCovered(s, t))
    && (forall i :: i in s.workers ==> StageOk(s, s.workers[i]))
    && (forall t :: t in s.locators ==> t in s.used)
    && Apart(s)
  }

  ghost predicate ActiveNow(s: Sys, t: TokenHash) {
    t in s.room.tokens && Active(s.room.tokens[t].status)
  }

  /** A worker still means to have the token admitted. */
  ghost predicate Intended(s: Sys, t: TokenHash) {
    exists i :: i in s.workers && s.workers[i].Writing? && Has(s.workers[i], t)
  }

  /** Such a worker has already written the locator. */
  ghost predicate WrittenAhead(s: Sys, t: TokenHash) {
    exists i, j :: i in s.workers && s.workers[i].Writing? && 0 <= j < s.workers[i].written <= |s.workers[i].cs|
                && s.workers[i].cs[j].token == t
  }

  /** A located bearer is of a token whose locator was written; an erasure is about to hit no
      token that is inflight or may become so. */
  ghost predicate RepairOk(s: Sys, p: Repair) {
    match p
    case Located(t, _, _) => t in s.used && (Intended(s, t) ==> WrittenAhead(s, t))
    case Dropping(t) => t in s.used && !Intended(s, t) && !ActiveNow(s, t)
  }

  ghost predicate LocInv(s: Sys) {
    CoverInv(s) && forall k :: k in s.repairs ==> RepairOk(s, s.repairs[k])
  }

  /** Nothing that concerns the worker's tokens got worse. */
  ghost predicate Steady(s: Sys, r: Sys) {
    r.scope == s.scope && r.room.limits == s.room.limits && s.room.clock <= r.room.clock && s.used <= r.used
  }

  /** The token has the locator it had, if any. */
  ghost predicate SameAt(s: Sys, r: Sys, t: TokenHash) {
    (t in r.locators <==> t in s.locators) && (t in s.locators ==> r.locators[t] == s.locators[t])
  }

  lemma StageKept(s: Sys, r: Sys, w: Stage)
    requires StageOk(s, w) && Steady(s, r)
    requires forall t :: Has(w, t) ==> FreshToken(r.room.log, t) && (w.Writing? ==> SameAt(s, r, t))
    ensures StageOk(r, w)
  {
    match w
    case Writing(cs, n) =>
      forall j | 0 <= j < |cs| ensures Pending(r, cs[j].token) && cs[j].expiresAt <= r.room.clock + r.room.limits.tokenTtl {
        assert Has(w, cs[j].token);
      }
      forall j | 0 <= j < n ensures Covered(r, cs[j].token, cs[j].expiresAt) {
        assert Has(w, cs[j].token);
      }
      forall j | n <= j < |cs| ensures cs[j].token !in r.locators {
        assert Has(w, cs[j].token);
      }
    case Erasing(rest) =>
      forall j | 0 <= j < |rest| ensures Pending(r, rest[j]) {
        assert Has(w, rest[j]);
      }
  }

  /** A worker's tokens were never admitted and are accounted for. */
  lemma StageTokens(s: Sys, w: Stage, t: TokenHash)
    requires StageOk(s, w) && Has(w, t)
    ensures Pending(s, t)
  {
    if w.Writing? {
      var j :| 0 <= j < |w.cs| && w.cs[j].token == t;
      assert Pending(s, w.cs[j].token);
    } else {
      var j :| 0 <= j < |w.rest| && w.rest[j] == t;
      assert Pending(s, w.rest[j]);
    }
  }

  /** An admitted-never token is not in the token table. */
  lemma PendingAbsent(s: Sys, t: TokenHash)
    requires Inv(s.room) && Pending(s, t)
    ensures t !in s.room.tokens
  {
    assert TokenTale(s.room, t);
  }

  /** What a call of the waiting room means for one token. */
  lemma CallEffect(s: Room, c: Call, t: TokenHash)
    requires Inv(s) && Legal(s, c)
    ensures var r := Run1(s, c).room;
            && r.limits == s.limits && s.clock <= r.clock
            && (t in r.tokens && t in s.tokens && Active(r.tokens[t].status) ==>
                  Active(s.tokens[t].status) && r.tokens[t].expiry == s.tokens[t].expiry)
            && (t in r.tokens && t !in s.tokens ==> From(Candidates(c), t, r.tokens[t].expiry))
            && (FreshToken(s.log, t) && !Among(Candidates(c), t) ==> FreshToken(r.log, t))
  {
    CallPath(s, c);
    PathLimits(s, Run1(s, c).room, false);
    CallDerived(s, c, t);
    if t in s.tokens {
      assert TokenTale(s, t);
      PathEvolves(s, Run1(s, c).room, t, false);
    }
  }

  lemma CallKeeps(s: Room, c: Call)
    requires Inv(s) && Legal(s, c)
    ensures Inv(Run1(s, c).room) && Run1(s, c).room.limits == s.limits && s.clock <= Run1(s, c).room.clock
  {
    CallPath(s, c);
    PathInv(s, Run1(s, c).room, false);
    PathLimits(s, Run1(s, c).room, false);
  }

  /** A call without candidates. */
  lemma QuietStep(s: Sys, r: Sys, c: Call)
    requires CoverInv(s) && Legal(s.room, c) && Candidates(c) == [] && r.room == Run1(s.room, c).room
    requires r.scope == s.scope && r.workers == s.workers && r.used == s.used && r.locators == s.locators
    ensures CoverInv(r)
  {
    CallKeeps(s.room, c);
    forall t ensures TokenCovered(r, t) {
      assert TokenCovered(s, t);
      CallEffect(s.room, c, t);
    }
    forall i | i in r.workers ensures StageOk(r, r.workers[i]) {
      forall t | Has(s.workers[i], t) ensures FreshToken(r.room.log, t) {
        StageTokens(s, s.workers[i], t);
        CallEffect(s.room, c, t);
      }
      StageKept(s, r, s.workers[i]);
    }
  }

  /** A step that leaves the waiting room alone but for the time, and changes one worker. */
  lemma WorkerStep(s: Sys, r: Sys, i: int)
    requires CoverInv(s) && Steady(s, r) && Inv(r.room) && r.room.tokens == s.room.tokens && r.room.log == s.room.log
    requires forall j :: j in r.workers && j != i ==> j in s.workers && r.workers[j] == s.workers[j]
    requires i in r.workers ==> StageOk(r, r.workers[i])
    requires forall t :: !SameAt(s, r, t) ==> FreshToken(s.room.log, t) && i in s.workers && Has(s.workers[i], t)
    requires forall t :: i in r.workers && Has(r.workers[i], t) ==> t !in s.used || (i in s.workers && Has(s.workers[i], t))
    ensures CoverInv(r)
  {
    forall t ensures TokenCovered(r, t) {
      assert TokenCovered(s, t) && TokenTale(s.room, t) && (SameAt(s, r, t) || FreshToken(s.room.log, t));
    }
    forall t | t in r.locators ensures t in r.used {
      if !SameAt(s, r, t) { StageTokens(s, s.workers[i], t); }
    }
    forall j | j in r.workers && j != i ensures StageOk(r, r.workers[j]) {
      forall t | Has(s.workers[j], t) ensures FreshToken(r.room.log, t) && SameAt(s, r, t) {
        StageTokens(s, s.workers[j], t);
      }
      StageKept(s, r, s.workers[j]);
    }
    forall j, k, t | j in r.workers && k in r.workers && Has(r.workers[j], t) && Has(r.workers[k], t) ensures j == k {
      if j != i { StageTokens(s, s.workers[j], t); }
      if k != i { StageTokens(s, s.workers[k], t); }
    }
  }

  // ------------------------------------------------------------------ the issue call

  lemma {:induction false} AdmitsFresh(s: Room, q: seq<EntryId>, cs: seq<Candidate>, tokenTtl: Millis, t: TokenHash)
    requires FreshToken(s.log, t)
    requires forall j :: 0 <= j < |cs| && cs[j].token == t ==> cs[j].entry !in AdmittedBy(s, q, cs, tokenTtl)
    ensures FreshToken(AdmitAll(s, q, cs, tokenTtl).log, t)
    decreases |q|
  {
    if q != [] && cs != [] && cs[0].entry == q[0] {
      var m := AdmitOne(s, cs[0], tokenTtl);
      assert cs[0].token == t ==> !Accepted(s, cs[0], tokenTtl);
      forall j | 0 <= j < |cs[1..]| && cs[1..][j].token == t
        ensures cs[1..][j].entry !in AdmittedBy(m, q[1..], cs[1..], tokenTtl)
      {
        assert cs[j + 1].token == t;
      }
      AdmitsFresh(m, q[1..], cs[1..], tokenTtl, t);
    }
  }

  /** A candidate that the answer does not name was not admitted. */
  lemma UnnamedIsFresh(s: Room, now: Millis, req: IssueRequest, lb: seq<LeaseKey>, tb: seq<TokenHash>, t: TokenHash)
    requires Guard(s).None? && FreshToken(s.log, t)
    requires forall j :: 0 <= j < |req.candidates| && req.candidates[j].token == t ==>
               req.candidates[j].entry !in IssueReport(Tick(s, now), req, lb, tb).issued
    ensures FreshToken(Issue(s, now, req, lb, tb).room.log, t)
  {
    SweptFrame(s, now, req, lb, tb);
    var m := Swept(s, now, req, lb, tb);
    AdmitsFresh(m, Head(m.queue, Capacity(m, req)), req.candidates, req.tokenTtl, t);
  }

  lemma {:induction false} UnissuedTokens(cs: seq<Candidate>, issued: seq<EntryId>, t: TokenHash) returns (j: int)
    requires t in Unissued(cs, issued)
    ensures 0 <= j < |cs| && cs[j].token == t && cs[j].entry !in issued
  {
    if cs[0].entry !in issued && cs[0].token == t {
      j := 0;
    } else {
      j := UnissuedTokens(cs[1..], issued, t);
      j := j + 1;
    }
  }

  lemma AdmitWorker(s: Sys, i: int, now: Millis, req: IssueRequest, lb: seq<LeaseKey>, tb: seq<TokenHash>, heard: bool)
    requires CoverInv(s) && Can(s, Admit(i, now, req, lb, tb, heard))
    ensures var r := AfterAdmit(s, i, now, req, lb, tb, heard);
            i in r.workers ==> StageOk(r, r.workers[i]) && forall t :: Has(r.workers[i], t) ==> Has(s.workers[i], t)
  {
    var r := AfterAdmit(s, i, now, req, lb, tb, heard);
    if i in r.workers {
      var issued := IssueReport(Tick(s.room, now), req, lb, tb).issued;
      forall t | t in Unissued(req.candidates, issued) ensures Pending(r, t) && Has(s.workers[i], t) {
        UnissuedPending(s, i, now, req, lb, tb, t);
      }
    }
  }

  lemma UnissuedPending(s: Sys, i: int, now: Millis, req: IssueRequest, lb: seq<LeaseKey>, tb: seq<TokenHash>, t: TokenHash)
    requires i in s.workers && s.workers[i].Writing? && req.candidates == s.workers[i].cs && StageOk(s, s.workers[i])
    requires Guard(s.room).None? && t in Unissued(req.candidates, IssueReport(Tick(s.room, now), req, lb, tb).issued)
    ensures Has(s.workers[i], t) && t in s.used && FreshToken(Issue(s.room, now, req, lb, tb).room.log, t)
  {
    var j := UnissuedTokens(req.candidates, IssueReport(Tick(s.room, now), req, lb, tb).issued, t);
    assert Has(s.workers[i], t);
    StageTokens(s, s.workers[i], t);
    UnissuedOnce(s, s.workers[i], j);
    UnnamedIsFresh(s.room, now, req, lb, tb, t);
  }

  /** No other candidate has the token. */
  lemma UnissuedOnce(s: Sys, w: Stage, j: int)
    requires w.Writing? && StageOk(s, w) && 0 <= j < |w.cs|
    ensures forall k :: 0 <= k < |w.cs| && w.cs[k].token == w.cs[j].token ==> k == j
  {
    forall k | 0 <= k < |w.cs| && k != j ensures w.cs[k].token != w.cs[j].token {
      if k < j { assert w.cs[k].token != w.cs[j].token; } else { assert w.cs[j].token != w.cs[k].token; }
    }
  }

  lemma AdmitCovers(s: Sys, r: Sys, i: int, c: Call, t: TokenHash)
    requires CoverInv(s) && Legal(s.room, c) && r.room == Run1(s.room, c).room
    requires r.scope == s.scope && r.locators == s.locators && r.used == s.used
    requires i in s.workers && s.workers[i] == Writing(Candidates(c), |Candidates(c)|)
    ensures TokenCovered(r, t)
  {
    assert TokenCovered(s, t) && StageOk(s, s.workers[i]);
    CallEffect(s.room, c, t);
    if Among(Candidates(c), t) {
      assert Has(s.workers[i], t);
      StageTokens(s, s.workers[i], t);
    }
  }

  lemma AdmitStep(s: Sys, i: int, now: Millis, req: IssueRequest, lb: seq<LeaseKey>, tb: seq<TokenHash>, heard: bool)
    requires CoverInv(s) && Can(s, Admit(i, now, req, lb, tb, heard))
    ensures CoverInv(AfterAdmit(s, i, now, req, lb, tb, heard))
  {
    var r, c := AfterAdmit(s, i, now, req, lb, tb, heard), CallIssue(now, req, lb, tb);
    CallKeeps(s.room, c);
    AdmitWorker(s, i, now, req, lb, tb, heard);
    AdmitFrame(s, i, now, req, lb, tb, heard, r);
    assert StageOk(s, s.workers[i]);
    AdmitAround(s, r, i, c);
  }

  /** What the issue call leaves alone. */
  lemma AdmitFrame(s: Sys, i: int, now: Millis, req: IssueRequest, lb: seq<LeaseKey>, tb: seq<TokenHash>, heard: bool, r: Sys)
    requires r == AfterAdmit(s, i, now, req, lb, tb, heard)
    ensures r.scope == s.scope && r.locators == s.locators && r.used == s.used && r.room == Issue(s.room, now, req, lb, tb).room
    ensures forall j :: j in r.workers && j != i ==> j in s.workers && r.workers[j] == s.workers[j]
  {
  }

  lemma AdmitAround(s: Sys, r: Sys, i: int, c: Call)
    requires CoverInv(s) && Legal(s.room, c) && r.room == Run1(s.room, c).room && Inv(r.room)
    requires Steady(s, r) && r.locators == s.locators && r.used == s.used
    requires i in s.workers && s.workers[i] == Writing(Candidates(c), |Candidates(c)|)
    requires forall j :: j in r.workers && j != i ==> j in s.workers && r.workers[j] == s.workers[j]
    requires i in r.workers ==> StageOk(r, r.workers[i]) && forall t :: Has(r.workers[i], t) ==> Has(s.workers[i], t)
    ensures CoverInv(r)
  {
    forall t ensures TokenCovered(r, t) {
      AdmitCovers(s, r, i, c, t);
    }
    forall j | j in r.workers && j != i ensures StageOk(r, r.workers[j]) {
      AdmitOther(s, r, i, j, c);
    }
  }

  /** A worker's tokens are nobody else's candidates. */
  lemma NotAmong(s: Sys, i: int, j: int, t: TokenHash)
    requires Apart(s) && i in s.workers && j in s.workers && i != j && Has(s.workers[j], t) && s.workers[i].Writing?
    ensures !Among(s.workers[i].cs, t)
  {
    if Has(s.workers[i], t) {
      assert false;
    }
  }

  lemma AdmitOther(s: Sys, r: Sys, i: int, j: int, c: Call)
    requires CoverInv(s) && Legal(s.room, c) && r.room == Run1(s.room, c).room && Steady(s, r) && r.locators == s.locators
    requires i in s.workers && s.workers[i].Writing? && Candidates(c) == s.workers[i].cs && j in s.workers && i != j
    ensures StageOk(r, s.workers[j])
  {
    forall t | Has(s.workers[j], t) ensures FreshToken(r.room.log, t) {
      StageTokens(s, s.workers[j], t);
      NotAmong(s, i, j, t);
      CallEffect(s.room, c, t);
    }
    StageKept(s, r, s.workers[j]);
  }

  // ------------------------------------------------------------------ the other steps

  lemma BeginStep(s: Sys, i: int, now: Millis, cs: seq<Candidate>)
    requires CoverInv(s) && Can(s, Begin(i, now, cs))
    ensures CoverInv(Next(s, Begin(i, now, cs)))
  {
    var r := Next(s, Begin(i, now, cs));
    TickPath(s.room, now, false);
    PathInv(s.room, r.room, false);
    BeginOk(s, i, now, cs, r);
    WorkerStep(s, r, i);
  }

  lemma BeginOk(s: Sys, i: int, now: Millis, cs: seq<Candidate>, r: Sys)
    requires CoverInv(s) && Can(s, Begin(i, now, cs)) && r == Next(s, Begin(i, now, cs))
    ensures Steady(s, r) && r.workers == s.workers[i := Writing(cs, 0)] && StageOk(r, r.workers[i])
    ensures r.locators == s.locators && r.room == Tick(s.room, now)
    ensures forall t :: Has(r.workers[i], t) ==> t !in s.used
  {
    forall j | 0 <= j < |cs| ensures Pending(r, cs[j].token) {
      assert TokenCovered(s, cs[j].token);
    }
  }

  lemma WriteStep(s: Sys, i: int, now: Millis)
    requires CoverInv(s) && Can(s, Write(i, now))
    ensures CoverInv(AfterWrite(s, i, now))
  {
    var r, w := AfterWrite(s, i, now), s.workers[i];
    TickPath(s.room, now, false);
    PathInv(s.room, r.room, false);
    WriteTurn(s, i, now, r, w);
    WorkerStep(s, r, i);
  }

  /** What the write changes: the locator of the next candidate. */
  lemma WriteTurn(s: Sys, i: int, now: Millis, r: Sys, w: Stage)
    requires CoverInv(s) && Can(s, Write(i, now)) && r == AfterWrite(s, i, now) && w == s.workers[i]
    ensures i in r.workers ==> StageOk(r, r.workers[i]) && forall t :: Has(r.workers[i], t) <==> Has(w, t)
    ensures forall t :: !SameAt(s, r, t) ==> FreshToken(s.room.log, t) && Has(w, t)
  {
    var t := w.cs[w.written].token;
    assert StageOk(s, w) && Has(w, t);
    StageTokens(s, w, t);
    if i in r.workers {
      WrittenOk(s, r, w);
    }
  }

  lemma WrittenOk(s: Sys, r: Sys, w: Stage)
    requires w.Writing? && w.written < |w.cs| && StageOk(s, w) && Steady(s, r) && r.room.log == s.room.log
    requires r.locators == s.locators[w.cs[w.written].token := Locator(s.scope, r.room.clock + TokenLocatorTtl(s.room.limits))]
    ensures StageOk(r, w.(written := w.written + 1))
  {
    forall j | 0 <= j < |w.cs|
      ensures Pending(r, w.cs[j].token) && w.cs[j].expiresAt <= r.room.clock + r.room.limits.tokenTtl
    {
      assert Pending(s, w.cs[j].token);
    }
    forall j | w.written + 1 <= j < |w.cs| ensures w.cs[j].token !in r.locators {
      assert w.cs[j].token != w.cs[w.written].token;
    }
    forall j | 0 <= j < w.written + 1 ensures Covered(r, w.cs[j].token, w.cs[j].expiresAt) {
      if j < w.written {
        assert w.cs[j].token != w.cs[w.written].token;
        assert Covered(s, w.cs[j].token, w.cs[j].expiresAt);
      } else {
        assert Pending(s, w.cs[j].token);
      }
    }
  }

  lemma EraseStep(s: Sys, i: int)
    requires CoverInv(s) && Can(s, Erase(i))
    ensures CoverInv(Next(s, Erase(i)))
  {
    var r, w := Next(s, Erase(i)), s.workers[i];
    assert StageOk(s, w) && Pending(s, w.rest[0]);
    forall j | 0 <= j < |w.rest[1..]| ensures Pending(r, w.rest[1..][j]) {
      assert Pending(s, w.rest[j + 1]);
    }
    WorkerStep(s, r, i);
  }

  lemma StopStep(s: Sys, i: int)
    requires CoverInv(s) && Can(s, Stop(i))
    ensures CoverInv(Next(s, Stop(i)))
  {
    WorkerStep(s, Next(s, Stop(i)), i);
  }

  lemma ElsewhereStep(s: Sys, t: TokenHash, l: Locator)
    requires CoverInv(s) && Can(s, Elsewhere(t, l))
    ensures CoverInv(Next(s, Elsewhere(t, l)))
  {
    var r := Next(s, Elsewhere(t, l));
    forall u ensures TokenCovered(r, u) {
      assert TokenCovered(s, u) && TokenTale(s.room, u);
    }
    forall i | i in r.workers ensures StageOk(r, r.workers[i]) {
      forall u | Has(s.workers[i], u) ensures FreshToken(r.room.log, u) && SameAt(s, r, u) {
        StageTokens(s, s.workers[i], u);
      }
      StageKept(s, r, s.workers[i]);
    }
  }

  /** A locator may go when its token is not inflight and no worker has written it ahead. */
  ghost predicate SafeDrop(s: Sys, t: TokenHash) {
    !ActiveNow(s, t) && !WrittenAhead(s, t)
  }

  lemma DropStep(s: Sys, k: int)
    requires CoverInv(s) && Can(s, Drop(k)) && SafeDrop(s, s.repairs[k].token)
    ensures CoverInv(AfterDrop(s, k))
  {
    var r, t := AfterDrop(s, k), s.repairs[k].token;
    forall u ensures TokenCovered(r, u) { assert TokenCovered(s, u); }
    forall i | i in r.workers ensures StageOk(r, r.workers[i]) { DropStage(s, r, i, t); }
  }

  lemma DropStage(s: Sys, r: Sys, i: int, t: TokenHash)
    requires CoverInv(s) && i in s.workers && !WrittenAhead(s, t) && r == s.(locators := s.locators - {t}, repairs := r.repairs)
    ensures StageOk(r, s.workers[i])
  {
    var w := s.workers[i];
    assert StageOk(s, w);
    if w.Writing? {
      forall j | 0 <= j < w.written ensures Covered(r, w.cs[j].token, w.cs[j].expiresAt) {
        assert w.cs[j].token != t;
        assert Covered(s, w.cs[j].token, w.cs[j].expiresAt);
      }
      forall j | 0 <= j < |w.cs| ensures Pending(r, w.cs[j].token) { assert Pending(s, w.cs[j].token); }
    } else {
      forall j | 0 <= j < |w.rest| ensures Pending(r, w.rest[j]) { assert Pending(s, w.rest[j]); }
    }
  }

  /** Time passes. */
  lemma TickStep(s: Sys, r: Sys, now: Millis)
    requires CoverInv(s) && s.room.clock <= now && r == s.(room := Tick(s.room, now), repairs := r.repairs)
    ensures CoverInv(r)
  {
    TickPath(s.room, now, false);
    PathInv(s.room, r.room, false);
    forall u ensures TokenCovered(r, u) { assert TokenCovered(s, u); }
    forall i | i in r.workers ensures StageOk(r, r.workers[i]) {
      forall u | Has(s.workers[i], u) ensures FreshToken(r.room.log, u) && SameAt(s, r, u) {
        StageTokens(s, s.workers[i], u);
      }
      StageKept(s, r, s.workers[i]);
    }
  }

  /** The act is not the erasure of a locator that is still needed. */
  ghost predicate Harmless(s: Sys, a: Act)
    requires Can(s, a)
  {
    a.Drop? ==> SafeDrop(s, s.repairs[a.id].token)
  }

  /** Every act but an erasure keeps the cover, and an erasure does when it is harmless. */
  lemma CoverKept(s: Sys, a: Act)
    requires CoverInv(s) && Can(s, a) && Harmless(s, a)
    ensures CoverInv(Next(s, a))
  {
    match a
    case Other(c) => QuietStep(s, Next(s, a), c);
    case Begin(i, now, cs) => BeginStep(s, i, now, cs);
    case Write(i, now) => WriteStep(s, i, now);
    case Admit(i, now, req, lb, tb, heard) => AdmitStep(s, i, now, req, lb, tb, heard);
    case Erase(i) => EraseStep(s, i);
    case Stop(i) => StopStep(s, i);
    case Present(k, now, t, o, b, gone) => TickStep(s, Next(s, a), now);
    case Finish(k, now) =>
      var p := s.repairs[k];
      QuietStep(s, Next(s, a), CallRepair(now, p.token, p.owner, p.binding));
    case Drop(k) => DropStep(s, k);
    case GiveUp(k) => assert Tick(s.room, s.room.clock) == s.room; TickStep(s, Next(s, a), s.room.clock);
    case Elsewhere(t, l) => ElsewhereStep(s, t, l);
  }

  // ------------------------------------------------------------------ repairs

  /** Workers mean to have no more tokens admitted than before, but for new ones, and what they
      wrote stays written. */
  ghost predicate Intends(s: Sys, r: Sys, t: TokenHash) {
    && s.used <= r.used
    && (Intended(r, t) ==> Intended(s, t))
    && (Intended(r, t) && WrittenAhead(s, t) ==> WrittenAhead(r, t))
  }

  /** Where a writing worker comes from: it began with new tokens, or wrote before. */
  lemma WorkerPast(s: Sys, a: Act, i: int)
    requires Can(s, a) && i in Next(s, a).workers && Next(s, a).workers[i].Writing?
    requires i in s.workers && s.workers[i].Writing? ==> s.workers[i].written <= |s.workers[i].cs|
    ensures var w := Next(s, a).workers[i];
            || (a.Begin? && a.id == i && w.cs == a.cs)
            || (i in s.workers && s.workers[i].Writing? && s.workers[i].cs == w.cs
                && s.workers[i].written <= w.written <= |w.cs|)
  {
    match a
    case Begin(_, _, _) =>
    case Write(j, now) => WritePast(s, j, now, i);
    case Admit(_, _, _, _, _, _) =>
    case Erase(_) =>
    case Stop(_) =>
    case _ => SameWorkers(s, a);
  }

  lemma WritePast(s: Sys, j: int, now: Millis, i: int)
    requires Can(s, Write(j, now)) && i in AfterWrite(s, j, now).workers
    ensures i in s.workers
    ensures var w := AfterWrite(s, j, now).workers[i];
            w == s.workers[i] || (i == j && w == s.workers[i].(written := s.workers[i].written + 1))
  {
  }

  lemma SameWorkers(s: Sys, a: Act)
    requires Can(s, a) && !a.Begin? && !a.Write? && !a.Admit? && !a.Erase? && !a.Stop?
    ensures Next(s, a).workers == s.workers
  {
  }

  lemma UsedGrows(s: Sys, a: Act)
    requires Can(s, a)
    ensures s.used <= Next(s, a).used
  {
  }

  /** What a step does to the workers' intentions. */
  lemma IntentionsKept(s: Sys, a: Act, t: TokenHash)
    requires CoverInv(s) && Can(s, a) && t in s.used
    ensures Intends(s, Next(s, a), t)
  {
    var r := Next(s, a);
    UsedGrows(s, a);
    if Intended(r, t) {
      var i :| i in r.workers && r.workers[i].Writing? && Has(r.workers[i], t);
      assert i in s.workers ==> StageOk(s, s.workers[i]);
      WorkerPast(s, a, i);
      IntendedBefore(s, r, i, t);
    }
  }

  lemma IntendedBefore(s: Sys, r: Sys, i: int, t: TokenHash)
    requires Apart(s) && i in r.workers && r.workers[i].Writing? && Has(r.workers[i], t)
    requires i in s.workers && s.workers[i].Writing? && s.workers[i].cs == r.workers[i].cs
    requires s.workers[i].written <= r.workers[i].written <= |r.workers[i].cs|
    ensures Intended(s, t) && (WrittenAhead(s, t) ==> WrittenAhead(r, t))
  {
    assert Has(s.workers[i], t);
    if WrittenAhead(s, t) {
      WrittenByOne(s, t, i);
      var j :| 0 <= j < s.workers[i].written <= |s.workers[i].cs| && s.workers[i].cs[j].token == t;
      assert 0 <= j < r.workers[i].written <= |r.workers[i].cs| && r.workers[i].cs[j].token == t;
    }
  }

  /** The worker that has the token is the one that wrote its locator. */
  lemma WrittenByOne(s: Sys, t: TokenHash, i: int)
    requires Apart(s) && WrittenAhead(s, t) && i in s.workers && Has(s.workers[i], t)
    ensures s.workers[i].Writing?
    ensures exists j :: 0 <= j < s.workers[i].written <= |s.workers[i].cs| && s.workers[i].cs[j].token == t
  {
    var m, j :| m in s.workers && s.workers[m].Writing? && 0 <= j < s.workers[m].written <= |s.workers[m].cs|
                && s.workers[m].cs[j].token == t;
    assert Has(s.workers[m], t);
  }

  lemma UnintendedNotAmong(s: Sys, i: int, t: TokenHash)
    requires i in s.workers && s.workers[i].Writing? && !Intended(s, t)
    ensures !Among(s.workers[i].cs, t)
  {
    assert !Has(s.workers[i], t);
  }

  /** The call of the waiting room that an act makes, if it makes one. */
  function RoomCall(s: Sys, a: Act): Option<Call> {
    match a
    case Other(c) => Some(c)
    case Admit(_, now, req, lb, tb, _) => Some(CallIssue(now, req, lb, tb))
    case Finish(k, now) =>
      if k in s.repairs && s.repairs[k].Located?
      then Some(CallRepair(now, s.repairs[k].token, s.repairs[k].owner, s.repairs[k].binding)) else None
    case _ => None
  }

  lemma RoomPast(s: Sys, a: Act, t: TokenHash)
    requires Can(s, a)
    ensures match RoomCall(s, a)
            case Some(c) => Legal(s.room, c) && Next(s, a).room == Run1(s.room, c).room
            case None => Next(s, a).room.tokens == s.room.tokens
    ensures RoomCall(s, a).Some? && !Intended(s, t) ==> !Among(Candidates(RoomCall(s, a).value), t)
  {
    if RoomCall(s, a).Some? {
      RoomCalls(s, a);
      if a.Admit? && !Intended(s, t) { UnintendedNotAmong(s, a.id, t); }
    } else {
      SameTokens(s, a);
    }
  }

  lemma RoomCalls(s: Sys, a: Act)
    requires Can(s, a) && RoomCall(s, a).Some?
    ensures Legal(s.room, RoomCall(s, a).value) && Next(s, a).room == Run1(s.room, RoomCall(s, a).value).room
  {
    match a
    case Other(_) =>
    case Admit(_, _, _, _, _, _) =>
    case Finish(_, _) =>
  }

  lemma SameTokens(s: Sys, a: Act)
    requires Can(s, a) && !a.Other? && !a.Admit? && !a.Finish?
    ensures Next(s, a).room.tokens == s.room.tokens
  {
    match a
    case Begin(_, now, _) => assert Next(s, a).room == Tick(s.room, now);
    case Write(_, now) => assert Next(s, a).room == Tick(s.room, now);
    case Present(_, now, _, _, _, _) => assert Next(s, a).room == Tick(s.room, now);
    case Other(_) =>
    case Admit(_, _, _, _, _, _) =>
    case Finish(_, _) =>
    case _ => assert Next(s, a).room == s.room;
  }

  /** Nobody but a worker makes a token inflight, and only one it has. */
  lemma ActiveKept(s: Sys, a: Act, t: TokenHash)
    requires Inv(s.room) && Can(s, a) && !Intended(s, t) && !ActiveNow(s, t)
    ensures !ActiveNow(Next(s, a), t)
  {
    RoomPast(s, a, t);
    if RoomCall(s, a).Some? { CallActivates(s.room, RoomCall(s, a).value, t); }
  }

  lemma CallActivates(s: Room, c: Call, t: TokenHash)
    requires Inv(s) && Legal(s, c) && !Among(Candidates(c), t) && !(t in s.tokens && Active(s.tokens[t].status))
    ensures !(t in Run1(s, c).room.tokens && Active(Run1(s, c).room.tokens[t].status))
  {
    CallEffect(s, c, t);
  }

  /** What was settled about a repair stays settled. */
  lemma RepairKept(s: Sys, a: Act, p: Repair)
    requires CoverInv(s) && Can(s, a) && RepairOk(s, p)
    ensures RepairOk(Next(s, a), p)
  {
    IntentionsKept(s, a, p.token);
    if p.Dropping? { ActiveKept(s, a, p.token); }
  }

  /** The lookup finds a locator only of a token that was written ahead or that is past it. */
  lemma PresentOk(s: Sys, k: int, now: Millis, t: TokenHash, o: OwnerHash, b: Binding, gone: bool)
    requires CoverInv(s) && Can(s, Present(k, now, t, o, b, gone))
    ensures var r := AfterPresent(s, k, now, t, o, b, gone); k in r.repairs ==> RepairOk(r, r.repairs[k])
  {
    var r := AfterPresent(s, k, now, t, o, b, gone);
    if k in r.repairs {
      assert TokenCovered(s, t);
      if Intended(r, t) {
        var i :| i in r.workers && r.workers[i].Writing? && Has(r.workers[i], t);
        var w := s.workers[i];
        assert StageOk(s, w);
        var j :| 0 <= j < |w.cs| && w.cs[j].token == t;
        assert j < w.written && Covered(s, w.cs[j].token, w.cs[j].expiresAt);
      }
    }
  }

  // ------------------------------------------------------------------ the exact condition

  /** The script of a repair may run: no worker is about to have the token admitted, and the
      continuity marker is there if the token is inflight. */
  ghost predicate SafeRepair(s: Sys, t: TokenHash) {
    !Intended(s, t) && (ActiveNow(s, t) ==> s.room.continuity == Some(s.room.version))
  }

  ghost predicate Careful(s: Sys, a: Act)
    requires Can(s, a)
  {
    a.Finish? ==> SafeRepair(s, s.repairs[a.id].token)
  }

  lemma IntendedAbsent(s: Sys, t: TokenHash)
    requires CoverInv(s) && Intended(s, t)
    ensures t !in s.room.tokens
  {
    var i :| i in s.workers && s.workers[i].Writing? && Has(s.workers[i], t);
    assert StageOk(s, s.workers[i]);
    StageTokens(s, s.workers[i], t);
    PendingAbsent(s, t);
  }

  /** The erasure that the script leads to, if it leads to one, is harmless at that moment if and
      only if the script was safe to run; and only then is it harmless at any later moment too. */
  lemma FinishExactly(s: Sys, k: int, now: Millis)
    requires LocInv(s) && Can(s, Finish(k, now))
    ensures var r := AfterFinish(s, k, now);
            && ((k in r.repairs ==> SafeDrop(r, s.repairs[k].token)) <==> SafeRepair(s, s.repairs[k].token))
            && (SafeRepair(s, s.repairs[k].token) ==> LocInv(r))
  {
    var r, t := AfterFinish(s, k, now), s.repairs[k].token;
    FinishReply(s, k, now);
    assert RepairOk(s, s.repairs[k]);
    if WrittenAhead(s, t) { WrittenIsIntended(s, t); }
    if SafeRepair(s, t) { FinishKeeps(s, k, now); }
  }

  lemma FinishKeeps(s: Sys, k: int, now: Millis)
    requires LocInv(s) && Can(s, Finish(k, now)) && SafeRepair(s, s.repairs[k].token)
    ensures LocInv(AfterFinish(s, k, now))
  {
    var a, r, t := Finish(k, now), AfterFinish(s, k, now), s.repairs[k].token;
    CoverKept(s, a);
    forall m | m in r.repairs && m != k ensures RepairOk(r, r.repairs[m]) { RepairKept(s, a, s.repairs[m]); }
    FinishReply(s, k, now);
    if k in r.repairs {
      IntentionsKept(s, a, t);
      ActiveKept(s, a, t);
    }
  }

  /** When the script leads to an erasure; then it changed nothing. */
  lemma FinishReply(s: Sys, k: int, now: Millis)
    requires LocInv(s) && Can(s, Finish(k, now))
    ensures var r, t := AfterFinish(s, k, now), s.repairs[k].token;
            && (k in r.repairs <==> s.room.continuity != Some(s.room.version) || t !in s.room.tokens)
            && (k in r.repairs ==> r == s.(repairs := s.repairs[k := Dropping(t)]))
            && (Intended(s, t) ==> k in r.repairs)
  {
    var t := s.repairs[k].token;
    if Intended(s, t) { IntendedAbsent(s, t); }
  }

  /** What an unsafe script costs: after its erasure an inflight token, or a candidate that was
      written ahead, has no locator. */
  lemma UnsafeFinishUncovers(s: Sys, k: int, now: Millis)
    requires LocInv(s) && Can(s, Finish(k, now)) && !SafeRepair(s, s.repairs[k].token)
    ensures var t, r := s.repairs[k].token, AfterFinish(s, k, now);
            && k in r.repairs && t !in AfterDrop(r, k).locators
            && AfterDrop(r, k).room == s.room && AfterDrop(r, k).workers == s.workers
            && (ActiveNow(s, t) || WrittenAhead(s, t))
  {
    FinishReply(s, k, now);
    assert RepairOk(s, s.repairs[k]);
  }

  /** A candidate whose locator was erased in this way is stranded as soon as it is admitted. */
  lemma AdmittedWithoutLocator(s: Sys, i: int, now: Millis, req: IssueRequest, lb: seq<LeaseKey>, tb: seq<TokenHash>, heard: bool, t: TokenHash)
    requires Inv(s.room) && Can(s, Admit(i, now, req, lb, tb, heard)) && Pending(s, t) && t !in s.locators
    requires t in AfterAdmit(s, i, now, req, lb, tb, heard).room.tokens
    ensures var r := AfterAdmit(s, i, now, req, lb, tb, heard); ActiveNow(r, t) && t !in r.locators
  {
    PendingAbsent(s, t);
    CallDerived(s.room, CallIssue(now, req, lb, tb), t);
  }

  // ------------------------------------------------------------------ single commands

  /** A live locator of another generation is never overwritten: the write stops its worker instead.
      Otherwise the locator names this generation, from now on for a token's life, a lease and the
      margin. */
  lemma WriteAnswers(s: Sys, i: int, now: Millis)
    requires Can(s, Write(i, now))
    ensures var w, r := s.workers[i], AfterWrite(s, i, now);
            var t := w.cs[w.written].token;
            && r.locators - {t} == s.locators - {t} && r.repairs == s.repairs
            && if t in s.locators && now < s.locators[t].until && s.locators[t].scope != s.scope
               then r.locators == s.locators && i !in r.workers
               else
                 && t in r.locators && r.locators[t].scope == s.scope
                 && r.locators[t].until == now + s.room.limits.tokenTtl + s.room.limits.lease + 300_000
                 && i in r.workers && r.workers[i] == w.(written := w.written + 1)
  {
    var w := s.workers[i];
    var t := w.cs[w.written].token;
    assert AfterWrite(s, i, now).locators - {t} == s.locators - {t};
  }

  /** A repair goes on exactly when the bearer's locator is live; it runs its script here exactly when
      the locator names this generation. */
  lemma PresentAnswers(s: Sys, k: int, now: Millis, t: TokenHash, o: OwnerHash, b: Binding, gone: bool)
    requires Can(s, Present(k, now, t, o, b, gone))
    ensures var r := AfterPresent(s, k, now, t, o, b, gone);
            var live := t in s.locators && now < s.locators[t].until;
            && r.locators == s.locators && r.workers == s.workers && r.room == s.room.(clock := now)
            && (k in r.repairs && r.repairs[k] == Located(t, o, b) <==> live && s.locators[t].scope == s.scope)
            && (k in r.repairs && r.repairs[k] == Dropping(t) <==> live && s.locators[t].scope != s.scope && gone)
  {
  }

  // ------------------------------------------------------------------ whole runs

  ghost predicate Fresh(s: Sys) {
    && ValidLimits(s.room.limits) && 0 <= s.room.clock
    && s.room == EmptyRoom(s.room.version, s.room.limits, s.room.clock)
    && s.workers == map[] && s.repairs == map[] && s.locators.Keys <= s.used
  }

  ghost predicate Goes(states: seq<Sys>, acts: seq<Act>, i: nat)
    requires i < |acts| < |states|
  {
    Can(states[i], acts[i]) && states[i + 1] == Next(states[i], acts[i])
  }

  ghost predicate SysRun(states: seq<Sys>, acts: seq<Act>) {
    |states| == |acts| + 1 && Fresh(states[0]) && forall i :: 0 <= i < |acts| ==> Goes(states, acts, i)
  }

  /** An act that can happen prolongs a run. */
  lemma RunLonger(states: seq<Sys>, acts: seq<Act>, a: Act, r: Sys)
    requires SysRun(states, acts) && Can(states[|acts|], a) && r == Next(states[|acts|], a)
    ensures SysRun(states + [r], acts + [a])
  {
    var more, all := states + [r], acts + [a];
    forall i | 0 <= i < |all| ensures Goes(more, all, i) {
      if i < |acts| { assert Goes(states, acts, i); }
    }
  }

  /** A careful step keeps the invariant. */
  lemma ActKeeps(s: Sys, a: Act)
    requires LocInv(s) && Can(s, a) && Careful(s, a)
    ensures LocInv(Next(s, a))
  {
    if a.Finish? {
      FinishKeeps(s, a.id, a.now);
    } else {
      CommandKeeps(s, a);
    }
  }

  lemma CommandKeeps(s: Sys, a: Act)
    requires LocInv(s) && Can(s, a) && !a.Finish?
    ensures LocInv(Next(s, a))
  {
    if a.Drop? { DroppingIsSafe(s, a.id); }
    CoverKept(s, a);
    forall m | m in Next(s, a).repairs ensures RepairOk(Next(s, a), Next(s, a).repairs[m]) {
      RepairPast(s, a, m);
      if a.Present? && a.id == m {
        PresentOk(s, m, a.now, a.token, a.owner, a.binding, a.gone);
      } else {
        RepairKept(s, a, s.repairs[m]);
      }
    }
  }

  lemma RepairPast(s: Sys, a: Act, m: int)
    requires Can(s, a) && !a.Finish? && m in Next(s, a).repairs
    ensures (a.Present? && a.id == m) || (m in s.repairs && Next(s, a).repairs[m] == s.repairs[m])
  {
    match a
    case Present(_, _, _, _, _, _) =>
    case Finish(_, _) =>
    case Drop(_) =>
    case GiveUp(_) =>
    case _ => assert Next(s, a).repairs == s.repairs;
  }

  lemma FreshInv(s: Sys)
    requires Fresh(s)
    ensures LocInv(s)
  {
    EmptyInv(s.room.version, s.room.limits, s.room.clock);
  }

  /** Act i happens, and a repair script among them when it is safe. */
  ghost predicate GoesWell(states: seq<Sys>, acts: seq<Act>, i: nat)
    requires i < |acts| < |states|
  {
    Goes(states, acts, i) && Careful(states[i], acts[i])
  }

  ghost predicate CarefulUntil(states: seq<Sys>, acts: seq<Act>, n: nat)
    requires n <= |acts| < |states|
  {
    forall i :: 0 <= i < n ==> GoesWell(states, acts, i)
  }

  lemma GoesInv(states: seq<Sys>, acts: seq<Act>, i: nat)
    requires i < |acts| < |states| && LocInv(states[i]) && GoesWell(states, acts, i)
    ensures LocInv(states[i + 1])
  {
    ActKeeps(states[i], acts[i]);
  }

  lemma {:induction false} InvAlong(states: seq<Sys>, acts: seq<Act>, n: nat)
    requires n <= |acts| < |states| && LocInv(states[0]) && CarefulUntil(states, acts, n)
    ensures LocInv(states[n])
    decreases n
  {
    if n > 0 {
      InvAlong(states, acts, n - 1);
      GoesInv(states, acts, n - 1);
    }
  }

  lemma SysRunInv(states: seq<Sys>, acts: seq<Act>, n: nat)
    requires SysRun(states, acts) && n < |states| && CarefulUntil(states, acts, n)
    ensures LocInv(states[n])
  {
    FreshInv(states[0]);
    InvAlong(states, acts, n);
  }

  /** Every inflight token and every candidate that was written ahead has its locator. */
  ghost predicate AllCovered(s: Sys) {
    && (forall t :: ActiveNow(s, t) ==> Covered(s, t, s.room.tokens[t].expiry))
    && (forall i, j :: WrittenBy(s, i, j) ==> Covered(s, s.workers[i].cs[j].token, s.workers[i].cs[j].expiresAt))
  }

  /** Worker i has written the locator of its candidate j. */
  ghost predicate WrittenBy(s: Sys, i: int, j: int) {
    i in s.workers && s.workers[i].Writing? && 0 <= j < s.workers[i].written <= |s.workers[i].cs|
  }

  lemma InvCovers(s: Sys)
    requires CoverInv(s)
    ensures AllCovered(s)
  {
    forall t | ActiveNow(s, t) ensures Covered(s, t, s.room.tokens[t].expiry) { assert TokenCovered(s, t); }
    forall i, j | WrittenBy(s, i, j) ensures Covered(s, s.workers[i].cs[j].token, s.workers[i].cs[j].expiresAt) {
      assert StageOk(s, s.workers[i]);
    }
  }

  /** An erasure leaves everything covered if and only if the token is not inflight and was not
      written ahead. */
  lemma DropExactly(s: Sys, k: int)
    requires CoverInv(s) && Can(s, Drop(k))
    ensures AllCovered(AfterDrop(s, k)) <==> SafeDrop(s, s.repairs[k].token)
  {
    var r, t := AfterDrop(s, k), s.repairs[k].token;
    if SafeDrop(s, t) {
      DropStep(s, k);
      InvCovers(r);
    } else if ActiveNow(s, t) {
      assert ActiveNow(r, t) && !Covered(r, t, r.room.tokens[t].expiry);
    } else {
      var i, j :| i in s.workers && s.workers[i].Writing? && 0 <= j < s.workers[i].written <= |s.workers[i].cs|
                  && s.workers[i].cs[j].token == t;
      assert WrittenBy(r, i, j) && !Covered(r, t, r.workers[i].cs[j].expiresAt);
    }
  }

  ghost predicate HarmlessAt(states: seq<Sys>, acts: seq<Act>, i: nat)
    requires i < |acts| < |states|
  {
    Goes(states, acts, i) && Harmless(states[i], acts[i])
  }

  ghost predicate HarmlessUntil(states: seq<Sys>, acts: seq<Act>, n: nat)
    requires n <= |acts| < |states|
  {
    forall i :: 0 <= i < n ==> HarmlessAt(states, acts, i)
  }

  lemma HarmlessKeeps(states: seq<Sys>, acts: seq<Act>, i: nat)
    requires i < |acts| < |states| && CoverInv(states[i]) && HarmlessAt(states, acts, i)
    ensures CoverInv(states[i + 1])
  {
    CoverKept(states[i], acts[i]);
  }

  lemma {:induction false} CoverAlong(states: seq<Sys>, acts: seq<Act>, n: nat)
    requires n <= |acts| < |states| && CoverInv(states[0]) && HarmlessUntil(states, acts, n)
    ensures CoverInv(states[n])
    decreases n
  {
    if n > 0 {
      CoverAlong(states, acts, n - 1);
      HarmlessKeeps(states, acts, n - 1);
    }
  }

  /** Act i happens, and everything is covered after it. */
  ghost predicate CoveredAfter(states: seq<Sys>, acts: seq<Act>, i: nat)
    requires i < |acts| < |states|
  {
    Goes(states, acts, i) && AllCovered(states[i + 1])
  }

  /** Then the act was harmless. */
  lemma CoveredWasHarmless(states: seq<Sys>, acts: seq<Act>, i: nat)
    requires i < |acts| < |states| && CoverInv(states[i]) && CoveredAfter(states, acts, i)
    ensures HarmlessAt(states, acts, i)
  {
    if acts[i].Drop? { DropExactly(states[i], acts[i].id); }
  }

  ghost predicate CoveredUntil(states: seq<Sys>, acts: seq<Act>, n: nat)
    requires n <= |acts| < |states|
  {
    forall i :: 0 <= i < n ==> CoveredAfter(states, acts, i)
  }

  lemma OneHarmlessMore(states: seq<Sys>, acts: seq<Act>, n: nat)
    requires 0 < n <= |acts| < |states| && HarmlessUntil(states, acts, n - 1) && HarmlessAt(states, acts, n - 1)
    ensures HarmlessUntil(states, acts, n)
  {
  }

  lemma OneCoveredLess(states: seq<Sys>, acts: seq<Act>, n: nat)
    requires 0 < n <= |acts| < |states| && CoveredUntil(states, acts, n)
    ensures CoveredUntil(states, acts, n - 1) && CoveredAfter(states, acts, n - 1)
  {
  }

  /** The first harmful erasure of a run uncovers something. */
  lemma {:induction false} HarmUncovers(states: seq<Sys>, acts: seq<Act>, n: nat)
    requires n <= |acts| < |states| && CoverInv(states[0]) && CoveredUntil(states, acts, n)
    ensures HarmlessUntil(states, acts, n)
    decreases n
  {
    if n > 0 {
      OneCoveredLess(states, acts, n);
      HarmUncovers(states, acts, n - 1);
      CoverAlong(states, acts, n - 1);
      CoveredWasHarmless(states, acts, n - 1);
      OneHarmlessMore(states, acts, n);
    }
  }

  /** Over every run: everything inflight or written ahead is covered at all times if and only if no
      erasure of a repair ever hits a token that is inflight or written ahead. */
  lemma CoverageExactly(states: seq<Sys>, acts: seq<Act>)
    requires SysRun(states, acts)
    ensures (forall n :: 0 <= n < |states| ==> AllCovered(states[n])) <==> HarmlessUntil(states, acts, |acts|)
  {
    FreshInv(states[0]);
    if HarmlessUntil(states, acts, |acts|) {
      forall n | 0 <= n < |states| ensures AllCovered(states[n]) {
        CoverAlong(states, acts, n);
        InvCovers(states[n]);
      }
    }
    if forall n :: 0 <= n < |states| ==> AllCovered(states[n]) {
      forall i | 0 <= i < |acts| ensures CoveredAfter(states, acts, i) { assert Goes(states, acts, i); }
      HarmUncovers(states, acts, |acts|);
    }
  }

  /** A caller can make sure of that before the script of a repair runs: when every script ran
      when it was safe, every erasure is harmless, whatever happened in between. */
  lemma CarefulIsHarmless(states: seq<Sys>, acts: seq<Act>, n: nat, i: nat)
    requires SysRun(states, acts) && i < n <= |acts| && CarefulUntil(states, acts, n)
    ensures HarmlessAt(states, acts, i)
  {
    SysRunInv(states, acts, i);
    assert GoesWell(states, acts, i);
    if acts[i].Drop? { DroppingIsSafe(states[i], acts[i].id); }
  }

  lemma DroppingIsSafe(s: Sys, k: int)
    requires LocInv(s) && Can(s, Drop(k))
    ensures SafeDrop(s, s.repairs[k].token)
  {
    assert RepairOk(s, s.repairs[k]);
    if WrittenAhead(s, s.repairs[k].token) { WrittenIsIntended(s, s.repairs[k].token); }
  }

  lemma WrittenIsIntended(s: Sys, t: TokenHash)
    requires WrittenAhead(s, t)
    ensures Intended(s, t)
  {
    var i, j :| i in s.workers && s.workers[i].Writing? && 0 <= j < s.workers[i].written <= |s.workers[i].cs|
                && s.workers[i].cs[j].token == t;
    assert Has(s.workers[i], t);
  }

  /** In a run whose repair scripts ran when it was safe, each issued or processing token has at
      every moment a locator to its own generation, and the locator outlives the token by a
      processing lease and the margin. */
  lemma EveryTokenIsLocatable(states: seq<Sys>, acts: seq<Act>, n: nat, t: TokenHash)
    requires SysRun(states, acts) && n < |states| && CarefulUntil(states, acts, n)
    requires t in states[n].room.tokens && Active(states[n].room.tokens[t].status)
    ensures var s := states[n];
            && t in s.locators && s.locators[t].scope == s.scope
            && s.room.tokens[t].expiry + s.room.limits.lease + MARGIN_MS <= s.locators[t].until
  {
    SysRunInv(states, acts, n);
    assert TokenCovered(states[n], t);
  }
}
