/**
 The admission reconciler: page through the policies, scan the live generations, validate
 each current one once and inspect every listed one page by page. It must halt against any
 backend. The backend answers by call number, so it may answer anything, repeat keys, never
 end a cursor, or fail. The calls are recorded with the arguments they send.
 */
module Reconciler {
  import opened RoomState

  /** A generation, named by run, seat class and version. */
  type Identity = int

  datatype Policy = Policy(identity: Identity, enabled: bool, initialized: bool)

  datatype PolicyPage = PolicyPage(policies: seq<Policy>, total: int)

  datatype GenerationPage = GenerationPage(scopes: seq<Identity>, next: int)

  datatype Verdict = Valid | Invalid | Failed

  datatype Findings = Findings(
    duplicateUsers: int,
    inflightMismatches: int,
    expiredInflight: int,
    expiredLeases: int,
    ownerMismatches: int)

  datatype Inspection = Inspection(findings: Findings, truncated: bool, next: int)

  datatype Backend = Backend(
    listPolicies: nat -> Option<PolicyPage>,
    listGenerations: nat -> Option<GenerationPage>,
    validate: nat -> Verdict,
    inspect: nat -> Option<Inspection>)

  /** A remote call with its arguments; its position in the trace is the call number. */
  datatype Remote =
    | ListPolicies(offset: int)
    | ListGenerations(cursor: int)
    | Validate(identity: Identity)
    | Inspect(identity: Identity, cursor: int)

  type Trace = seq<Remote>

  datatype Ending = Completed | PageLimit | BackendError

  // ------------------------------------------------------------------ what a trace amounts to

  /** The policies, listings, finished inspections and validations of call c with number n. */
  function PoliciesOf(b: Backend, c: Remote, n: nat): seq<Policy> {
    if c.ListPolicies? && b.listPolicies(n).Some? then b.listPolicies(n).value.policies else []
  }

  function ListedBy(b: Backend, c: Remote, n: nat): seq<Identity> {
    if c.ListGenerations? && b.listGenerations(n).Some? then b.listGenerations(n).value.scopes else []
  }

  function FinishedBy(b: Backend, c: Remote, n: nat): seq<Identity> {
    if c.Inspect? && b.inspect(n).Some? && !b.inspect(n).value.truncated then [c.identity] else []
  }

  function ValidatedBy(c: Remote): seq<Identity> {
    if c.Validate? then [c.identity] else []
  }

  function PoliciesIn(b: Backend, trace: Trace): seq<Policy> {
    if trace == [] then []
    else PoliciesIn(b, trace[..|trace| - 1]) + PoliciesOf(b, trace[|trace| - 1], |trace| - 1)
  }

  /** Every listing of a generation, in order and with repetitions. */
  function Listings(b: Backend, trace: Trace): seq<Identity> {
    if trace == [] then []
    else Listings(b, trace[..|trace| - 1]) + ListedBy(b, trace[|trace| - 1], |trace| - 1)
  }

  /** The generations whose inspection reached a page that was not truncated, in order. */
  function Finished(b: Backend, trace: Trace): seq<Identity> {
    if trace == [] then []
    else Finished(b, trace[..|trace| - 1]) + FinishedBy(b, trace[|trace| - 1], |trace| - 1)
  }

  function Validated(trace: Trace): seq<Identity> {
    if trace == [] then [] else Validated(trace[..|trace| - 1]) + ValidatedBy(trace[|trace| - 1])
  }

  lemma PoliciesNext(b: Backend, trace: Trace, c: Remote)
    ensures PoliciesIn(b, trace + [c]) == PoliciesIn(b, trace) + PoliciesOf(b, c, |trace|)
  {
    assert (trace + [c])[..|trace|] == trace;
  }

  lemma ListingsNext(b: Backend, trace: Trace, c: Remote)
    ensures Listings(b, trace + [c]) == Listings(b, trace) + ListedBy(b, c, |trace|)
  {
    assert (trace + [c])[..|trace|] == trace;
  }

  lemma FinishedNext(b: Backend, trace: Trace, c: Remote)
    ensures Finished(b, trace + [c]) == Finished(b, trace) + FinishedBy(b, c, |trace|)
  {
    assert (trace + [c])[..|trace|] == trace;
  }

  lemma ValidatedNext(trace: Trace, c: Remote)
    ensures Validated(trace + [c]) == Validated(trace) + ValidatedBy(c)
  {
    assert (trace + [c])[..|trace|] == trace;
  }

  // ------------------------------------------------------------------ sets and counts

  function SetOf(xs: seq<Identity>): set<Identity> {
    set i | 0 <= i < |xs| :: xs[i]
  }

  lemma SetOfNext(xs: seq<Identity>, x: Identity)
    ensures SetOf(xs + [x]) == SetOf(xs) + {x}
  {
    assert forall i :: 0 <= i < |xs| ==> (xs + [x])[i] == xs[i];
    assert (xs + [x])[|xs|] == x;
  }

  /** The enabled generations, and those that must be live: enabled and initialized. */
  function Enabled(ps: seq<Policy>): set<Identity> {
    set i | 0 <= i < |ps| && ps[i].enabled :: ps[i].identity
  }

  function Expected(ps: seq<Policy>): set<Identity> {
    set i | 0 <= i < |ps| && ps[i].enabled && ps[i].initialized :: ps[i].identity
  }

  function Disabled(ps: seq<Policy>): nat {
    if ps == [] then 0 else Disabled(ps[..|ps| - 1]) + (if !ps[|ps| - 1].enabled then 1 else 0)
  }

  function Uninitialized(ps: seq<Policy>): nat {
    if ps == [] then 0
    else Uninitialized(ps[..|ps| - 1]) + (if ps[|ps| - 1].enabled && !ps[|ps| - 1].initialized then 1 else 0)
  }

  /** How many listings are of no enabled generation. */
  function Outside(current: set<Identity>, xs: seq<Identity>): nat {
    if xs == [] then 0 else Outside(current, xs[..|xs| - 1]) + (if xs[|xs| - 1] !in current then 1 else 0)
  }

  lemma PolicyNext(ps: seq<Policy>, p: Policy)
    ensures Enabled(ps + [p]) == Enabled(ps) + (if p.enabled then {p.identity} else {})
    ensures Expected(ps + [p]) == Expected(ps) + (if p.enabled && p.initialized then {p.identity} else {})
    ensures Disabled(ps + [p]) == Disabled(ps) + (if !p.enabled then 1 else 0)
    ensures Uninitialized(ps + [p]) == Uninitialized(ps) + (if p.enabled && !p.initialized then 1 else 0)
  {
    var all := ps + [p];
    assert all[..|ps|] == ps && all[|ps|] == p;
    assert forall i :: 0 <= i < |ps| ==> all[i] == ps[i];
  }

  lemma OutsideNext(current: set<Identity>, xs: seq<Identity>, x: Identity)
    ensures Outside(current, xs + [x]) == Outside(current, xs) + (if x !in current then 1 else 0)
  {
    assert (xs + [x])[..|xs|] == xs;
  }

  predicate NoRepeat(xs: seq<Identity>) {
    forall i, j :: 0 <= i < j < |xs| ==> xs[i] != xs[j]
  }

  // ------------------------------------------------------------------ the arguments that are sent

  /** The cursor that the last page of generations returned. */
  function CursorOf(b: Backend, trace: Trace): int {
    if trace == [] then 0
    else
      var n := |trace| - 1;
      if trace[n].ListGenerations? then (if b.listGenerations(n).Some? then b.listGenerations(n).value.next else 0)
      else CursorOf(b, trace[..n])
  }

  /** The last call was an inspection whose page was truncated. */
  predicate Unfinished(b: Backend, trace: Trace) {
    trace != [] && trace[|trace| - 1].Inspect? && b.inspect(|trace| - 1).Some? && b.inspect(|trace| - 1).value.truncated
  }

  /** The arguments of the call are those that the calls before it lead to: the offset counts the
      policies read, the scan goes on with the cursor last returned, and an inspection starts at
      zero or goes on with the generation and the cursor of the truncated page before it. */
  predicate Fits(b: Backend, trace: Trace, c: Remote) {
    match c
    case ListPolicies(offset) => offset == |PoliciesIn(b, trace)|
    case ListGenerations(cursor) => cursor == CursorOf(b, trace)
    case Validate(_) => !Unfinished(b, trace)
    case Inspect(x, cursor) =>
      if Unfinished(b, trace) then x == trace[|trace| - 1].identity && cursor == b.inspect(|trace| - 1).value.next
      else cursor == 0
  }

  ghost predicate Sent(b: Backend, trace: Trace) {
    forall i :: 0 <= i < |trace| ==> Fits(b, trace[..i], trace[i])
  }

  lemma SentNext(b: Backend, trace: Trace, c: Remote)
    requires Sent(b, trace) && Fits(b, trace, c)
    ensures Sent(b, trace + [c])
  {
    var all := trace + [c];
    forall i | 0 <= i < |all| ensures Fits(b, all[..i], all[i]) {
      if i < |trace| {
        assert all[..i] == trace[..i] && all[i] == trace[i];
      } else {
        assert all[..i] == trace;
      }
    }
  }

  lemma CursorNext(b: Backend, trace: Trace, c: Remote)
    ensures !c.ListGenerations? ==> CursorOf(b, trace + [c]) == CursorOf(b, trace)
    ensures c.ListGenerations? && b.listGenerations(|trace|).Some? ==>
              CursorOf(b, trace + [c]) == b.listGenerations(|trace|).value.next
    ensures Unfinished(b, trace + [c]) <==> c.Inspect? && b.inspect(|trace|).Some? && b.inspect(|trace|).value.truncated
  {
    assert (trace + [c])[..|trace|] == trace;
  }

  // ------------------------------------------------------------------ the counters

  datatype Meter = Duplicates | Mismatches | StaleInflight | StaleLeases | Owners | Invalids | InspectPages

  function Reading(m: Meter, f: Findings): int {
    match m
    case Duplicates => f.duplicateUsers
    case Mismatches => f.inflightMismatches
    case StaleInflight => f.expiredInflight
    case StaleLeases => f.expiredLeases
    case Owners => f.ownerMismatches
    case _ => 0
  }

  /** What call n adds to a counter. */
  function Gain(m: Meter, b: Backend, c: Remote, n: nat): int {
    if c.Inspect? && b.inspect(n).Some? then
      (if m == InspectPages then 1 else Reading(m, b.inspect(n).value.findings))
    else if c.Validate? && m == Invalids && b.validate(n) == Invalid then 1
    else 0
  }

  function Total(m: Meter, b: Backend, trace: Trace): int {
    if trace == [] then 0
    else Total(m, b, trace[..|trace| - 1]) + Gain(m, b, trace[|trace| - 1], |trace| - 1)
  }

  datatype Tally = Tally(findings: Findings, invalid: int, redisPages: int)

  const ZERO := Tally(Findings(0, 0, 0, 0, 0), 0, 0)

  function Shows(m: Meter, r: Tally): int {
    match m
    case Invalids => r.invalid
    case InspectPages => r.redisPages
    case _ => Reading(m, r.findings)
  }

  ghost predicate Tallied(b: Backend, trace: Trace, r: Tally) {
    forall m: Meter :: Shows(m, r) == Total(m, b, trace)
  }

  lemma TotalNext(m: Meter, b: Backend, trace: Trace, c: Remote)
    ensures Total(m, b, trace + [c]) == Total(m, b, trace) + Gain(m, b, c, |trace|)
  {
    assert (trace + [c])[..|trace|] == trace;
  }

  function Plus(a: Findings, b: Findings): Findings {
    Findings(a.duplicateUsers + b.duplicateUsers, a.inflightMismatches + b.inflightMismatches,
             a.expiredInflight + b.expiredInflight, a.expiredLeases + b.expiredLeases,
             a.ownerMismatches + b.ownerMismatches)
  }

  /** The tally after the call. */
  function Counted(b: Backend, r: Tally, c: Remote, n: nat): Tally {
    if c.Inspect? && b.inspect(n).Some? then
      r.(redisPages := r.redisPages + 1, findings := Plus(r.findings, b.inspect(n).value.findings))
    else if c.Validate? && b.validate(n) == Invalid then r.(invalid := r.invalid + 1)
    else r
  }

  lemma TalliedNext(b: Backend, trace: Trace, r: Tally, c: Remote)
    requires Tallied(b, trace, r)
    ensures Tallied(b, trace + [c], Counted(b, r, c, |trace|))
  {
    forall m: Meter ensures Shows(m, Counted(b, r, c, |trace|)) == Total(m, b, trace + [c]) {
      TotalNext(m, b, trace, c);
    }
  }

  // ------------------------------------------------------------------ the policies

  /** The last page of policies ends the reading: it is empty, or the total is reached. */
  predicate Ended(b: Backend, trace: Trace) {
    && trace != [] && trace[|trace| - 1].ListPolicies? && b.listPolicies(|trace| - 1).Some?
    && (b.listPolicies(|trace| - 1).value.policies == [] || b.listPolicies(|trace| - 1).value.total <= |PoliciesIn(b, trace)|)
  }

  /** Nothing but policy pages, none of them the last, so far. */
  ghost predicate StillReading(b: Backend, trace: Trace) {
    forall i :: 0 <= i < |trace| ==> trace[i].ListPolicies? && b.listPolicies(i).Some? && !Ended(b, trace[..i])
  }

  /** What the policy loop has gathered. */
  datatype Known = Known(policies: nat, disabled: nat, uninitialized: nat, current: set<Identity>, expected: set<Identity>)

  ghost predicate Gathered(k: Known, ps: seq<Policy>) {
    k == Known(|ps|, Disabled(ps), Uninitialized(ps), Enabled(ps), Expected(ps))
  }

  /** The policies of one page are noted. */
  method NotePage(page: seq<Policy>, known0: Known, ghost before: seq<Policy>) returns (known: Known)
    requires Gathered(known0, before)
    ensures Gathered(known, before + page)
  {
    known := known0;
    assert before + page[..0] == before;
    for i := 0 to |page|
      invariant Gathered(known, before + page[..i])
    {
      var p := page[i];
      PolicyNext(before + page[..i], p);
      assert (before + page[..i]) + [p] == before + page[..i + 1];
      known := known.(policies := known.policies + 1);
      if !p.enabled {
        known := known.(disabled := known.disabled + 1);
      } else {
        known := known.(current := known.current + {p.identity});
        if !p.initialized {
          known := known.(uninitialized := known.uninitialized + 1);
        } else {
          known := known.(expected := known.expected + {p.identity});
        }
      }
    }
    assert page[..|page|] == page;
  }

  /** The reading of the policies so far: no other call, everything noted. */
  ghost predicate PolicyPhase(b: Backend, trace: Trace, known: Known) {
    && Sent(b, trace) && StillReading(b, trace) && Gathered(known, PoliciesIn(b, trace))
    && Listings(b, trace) == [] && Finished(b, trace) == [] && Validated(trace) == [] && CursorOf(b, trace) == 0
    && !Unfinished(b, trace) && Tallied(b, trace, ZERO)
  }

  /** A policy page keeps the listings, inspections, validations and counters as they are. */
  lemma PolicyCall(b: Backend, trace: Trace, c: Remote, r: Tally)
    requires c.ListPolicies? && Tallied(b, trace, r)
    ensures Listings(b, trace + [c]) == Listings(b, trace) && Finished(b, trace + [c]) == Finished(b, trace)
    ensures Validated(trace + [c]) == Validated(trace) && CursorOf(b, trace + [c]) == CursorOf(b, trace)
    ensures !Unfinished(b, trace + [c]) && Tallied(b, trace + [c], r)
  {
    ListingsNext(b, trace, c);
    FinishedNext(b, trace, c);
    ValidatedNext(trace, c);
    CursorNext(b, trace, c);
    TalliedNext(b, trace, r, c);
  }

  lemma StillReadingNext(b: Backend, trace: Trace, c: Remote)
    requires StillReading(b, trace) && !Ended(b, trace) && c.ListPolicies? && b.listPolicies(|trace|).Some?
    ensures StillReading(b, trace + [c])
  {
    var all := trace + [c];
    forall i | 0 <= i < |all| ensures all[i].ListPolicies? && b.listPolicies(i).Some? && !Ended(b, all[..i]) {
      if i < |trace| { assert all[..i] == trace[..i]; } else { assert all[..i] == trace; }
    }
  }

  lemma PolicyPhaseNext(b: Backend, trace: Trace, known: Known, more: Known)
    requires PolicyPhase(b, trace, known) && !Ended(b, trace) && b.listPolicies(|trace|).Some?
    requires Gathered(more, PoliciesIn(b, trace) + b.listPolicies(|trace|).value.policies)
    ensures PolicyPhase(b, trace + [ListPolicies(known.policies)], more)
  {
    var c := ListPolicies(known.policies);
    PoliciesNext(b, trace, c);
    SentNext(b, trace, c);
    StillReadingNext(b, trace, c);
    PolicyCall(b, trace, c, ZERO);
  }

  lemma EmptyPhase(b: Backend)
    ensures PolicyPhase(b, [], Known(0, 0, 0, {}, {})) && !Ended(b, [])
  {
  }

  method ReadPolicies(b: Backend, maximumPages: nat)
    returns (ending: Ending, pages: nat, known: Known, trace: Trace)
    ensures |trace| <= maximumPages && Tallied(b, trace, ZERO) && Sent(b, trace)
    ensures ending == Completed ==> pages == |trace| && PolicyPhase(b, trace, known) && Ended(b, trace)
  {
    pages, known, trace := 0, Known(0, 0, 0, {}, {}), [];
    EmptyPhase(b);
    while true
      invariant pages == |trace| <= maximumPages && PolicyPhase(b, trace, known) && !Ended(b, trace)
      decreases maximumPages - pages
    {
      if pages >= maximumPages { ending := PageLimit; return; }
      ghost var before := known;
      var c := ListPolicies(known.policies);
      var page := b.listPolicies(pages);
      if page.None? {
        SentNext(b, trace, c);
        PolicyCall(b, trace, c, ZERO);
        trace, ending := trace + [c], BackendError;
        return;
      }
      known := NotePage(page.value.policies, known, PoliciesIn(b, trace));
      PolicyPhaseNext(b, trace, before, known);
      trace := trace + [c];
      pages := pages + 1;
      if |page.value.policies| == 0 || known.policies >= page.value.total { break; }
    }
    ending := Completed;
  }

  // ------------------------------------------------------------------ the generations

  /** The calls in between are validations and inspections, sent as they should be. */
  ghost predicate Grew(b: Backend, before: Trace, after: Trace) {
    && before <= after && Sent(b, after)
    && (forall i :: |before| <= i < |after| ==> after[i].Validate? || after[i].Inspect?)
    && Listings(b, after) == Listings(b, before) && PoliciesIn(b, after) == PoliciesIn(b, before)
    && CursorOf(b, after) == CursorOf(b, before)
  }

  lemma GrewNext(b: Backend, before: Trace, after: Trace, c: Remote)
    requires Grew(b, before, after) && (c.Validate? || c.Inspect?) && Fits(b, after, c)
    ensures Grew(b, before, after + [c])
  {
    SentNext(b, after, c);
    ListingsNext(b, after, c);
    PoliciesNext(b, after, c);
    CursorNext(b, after, c);
  }

  lemma GrewTwice(b: Backend, x: Trace, y: Trace, z: Trace)
    requires Grew(b, x, y) && Grew(b, y, z)
    ensures Grew(b, x, z)
  {
  }

  /** The inspection of x is under way or about to start at the given cursor. */
  ghost predicate Inspecting(b: Backend, trace: Trace, x: Identity, cursor: int) {
    if Unfinished(b, trace) then x == trace[|trace| - 1].identity && cursor == b.inspect(|trace| - 1).value.next else cursor == 0
  }

  /** Inspect one generation until a page is not truncated. */
  method InspectGeneration(b: Backend, maximumPages: nat, x: Identity, pages0: nat, tally0: Tally, trace0: Trace)
    returns (ending: Ending, pages: nat, tally: Tally, trace: Trace)
    requires pages0 == |trace0| <= maximumPages && Tallied(b, trace0, tally0) && Sent(b, trace0) && !Unfinished(b, trace0)
    ensures |trace| <= maximumPages && Grew(b, trace0, trace) && Tallied(b, trace, tally)
    ensures Validated(trace) == Validated(trace0)
    ensures ending == Completed ==> pages == |trace| && Finished(b, trace) == Finished(b, trace0) + [x] && !Unfinished(b, trace)
  {
    pages, tally, trace := pages0, tally0, trace0;
    var cursor := 0;
    while true
      invariant pages == |trace| <= maximumPages && Grew(b, trace0, trace) && Tallied(b, trace, tally)
      invariant Validated(trace) == Validated(trace0) && Finished(b, trace) == Finished(b, trace0)
      invariant Inspecting(b, trace, x, cursor)
      decreases maximumPages - pages
    {
      if pages >= maximumPages { ending := PageLimit; return; }
      var inspection := b.inspect(pages);
      var c := Inspect(x, cursor);
      InspectCall(b, trace0, trace, c, tally);
      tally, trace := Counted(b, tally, c, pages), trace + [c];
      if inspection.None? { ending := BackendError; return; }
      pages := pages + 1;
      if !inspection.value.truncated { break; }
      cursor := inspection.value.next;
    }
    ending := Completed;
  }

  lemma InspectCall(b: Backend, trace0: Trace, trace: Trace, c: Remote, tally: Tally)
    requires c.Inspect? && Grew(b, trace0, trace) && Tallied(b, trace, tally) && Inspecting(b, trace, c.identity, c.cursor)
    ensures Grew(b, trace0, trace + [c]) && Tallied(b, trace + [c], Counted(b, tally, c, |trace|))
    ensures Validated(trace + [c]) == Validated(trace)
    ensures Finished(b, trace + [c]) == Finished(b, trace) + FinishedBy(b, c, |trace|)
    ensures Unfinished(b, trace + [c]) <==> b.inspect(|trace|).Some? && b.inspect(|trace|).value.truncated
  {
    GrewNext(b, trace0, trace, c);
    TalliedNext(b, trace, tally, c);
    ValidatedNext(trace, c);
    FinishedNext(b, trace, c);
    CursorNext(b, trace, c);
  }

  /** Validate a current generation the first time it is listed. */
  method ValidateOnce(b: Backend, maximumPages: nat, x: Identity, due: bool, pages0: nat, tally0: Tally, trace0: Trace)
    returns (ending: Ending, pages: nat, tally: Tally, trace: Trace)
    requires pages0 == |trace0| <= maximumPages && Tallied(b, trace0, tally0) && Sent(b, trace0) && !Unfinished(b, trace0)
    ensures |trace| <= maximumPages && Grew(b, trace0, trace) && Tallied(b, trace, tally)
    ensures ending == Completed ==> pages == |trace| && Finished(b, trace) == Finished(b, trace0) && !Unfinished(b, trace)
    ensures ending == Completed ==> Validated(trace) == Validated(trace0) + (if due then [x] else [])
  {
    pages, tally, trace := pages0, tally0, trace0;
    assert Validated(trace0) + [] == Validated(trace0);
    if due {
      if pages >= maximumPages { ending := PageLimit; return; }
      var c := Validate(x);
      var verdict := b.validate(pages);
      ValidateCall(b, trace, c, tally);
      tally, trace := Counted(b, tally, c, pages), trace + [c];
      pages := pages + 1;
      if verdict == Failed { ending := BackendError; return; }
    }
    ending := Completed;
  }

  lemma ValidateCall(b: Backend, trace: Trace, c: Remote, tally: Tally)
    requires c.Validate? && Tallied(b, trace, tally) && Sent(b, trace) && !Unfinished(b, trace)
    ensures Grew(b, trace, trace + [c]) && Tallied(b, trace + [c], Counted(b, tally, c, |trace|))
    ensures Validated(trace + [c]) == Validated(trace) + [c.identity] && Finished(b, trace + [c]) == Finished(b, trace)
    ensures !Unfinished(b, trace + [c])
  {
    GrewNext(b, trace, trace, c);
    TalliedNext(b, trace, tally, c);
    ValidatedNext(trace, c);
    FinishedNext(b, trace, c);
    CursorNext(b, trace, c);
    assert Finished(b, trace) + [] == Finished(b, trace);
  }

  /** What the scan has gathered about the listings so far. */
  datatype Seen = Seen(live: nat, previous: nat, missing: set<Identity>, validated: set<Identity>)

  ghost predicate SeenAll(s: Seen, known: Known, listed: seq<Identity>) {
    s == Seen(|listed|, Outside(known.current, listed), known.expected - SetOf(listed), known.expected * SetOf(listed))
  }

  ghost predicate ValidatedAre(trace: Trace, validated: set<Identity>) {
    NoRepeat(Validated(trace)) && SetOf(Validated(trace)) == validated
  }

  /** One listed generation is counted and struck off. */
  function Note(known: Known, s: Seen, x: Identity): Seen {
    Seen(s.live + 1, s.previous + (if x in known.current then 0 else 1),
         s.missing - (if x in known.current then {x} else {}),
         s.validated + (if x in known.expected then {x} else {}))
  }

  lemma NoteIs(known: Known, s: Seen, listed: seq<Identity>, x: Identity)
    requires SeenAll(s, known, listed) && known.expected <= known.current
    ensures SeenAll(Note(known, s, x), known, listed + [x])
  {
    SetOfNext(listed, x);
    OutsideNext(known.current, listed, x);
    assert s.missing - (if x in known.current then {x} else {}) == known.expected - (SetOf(listed) + {x});
    assert s.validated + (if x in known.expected then {x} else {}) == known.expected * (SetOf(listed) + {x});
  }

  lemma ValidatedMore(xs: seq<Identity>, x: Identity)
    requires NoRepeat(xs) && x !in SetOf(xs)
    ensures NoRepeat(xs + [x]) && SetOf(xs + [x]) == SetOf(xs) + {x}
  {
    SetOfNext(xs, x);
    forall i | 0 <= i < |xs| ensures xs[i] != x { assert xs[i] in SetOf(xs); }
  }

  /** One listed generation: strike it off, validate it the first time, inspect it. */
  method VisitOne(b: Backend, maximumPages: nat, x: Identity, known: Known, seen0: Seen, pages0: nat, tally0: Tally, trace0: Trace,
                  ghost listed: seq<Identity>)
    returns (ending: Ending, seen: Seen, pages: nat, tally: Tally, trace: Trace)
    requires pages0 == |trace0| <= maximumPages && Tallied(b, trace0, tally0) && Sent(b, trace0) && !Unfinished(b, trace0)
    requires SeenAll(seen0, known, listed) && known.expected <= known.current && ValidatedAre(trace0, seen0.validated)
    ensures |trace| <= maximumPages && Grew(b, trace0, trace) && Tallied(b, trace, tally)
    ensures ending == Completed ==> pages == |trace| && !Unfinished(b, trace) && SeenAll(seen, known, listed + [x])
    ensures ending == Completed ==> ValidatedAre(trace, seen.validated) && Finished(b, trace) == Finished(b, trace0) + [x]
  {
    var due := x in known.expected && x !in seen0.validated;
    seen := Note(known, seen0, x);
    NoteIs(known, seen0, listed, x);
    ending, pages, tally, trace := ValidateOnce(b, maximumPages, x, due, pages0, tally0, trace0);
    if ending != Completed { return; }
    ghost var middle := trace;
    Validations(trace0, middle, known, seen0.validated, x);
    ending, pages, tally, trace := InspectGeneration(b, maximumPages, x, pages, tally, trace);
    GrewTwice(b, trace0, middle, trace);
  }

  lemma Validations(trace0: Trace, trace: Trace, known: Known, validated: set<Identity>, x: Identity)
    requires ValidatedAre(trace0, validated)
    requires Validated(trace) == Validated(trace0) + (if x in known.expected && x !in validated then [x] else [])
    ensures ValidatedAre(trace, validated + (if x in known.expected then {x} else {}))
  {
    if x in known.expected && x !in validated {
      ValidatedMore(Validated(trace0), x);
    } else {
      assert Validated(trace) == Validated(trace0);
      assert validated + (if x in known.expected then {x} else {}) == validated;
    }
  }

  /** The generations of one scan page. */
  method VisitPage(b: Backend, maximumPages: nat, scopes: seq<Identity>, known: Known, seen0: Seen, pages0: nat, tally0: Tally, trace0: Trace,
                   ghost listed: seq<Identity>)
    returns (ending: Ending, seen: Seen, pages: nat, tally: Tally, trace: Trace)
    requires pages0 == |trace0| <= maximumPages && Tallied(b, trace0, tally0) && Sent(b, trace0) && !Unfinished(b, trace0)
    requires SeenAll(seen0, known, listed) && known.expected <= known.current && ValidatedAre(trace0, seen0.validated)
    ensures |trace| <= maximumPages && Grew(b, trace0, trace) && Tallied(b, trace, tally)
    ensures ending == Completed ==> pages == |trace| && !Unfinished(b, trace) && SeenAll(seen, known, listed + scopes)
    ensures ending == Completed ==> ValidatedAre(trace, seen.validated) && Finished(b, trace) == Finished(b, trace0) + scopes
  {
    seen, pages, tally, trace := seen0, pages0, tally0, trace0;
    assert listed + scopes[..0] == listed && Finished(b, trace0) + scopes[..0] == Finished(b, trace0);
    for i := 0 to |scopes|
      invariant pages == |trace| <= maximumPages && Grew(b, trace0, trace) && Tallied(b, trace, tally) && !Unfinished(b, trace)
      invariant SeenAll(seen, known, listed + scopes[..i]) && ValidatedAre(trace, seen.validated)
      invariant Finished(b, trace) == Finished(b, trace0) + scopes[..i]
    {
      ghost var before := trace;
      ending, seen, pages, tally, trace :=
        VisitOne(b, maximumPages, scopes[i], known, seen, pages, tally, trace, listed + scopes[..i]);
      GrewTwice(b, trace0, before, trace);
      if ending != Completed { return; }
      Snoc(listed, scopes, i);
      Snoc(Finished(b, trace0), scopes, i);
    }
    assert scopes[..|scopes|] == scopes;
    ending := Completed;
  }

  lemma Snoc(xs: seq<Identity>, ys: seq<Identity>, i: nat)
    requires i < |ys|
    ensures (xs + ys[..i]) + [ys[i]] == xs + ys[..i + 1]
  {
  }

  // ------------------------------------------------------------------ the scan

  /** Everything gathered agrees with the calls so far. */
  ghost predicate Abreast(b: Backend, trace: Trace, known: Known, seen: Seen) {
    && Sent(b, trace) && !Unfinished(b, trace)
    && SeenAll(seen, known, Listings(b, trace)) && ValidatedAre(trace, seen.validated)
    && Finished(b, trace) == Listings(b, trace)
  }

  /** One page of the generation scan. */
  ghost predicate Scanned(b: Backend, before: Trace, after: Trace) {
    && before < after && after[|before|].ListGenerations? && Sent(b, after)
    && (forall i :: |before| < i < |after| ==> after[i].Validate? || after[i].Inspect?)
    && PoliciesIn(b, after) == PoliciesIn(b, before)
  }

  /** The call that lists a page of generations. */
  lemma ListCall(b: Backend, trace: Trace, tally: Tally)
    requires Sent(b, trace) && Tallied(b, trace, tally)
    ensures var c := ListGenerations(CursorOf(b, trace));
            && Sent(b, trace + [c]) && Tallied(b, trace + [c], tally) && !Unfinished(b, trace + [c])
            && Listings(b, trace + [c]) == Listings(b, trace) + ListedBy(b, c, |trace|)
            && PoliciesIn(b, trace + [c]) == PoliciesIn(b, trace) && Finished(b, trace + [c]) == Finished(b, trace)
            && Validated(trace + [c]) == Validated(trace)
            && (b.listGenerations(|trace|).Some? ==> CursorOf(b, trace + [c]) == b.listGenerations(|trace|).value.next)
  {
    var c := ListGenerations(CursorOf(b, trace));
    SentNext(b, trace, c);
    TalliedNext(b, trace, tally, c);
    ListingsNext(b, trace, c);
    PoliciesNext(b, trace, c);
    FinishedNext(b, trace, c);
    ValidatedNext(trace, c);
    CursorNext(b, trace, c);
  }

  method ScanPage(b: Backend, maximumPages: nat, known: Known, cursor: int, seen0: Seen, pages0: nat, tally0: Tally, trace0: Trace)
    returns (ending: Ending, next: int, seen: Seen, pages: nat, tally: Tally, trace: Trace)
    requires pages0 == |trace0| < maximumPages && Tallied(b, trace0, tally0) && known.expected <= known.current
    requires Abreast(b, trace0, known, seen0) && cursor == CursorOf(b, trace0)
    ensures |trace| <= maximumPages && Tallied(b, trace, tally) && Scanned(b, trace0, trace)
    ensures ending == Completed ==> pages == |trace| && Abreast(b, trace, known, seen) && next == CursorOf(b, trace)
    ensures ending == Completed ==> b.listGenerations(|trace0|).Some? && next == b.listGenerations(|trace0|).value.next
  {
    pages, seen, tally, next := pages0, seen0, tally0, 0;
    var page := b.listGenerations(pages);
    ListCall(b, trace0, tally);
    ghost var listed := trace0 + [ListGenerations(cursor)];
    trace := trace0 + [ListGenerations(cursor)];
    if page.None? { ending := BackendError; return; }
    pages := pages + 1;
    next := page.value.next;
    ending, seen, pages, tally, trace :=
      VisitPage(b, maximumPages, page.value.scopes, known, seen, pages, tally, trace, Listings(b, trace0));
    ScannedBy(b, trace0, listed, trace);
  }

  lemma ScannedBy(b: Backend, x: Trace, y: Trace, z: Trace)
    requires |y| == |x| + 1 && x < y && y[|x|].ListGenerations? && PoliciesIn(b, y) == PoliciesIn(b, x) && Grew(b, y, z)
    ensures Scanned(b, x, z)
  {
  }

  /** Every page of generations so far has a successor; or exactly the last one has none. */
  ghost predicate Unended(b: Backend, trace: Trace) {
    forall i :: 0 <= i < |trace| && trace[i].ListGenerations? ==> GoesOn(b, i)
  }

  predicate GoesOn(b: Backend, n: nat) {
    b.listGenerations(n).Some? && b.listGenerations(n).value.next != 0
  }

  ghost predicate GenerationsRead(b: Backend, trace: Trace) {
    exists n :: 0 <= n < |trace| && LastGenerations(b, trace, n)
             && forall i :: 0 <= i < |trace| && i != n && trace[i].ListGenerations? ==> i < n && GoesOn(b, i)
  }

  predicate LastGenerations(b: Backend, trace: Trace, n: nat)
    requires n < |trace|
  {
    trace[n].ListGenerations? && b.listGenerations(n).Some? && b.listGenerations(n).value.next == 0
  }

  lemma CursorMoves(b: Backend, before: Trace, after: Trace, next: int)
    requires Unended(b, before) && Scanned(b, before, after)
    requires b.listGenerations(|before|).Some? && next == b.listGenerations(|before|).value.next
    ensures if next == 0 then GenerationsRead(b, after) else Unended(b, after)
  {
    if next == 0 {
      assert LastGenerations(b, after, |before|);
    }
  }

  ghost predicate NoPolicies(trace: Trace, k: nat) {
    forall i :: k <= i < |trace| ==> !trace[i].ListPolicies?
  }

  ghost predicate ScannedFrom(b: Backend, before: Trace, after: Trace) {
    before <= after && NoPolicies(after, |before|) && PoliciesIn(b, after) == PoliciesIn(b, before) && Sent(b, after)
  }

  lemma ScannedOn(b: Backend, x: Trace, y: Trace, z: Trace)
    requires ScannedFrom(b, x, y) && Scanned(b, y, z)
    ensures ScannedFrom(b, x, z)
  {
    NoPoliciesOn(x, y, z);
  }

  lemma NoPoliciesOn(x: Trace, y: Trace, z: Trace)
    requires x <= y < z && NoPolicies(y, |x|) && z[|y|].ListGenerations?
    requires forall i :: |y| < i < |z| ==> z[i].Validate? || z[i].Inspect?
    ensures x <= z && NoPolicies(z, |x|)
  {
    forall i | |x| <= i < |z| ensures !z[i].ListPolicies? {
      if i < |y| {
        assert z[i] == y[i];
      }
    }
  }

  method ScanGenerations(b: Backend, maximumPages: nat, known: Known, pages0: nat, trace0: Trace)
    returns (ending: Ending, seen: Seen, tally: Tally, trace: Trace)
    requires pages0 == |trace0| <= maximumPages && PolicyPhase(b, trace0, known)
    ensures |trace| <= maximumPages && Tallied(b, trace, tally) && ScannedFrom(b, trace0, trace)
    ensures ending == Completed ==> Abreast(b, trace, known, seen) && GenerationsRead(b, trace)
  {
    var pages, cursor, done := pages0, 0, false;
    seen, tally, trace := Seen(0, 0, known.expected, {}), ZERO, trace0;
    ScanStarts(b, trace0, known);
    while !done
      invariant pages == |trace| <= maximumPages && Tallied(b, trace, tally)
      invariant Abreast(b, trace, known, seen) && ScannedFrom(b, trace0, trace) && cursor == CursorOf(b, trace)
      invariant if done then GenerationsRead(b, trace) else Unended(b, trace)
      decreases maximumPages - pages
    {
      if pages >= maximumPages { ending := PageLimit; return; }
      ghost var before := trace;
      ending, cursor, seen, pages, tally, trace := ScanPage(b, maximumPages, known, cursor, seen, pages, tally, trace);
      ScannedOn(b, trace0, before, trace);
      if ending != Completed { return; }
      CursorMoves(b, before, trace, cursor);
      done := cursor == 0;
    }
    ending := Completed;
  }

  lemma ScanStarts(b: Backend, trace: Trace, known: Known)
    requires PolicyPhase(b, trace, known)
    ensures known.expected <= known.current && Unended(b, trace) && ScannedFrom(b, trace, trace)
    ensures Abreast(b, trace, known, Seen(0, 0, known.expected, {}))
  {
    assert known.expected - {} == known.expected && known.expected * {} == {};
  }

  // ------------------------------------------------------------------ the whole

  /** A complete reconciliation: the policy pages up to the first that ends them and no more, the
      whole generation cursor, one finished inspection for every listing in the order of the
      listings, one validation for every expected generation that was listed; and every call was
      sent the offset, cursor or generation that the answers before it lead to. */
  ghost predicate Complete(b: Backend, trace: Trace) {
    && Sent(b, trace) && PoliciesRead(b, trace) && GenerationsRead(b, trace)
    && Finished(b, trace) == Listings(b, trace)
    && ValidatedAre(trace, Expected(PoliciesIn(b, trace)) * SetOf(Listings(b, trace)))
  }

  ghost predicate PoliciesRead(b: Backend, trace: Trace) {
    exists k :: 1 <= k <= |trace| && Ended(b, trace[..k]) && StillReading(b, trace[..k]) && NoPolicies(trace, k)
  }

  lemma PoliciesStayRead(b: Backend, before: Trace, trace: Trace)
    requires before <= trace && NoPolicies(trace, |before|) && Ended(b, before) && StillReading(b, before)
    ensures PoliciesRead(b, trace)
  {
    assert trace[..|before|] == before;
  }

  /** The reconciler's counters. */
  datatype Result = Result(known: Known, live: nat, previous: nat, tally: Tally, missing: int)

  /** The whole reconciliation. It halts after at most maximumPages remote calls whatever the
      backend answers, its counters add up what the calls reported, and every call is sent the
      arguments it should be. When it completes, the reconciliation is complete, the policies and
      listings are counted, and missing is the number of enabled, initialized generations that
      no scan page listed. */
  method InspectAdmissionState(b: Backend, maximumPages: nat) returns (ending: Ending, result: Result, trace: Trace)
    ensures |trace| <= maximumPages && Sent(b, trace)
    ensures forall m: Meter :: Shows(m, result.tally) == Total(m, b, trace)
    ensures ending == Completed ==> Complete(b, trace)
    ensures ending == Completed ==> Gathered(result.known, PoliciesIn(b, trace))
    ensures ending == Completed ==>
              result.live == |Listings(b, trace)| && result.previous == Outside(Enabled(PoliciesIn(b, trace)), Listings(b, trace))
    ensures ending == Completed ==> result.missing == |Expected(PoliciesIn(b, trace)) - SetOf(Listings(b, trace))|
  {
    var pages, known;
    ending, pages, known, trace := ReadPolicies(b, maximumPages);
    result := Result(known, 0, 0, ZERO, 0);
    if ending != Completed { return; }
    ghost var policies := trace;
    var seen, tally;
    ending, seen, tally, trace := ScanGenerations(b, maximumPages, known, pages, trace);
    result := Result(known, seen.live, seen.previous, tally, 0);
    if ending != Completed { return; }
    PoliciesStayRead(b, policies, trace);
    result := result.(missing := |seen.missing|);
  }
}
