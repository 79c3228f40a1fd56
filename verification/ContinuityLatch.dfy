/**
 The continuity latch: PostgreSQL remembers which generation of a policy was installed in
 Redis, so that a generation whose keys were lost is never silently created again. Policy
 updates, disables, key losses and any number of workers with stale copies interleave.
 */
module ContinuityLatch {
  import opened RoomState

  /** The durable row; latch is redis_initialized_version. */
  datatype Row = Row(version: int, enabled: bool, latch: Option<int>)

  /** What Redis knows: the version marker of the scope, and one continuity key per generation. */
  datatype Keys = Keys(marker: Option<int>, continuity: map<int, int>)

  datatype InstallResult = Installed | PolicyMismatch | ContinuityLost

  // ------------------------------------------------------------------ one call each

  function Raised(row: Row, enabled: bool): Row {
    Row(row.version + 1, enabled, None)
  }

  predicate Markable(row: Row, expected: int) {
    row.version == expected && row.enabled && (row.latch.None? || row.latch == Some(row.version))
  }

  function Marked(row: Row, expected: int): Row {
    if Markable(row, expected) then row.(latch := Some(row.version)) else row
  }

  /** The install script writes both keys. */
  predicate Creates(k: Keys, expected: int, allowCreate: bool) {
    allowCreate && (k.marker.None? || k.marker.value < expected)
  }

  function AfterInstall(k: Keys, expected: int, allowCreate: bool): Keys {
    if Creates(k, expected, allowCreate) then Keys(Some(expected), k.continuity[expected := expected]) else k
  }

  function InstallReply(k: Keys, expected: int, allowCreate: bool): InstallResult {
    if Creates(k, expected, allowCreate) then Installed
    else if k.marker.None? then ContinuityLost
    else if k.marker.value != expected then PolicyMismatch
    else if expected !in k.continuity || k.continuity[expected] != expected then ContinuityLost
    else Installed
  }

  class PolicyStore {
    var row: Row

    constructor (first: Row)
      ensures row == first
    {
      row := first;
    }

    /** updatePolicy and updateEnabled: only the expected version is replaced. */
    method Update(expected: int, enabled: bool) returns (ok: bool)
      modifies this
      ensures ok == (old(row).version == expected)
      ensures row == if ok then Raised(old(row), enabled) else old(row)
      ensures ok ==> row.version == old(row).version + 1 && row.enabled == enabled && row.latch == None
    {
      ok := row.version == expected;
      if ok {
        row := row.(enabled := enabled, version := row.version + 1, latch := None);
      }
    }

    method MarkRedisInitialized(expected: int) returns (ok: bool)
      modifies this
      ensures ok == Markable(old(row), expected) && row == Marked(old(row), expected)
      ensures ok <==> old(row).version == expected && old(row).enabled && (old(row).latch == None || old(row).latch == Some(expected))
      ensures row == if ok then old(row).(latch := Some(expected)) else old(row)
    {
      ok := row.version == expected && row.enabled && (row.latch == None || row.latch == Some(row.version));
      if ok {
        row := row.(latch := Some(row.version));
      }
    }
  }

  class Redis {
    var keys: Keys

    constructor ()
      ensures keys == Keys(None, map[])
    {
      keys := Keys(None, map[]);
    }

    method InstallPolicy(expected: int, allowCreate: bool) returns (result: InstallResult)
      modifies this
      ensures keys == AfterInstall(old(keys), expected, allowCreate)
      ensures result == InstallReply(old(keys), expected, allowCreate)
      ensures result == Installed ==> keys.marker == Some(expected) && expected in keys.continuity
      ensures result != Installed ==> keys == old(keys)
      ensures old(keys).marker == Some(expected) ==>
                keys == old(keys) && (result == Installed <==> expected in keys.continuity && keys.continuity[expected] == expected)
      ensures old(keys).marker.Some? && expected < old(keys).marker.value ==> result == PolicyMismatch
      ensures !allowCreate && old(keys).marker == None ==> result == ContinuityLost
      ensures !allowCreate && old(keys).marker.Some? && old(keys).marker.value != expected ==> result == PolicyMismatch
      ensures allowCreate && (old(keys).marker == None || old(keys).marker.value < expected) ==>
                && result == Installed && keys.marker == Some(expected)
                && keys.continuity == old(keys).continuity[expected := expected]
    {
      if keys.marker.None? {
        if !allowCreate { return ContinuityLost; }
        keys := Keys(Some(expected), keys.continuity[expected := expected]);
        return Installed;
      }
      if keys.marker.value == expected {
        if expected !in keys.continuity || keys.continuity[expected] != expected { return ContinuityLost; }
        return Installed;
      }
      if !allowCreate || keys.marker.value >= expected { return PolicyMismatch; }
      keys := Keys(Some(expected), keys.continuity[expected := expected]);
      return Installed;
    }
  }

  // ------------------------------------------------------------------ the protocol

  /** A worker runs a policy from the copy it read. */
  datatype Worker = Installing(copy: Row) | Marking(copy: Row)

  /** created lists the generations in the order in which install scripts wrote their keys. */
  datatype Sys = Sys(row: Row, keys: Keys, workers: map<int, Worker>, created: seq<int>)

  datatype Act =
    | Update(enabled: bool)
    | Read(id: int)
    | Install(id: int)
    | Mark(id: int)
    | Stop(id: int)
    | LoseMarker
    | LoseContinuity(version: int)

  predicate Can(s: Sys, a: Act) {
    match a
    case Read(i) => i !in s.workers && s.row.enabled
    case Install(i) => i in s.workers && s.workers[i].Installing?
    case Mark(i) => i in s.workers && s.workers[i].Marking?
    case Stop(i) => i in s.workers
    case _ => true
  }

  function AfterInstallBy(s: Sys, i: int): Sys
    requires i in s.workers
  {
    var copy := s.workers[i].copy;
    var allow := copy.latch.None?;
    s.(keys := AfterInstall(s.keys, copy.version, allow),
       created := if Creates(s.keys, copy.version, allow) then s.created + [copy.version] else s.created,
       workers := if allow && InstallReply(s.keys, copy.version, allow) == Installed
                  then s.workers[i := Marking(copy)] else s.workers - {i})
  }

  function Next(s: Sys, a: Act): Sys
    requires Can(s, a)
  {
    match a
    case Update(enabled) => s.(row := Raised(s.row, enabled))
    case Read(i) => s.(workers := s.workers[i := Installing(s.row)])
    case Install(i) => AfterInstallBy(s, i)
    case Mark(i) => s.(row := Marked(s.row, s.workers[i].copy.version), workers := s.workers - {i})
    case Stop(i) => s.(workers := s.workers - {i})
    case LoseMarker => s.(keys := s.keys.(marker := None))
    case LoseContinuity(v) => s.(keys := s.keys.(continuity := s.keys.continuity - {v}))
  }

  predicate Goes(states: seq<Sys>, acts: seq<Act>, i: nat)
    requires i < |acts| < |states|
  {
    Can(states[i], acts[i]) && states[i + 1] == Next(states[i], acts[i])
  }

  /** Acts from any state on. */
  predicate Goings(states: seq<Sys>, acts: seq<Act>) {
    |states| == |acts| + 1 && forall i :: 0 <= i < |acts| ==> Goes(states, acts, i)
  }

  predicate SysRun(states: seq<Sys>, acts: seq<Act>) {
    && Goings(states, acts)
    && states[0].row.latch == None && 1 <= states[0].row.version
    && states[0].keys == Keys(None, map[]) && states[0].workers == map[] && states[0].created == []
  }

  // ------------------------------------------------------------------ invariants

  ghost predicate WorkerOk(s: Sys, w: Worker) {
    && w.copy.version <= s.row.version
    && (w.copy.latch.Some? ==> w.copy.latch == Some(w.copy.version))
    && (w.Marking? ==> w.copy.version in s.created)
  }

  ghost predicate LatchInv(s: Sys) {
    && (s.row.latch == None || s.row.latch == Some(s.row.version))
    && (s.row.latch.Some? ==> s.row.version in s.created)
    && (s.keys.marker.Some? ==> s.keys.marker.value <= s.row.version && s.keys.marker.value in s.created)
    && (forall v :: v in s.keys.continuity ==> s.keys.continuity[v] == v && v in s.created)
    && (forall i :: i in s.workers ==> WorkerOk(s, s.workers[i]))
  }

  lemma ActKeeps(s: Sys, a: Act)
    requires LatchInv(s) && Can(s, a)
    ensures LatchInv(Next(s, a))
  {
    var r := Next(s, a);
    forall v | v in s.created ensures v in r.created {}
    if a.Install? { assert WorkerOk(s, s.workers[a.id]); }
    if a.Mark? { assert WorkerOk(s, s.workers[a.id]); }
    forall i | i in r.workers ensures WorkerOk(r, r.workers[i]) {
      if i in s.workers { assert WorkerOk(s, s.workers[i]); }
    }
  }

  lemma {:induction false} RunInv(states: seq<Sys>, acts: seq<Act>, n: nat)
    requires Goings(states, acts) && LatchInv(states[0]) && n < |states|
    ensures LatchInv(states[n])
    decreases n
  {
    if n > 0 {
      RunInv(states, acts, n - 1);
      assert Goes(states, acts, n - 1);
      ActKeeps(states[n - 1], acts[n - 1]);
    }
  }

  // ------------------------------------------------------------------ theorems

  /** The latch is open or shows the current version, and it is closed only after that
      generation was created. */
  lemma LatchIsHonest(states: seq<Sys>, acts: seq<Act>, n: nat)
    requires SysRun(states, acts) && n < |states|
    ensures states[n].row.latch == None || states[n].row.latch == Some(states[n].row.version)
    ensures states[n].row.latch.Some? ==> states[n].row.version in states[n].created
  {
    RunInv(states, acts, n);
  }

  /** Without a loss of the marker key the version marker never goes down or away, and it
      never runs ahead of the row. */
  lemma {:induction false} MarkerNeverDecreases(states: seq<Sys>, acts: seq<Act>, i: nat, j: nat)
    requires SysRun(states, acts) && i <= j < |states|
    requires states[i].keys.marker.Some? && forall k :: i <= k < j ==> !acts[k].LoseMarker?
    ensures states[j].keys.marker.Some?
    ensures states[i].keys.marker.value <= states[j].keys.marker.value <= states[j].row.version
    decreases j
  {
    RunInv(states, acts, j);
    if i < j {
      MarkerNeverDecreases(states, acts, i, j - 1);
      assert Goes(states, acts, j - 1);
    }
  }

  /** The worker is about to install v from a copy that shows an open latch. */
  predicate OpenCopy(w: Worker, v: int) {
    w.Installing? && w.copy.version == v && w.copy.latch.None?
  }

  ghost predicate NoOpenCopy(s: Sys, v: int) {
    forall i :: i in s.workers ==> !OpenCopy(s.workers[i], v)
  }

  /** The latch of v is closed, or v is history. */
  predicate Shut(s: Sys, v: int) {
    v < s.row.version || s.row.latch == Some(v)
  }

  predicate CreatesAt(s: Sys, r: Sys, v: int) {
    r.created == s.created + [v]
  }

  /** Who creates a generation: exactly a worker that installs from a copy with an open latch
      when the marker is missing or older. A worker that read a closed latch never does. */
  lemma CreationNeedsOpenCopy(s: Sys, a: Act, v: int)
    requires Can(s, a)
    ensures CreatesAt(s, Next(s, a), v) <==>
              && a.Install? && s.workers[a.id].copy.version == v && s.workers[a.id].copy.latch.None?
              && (s.keys.marker.None? || s.keys.marker.value < v)
  {
    var r := Next(s, a);
    if r.created == s.created { assert |r.created| != |s.created + [v]|; }
    if a.Install? && r.created == s.created + [s.workers[a.id].copy.version] {
      assert r.created[|s.created|] == s.workers[a.id].copy.version;
      assert (s.created + [v])[|s.created|] == v;
    }
  }

  /** Once the latch of v is closed and nobody is about to install from an open copy of v, no loss
      of keys ever leads to v being created again. */
  lemma {:induction false} NoSilentRecreation(states: seq<Sys>, acts: seq<Act>, i: nat, j: nat, v: int)
    requires Goings(states, acts) && LatchInv(states[0]) && i <= j < |acts|
    requires Shut(states[i], v) && NoOpenCopy(states[i], v)
    ensures !CreatesAt(states[j], states[j + 1], v)
    ensures Shut(states[j], v) && NoOpenCopy(states[j], v)
    decreases j
  {
    if i < j {
      NoSilentRecreation(states, acts, i, j - 1, v);
      RunInv(states, acts, j - 1);
      assert Goes(states, acts, j - 1);
      ShutKept(states[j - 1], acts[j - 1], v);
    }
    assert Goes(states, acts, j);
    CreationNeedsOpenCopy(states[j], acts[j], v);
  }

  lemma ShutKept(s: Sys, a: Act, v: int)
    requires LatchInv(s) && Can(s, a) && Shut(s, v) && NoOpenCopy(s, v)
    ensures Shut(Next(s, a), v) && NoOpenCopy(Next(s, a), v)
  {
    if a.Mark? { assert WorkerOk(s, s.workers[a.id]); }
  }

  /** Some acts from s on create v. */
  ghost predicate MayRecreate(s: Sys, v: int) {
    exists states, acts :: Goings(states, acts) && states[0] == s && Recreates(states, acts, v)
  }

  predicate Recreates(states: seq<Sys>, acts: seq<Act>, v: int)
    requires |states| == |acts| + 1
  {
    acts != [] && CreatesAt(states[|acts| - 1], states[|acts|], v)
  }

  /** In every state of a run, behind a closed latch: v can be created again if and only if a worker
      is about to install from an open copy of v. */
  lemma RecreationExactly(states: seq<Sys>, acts: seq<Act>, n: nat, v: int)
    requires SysRun(states, acts) && n < |states| && Shut(states[n], v)
    ensures MayRecreate(states[n], v) <==> !NoOpenCopy(states[n], v)
  {
    RunInv(states, acts, n);
    if NoOpenCopy(states[n], v) && MayRecreate(states[n], v) {
      var more, further :| Goings(more, further) && more[0] == states[n] && Recreates(more, further, v);
      NoSilentRecreation(more, further, 0, |further| - 1, v);
    }
    if !NoOpenCopy(states[n], v) {
      var i :| i in states[n].workers && OpenCopy(states[n].workers[i], v);
      LossRecreates(states[n], i, v);
    }
  }

  /** The marker is lost and the worker installs. */
  lemma LossRecreates(s: Sys, i: int, v: int)
    requires i in s.workers && OpenCopy(s.workers[i], v)
    ensures MayRecreate(s, v)
  {
    var lost := Next(s, LoseMarker);
    var r := Next(lost, Install(i));
    CreationNeedsOpenCopy(lost, Install(i), v);
    var states, acts := [s, lost, r], [LoseMarker, Install(i)];
    assert Goes(states, acts, 0) && Goes(states, acts, 1);
    assert Goings(states, acts) && Recreates(states, acts, v);
  }

  /** A closed latch alone is not enough: a worker that read the row before the latch closed
      recreates the generation after a loss. Two workers read version 1; the first installs
      and closes the latch; the keys are lost; the second installs. */
  lemma StaleCopyRecreates() returns (states: seq<Sys>, acts: seq<Act>)
    ensures SysRun(states, acts) && |acts| == 6
    ensures states[5].row.latch == Some(1) && states[5].created == [1] && CreatesAt(states[5], states[6], 1)
  {
    var open, shut := Row(1, true, None), Row(1, true, Some(1));
    var none, keys := Keys(None, map[]), Keys(Some(1), map[1 := 1]);
    var s0 := Sys(open, none, map[], []);
    var s1 := Sys(open, none, map[1 := Installing(open)], []);
    var s2 := Sys(open, none, map[1 := Installing(open), 2 := Installing(open)], []);
    var s3 := Sys(open, keys, map[1 := Marking(open), 2 := Installing(open)], [1]);
    var s4 := Sys(shut, keys, map[2 := Installing(open)], [1]);
    var s5 := Sys(shut, keys.(marker := None), map[2 := Installing(open)], [1]);
    var s6 := Sys(shut, keys, map[2 := Marking(open)], [1, 1]);
    assert s1 == Next(s0, Read(1));
    assert s2 == Next(s1, Read(2));
    assert s3 == Next(s2, Install(1));
    assert s4 == Next(s3, Mark(1));
    assert s5 == Next(s4, LoseMarker);
    assert s6 == Next(s5, Install(2));
    states, acts := [s0, s1, s2, s3, s4, s5, s6], [Read(1), Read(2), Install(1), Mark(1), LoseMarker, Install(2)];
    forall i | 0 <= i < |acts| ensures Goes(states, acts, i) {
      assert i == 0 || i == 1 || i == 2 || i == 3 || i == 4 || i == 5;
    }
  }
}
