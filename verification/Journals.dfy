// Journalled steps: which of them a rollback reverts, when it refuses to, and in what order.
module Journals {
  import opened Wrappers
  import opened Records

  datatype Mode = Deterministic | BestEffort | Irreversible | Noop | OtherMode

  datatype Reload = Reload(action: string, policy: string, deps: seq<string>)

  datatype StepRecord = StepRecord(id: string, typ: string, mode: Mode, before: seq<ObjectRecord>,
                                   after: seq<ObjectRecord>, reload: Option<Reload>)

  datatype Status = InProgress | Failed | Interrupted | Success | RollingBack | OtherStatus

  datatype Journal = Journal(profile: string, runId: string, status: Status, steps: seq<StepRecord>)

  // --------------------------------------------------------------------------- the host

  /** Objects a rollback restores itself; a runtime policy comes back through its file. */
  type ObjectId = k: Key | k.Key? && k.kind in {File, FileMeta, Service, Package} witness Key(File, "")

  type PolicyRecord = o: ObjectRecord | o.kind == Policy
    witness ObjectRecord(Policy, None, None, None, None, None, "")

  /** What the host holds, object by object; an object it does not list is absent. */
  type Host = map<Key, ObjectRecord>

  function Absent(k: Key): (o: ObjectRecord)
    ensures k.Key? && k.kind in {File, FileMeta, Service, Package} ==> ObjectKey(o) == k
  {
    var blank := ObjectRecord(Other, None, None, None, None, None, "");
    if k.NoKey? then blank else
    match k.kind
    case File => blank.(kind := File, file := Some(FileSnapshot(k.name, false, "", "", "", "")))
    case FileMeta => blank.(kind := FileMeta, meta := Some(MetaSnapshot(k.name, false, "", "", "", "")))
    case Service => blank.(kind := Service, service := Some(ServiceState(k.name, false, false, "", "", false)))
    case Package => blank.(kind := Package, package := Some(PackageState(k.name, false, "", "", false, false)))
    case _ => blank
  }

  /** The record a capture of this object would make now. */
  function Read(host: Host, k: Key): (o: ObjectRecord)
    ensures k.Key? && k.kind in {File, FileMeta, Service, Package} ==> ObjectKey(o) == k
  {
    if k in host && ObjectKey(host[k]) == k then host[k] else Absent(k)
  }

  /** A restore sets the record's object to the record and touches nothing else. */
  function Put(host: Host, o: ObjectRecord): Host { host[ObjectKey(o) := o] }

  /** The host as a conflict check sees it; an object that cannot be inspected counts as a conflict. */
  datatype View = View(host: Host, blind: set<Key>)

  predicate Drifted(view: View, o: ObjectRecord) { ObjectKey(o) in view.blind || Read(view.host, ObjectKey(o)) != o }

  lemma ReadAfterPut(host: Host, o: ObjectRecord, k: Key)
    requires o.kind != Policy && PayloadPresent(o)
    ensures Read(Put(host, o), k) == if k == ObjectKey(o) then o else Read(host, k)
  {
  }

  // ------------------------------------------------------------------ what is reverted

  predicate Changed(s: StepRecord) { s.before != s.after }

  method StepActuallyChanged(s: StepRecord) returns (changed: bool)
    ensures changed == Changed(s)
  {
    if |s.before| == 0 && |s.after| == 0 { return false; }
    changed := s.before != s.after;
  }

  const RELOADS: set<string> := {"restarted", "restart", "reloaded", "reload", "reload-or-restart"}

  /** The first step of that name changed something. */
  predicate ChangedById(steps: seq<StepRecord>, id: string) {
    exists i :: 0 <= i < |steps| && steps[i].id == id && Changed(steps[i]) && forall j :: 0 <= j < i ==> steps[j].id != id
  }

  method StepChangedById(steps: seq<StepRecord>, id: string) returns (changed: bool)
    ensures changed == ChangedById(steps, id)
  {
    for i := 0 to |steps|
      invariant forall j :: 0 <= j < i ==> steps[j].id != id
    {
      if steps[i].id == id {
        changed := StepActuallyChanged(steps[i]);
        return;
      }
    }
    return false;
  }

  predicate ReloadTriggered(s: StepRecord, all: seq<StepRecord>) {
    && s.reload.Some? && s.reload.value.action in RELOADS
    && (s.reload.value.policy == "on_change" ==>
          exists i :: 0 <= i < |s.reload.value.deps| && ChangedById(all, s.reload.value.deps[i]))
  }

  method ServiceReloadTriggered(s: StepRecord, all: seq<StepRecord>) returns (triggered: bool)
    ensures triggered == ReloadTriggered(s, all)
  {
    if s.reload.None? || s.reload.value.action !in RELOADS { return false; }
    var r := s.reload.value;
    if r.policy == "on_change" {
      for i := 0 to |r.deps|
        invariant forall j :: 0 <= j < i ==> !ChangedById(all, r.deps[j])
      {
        var changed := StepChangedById(all, r.deps[i]);
        if changed { return true; }
      }
      return false;
    }
    return true;
  }

  predicate Applies(s: StepRecord, all: seq<StepRecord>) { Changed(s) || ReloadTriggered(s, all) }

  method RollbackStepApplies(s: StepRecord, all: seq<StepRecord>) returns (applies: bool)
    ensures applies == Applies(s, all)
  {
    applies := StepActuallyChanged(s);
    if !applies { applies := ServiceReloadTriggered(s, all); }
  }

  predicate HasService(s: StepRecord) { exists i :: 0 <= i < |s.before| && s.before[i].kind == Service }

  method StepHasServiceObjects(s: StepRecord) returns (has: bool)
    ensures has == HasService(s)
  {
    for i := 0 to |s.before|
      invariant forall j :: 0 <= j < i ==> s.before[j].kind != Service
    {
      if s.before[i].kind == Service { return true; }
    }
    return false;
  }

  // ------------------------------------------------------------------------ preflight

  /** An object a resumed rollback has already put back. */
  predicate Reverted(view: View, s: StepRecord, o: ObjectRecord) {
    ObjectKey(o) in ByKey(s.before) && !Drifted(view, ByKey(s.before)[ObjectKey(o)])
  }

  predicate InTheWay(view: View, s: StepRecord, resuming: bool, o: ObjectRecord) {
    o.kind != Policy && !(resuming && Reverted(view, s, o)) && Drifted(view, o)
  }

  /** The first after-objects that stand in the way of a rollback, in order. */
  function ConflictsAmong(view: View, s: StepRecord, resuming: bool, after: seq<ObjectRecord>): seq<ObjectRecord> {
    if after == [] then []
    else
      ConflictsAmong(view, s, resuming, after[..|after| - 1])
      + if InTheWay(view, s, resuming, after[|after| - 1]) then [after[|after| - 1]] else []
  }

  function Conflicts(view: View, registered: set<string>, s: StepRecord, resuming: bool): seq<ObjectRecord> {
    if s.typ !in registered then [] else ConflictsAmong(view, s, resuming, s.after)
  }

  lemma {:induction false} ConflictsAre(view: View, s: StepRecord, resuming: bool, after: seq<ObjectRecord>)
    ensures forall o :: o in ConflictsAmong(view, s, resuming, after) <==> o in after && InTheWay(view, s, resuming, o)
  {
    if after != [] {
      ConflictsAre(view, s, resuming, after[..|after| - 1]);
      assert after == after[..|after| - 1] + [after[|after| - 1]];
      hide InTheWay;
    }
  }

  method CheckStepConflicts(view: View, registered: set<string>, s: StepRecord, resuming: bool)
    returns (conflicts: seq<ObjectRecord>)
    ensures conflicts == Conflicts(view, registered, s, resuming)
  {
    if s.typ !in registered { return []; }
    var beforeByKey: map<Key, ObjectRecord> := map[];
    if resuming { beforeByKey := IndexByKey(s.before); }
    conflicts := [];
    for i := 0 to |s.after|
      invariant conflicts == ConflictsAmong(view, s, resuming, s.after[..i])
    {
      assert s.after[..i + 1][..i] == s.after[..i];
      var o := s.after[i];
      if o.kind == Policy { continue; }
      if ObjectKey(o) in beforeByKey && !Drifted(view, beforeByKey[ObjectKey(o)]) { continue; }
      if Drifted(view, o) { conflicts := conflicts + [o]; }
    }
    assert s.after[..|s.after|] == s.after;
  }

  predicate AllRegistered(registered: set<string>, steps: seq<StepRecord>) {
    forall i :: 0 <= i < |steps| && Applies(steps[i], steps) && steps[i].mode != Noop ==> steps[i].typ in registered
  }

  predicate NoConflicts(view: View, registered: set<string>, steps: seq<StepRecord>, resuming: bool) {
    forall i :: 0 <= i < |steps| && Applies(steps[i], steps) ==> Conflicts(view, registered, steps[i], resuming) == []
  }

  predicate PreflightPasses(view: View, registered: set<string>, steps: seq<StepRecord>, force: bool, resuming: bool) {
    AllRegistered(registered, steps) && (force || NoConflicts(view, registered, steps, resuming))
  }

  method PreflightRollbackConflicts(view: View, registered: set<string>, steps: seq<StepRecord>, force: bool,
                                    resuming: bool) returns (passes: bool)
    ensures passes == PreflightPasses(view, registered, steps, force, resuming)
  {
    hide Applies, Conflicts;
    var i := |steps|;
    while i > 0
      invariant 0 <= i <= |steps|
      invariant forall k :: i <= k < |steps| && Applies(steps[k], steps) && steps[k].mode != Noop ==> steps[k].typ in registered
    {
      i := i - 1;
      var applies := RollbackStepApplies(steps[i], steps);
      if !applies || steps[i].mode == Noop { continue; }
      if steps[i].typ !in registered { return false; }
    }
    var conflicted := 0;
    i := |steps|;
    while i > 0
      invariant 0 <= i <= |steps| && conflicted >= 0
      invariant conflicted == 0 <==>
                forall k :: i <= k < |steps| && Applies(steps[k], steps) ==> Conflicts(view, registered, steps[k], resuming) == []
    {
      i := i - 1;
      var applies := RollbackStepApplies(steps[i], steps);
      if !applies { continue; }
      var conflicts := CheckStepConflicts(view, registered, steps[i], resuming);
      if |conflicts| == 0 { continue; }
      conflicted := conflicted + 1;
    }
    if conflicted == 0 { return true; }
    return force;
  }

  // --------------------------------------------------------------- the order of restores

  datatype Attempt = Restore(record: ObjectRecord, tolerant: bool, step: string) | NoPlugin(step: string)

  predicate Tolerates(m: Mode) { m == BestEffort || m == Irreversible }

  /** One step's restores, last object first, runtime policies left out. */
  function Restores(before: seq<ObjectRecord>, tolerant: bool, step: string): seq<Attempt> {
    if before == [] then []
    else
      var last := before[|before| - 1];
      (if last.kind == Policy then [] else [Restore(last, tolerant, step)])
      + Restores(before[..|before| - 1], tolerant, step)
  }

  function Attempts(registered: set<string>, s: StepRecord): seq<Attempt> {
    if s.mode == Noop then []
    else if s.typ !in registered then [NoPlugin(s.id)]
    else Restores(s.before, Tolerates(s.mode), s.id)
  }

  /** The applying steps with (or without) service objects, last first. */
  function Backwards(steps: seq<StepRecord>, all: seq<StepRecord>, services: bool): seq<StepRecord> {
    if steps == [] then []
    else
      var last := steps[|steps| - 1];
      (if Applies(last, all) && HasService(last) == services then [last] else [])
      + Backwards(steps[..|steps| - 1], all, services)
  }

  function AttemptsOf(registered: set<string>, order: seq<StepRecord>): seq<Attempt> {
    if order == [] then [] else Attempts(registered, order[0]) + AttemptsOf(registered, order[1..])
  }

  /** Every restore a rollback makes, service steps after all others. */
  function Plan(registered: set<string>, steps: seq<StepRecord>): seq<Attempt> {
    AttemptsOf(registered, Backwards(steps, steps, false)) + AttemptsOf(registered, Backwards(steps, steps, true))
  }

  lemma {:induction false} AttemptsOfConcat(registered: set<string>, a: seq<StepRecord>, b: seq<StepRecord>)
    ensures AttemptsOf(registered, a + b) == AttemptsOf(registered, a) + AttemptsOf(registered, b)
  {
    if a == [] {
      assert a + b == b;
    } else {
      assert (a + b)[1..] == a[1..] + b;
      AttemptsOfConcat(registered, a[1..], b);
    }
  }
}
