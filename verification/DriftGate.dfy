// When a rollback refuses: exactly if an object it would overwrite is not as the run left it, read off the host itself.
module DriftGate {
  import opened Records
  import opened Journals
  import opened Protocol

  // ------------------------------------------------------------------- in place, object by object

  /** The object can be inspected and holds this record. */
  predicate Holds(host: Host, blind: set<Key>, o: ObjectRecord) {
    ObjectKey(o) !in blind && Read(host, ObjectKey(o)) == o
  }

  /** The last record of this object in the capture is what the host holds. */
  predicate HoldsLast(host: Host, blind: set<Key>, before: seq<ObjectRecord>, k: Key) {
    exists j :: 0 <= j < |before| && ObjectKey(before[j]) == k && Holds(host, blind, before[j])
                && forall m :: j < m < |before| ==> ObjectKey(before[m]) != k
  }

  /** The object is at the value the run left, or, on a resumed rollback, at the value it had before the run. */
  predicate InPlace(host: Host, blind: set<Key>, s: StepRecord, resuming: bool, o: ObjectRecord) {
    Holds(host, blind, o) || (resuming && HoldsLast(host, blind, s.before, ObjectKey(o)))
  }

  predicate StepInPlace(host: Host, blind: set<Key>, s: StepRecord, resuming: bool) {
    forall p :: 0 <= p < |s.after| && s.after[p].kind != Policy ==> InPlace(host, blind, s, resuming, s.after[p])
  }

  /** Every ordinary after-object of every applying step whose plugin is there is in place. */
  predicate NothingDrifted(host: Host, blind: set<Key>, registered: set<string>, steps: seq<StepRecord>, resuming: bool) {
    forall i :: 0 <= i < |steps| && Applies(steps[i], steps) && steps[i].typ in registered ==> StepInPlace(host, blind, steps[i], resuming)
  }

  /** Every step that would be reverted has its plugin. */
  predicate PluginsThere(registered: set<string>, steps: seq<StepRecord>) {
    forall i :: 0 <= i < |steps| && Applies(steps[i], steps) && steps[i].mode != Noop ==> steps[i].typ in registered
  }

  // -------------------------------------------------------------------- what the checks compute

  lemma {:induction false} ByKeyIsLast(objects: seq<ObjectRecord>, k: Key)
    ensures k in ByKey(objects) ==>
              exists j :: 0 <= j < |objects| && ObjectKey(objects[j]) == k && objects[j] == ByKey(objects)[k]
                          && forall m :: j < m < |objects| ==> ObjectKey(objects[m]) != k
    ensures k !in ByKey(objects) ==> forall j :: 0 <= j < |objects| ==> ObjectKey(objects[j]) != k
  {
    if objects != [] {
      var n := |objects| - 1;
      var init, last := objects[..n], objects[n];
      ByKeyIsLast(init, k);
      hide ObjectKey;
      if ObjectKey(last) == k {
        assert objects[n] == ByKey(objects)[k];
      } else if k in ByKey(init) {
        var j :| 0 <= j < |init| && ObjectKey(init[j]) == k && init[j] == ByKey(init)[k]
                 && forall m :: j < m < |init| ==> ObjectKey(init[m]) != k;
        assert objects[j] == init[j] && forall m :: j < m < n ==> objects[m] == init[m];
      } else {
        assert forall j :: 0 <= j < n ==> objects[j] == init[j];
      }
    }
  }

  lemma RevertedIs(host: Host, blind: set<Key>, s: StepRecord, o: ObjectRecord)
    ensures Reverted(View(host, blind), s, o) <==> HoldsLast(host, blind, s.before, ObjectKey(o))
  {
    var k := ObjectKey(o);
    ByKeyIsLast(s.before, k);
    hide ObjectKey, Read, ByKey;
  }

  lemma InTheWayIs(host: Host, blind: set<Key>, s: StepRecord, resuming: bool, o: ObjectRecord)
    ensures InTheWay(View(host, blind), s, resuming, o) <==> o.kind != Policy && !InPlace(host, blind, s, resuming, o)
  {
    RevertedIs(host, blind, s, o);
    hide Reverted, HoldsLast, ObjectKey, Read;
  }

  lemma NoElement<T>(s: seq<T>)
    ensures s == [] <==> forall x :: x !in s
  {
    if s != [] { assert s[0] in s; }
  }

  lemma ConflictFreeIs(host: Host, blind: set<Key>, registered: set<string>, s: StepRecord, resuming: bool)
    requires s.typ in registered
    ensures Conflicts(View(host, blind), registered, s, resuming) == [] <==> StepInPlace(host, blind, s, resuming)
  {
    var found := ConflictsAmong(View(host, blind), s, resuming, s.after);
    ConflictsAre(View(host, blind), s, resuming, s.after);
    NoElement(found);
    forall o ensures InTheWay(View(host, blind), s, resuming, o) <==> o.kind != Policy && !InPlace(host, blind, s, resuming, o) {
      InTheWayIs(host, blind, s, resuming, o);
    }
    hide InTheWay, InPlace, ConflictsAmong;
    if found == [] {
      forall p | 0 <= p < |s.after| && s.after[p].kind != Policy ensures InPlace(host, blind, s, resuming, s.after[p]) {
        assert s.after[p] in s.after;
      }
    }
  }

  lemma NoConflictsIs(host: Host, blind: set<Key>, registered: set<string>, steps: seq<StepRecord>, resuming: bool)
    ensures NoConflicts(View(host, blind), registered, steps, resuming) <==> NothingDrifted(host, blind, registered, steps, resuming)
  {
    forall i | 0 <= i < |steps| && steps[i].typ in registered
      ensures Conflicts(View(host, blind), registered, steps[i], resuming) == [] <==> StepInPlace(host, blind, steps[i], resuming)
    {
      ConflictFreeIs(host, blind, registered, steps[i], resuming);
    }
    forall i | 0 <= i < |steps| && steps[i].typ !in registered ensures Conflicts(View(host, blind), registered, steps[i], resuming) == [] {}
    hide Conflicts, StepInPlace, Applies;
  }

  lemma PreflightIs(host: Host, blind: set<Key>, registered: set<string>, steps: seq<StepRecord>, force: bool, resuming: bool)
    ensures PreflightPasses(View(host, blind), registered, steps, force, resuming) <==>
            PluginsThere(registered, steps) && (force || NothingDrifted(host, blind, registered, steps, resuming))
  {
    NoConflictsIs(host, blind, registered, steps, resuming);
    hide NoConflicts, NothingDrifted, Applies;
  }

  // -------------------------------------------------------------------------- over runs

  ghost function Begin(profile: string, local: bool, force: bool, w: World): Config {
    Config(Acquire(RollbackRequest(profile, local, force)), w)
  }

  predicate Undisturbed(w: World, v: World) { v.host == w.host && v.last == w.last && v.tmp == w.tmp && v.remote == w.remote }

  /** The first three actions of the command, when the lock is free and the journal can be read. */
  lemma FirstThree(registered: set<string>, profile: string, local: bool, force: bool, w: World, a: Outcome, b: Outcome, p: Outcome)
    requires a.ok && b.ok && !w.locked
    ensures var w' := w.(locked := true);
      Exec(registered, Begin(profile, local, force, w), [a, b]) == Config(OnLoad(profile, local, force, w', b), w')
    ensures var w' := w.(locked := true);
      var d := OnLoad(profile, local, force, w', b);
      Sound(d) && (!d.Finished? ==> Exec(registered, Begin(profile, local, force, w), [a, b, p]) == Next(registered, d, w', p))
  {
    hide OnLoad;
    var c, w' := Begin(profile, local, force, w), w.(locked := true);
    OneAction(registered, c.pc, w, a, [b]);
    OneAction(registered, Load(profile, local, force), w', b, []);
    assert [a] + [b] == [a, b] && [b] + [] == [b] && [a, b] + [p] == [a, b, p];
    ExecSnoc(registered, c, [a, b], p);
    hide Next;
  }

  lemma LoadedUnlocked(w: World, profile: string, local: bool)
    ensures Loaded(w.(locked := true), profile, local) == Loaded(w, profile, local)
  {
  }

  /** With the lock free and the journal of a successful or half-undone run loaded, the preflight decides exactly so: it goes
      on if every plugin is there and nothing has drifted or force is set, and refuses otherwise, changing nothing either way. */
  lemma PreflightDecides(registered: set<string>, profile: string, local: bool, force: bool, w: World,
                         a: Outcome, b: Outcome, p: Outcome)
    requires a.ok && b.ok && !w.locked
    requires Loaded(w, profile, local).Some? && Loaded(w, profile, local).value.status in {Success, RollingBack}
    ensures var j := Loaded(w, profile, local).value;
      var goes := PluginsThere(registered, j.steps)
                  && (force || NothingDrifted(w.host, p.blind, registered, j.steps, j.status == RollingBack));
      Exec(registered, Begin(profile, local, force, w), [a, b, p])
        == Config(if goes then Claim(local, j) else Release(Refused), w.(locked := true))
  {
    FirstThree(registered, profile, local, force, w, a, b, p);
    LoadedUnlocked(w, profile, local);
    var j := Loaded(w, profile, local).value;
    PreflightIs(w.host, p.blind, registered, j.steps, force, j.status == RollingBack);
    hide Loaded, PreflightPasses, PluginsThere, NothingDrifted, Exec;
  }

  lemma {:induction false} RefusedStays(registered: set<string>, c: Config, s: Script)
    requires c.pc == Release(Refused) || c.pc == Finished(Refused)
    ensures var d := Exec(registered, c, s);
      (d.pc == Release(Refused) || d.pc == Finished(Refused)) && Undisturbed(c.world, d.world)
    ensures s != [] ==> Exec(registered, c, s).pc == Finished(Refused)
    decreases |s|
  {
    if s != [] && !c.pc.Finished? {
      RefusedStays(registered, Next(registered, c.pc, c.world, s[0]), s[1..]);
    }
  }

  /** One object that drifted, or that cannot be inspected, ends the unforced command with nothing touched. */
  lemma DriftIsRefused(registered: set<string>, profile: string, local: bool, w: World, a: Outcome, b: Outcome, p: Outcome, rest: Script)
    requires a.ok && b.ok && !w.locked
    requires Loaded(w, profile, local).Some? && Loaded(w, profile, local).value.status in {Success, RollingBack}
    requires var j := Loaded(w, profile, local).value;
      !NothingDrifted(w.host, p.blind, registered, j.steps, j.status == RollingBack)
    ensures var c := Exec(registered, Begin(profile, local, false, w), [a, b, p] + rest);
      Undisturbed(w, c.world) && (c.pc == Release(Refused) || c.pc == Finished(Refused)) && (rest != [] ==> c.pc == Finished(Refused))
  {
    PreflightDecides(registered, profile, local, false, w, a, b, p);
    ExecConcat(registered, Begin(profile, local, false, w), [a, b, p], rest);
    RefusedStays(registered, Exec(registered, Begin(profile, local, false, w), [a, b, p]), rest);
    hide Loaded, NothingDrifted, Exec, PluginsThere;
  }

  /** A command that never got past its start reverts nothing. */
  predicate Early(pc: Pc) { pc.Acquire? || pc.Load? || pc.Preflight? }

  predicate Dead(pc: Pc) { pc == Release(Refused) || pc == Finished(Refused) || pc == Finished(NotLocked) }

  lemma {:induction false} DeadStays(registered: set<string>, c: Config, s: Script)
    requires Dead(c.pc)
    ensures Dead(Exec(registered, c, s).pc)
    decreases |s|
  {
    if s != [] && !c.pc.Finished? { DeadStays(registered, Next(registered, c.pc, c.world, s[0]), s[1..]); }
  }

  /** To get past its preflight a command must have taken the lock and loaded an admissible journal. */
  lemma PastPreflight(registered: set<string>, profile: string, local: bool, force: bool, w: World, s: Script)
    requires var pc := Exec(registered, Begin(profile, local, force, w), s).pc; !Early(pc) && !Dead(pc)
    ensures |s| >= 3 && s[0].ok && s[1].ok && !w.locked
    ensures Loaded(w, profile, local).Some? && Loaded(w, profile, local).value.status in {Success, RollingBack}
  {
    var c := Begin(profile, local, force, w);
    hide Loaded;
    if s != [] {
      var d := Next(registered, c.pc, w, s[0]);
      var t := s[1..];
      OneAction(registered, c.pc, w, s[0], t);
      assert s == [s[0]] + t;
      if Dead(d.pc) { DeadStays(registered, d, t); }
      if !d.pc.Finished? && t != [] {
        var e := Next(registered, d.pc, d.world, t[0]);
        OneAction(registered, d.pc, d.world, t[0], t[1..]);
        assert t == [t[0]] + t[1..];
        LoadedUnlocked(w, profile, local);
        if e.pc == Release(Refused) { DeadStays(registered, e, t[1..]); }
      }
    }
  }

  /** Whenever the unforced command has come to restore objects, at its preflight every ordinary after-object of every applying
      step was readable and as the run left it, or, resuming, back at its earlier value; and every plugin was there. */
  lemma RestoresMeanNoDrift(registered: set<string>, profile: string, local: bool, force: bool, w: World, s: Script)
    requires Exec(registered, Begin(profile, local, force, w), s).pc.Reverting?
    ensures Loaded(w, profile, local).Some? && |s| >= 3
    ensures var j := Loaded(w, profile, local).value;
      && j.status in {Success, RollingBack} && PluginsThere(registered, j.steps)
      && (force || NothingDrifted(w.host, s[2].blind, registered, j.steps, j.status == RollingBack))
  {
    hide Loaded, NothingDrifted, PluginsThere, Exec;
    PastPreflight(registered, profile, local, force, w, s);
    var c := Begin(profile, local, force, w);
    PreflightDecides(registered, profile, local, force, w, s[0], s[1], s[2]);
    assert s == [s[0], s[1], s[2]] + s[3..];
    ExecConcat(registered, c, [s[0], s[1], s[2]], s[3..]);
    var d := Exec(registered, c, [s[0], s[1], s[2]]);
    if d.pc == Release(Refused) { DeadStays(registered, d, s[3..]); }
  }

  /** The preflight of an apply's own rollback decides the same way, never resuming and never forced. */
  lemma OwnPreflightDecides(registered: set<string>, v: Revert, w: World, p: Outcome)
    requires !v.ForCommand?
    ensures var goes := p.ok && PluginsThere(registered, StepsOf(v)) && NothingDrifted(w.host, p.blind, registered, StepsOf(v), false);
      Next(registered, Preflight(v, false, false), w, p) ==
      Config(if goes then Resume(v, Plan(registered, StepsOf(v)), []) else Failing(v.job, false), w)
  {
    PreflightIs(w.host, p.blind, registered, StepsOf(v), false, false);
    hide PreflightPasses, PluginsThere, NothingDrifted, Plan, Resume;
  }
}
