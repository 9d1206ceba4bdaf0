// What a daemon holds besides its files: a rollback never restores it, it reloads the daemon from a restored file.
module RuntimePolicies {
  import opened Records
  import opened Journals
  import opened Protocol
  import opened RestorePass
  import opened Restoration
  import opened CrashResume
  import opened RollbackRuns
  import opened ApplyRuns
  import opened ApplySafety

  /** What a reload gives, from these objects of the host and no others. */
  ghost predicate ReadsOnly(load: Host -> string, keys: set<Key>) {
    forall a: Host, b: Host :: (forall k <- keys :: Read(a, k) == Read(b, k)) ==> load(a) == load(b)
  }

  function OwnKeys(s: StepRecord): set<Key> { set o <- s.before | Ordinary(o) :: ObjectKey(o) }

  /** The step whose daemon reloads when its first object, the last one to be restored, is back. */
  predicate ReloadsOn(s: StepRecord, trigger: Key) {
    s.before != [] && Ordinary(s.before[0]) && ObjectKey(s.before[0]) == trigger
  }

  /** What the daemon holds after an action: the restore of the trigger reloads it, nothing else of a rollback does. */
  ghost function LiveNext(c: Config, o: Outcome, next: Config, trigger: Key, load: Host -> string, live: string): string
    requires Sound(c.pc)
  {
    if c.pc.Reverting? && o.ok && ObjectKey(c.pc.plan[0].record) == trigger then load(next.world.host) else live
  }

  /** What it holds after a run that started with `live`. */
  ghost function LiveAfter(registered: set<string>, c: Config, s: Script, trigger: Key, load: Host -> string, live: string): string
    requires Sound(c.pc)
    decreases |s|
  {
    if s == [] || c.pc.Finished? then live
    else
      NextIsSound(registered, c.pc, c.world, s[0]);
      var next := Next(registered, c.pc, c.world, s[0]);
      LiveAfter(registered, next, s[1..], trigger, load, LiveNext(c, s[0], next, trigger, load, live))
  }

  // ----------------------------------------------------- the trigger is the step's last restore

  predicate RestoresOneOf(a: Attempt, keys: set<Key>) { a.Restore? && ObjectKey(a.record) in keys }

  /** The plan restores the trigger, and none of these objects after it. */
  ghost predicate TriggerLast(plan: seq<Attempt>, keys: set<Key>, trigger: Key) {
    && trigger in keys && (exists i :: 0 <= i < |plan| && RestoresOneOf(plan[i], {trigger}))
    && forall i, j :: 0 <= i < j < |plan| && RestoresOneOf(plan[i], {trigger}) ==> !RestoresOneOf(plan[j], keys)
  }

  lemma {:induction false} InBackwards(steps: seq<StepRecord>, i: nat, all: seq<StepRecord>)
    requires i < |steps| && Applies(steps[i], all)
    ensures steps[i] in Backwards(steps, all, HasService(steps[i]))
  {
    hide Applies, HasService;
    if i < |steps| - 1 { InBackwards(steps[..|steps| - 1], i, all); }
  }

  lemma InOrder(registered: set<string>, order: seq<StepRecord>, k: nat)
    requires k < |order|
    ensures AttemptsOf(registered, order) ==
            AttemptsOf(registered, order[..k]) + (Attempts(registered, order[k]) + AttemptsOf(registered, order[k + 1..]))
  {
    hide Attempts;
    AttemptsOfConcat(registered, order[..k], order[k..]);
    assert order == order[..k] + order[k..] && order[k..][1..] == order[k + 1..];
  }

  lemma Regroup(a: seq<Attempt>, b: seq<Attempt>, c: seq<Attempt>, d: seq<Attempt>)
    ensures a + (b + (c + d)) == a + b + c + d && b + (c + d) + a == b + c + (d + a)
  {
  }

  /** One step's restores stand together in the plan. */
  lemma StepInPlan(registered: set<string>, steps: seq<StepRecord>, i: nat) returns (early: seq<Attempt>, late: seq<Attempt>)
    requires i < |steps| && Applies(steps[i], steps)
    ensures Plan(registered, steps) == early + Attempts(registered, steps[i]) + late
  {
    hide Applies, HasService, Attempts, AttemptsOf, Backwards;
    InBackwards(steps, i, steps);
    var order := Backwards(steps, steps, HasService(steps[i]));
    var k :| 0 <= k < |order| && order[k] == steps[i];
    InOrder(registered, order, k);
    var x, y := AttemptsOf(registered, order[..k]), AttemptsOf(registered, order[k + 1..]);
    var other := AttemptsOf(registered, Backwards(steps, steps, !HasService(steps[i])));
    Regroup(other, x, Attempts(registered, steps[i]), y);
    early, late := if HasService(steps[i]) then other + x else x, if HasService(steps[i]) then y else y + other;
  }

  lemma FirstIsLast(s: StepRecord, trigger: Key, tolerant: bool)
    requires ReloadsOn(s, trigger)
    ensures var r := Restores(s.before, tolerant, s.id); r != [] && RestoresOneOf(r[|r| - 1], {trigger})
    decreases |s.before|
  {
    hide ObjectKey;
    if |s.before| > 1 {
      var init := s.before[..|s.before| - 1];
      FirstIsLast(s.(before := init), trigger, tolerant);
    } else {
      assert s.before[..0] == [];
    }
  }

  lemma AfterBlock(early: seq<Attempt>, block: seq<Attempt>, late: seq<Attempt>, j: nat, a: Attempt)
    requires DistinctRestores(early + block + late) && |early| + |block| <= j < |early| + |block| + |late| && a in block
    ensures var plan := early + block + late; plan[j].Restore? && a.Restore? && ObjectKey(plan[j].record) != ObjectKey(a.record)
  {
    hide ObjectKey, Own;
    var m :| 0 <= m < |block| && block[m] == a;
    assert (early + block + late)[|early| + m] == a;
  }

  lemma LastOfBlock(early: seq<Attempt>, block: seq<Attempt>, late: seq<Attempt>, keys: set<Key>, trigger: Key)
    requires DistinctRestores(early + block + late) && trigger in keys
    requires block != [] && RestoresOneOf(block[|block| - 1], {trigger})
    requires forall k <- keys :: exists a :: a in block && RestoresOneOf(a, {k})
    ensures TriggerLast(early + block + late, keys, trigger)
  {
    hide ObjectKey, Own;
    var plan, t := early + block + late, |early| + |block| - 1;
    assert plan[t] == block[|block| - 1];
    forall i, j | 0 <= i < j < |plan| && RestoresOneOf(plan[i], {trigger}) ensures !RestoresOneOf(plan[j], keys) {
      assert i == t;
      forall k <- keys ensures ObjectKey(plan[j].record) != k {
        var a :| a in block && RestoresOneOf(a, {k});
        AfterBlock(early, block, late, j, a);
      }
    }
  }

  /** A step's restores are of its own objects, the trigger's last. */
  lemma BlockRestoresOwn(registered: set<string>, s: StepRecord, trigger: Key)
    requires s.typ in registered && s.mode != Noop && ReloadsOn(s, trigger)
    ensures var block := Attempts(registered, s);
      && trigger in OwnKeys(s) && block != [] && RestoresOneOf(block[|block| - 1], {trigger})
      && forall k <- OwnKeys(s) :: exists a :: a in block && RestoresOneOf(a, {k})
  {
    hide ObjectKey, Restores;
    FirstIsLast(s, trigger, Tolerates(s.mode));
    RestoresAre(s.before, Tolerates(s.mode), s.id);
    var block := Attempts(registered, s);
    assert s.before[0] in s.before;
    forall k <- OwnKeys(s) ensures exists a :: a in block && RestoresOneOf(a, {k}) {
      var o :| o in s.before && Ordinary(o) && ObjectKey(o) == k;
      assert Restore(o, Tolerates(s.mode), s.id) in block;
    }
  }

  lemma PlanTriggersLast(registered: set<string>, steps: seq<StepRecord>, i: nat, trigger: Key)
    requires Separate(steps) && AllRegistered(registered, steps)
    requires i < |steps| && Reverts(steps[i], steps) && ReloadsOn(steps[i], trigger)
    ensures TriggerLast(Plan(registered, steps), OwnKeys(steps[i]), trigger)
  {
    hide Applies, Plan, Separate, DistinctRestores, Owns, Attempts, OwnKeys, TriggerLast, RestoresOneOf, ReloadsOn;
    PlanIsDistinct(registered, steps);
    var early, late := StepInPlan(registered, steps, i);
    assert steps[i].typ in registered;
    BlockRestoresOwn(registered, steps[i], trigger);
    LastOfBlock(early, Attempts(registered, steps[i]), late, OwnKeys(steps[i]), trigger);
  }

  // ------------------------------------------------------------------ along a rollback

  /** Points of a revert, by the rollback command or by the apply itself. */
  predicate RevertPc(pc: Pc) {
    match pc
    case Acquire(q) => q.RollbackRequest?
    case Load(_, _, _) => true
    case Preflight(_, _, _) => true
    case Claim(_, _) => true
    case Reverting(_, _, _) => true
    case Consume(_, _, _) => true
    case Writing(_, s) => s.ClaimSave? || s.FailedSave?
    case Renaming(_, s) => s.ClaimSave? || s.FailedSave?
    case Release(_) => true
    case Finished(_) => true
    case _ => false
  }

  /** The records a revert that has not started restoring is about. */
  predicate About(pc: Pc, steps: seq<StepRecord>) {
    match pc
    case Preflight(v, _, _) => StepsOf(v) == steps
    case Claim(_, j) => j.steps == steps
    case Writing(j, s) => s.ClaimSave? ==> s.journal.steps == steps && j == s.journal
    case Renaming(j, s) => s.ClaimSave? ==> s.journal.steps == steps
    case _ => true
  }

  /** The revert has nothing left to do and lost nothing. */
  predicate Complete(pc: Pc) {
    match pc
    case Consume(_, _, degraded) => degraded == []
    case Writing(_, s) => s == FailedSave(true)
    case Renaming(_, s) => s == FailedSave(true)
    case Release(result) => result == RolledBack || result == ApplyFailed(true)
    case Finished(result) => result == RolledBack || result == ApplyFailed(true)
    case _ => false
  }

  predicate StillDue(plan: seq<Attempt>, trigger: Key) { exists i :: 0 <= i < |plan| && RestoresOneOf(plan[i], {trigger}) }

  /** Once the trigger is back and nothing was lost, the daemon holds what a reload of the host as it is would give. */
  ghost predicate LiveAt(full: seq<Attempt>, steps: seq<StepRecord>, trigger: Key, load: Host -> string, c: Config, live: string) {
    && RevertPc(c.pc) && About(c.pc, steps) && (Complete(c.pc) ==> live == load(c.world.host))
    && (c.pc.Reverting? ==> |c.pc.plan| <= |full| && c.pc.plan == full[|full| - |c.pc.plan|..]
                            && (c.pc.degraded == [] && !StillDue(c.pc.plan, trigger) ==> live == load(c.world.host)))
  }

  /** What a restore does to the daemon and to the plan. */
  lemma RestoreIsLive(full: seq<Attempt>, keys: set<Key>, trigger: Key, load: Host -> string, plan: seq<Attempt>, host: Host, live: string)
    requires DistinctRestores(full) && TriggerLast(full, keys, trigger) && ReadsOnly(load, keys)
    requires plan != [] && |plan| <= |full| && plan == full[|full| - |plan|..]
    requires !StillDue(plan, trigger) ==> live == load(host)
    ensures plan[0].Restore? && Own(plan[0].record) && plan[1..] == full[|full| - |plan[1..]|..]
    ensures var host' := Put(host, plan[0].record);
      var live' := if ObjectKey(plan[0].record) == trigger then load(host') else live;
      !StillDue(plan[1..], trigger) ==> live' == load(host')
  {
    var m := |full| - |plan|;
    assert plan[0] == full[m];
    var k, host' := ObjectKey(plan[0].record), Put(host, plan[0].record);
    if !StillDue(plan[1..], trigger) && k != trigger {
      assert !StillDue(plan, trigger) by {
        hide ObjectKey;
        forall i | 0 <= i < |plan| ensures !RestoresOneOf(plan[i], {trigger}) { assert i > 0 ==> plan[i] == plan[1..][i - 1]; }
      }
      TriggerIsPast(full, plan, keys, trigger);
      forall x <- keys ensures Read(host', x) == Read(host, x) { ReadAfterPut(host, plan[0].record, x); }
      assert load(host') == load(host);
    }
  }

  lemma TriggerIsPast(full: seq<Attempt>, plan: seq<Attempt>, keys: set<Key>, trigger: Key)
    requires TriggerLast(full, keys, trigger) && plan != [] && |plan| <= |full| && plan == full[|full| - |plan|..]
    requires !StillDue(plan, trigger)
    ensures !RestoresOneOf(plan[0], keys)
  {
    hide ObjectKey;
    var m := |full| - |plan|;
    forall i | m <= i < |full| ensures !RestoresOneOf(full[i], {trigger}) { assert plan[i - m] == full[i]; }
    var i :| 0 <= i < |full| && RestoresOneOf(full[i], {trigger});
  }

  /** The loop goes on, or ends and says so. */
  lemma ResumeIsLive(full: seq<Attempt>, steps: seq<StepRecord>, trigger: Key, load: Host -> string, v: Revert,
                     plan: seq<Attempt>, degraded: seq<ObjectRecord>, w: World, live: string)
    requires |plan| <= |full| && plan == full[|full| - |plan|..]
    requires degraded == [] && !StillDue(plan, trigger) ==> live == load(w.host)
    ensures LiveAt(full, steps, trigger, load, Config(Resume(v, plan, degraded), w), live)
    ensures LiveAt(full, steps, trigger, load, Config(RevertFailed(v, true), w), live)
    ensures LiveAt(full, steps, trigger, load, Config(RevertFailed(v, false), w), live)
  {
    assert plan == [] ==> !StillDue(plan, trigger);
    hide StillDue;
  }

  lemma RevertingIsLive(registered: set<string>, full: seq<Attempt>, steps: seq<StepRecord>, keys: set<Key>, trigger: Key,
                        load: Host -> string, c: Config, o: Outcome, live: string)
    requires DistinctRestores(full) && TriggerLast(full, keys, trigger) && ReadsOnly(load, keys)
    requires Sound(c.pc) && c.pc.Reverting? && LiveAt(full, steps, trigger, load, c, live)
    ensures var d := Next(registered, c.pc, c.world, o);
      LiveAt(full, steps, trigger, load, d, LiveNext(c, o, d, trigger, load, live))
  {
    hide ReadsOnly, TriggerLast, DistinctRestores, Own, StillDue, ObjectKey, Put, Resume, RevertFailed;
    var v, plan, degraded, w := c.pc.revert, c.pc.plan, c.pc.degraded, c.world;
    var w' := if Landed(o) then w.(host := Put(w.host, plan[0].record)) else w;
    var d := Next(registered, c.pc, w, o);
    var live' := LiveNext(c, o, d, trigger, load, live);
    if degraded == [] {
      RestoreIsLive(full, keys, trigger, load, plan, w.host, live);
    } else {
      NextSuffix(full, plan);
    }
    if o.ok {
      ResumeIsLive(full, steps, trigger, load, v, plan[1..], degraded, w', live');
    } else {
      ResumeIsLive(full, steps, trigger, load, v, plan[1..], degraded + [plan[0].record], w', live');
    }
  }

  lemma NextSuffix(full: seq<Attempt>, plan: seq<Attempt>)
    requires plan != [] && |plan| <= |full| && plan == full[|full| - |plan|..]
    ensures plan[1..] == full[|full| - |plan[1..]|..]
  {
  }

  /** A point just before the first restore. */
  predicate Starts(pc: Pc) { pc.Preflight? || pc.Claim? || ((pc.Writing? || pc.Renaming?) && pc.saving.ClaimSave?) }

  /** Where such a point leads: to the plan, to a refusal, or to the next action of the claim. */
  lemma StartLeadsTo(registered: set<string>, steps: seq<StepRecord>, c: Config, o: Outcome) returns (v: Revert)
    requires Sound(c.pc) && Starts(c.pc) && About(c.pc, steps)
    ensures var d := Next(registered, c.pc, c.world, o);
      || d.pc == Resume(v, Plan(registered, steps), []) || d.pc == RevertFailed(v, true) || d.pc == Release(Refused)
      || (Starts(d.pc) && About(d.pc, steps))
  {
    hide Plan, Resume, PreflightPasses;
    v := match c.pc
      case Preflight(v, _, _) => v
      case Claim(local, j) => ForCommand(local, j.(status := RollingBack))
      case Writing(_, s) => ForCommand(true, s.journal)
      case Renaming(_, s) => ForCommand(true, s.journal);
  }

  lemma DueAtFirst(full: seq<Attempt>, keys: set<Key>, trigger: Key)
    requires TriggerLast(full, keys, trigger)
    ensures StillDue(full, trigger)
  {
  }

  lemma StartsLive(full: seq<Attempt>, steps: seq<StepRecord>, trigger: Key, load: Host -> string, c: Config, live: string)
    requires Starts(c.pc) && About(c.pc, steps)
    ensures LiveAt(full, steps, trigger, load, c, live)
  {
  }

  lemma RefusedIsLive(full: seq<Attempt>, steps: seq<StepRecord>, trigger: Key, load: Host -> string, w: World, live: string)
    ensures LiveAt(full, steps, trigger, load, Config(Release(Refused), w), live)
  {
  }

  lemma StartIsLive(registered: set<string>, full: seq<Attempt>, steps: seq<StepRecord>, keys: set<Key>, trigger: Key,
                    load: Host -> string, c: Config, o: Outcome, live: string)
    requires full == Plan(registered, steps) && TriggerLast(full, keys, trigger)
    requires Sound(c.pc) && Starts(c.pc) && About(c.pc, steps)
    ensures LiveAt(full, steps, trigger, load, Next(registered, c.pc, c.world, o), live)
  {
    hide Next, StillDue, TriggerLast, Plan, Resume, RevertFailed, LiveAt;
    var v := StartLeadsTo(registered, steps, c, o);
    var d := Next(registered, c.pc, c.world, o);
    DueAtFirst(full, keys, trigger);
    assert full[0..] == full;
    ResumeIsLive(full, steps, trigger, load, v, full, [], d.world, live);
    if Starts(d.pc) && About(d.pc, steps) { StartsLive(full, steps, trigger, load, d, live); }
    if d.pc == Release(Refused) { RefusedIsLive(full, steps, trigger, load, d.world, live); }
  }

  lemma LiveStep(registered: set<string>, full: seq<Attempt>, steps: seq<StepRecord>, keys: set<Key>, trigger: Key,
                 load: Host -> string, c: Config, o: Outcome, live: string)
    requires full == Plan(registered, steps) && DistinctRestores(full) && TriggerLast(full, keys, trigger) && ReadsOnly(load, keys)
    requires Sound(c.pc) && LiveAt(full, steps, trigger, load, c, live)
    requires c.pc.Load? ==> About(Next(registered, c.pc, c.world, o).pc, steps)
    ensures var d := Next(registered, c.pc, c.world, o);
      LiveAt(full, steps, trigger, load, d, LiveNext(c, o, d, trigger, load, live))
  {
    if c.pc.Reverting? {
      RevertingIsLive(registered, full, steps, keys, trigger, load, c, o, live);
    } else if Starts(c.pc) {
      StartIsLive(registered, full, steps, keys, trigger, load, c, o, live);
    } else {
      hide ReadsOnly, TriggerLast, DistinctRestores, Plan, LiveAt, Next, Starts;
      OtherStepIsLive(registered, full, steps, trigger, load, c, o, live);
    }
  }

  lemma OtherStepIsLive(registered: set<string>, full: seq<Attempt>, steps: seq<StepRecord>, trigger: Key, load: Host -> string,
                        c: Config, o: Outcome, live: string)
    requires Sound(c.pc) && !c.pc.Reverting? && !Starts(c.pc) && LiveAt(full, steps, trigger, load, c, live)
    requires c.pc.Load? ==> About(Next(registered, c.pc, c.world, o).pc, steps)
    ensures LiveAt(full, steps, trigger, load, Next(registered, c.pc, c.world, o), live)
  {
    hide StillDue, Loaded, Plan, PreflightPasses, Resume;
  }

  lemma InvIsAbout(r: Run, c: Config)
    requires Inv(r, c)
    ensures About(c.pc, r.steps)
  {
    hide Resumable, Going, Ended, Stored;
  }

  /** What one step's reload needs: its daemon reads only its objects, and they are put back together. */
  ghost predicate Reloading(registered: set<string>, steps: seq<StepRecord>, i: nat, trigger: Key, load: Host -> string) {
    && i < |steps| && Reverts(steps[i], steps) && ReloadsOn(steps[i], trigger) && ReadsOnly(load, OwnKeys(steps[i]))
    && Separate(steps) && AllRegistered(registered, steps)
  }

  lemma ReloadingMeans(registered: set<string>, steps: seq<StepRecord>, i: nat, trigger: Key, load: Host -> string)
    requires Reloading(registered, steps, i, trigger, load)
    ensures i < |steps| && DistinctRestores(Plan(registered, steps)) && TriggerLast(Plan(registered, steps), OwnKeys(steps[i]), trigger)
    ensures ReadsOnly(load, OwnKeys(steps[i]))
  {
    PlanTriggersLast(registered, steps, i, trigger);
    PlanIsDistinct(registered, steps);
    hide Plan, Separate, AllRegistered, Reverts, TriggerLast, DistinctRestores, ReadsOnly, Owns;
  }

  lemma {:induction false} CommandIsLive(r: Run, i: nat, trigger: Key, load: Host -> string, c: Config, s: Script, live: string)
    requires Valid(r) && Sound(c.pc) && Inv(r, c) && Reloading(r.registered, r.steps, i, trigger, load)
    requires LiveAt(FullPlan(r), r.steps, trigger, load, c, live)
    ensures LiveAt(FullPlan(r), r.steps, trigger, load, Exec(r.registered, c, s), LiveAfter(r.registered, c, s, trigger, load, live))
    decreases |s|
  {
    hide Inv, Valid, Next, LiveAt, Reloading, Plan, DistinctRestores, TriggerLast, ReadsOnly, LiveNext, About;
    if s != [] && !c.pc.Finished? {
      var d := Next(r.registered, c.pc, c.world, s[0]);
      InvNext(r, c, s[0]);
      InvIsAbout(r, d);
      ReloadingMeans(r.registered, r.steps, i, trigger, load);
      LiveStep(r.registered, FullPlan(r), r.steps, OwnKeys(r.steps[i]), trigger, load, c, s[0], live);
      NextIsSound(r.registered, c.pc, c.world, s[0]);
      CommandIsLive(r, i, trigger, load, d, s[1..], LiveNext(c, s[0], d, trigger, load, live));
    }
  }

  lemma NeverLoadsAgain(registered: set<string>, pc: Pc, w: World, o: Outcome)
    requires Sound(pc) && RevertPc(pc) && !pc.Acquire? && !pc.Load?
    ensures var d := Next(registered, pc, w, o); !d.pc.Acquire? && !d.pc.Load?
  {
    hide Plan, PreflightPasses, Put;
  }

  lemma LiveIsRevert(full: seq<Attempt>, steps: seq<StepRecord>, trigger: Key, load: Host -> string, c: Config, live: string)
    requires LiveAt(full, steps, trigger, load, c, live)
    ensures RevertPc(c.pc)
  {
  }

  lemma {:induction false} RevertIsLive(registered: set<string>, steps: seq<StepRecord>, i: nat, trigger: Key, load: Host -> string,
                                        c: Config, s: Script, live: string)
    requires Sound(c.pc) && !c.pc.Acquire? && !c.pc.Load? && Reloading(registered, steps, i, trigger, load)
    requires LiveAt(Plan(registered, steps), steps, trigger, load, c, live)
    ensures LiveAt(Plan(registered, steps), steps, trigger, load, Exec(registered, c, s), LiveAfter(registered, c, s, trigger, load, live))
    decreases |s|
  {
    hide Next, LiveAt, Reloading, Plan, DistinctRestores, TriggerLast, ReadsOnly, LiveNext, RevertPc;
    if s != [] && !c.pc.Finished? {
      var d := Next(registered, c.pc, c.world, s[0]);
      LiveIsRevert(Plan(registered, steps), steps, trigger, load, c, live);
      NeverLoadsAgain(registered, c.pc, c.world, s[0]);
      ReloadingMeans(registered, steps, i, trigger, load);
      LiveStep(registered, Plan(registered, steps), steps, OwnKeys(steps[i]), trigger, load, c, s[0], live);
      NextIsSound(registered, c.pc, c.world, s[0]);
      RevertIsLive(registered, steps, i, trigger, load, d, s[1..], LiveNext(c, s[0], d, trigger, load, live));
    }
  }

  // ---------------------------------------------------------------------- main results

  /** The step's before-capture is of this host. */
  ghost predicate CapturedFrom(s: StepRecord, host0: Host) {
    forall o <- s.before :: Ordinary(o) ==> Read(host0, ObjectKey(o)) == o
  }

  lemma LoadsAlike(s: StepRecord, load: Host -> string, host0: Host, host: Host)
    requires CapturedFrom(s, host0) && ReadsOnly(load, OwnKeys(s))
    requires forall o <- s.before :: Ordinary(o) ==> Read(host, ObjectKey(o)) == o
    ensures load(host) == load(host0)
  {
    hide Read, ObjectKey;
    assert forall k <- OwnKeys(s) :: Read(host, k) == Read(host0, k);
  }

  lemma StepIsBack(r: Run, i: nat, host: Host)
    requires Valid(r) && i < |r.steps| && Reverts(r.steps[i], r.steps)
    requires (forall a <- FullPlan(r) :: a.Restore?) && SameHost(host, Restored(FullPlan(r), r.pre))
    ensures forall o <- r.steps[i].before :: Ordinary(o) ==> Read(host, ObjectKey(o)) == o
  {
    PlanIsDistinct(r.registered, r.steps);
    var plan, s := FullPlan(r), r.steps[i];
    hide Plan, FullPlan, Valid, Applies, Read, ObjectKey, DistinctRestores, Restored;
    forall o <- s.before | Ordinary(o) ensures Read(host, ObjectKey(o)) == o {
      var a := Restore(o, Tolerates(s.mode), s.id);
      assert Owns(s, a);
      assert a in plan;
      RestoredReads(plan, r.pre, ObjectKey(o));
    }
  }

  /** After any interruptions, the rollback that finishes leaves the daemon with what its captured files load to. The policy
      it held before the run comes back exactly if it was what those files load to. */
  lemma PolicyComesBackIff(r: Run, force: bool, w: World, scripts: seq<Script>, last: Script,
                           i: nat, trigger: Key, load: Host -> string, host0: Host, before: string, live: string)
    requires Valid(r) && Resumable(r, w)
    requires forall n :: 0 <= n <= |scripts| ==> !Gone(r, After(r, force, w, scripts[..n]))
    requires OneAttempt(r, force, After(r, force, w, scripts), last).pc == Finished(RolledBack)
    requires Reloading(r.registered, r.steps, i, trigger, load) && CapturedFrom(r.steps[i], host0)
    ensures var start := Config(Acquire(Command(r, force)), After(r, force, w, scripts).(locked := false));
      var after := LiveAfter(r.registered, start, last, trigger, load, live);
      after == load(host0) && (after == before <==> before == load(host0))
  {
    var v := After(r, force, w, scripts);
    var start := Config(Acquire(Command(r, force)), v.(locked := false));
    var c := OneAttempt(r, force, v, last);
    CrashResumeRestores(r, force, w, scripts, last);
    StaysResumable(r, force, w, scripts);
    StartsWell(r, force, v);
    hide Valid, Resumable, Gone, Plan, FullPlan, After, Reloading, LiveAfter, LiveAt, CapturedFrom, SameHost, Inv, Exec;
    StartIsRevert(r, force, v, trigger, load, live);
    CommandIsLive(r, i, trigger, load, start, last, live);
    LiveAtEnd(FullPlan(r), r.steps, trigger, load, c, LiveAfter(r.registered, start, last, trigger, load, live));
    ReverterOf(r.registered, r.steps, i, trigger, load);
    StepIsBack(r, i, c.world.host);
    LoadsAlike(r.steps[i], load, host0, c.world.host);
  }

  lemma StartsWell(r: Run, force: bool, v: World)
    requires Resumable(r, v)
    ensures Inv(r, Config(Acquire(Command(r, force)), v.(locked := false)))
  {
    SameStores(r, v, v.(locked := false), Success);
    SameStores(r, v, v.(locked := false), RollingBack);
    hide Stored, Partly, SameHost, FullPlan;
  }

  lemma StartIsRevert(r: Run, force: bool, v: World, trigger: Key, load: Host -> string, live: string)
    ensures LiveAt(FullPlan(r), r.steps, trigger, load, Config(Acquire(Command(r, force)), v.(locked := false)), live)
  {
  }

  lemma LiveAtEnd(full: seq<Attempt>, steps: seq<StepRecord>, trigger: Key, load: Host -> string, c: Config, live: string)
    requires LiveAt(full, steps, trigger, load, c, live)
    requires c.pc == Finished(RolledBack) || c.pc == Finished(ApplyFailed(true))
    ensures live == load(c.world.host)
  {
  }

  lemma ReverterOf(registered: set<string>, steps: seq<StepRecord>, i: nat, trigger: Key, load: Host -> string)
    requires Reloading(registered, steps, i, trigger, load)
    ensures i < |steps| && Reverts(steps[i], steps) && ReadsOnly(load, OwnKeys(steps[i]))
  {
  }

  /** The same of an apply that reverts itself. */
  lemma OwnPolicyComesBackIff(l: Launch, c: Config, s: Script, i: nat, trigger: Key, load: Host -> string, before: string, live: string)
    requires Launchable(l) && Noop !in l.modes && Sound(c.pc) && AInv(l, c) && c.pc.Preflight? && forall o <- s :: o.mode in l.modes
    requires Reloading(l.registered, RecordsAt(c.pc), i, trigger, load)
    requires Exec(l.registered, c, s).pc == Finished(ApplyFailed(true))
    ensures var after := LiveAfter(l.registered, c, s, trigger, load, live);
      after == load(l.host0) && (after == before <==> before == load(l.host0))
  {
    var steps, d := RecordsAt(c.pc), Exec(l.registered, c, s);
    assert LiveAt(Plan(l.registered, steps), steps, trigger, load, c, live) by { hide Plan; }
    hide Plan, Reloading, LiveAfter, LiveAt, Launchable, SameHost, Exec;
    RevertIsLive(l.registered, steps, i, trigger, load, c, s, live);
    LiveAtEnd(Plan(l.registered, steps), steps, trigger, load, d, LiveAfter(l.registered, c, s, trigger, load, live));
    AInvAlways(l, c, s);
    UndoneIsSame(l, d);
    ReverterOf(l.registered, steps, i, trigger, load);
    SameLoads(load, OwnKeys(steps[i]), d.world.host, l.host0);
  }

  lemma UndoneIsSame(l: Launch, d: Config)
    requires Noop !in l.modes && AInv(l, d) && d.pc == Finished(ApplyFailed(true))
    ensures SameHost(d.world.host, l.host0)
  {
    var steps :| ModesIn(l, steps) && Undone(l, steps, d.world.host);
    hide Read;
    assert forall k :: !NoopKey(l, steps, k);
  }

  lemma SameLoads(load: Host -> string, keys: set<Key>, a: Host, b: Host)
    requires ReadsOnly(load, keys) && SameHost(a, b)
    ensures load(a) == load(b)
  {
    hide Read;
  }
}
