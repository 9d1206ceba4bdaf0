// What holds at every point of an apply run, under every environment, and what its automatic rollback restores.
module ApplySafety {
  import opened Records
  import opened Journals
  import opened Protocol
  import opened Restoration
  import opened CrashResume
  import opened ApplyRuns

  /** The host is as the run found it, but for objects of steps that are never reverted. */
  ghost predicate Undone(l: Launch, steps: seq<StepRecord>, host: Host) {
    forall k :: Read(host, k) == Read(l.host0, k) || NoopKey(l, steps, k)
  }

  /** Every object that changed has its pre-run value among these steps' before-captures. */
  ghost predicate CoversAll(l: Launch, steps: seq<StepRecord>, host: Host) {
    forall k :: Read(host, k) != Read(l.host0, k) ==>
      exists i :: 0 <= i < |steps| && Read(l.host0, k) in steps[i].before && ObjectKey(Read(l.host0, k)) == k
  }

  predicate ModesIn(l: Launch, steps: seq<StepRecord>) { forall i :: 0 <= i < |steps| ==> steps[i].mode in l.modes }

  ghost predicate Undoing(l: Launch, steps: seq<StepRecord>, plan: seq<Attempt>, failed: seq<ObjectRecord>, host: Host) {
    var full := Plan(l.registered, steps);
    && |plan| <= |full| && plan == full[|full| - |plan|..]
    && PreRunValues(l, steps) && DistinctRestores(full)
    && ModesIn(l, steps) && Covered(l, steps, host) && CoversAll(l, steps, host) && Tried(full, |full| - |plan|, host, failed)
  }

  function SuccessJournal(l: Launch, steps: seq<StepRecord>): Journal { Journal(l.profile, l.runId, Success, steps) }

  function Published(l: Launch, steps: seq<StepRecord>): map<RunKey, Journal> {
    l.remote0[RunKey(l.profile, l.runId) := SuccessJournal(l, steps)]
  }

  /** The target's journals are as found, or hold this run's: a publication reported as failed may have landed. */
  ghost predicate MaybePublished(l: Launch, steps: seq<StepRecord>, w: World) {
    w.remote == l.remote0 || w.remote == Published(l, steps)
  }

  ghost predicate AllDone(l: Launch, steps: seq<StepRecord>, host: Host) {
    |steps| == |l.plans| && Revertible(l, steps, host) && Completed(l, |l.plans|, steps, host)
  }

  ghost predicate SaveInv(l: Launch, j: Journal, s: Saving, w: World) {
    j.profile == l.profile &&
    match s
    case FirstSave(job) => j == job.journal && AtRest(l, job, w.host) && w.remote == l.remote0
    case BeforeSave(job) => j == job.journal && Midstep(l, job, w.host) && w.remote == l.remote0
    case AfterSave(job) => j == job.journal && AtRest(l, job, w.host) && w.remote == l.remote0
    case InterruptedSave(job) =>
      && j.steps == job.journal.steps && job.journal.profile == l.profile
      && Revertible(l, j.steps, w.host) && w.remote == l.remote0
    case FailedSave(reverted) =>
      && ModesIn(l, j.steps) && CoversAll(l, j.steps, w.host)
      && (reverted ==> Undone(l, j.steps, w.host)) && w.remote == l.remote0
    case FallbackSave =>
      j == SuccessJournal(l, j.steps) && AllDone(l, j.steps, w.host) && MaybePublished(l, j.steps, w)
    case KeepSave =>
      j == SuccessJournal(l, j.steps) && AllDone(l, j.steps, w.host) && w.remote == Published(l, j.steps)
    case ClaimSave(_) => false
  }

  ghost predicate EndInv(l: Launch, result: Ending, w: World) {
    match result
    case NotLocked => SameHost(w.host, l.host0) && w.remote == l.remote0
    case NotApplied => SameHost(w.host, l.host0) && w.remote == l.remote0
    case ApplyFailed(reverted) => w.remote == l.remote0 && (reverted ==> exists steps :: ModesIn(l, steps) && Undone(l, steps, w.host))
    case Applied => exists steps :: AllDone(l, steps, w.host) && w.remote == Published(l, steps)
    case NotPublished(_) => exists steps :: AllDone(l, steps, w.host) && MaybePublished(l, steps, w)
    case _ => false
  }

  ghost predicate OwnRevert(l: Launch, v: Revert) { !v.ForCommand? && v.job.journal.profile == l.profile }

  ghost predicate AInv(l: Launch, c: Config) {
    var w := c.world;
    match c.pc
    case Acquire(q) =>
      && q.ApplyRequest? && q.profile == l.profile && q.runId == l.runId && q.steps == l.plans
      && SameHost(w.host, l.host0) && w.remote == l.remote0
    case Checking(job) => AtRest(l, job, w.host) && job.journal.steps == [] && w.remote == l.remote0
    case Polling(job, before) => AtRest(l, job, w.host) && w.remote == l.remote0
    case CapturingBefore(job) => AtRest(l, job, w.host) && w.remote == l.remote0
    case ApplyingStep(job) => Midstep(l, job, w.host) && w.remote == l.remote0
    case CapturingAfter(job) => Midstep(l, job, w.host) && w.remote == l.remote0
    case Publishing(job) => AtRest(l, job, w.host) && job.todo == [] && w.remote == l.remote0
    case Dropping(job) =>
      MyJob(l, job) && AllDone(l, job.journal.steps, w.host) && w.remote == Published(l, job.journal.steps)
    case Writing(j, s) => SaveInv(l, j, s, w)
    case Renaming(j, s) => SaveInv(l, j, s, w)
    case Preflight(v, force, resuming) =>
      && OwnRevert(l, v) && Revertible(l, StepsOf(v), w.host) && !force && !resuming && w.remote == l.remote0
    case Reverting(v, plan, failed) =>
      OwnRevert(l, v) && Undoing(l, StepsOf(v), plan, failed, w.host) && w.remote == l.remote0
    case Release(result) => EndInv(l, result, w)
    case Finished(result) => EndInv(l, result, w)
    case _ => false
  }

  // ------------------------------------------------------------------ pieces of a run

  lemma AtRestMeans(l: Launch, job: Job, host: Host)
    requires AtRest(l, job, host)
    ensures Revertible(l, job.journal.steps, host) && job.journal.profile == l.profile
    ensures job.todo == [] ==> AllDone(l, job.journal.steps, host)
    ensures job.journal.steps == [] ==> SameHost(host, l.host0)
  {
    hide Recorded, Completed, Read;
    if job.journal.steps == [] {
      assert forall k :: !Touched(l, 0, k);
    }
  }

  lemma MidstepMeans(l: Launch, job: Job, host: Host)
    requires Midstep(l, job, host)
    ensures Revertible(l, job.journal.steps, host) && job.journal.profile == l.profile
  {
    hide Recorded, Completed, Untouched;
  }

  lemma RevertibleCoversAll(l: Launch, steps: seq<StepRecord>, host: Host)
    requires Revertible(l, steps, host)
    ensures CoversAll(l, steps, host) && ModesIn(l, steps)
  {
    assert ModesIn(l, steps) by { hide CaptureOf, Names; }
    forall k | Read(host, k) != Read(l.host0, k)
      ensures exists i :: 0 <= i < |steps| && Read(l.host0, k) in steps[i].before && ObjectKey(Read(l.host0, k)) == k
    {
      assert Touched(l, |steps|, k);
      var i :| 0 <= i < |steps| && k in l.plans[i].keys;
      assert CaptureOf(l.plans[i].keys, l.host0, steps[i].before);
      assert ObjectKey(Read(l.host0, k)) == k;
      hide Read, ObjectKey, Recorded;
    }
  }

  lemma NothingToUndo(l: Launch, host: Host)
    requires Revertible(l, [], host)
    ensures SameHost(host, l.host0)
  {
    hide Read, Recorded;
    assert forall k :: !Touched(l, 0, k);
  }

  lemma StartsUndoing(l: Launch, steps: seq<StepRecord>, host: Host)
    requires Launchable(l) && Revertible(l, steps, host)
    ensures Undoing(l, steps, Plan(l.registered, steps), [], host)
  {
    PlanHoldsPreRunValues(l, steps, host);
    RevertibleIsCovered(l, steps, host);
    RevertibleCoversAll(l, steps, host);
    hide Plan, Launchable, Revertible, Covered, CoversAll, PreRunValues, DistinctRestores;
  }

  /** A pre-run value put back keeps everything else covered. */
  lemma PutKeepsCovered(l: Launch, steps: seq<StepRecord>, host: Host, obj: ObjectRecord)
    requires Covered(l, steps, host) && CoversAll(l, steps, host)
    requires Own(obj) && obj == Read(l.host0, ObjectKey(obj))
    ensures Covered(l, steps, Put(host, obj)) && CoversAll(l, steps, Put(host, obj))
  {
    forall k ensures Read(Put(host, obj), k) == if k == ObjectKey(obj) then obj else Read(host, k) { ReadAfterPut(host, obj, k); }
    hide Read, ObjectKey, Put, Plan, NoopKey;
  }

  lemma UndoingPlan(l: Launch, steps: seq<StepRecord>, plan: seq<Attempt>, failed: seq<ObjectRecord>, host: Host)
    requires Undoing(l, steps, plan, failed, host)
    ensures var full := Plan(l.registered, steps);
      && |plan| <= |full| && plan == full[|full| - |plan|..]
      && (forall a <- full :: a.Restore? && a.record == Read(l.host0, ObjectKey(a.record)))
      && (forall i :: 0 <= i < |full| ==> Own(full[i].record))
  {
    hide Plan, Covered, CoversAll, Tried, Read, ObjectKey, Own, ModesIn;
  }

  lemma NextPut(l: Launch, steps: seq<StepRecord>, plan: seq<Attempt>, failed: seq<ObjectRecord>, host: Host)
    requires Undoing(l, steps, plan, failed, host) && plan != []
    ensures var full := Plan(l.registered, steps);
      && |plan| <= |full| && plan[0] == full[|full| - |plan|] && plan[1..] == full[|full| - |plan[1..]|..]
      && plan[0].Restore? && Own(plan[0].record) && plan[0].record == Read(l.host0, ObjectKey(plan[0].record))
  {
    hide Plan, Undoing, Read, ObjectKey, Own;
    var full := Plan(l.registered, steps);
    UndoingPlan(l, steps, plan, failed, host);
    SuffixStep(full, plan);
    assert plan[0] == full[|full| - |plan|] && plan[0] in full;
  }

  lemma UndoingOne(l: Launch, steps: seq<StepRecord>, plan: seq<Attempt>, failed: seq<ObjectRecord>, host: Host, o: Outcome)
    requires Undoing(l, steps, plan, failed, host) && plan != []
    ensures plan[0].Restore? && ModesIn(l, steps)
    ensures var host' := if Landed(o) then Put(host, plan[0].record) else host;
      && CoversAll(l, steps, host')
      && (o.ok ==> Undoing(l, steps, plan[1..], failed, host'))
      && (plan[0].tolerant ==> Undoing(l, steps, plan[1..], failed + [plan[0].record], host'))
  {
    NextPut(l, steps, plan, failed, host);
    hide Read, ObjectKey, Put, Plan, Covered, CoversAll, PreRunValues, DistinctRestores, Tried, Own, Partly, ModesIn;
    var full := Plan(l.registered, steps);
    SameIsPartly(full, host);
    OneRestore(full, |full| - |plan|, host, host, failed, o);
    PutKeepsCovered(l, steps, host, plan[0].record);
  }

  lemma SameIsPartly(plan: seq<Attempt>, host: Host)
    ensures Partly(plan, host, host)
  {
    hide Read;
  }

  lemma SuffixStep(full: seq<Attempt>, plan: seq<Attempt>)
    requires plan != [] && |plan| <= |full| && plan == full[|full| - |plan|..]
    ensures plan[0] == full[|full| - |plan|] && plan[1..] == full[|full| - |plan[1..]|..]
  {
  }

  lemma DoneUndoing(l: Launch, steps: seq<StepRecord>, host: Host)
    requires Undoing(l, steps, [], [], host)
    ensures Undone(l, steps, host)
  {
    var full := Plan(l.registered, steps);
    hide Read, ObjectKey, Plan, CoversAll, DistinctRestores, NoopKey;
    forall a <- full ensures a.Restore? && Read(host, ObjectKey(a.record)) == Read(l.host0, ObjectKey(a.record)) {
      var i :| 0 <= i < |full| && full[i] == a;
      assert Back(host, full[i]);
    }
  }

  lemma ResumeUndoing(l: Launch, v: Revert, plan: seq<Attempt>, failed: seq<ObjectRecord>, w: World)
    requires OwnRevert(l, v) && Undoing(l, StepsOf(v), plan, failed, w.host) && w.remote == l.remote0
    ensures AInv(l, Config(Resume(v, plan, failed), w))
  {
    NextUndoIsRestore(l, StepsOf(v), plan, failed, w.host);
    UndoingCovers(l, StepsOf(v), plan, failed, w.host);
    if plan == [] {
      if failed == [] { DoneUndoing(l, StepsOf(v), w.host); }
      FailingKeeps(l, v.job, failed == [], w);
    } else {
      StillReverting(l, v, plan, failed, w);
    }
    hide Undone, Undoing, CoversAll, AInv, Failing;
  }

  lemma StillReverting(l: Launch, v: Revert, plan: seq<Attempt>, failed: seq<ObjectRecord>, w: World)
    requires OwnRevert(l, v) && Undoing(l, StepsOf(v), plan, failed, w.host) && w.remote == l.remote0
    ensures AInv(l, Config(Pc.Reverting(v, plan, failed), w))
  {
    hide Undoing;
  }

  lemma FailingKeeps(l: Launch, job: Job, reverted: bool, w: World)
    requires job.journal.profile == l.profile && CoversAll(l, job.journal.steps, w.host) && w.remote == l.remote0
    requires ModesIn(l, job.journal.steps)
    requires reverted ==> Undone(l, job.journal.steps, w.host)
    ensures AInv(l, Config(Failing(job, reverted), w))
  {
    hide CoversAll, Undone;
  }


  lemma NextUndoIsRestore(l: Launch, steps: seq<StepRecord>, plan: seq<Attempt>, failed: seq<ObjectRecord>, host: Host)
    requires Undoing(l, steps, plan, failed, host)
    ensures plan == [] || plan[0].Restore?
  {
    var full := Plan(l.registered, steps);
    hide Plan, Covered, CoversAll, DistinctRestores, Tried, ObjectKey, Read;
    assert forall i :: 0 <= i < |full| ==> full[i] in full;
    assert forall i :: 0 <= i < |plan| ==> plan[i] == full[|full| - |plan| + i];
  }

  lemma UndoingCovers(l: Launch, steps: seq<StepRecord>, plan: seq<Attempt>, failed: seq<ObjectRecord>, host: Host)
    requires Undoing(l, steps, plan, failed, host)
    ensures CoversAll(l, steps, host) && ModesIn(l, steps)
  {
    hide CoversAll, ModesIn;
  }

  // ---------------------------------------------------------------- each kind of action

  lemma FailedStepKeeps(l: Launch, job: Job, w: World)
    requires Revertible(l, job.journal.steps, w.host) && job.journal.profile == l.profile && w.remote == l.remote0
    ensures AInv(l, Config(StepFailed(job), w))
  {
    hide Revertible;
  }

  lemma NextStepKeeps(l: Launch, job: Job, w: World)
    requires AtRest(l, job, w.host) && w.remote == l.remote0
    ensures AInv(l, Config(NextStep(job), w))
  {
    hide AtRest;
  }

  lemma SavedKeeps(l: Launch, j: Journal, s: Saving, w: World, ok: bool)
    requires Launchable(l) && SaveInv(l, j, s, w) && (s.FirstSave? ==> s.job.journal.steps == [])
    ensures AInv(l, Config(Saved(l.registered, s, ok), w))
  {
    hide AtRest, Midstep, Revertible, CoversAll, Undone, AllDone, Launchable, Failing, StepFailed, NextStep;
    match s
    case FirstSave(job) => AtRestMeans(l, job, w.host); NextStepKeeps(l, job, w);
    case BeforeSave(job) => MidstepMeans(l, job, w.host); FailedStepKeeps(l, job, w);
    case AfterSave(job) => AtRestMeans(l, job, w.host); FailedStepKeeps(l, job, w);
    case InterruptedSave(job) =>
      RevertibleCoversAll(l, j.steps, w.host);
      if job.journal.steps == [] {
        NothingToUndo(l, w.host);
        SameIsUndone(l, w.host);
        FailingKeeps(l, job, true, w);
      }
    case FailedSave(reverted) =>
    case FallbackSave =>
    case KeepSave =>
  }

  lemma SameIsUndone(l: Launch, host: Host)
    requires SameHost(host, l.host0)
    ensures Undone(l, [], host)
  {
    hide Read;
  }

  lemma StillSaving(l: Launch, j: Journal, s: Saving, w: World)
    requires SaveInv(l, j, s, w)
    ensures AInv(l, Config(Renaming(j, s), w))
  {
    hide SaveInv;
  }

  lemma WritingKeeps(l: Launch, j: Journal, s: Saving, w: World, o: Outcome)
    requires Launchable(l) && SaveInv(l, j, s, w) && (s.FirstSave? ==> s.job.journal.steps == [])
    ensures AInv(l, OnWriting(j, s, l.registered, w, o))
    ensures AInv(l, OnRenaming(j, s, l.registered, w, o))
  {
    hide SaveInv, Launchable, Saved, AInv;
    var c, d := OnWriting(j, s, l.registered, w, o), OnRenaming(j, s, l.registered, w, o);
    SameSave(l, j, s, w, c.world);
    SameSave(l, j, s, w, d.world);
    SavedKeeps(l, j, s, c.world, false);
    SavedKeeps(l, j, s, d.world, o.ok);
    if o.ok { StillSaving(l, j, s, c.world); }
  }

  lemma SameSave(l: Launch, j: Journal, s: Saving, w: World, w': World)
    requires w.host == w'.host && w.remote == w'.remote && SaveInv(l, j, s, w)
    ensures SaveInv(l, j, s, w')
  {
    hide AtRest, Midstep, Revertible, CoversAll, Undone, AllDone;
  }

  lemma PreflightKeeps(l: Launch, v: Revert, w: World, o: Outcome)
    requires Launchable(l) && OwnRevert(l, v) && Revertible(l, StepsOf(v), w.host) && w.remote == l.remote0
    ensures AInv(l, Config(OnPreflight(l.registered, v, false, false, w, o), w))
  {
    RevertibleCoversAll(l, StepsOf(v), w.host);
    StartsUndoing(l, StepsOf(v), w.host);
    ResumeUndoing(l, v, Plan(l.registered, StepsOf(v)), [], w);
    hide PreflightPasses, Revertible, Undoing, Launchable, CoversAll, Resume, Plan, Undone;
    if !v.ForCommand? { FailingKeeps(l, v.job, false, w); }
  }

  lemma RevertingKeeps(l: Launch, v: Revert, plan: seq<Attempt>, failed: seq<ObjectRecord>, w: World, o: Outcome)
    requires OwnRevert(l, v) && Undoing(l, StepsOf(v), plan, failed, w.host) && w.remote == l.remote0
    requires plan != [] && plan[0].Restore?
    ensures AInv(l, OnReverting(v, plan, failed, w, o))
  {
    UndoingOne(l, StepsOf(v), plan, failed, w.host, o);
    var w' := if Landed(o) then w.(host := Put(w.host, plan[0].record)) else w;
    hide Undoing, CoversAll, Put, Resume, Undone, AInv;
    if o.ok {
      ResumeUndoing(l, v, plan[1..], failed, w');
    } else if plan[0].tolerant {
      ResumeUndoing(l, v, plan[1..], failed + [plan[0].record], w');
    } else {
      FailingKeeps(l, v.job, false, w');
    }
  }

  lemma StepKeeps(l: Launch, c: Config, o: Outcome)
    requires Launchable(l) && Sound(c.pc) && AInv(l, c)
    requires o.mode in l.modes && (c.pc.CapturingBefore? || c.pc.ApplyingStep? || c.pc.CapturingAfter?)
    ensures AInv(l, Next(l.registered, c.pc, c.world, o))
  {
    var job, w := c.pc.job, c.world;
    hide Launchable, AtRest, Midstep, Revertible, Captured, Effect, Differ, StepFailed, SaveInv, AllDone, Untouched;
    if c.pc.CapturingBefore? {
      AtRestMeans(l, job, w.host);
      FailedStepKeeps(l, job, w);
      if o.ok {
        BeforeIsPreRun(l, job, w, o);
        var pc := OnCapturingBefore(job, w, o);
        MidstepMeans(l, pc.saving.job, w.host);
        hide OnCapturingBefore;
        SavingMidstep(l, pc.saving.job, w);
      }
    } else if c.pc.ApplyingStep? {
      EffectIsOwn(l, job, w.host, o.values);
      var w' := w.(host := Effect(w.host, job.todo[0].keys, o.values));
      MidstepMeans(l, job, w'.host);
      FailedStepKeeps(l, job, w');
    } else {
      MidstepMeans(l, job, w.host);
      FailedStepKeeps(l, job, w);
      if o.ok {
        AfterCompletes(l, job, w, o);
        var pc := OnCapturingAfter(job, w, o);
        AtRestMeans(l, pc.saving.job, w.host);
        hide OnCapturingAfter;
        SavingAfter(l, pc.saving.job, w);
      }
    }
  }

  lemma SavingMidstep(l: Launch, job: Job, w: World)
    requires Midstep(l, job, w.host) && job.journal.profile == l.profile && w.remote == l.remote0
    ensures AInv(l, Config(Writing(job.journal, BeforeSave(job)), w))
  {
    hide Midstep;
  }

  lemma SavingAfter(l: Launch, job: Job, w: World)
    requires AtRest(l, job, w.host) && w.remote == l.remote0
    ensures AInv(l, Config(Writing(job.journal, AfterSave(job)), w))
  {
    AtRestMeans(l, job, w.host);
    hide AtRest;
  }

  lemma PollingKeeps(l: Launch, job: Job, before: bool, w: World, o: Outcome)
    requires AtRest(l, job, w.host) && w.remote == l.remote0 && (before ==> job.todo != [])
    ensures AInv(l, Next(l.registered, Polling(job, before), w, o))
  {
    AtRestMeans(l, job, w.host);
    NextStepKeeps(l, job, w);
    hide AtRest, Revertible, NextStep, AllDone;
  }

  lemma PublishingKeeps(l: Launch, job: Job, w: World, o: Outcome)
    requires AtRest(l, job, w.host) && job.todo == [] && w.remote == l.remote0
    ensures AInv(l, OnPublishing(job, l.registered, w, o))
  {
    AtRestMeans(l, job, w.host);
    hide Revertible, Completed, AllDone;
    assert MyJob(l, job);
    assert job.journal.(status := Success) == SuccessJournal(l, job.journal.steps);
  }

  lemma StartKeeps(l: Launch, q: Request, w: World, o: Outcome)
    requires Launchable(l) && AInv(l, Config(Acquire(q), w))
    ensures AInv(l, Next(l.registered, Acquire(q), w, o))
  {
    var job := Job(q.steps, Journal(q.profile, q.runId, InProgress, []), q.keepLocal, map[]);
    hide Read, PlansApart;
    assert AtRest(l, job, w.host);
  }

  lemma CheckingKeeps(l: Launch, job: Job, w: World, o: Outcome)
    requires AInv(l, Config(Checking(job), w))
    ensures AInv(l, Next(l.registered, Checking(job), w, o))
  {
    AtRestMeans(l, job, w.host);
    hide AtRest, Revertible, AllDone;
  }

  /** A first save is always of a run that has journalled nothing. */
  predicate FreshSave(pc: Pc) {
    (pc.Writing? || pc.Renaming?) && pc.saving.FirstSave? ==> pc.saving.job.journal.steps == []
  }

  lemma FreshSaveNext(l: Launch, c: Config, o: Outcome)
    requires Sound(c.pc) && AInv(l, c) && FreshSave(c.pc)
    ensures FreshSave(Next(l.registered, c.pc, c.world, o).pc)
  {
    hide AtRest, Midstep, Revertible, Undoing, SaveInv, EndInv, Captured, Effect, Differ, Plan, PreflightPasses, Loaded, AllDone, Put;
  }

  lemma AInvNext(l: Launch, c: Config, o: Outcome)
    requires Launchable(l) && Sound(c.pc) && AInv(l, c) && FreshSave(c.pc) && o.mode in l.modes
    ensures AInv(l, Next(l.registered, c.pc, c.world, o))
  {
    var w := c.world;
    hide Launchable, AtRest, Midstep, Revertible, Undoing, SaveInv, EndInv, OnLoad, OnClaim, OnConsume, OnPreflight, OnReverting,
         OnWriting, OnRenaming, OnPublishing, AllDone, SameHost, OnCapturingBefore, OnCapturingAfter, OnApplyingStep;
    match c.pc
    case Acquire(q) => StartKeeps(l, q, w, o);
    case Checking(job) => CheckingKeeps(l, job, w, o);
    case Polling(job, before) => PollingKeeps(l, job, before, w, o);
    case CapturingBefore(_) => StepKeeps(l, c, o);
    case ApplyingStep(_) => StepKeeps(l, c, o);
    case CapturingAfter(_) => StepKeeps(l, c, o);
    case Publishing(job) => PublishingKeeps(l, job, w, o);
    case Dropping(job) => DroppingKeeps(l, job, w, o);
    case Writing(j, s) => WritingKeeps(l, j, s, w, o);
    case Renaming(j, s) => WritingKeeps(l, j, s, w, o);
    case Preflight(v, _, _) => PreflightKeeps(l, v, w, o);
    case Reverting(v, plan, failed) => RevertingKeeps(l, v, plan, failed, w, o);
    case Release(result) => EndKeeps(l, result, w, if Landed(o) then w.(locked := false) else w);
    case Finished(_) =>
  }

  lemma DroppingKeeps(l: Launch, job: Job, w: World, o: Outcome)
    requires AInv(l, Config(Dropping(job), w))
    ensures AInv(l, Next(l.registered, Dropping(job), w, o))
  {
    hide AllDone, Published;
  }

  lemma EndKeeps(l: Launch, result: Ending, w: World, w': World)
    requires EndInv(l, result, w) && w'.host == w.host && w'.remote == w.remote
    ensures EndInv(l, result, w')
  {
    hide AllDone, Published, Undone, SameHost;
  }

  lemma {:induction false} AInvAlways(l: Launch, c: Config, s: Script)
    requires Launchable(l) && Sound(c.pc) && AInv(l, c) && FreshSave(c.pc)
    requires forall o <- s :: o.mode in l.modes
    ensures AInv(l, Exec(l.registered, c, s))
    decreases |s|
  {
    hide AInv, Launchable, Next, FreshSave;
    if s != [] && !c.pc.Finished? {
      assert s[0] in s;
      AInvNext(l, c, s[0]);
      FreshSaveNext(l, c, s[0]);
      NextIsSound(l.registered, c.pc, c.world, s[0]);
      AInvAlways(l, Next(l.registered, c.pc, c.world, s[0]), s[1..]);
    }
  }
}
