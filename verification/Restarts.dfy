// Restarts that a watched change causes: decided before the service step runs, replayed when it is rolled back.
module Restarts {
  import opened Wrappers
  import opened Text
  import opened Records
  import opened Journals
  import opened Protocol
  import opened RestorePass
  import opened Restoration
  import opened CrashResume
  import opened ApplyRuns
  import opened ApplySafety
  import opened WriteAhead
  import opened AutoRollback
  import opened StepGraph

  // -------------------------------------------------------------------- the service step

  datatype RestartPolicy = RestartPolicy(typ: string, steps: seq<string>)

  datatype ServiceSpec = ServiceSpec(name: string, enabled: Option<bool>, state: string, policy: Option<RestartPolicy>)

  predicate OnChange(s: ServiceSpec) { s.policy.Some? && Clean(s.policy.value.typ) == "on_change" }

  predicate SomeChanged(deps: seq<string>, changes: map<string, bool>) {
    exists k :: 0 <= k < |deps| && deps[k] in changes && changes[deps[k]]
  }

  /** The restart is skipped: it waits for a change, nothing watched changed, and the service is already as wanted. */
  method RestartPolicySuppressed(s: ServiceSpec, changes: map<string, bool>, active: bool, enabled: bool) returns (suppressed: bool)
    ensures suppressed <==>
      && s.policy.Some? && Clean(s.policy.value.typ) == "on_change"
      && (forall k :: 0 <= k < |s.policy.value.steps| ==>
            !(s.policy.value.steps[k] in changes && changes[s.policy.value.steps[k]]))
      && active && (s.enabled.Some? ==> s.enabled.value == enabled)
  {
    hide Clean;
    if s.policy.None? || Clean(s.policy.value.typ) != "on_change" { return false; }
    var deps := s.policy.value.steps;
    for k := 0 to |deps|
      invariant forall m :: 0 <= m < k ==> !(deps[m] in changes && changes[deps[m]])
    {
      if deps[k] in changes && changes[deps[k]] { return false; }
    }
    if !active { return false; }
    if s.enabled.Some? && s.enabled.value != enabled { return false; }
    return true;
  }

  /** What the journal keeps of the service step's request. */
  function ServiceReloadRecord(s: ServiceSpec): Option<Reload> {
    var action := Clean(s.state);
    if action == "" then None
    else if s.policy.None? then Some(Reload(action, "", []))
    else Some(Reload(action, Clean(s.policy.value.typ), if OnChange(s) then s.policy.value.steps else []))
  }

  /** What the record is for: the rollback replays the reload exactly when the step asked for one and, if it waits for changes,
      one of the steps it watches has a delta. */
  lemma RecordedReloadReplays(spec: ServiceSpec, record: StepRecord, all: seq<StepRecord>)
    requires record.reload == ServiceReloadRecord(spec)
    ensures ReloadTriggered(record, all) <==>
      && Clean(spec.state) in {"restarted", "restart", "reloaded", "reload", "reload-or-restart"}
      && (spec.policy.Some? && Clean(spec.policy.value.typ) == "on_change" ==>
            exists k :: 0 <= k < |spec.policy.value.steps| && ChangedById(all, spec.policy.value.steps[k]))
  {
    hide Clean, ChangedById;
    assert "" !in RELOADS;
  }

  /** A watched change made the step restart its service. */
  predicate RestartedByChange(s: ServiceSpec, changes: map<string, bool>) {
    Clean(s.state) in RELOADS && OnChange(s) && SomeChanged(s.policy.value.steps, changes)
  }

  // ------------------------------------------------------------------------- the rollback

  ghost predicate DistinctIds(steps: seq<StepRecord>) {
    forall i, j :: 0 <= i < j < |steps| ==> steps[i].id != steps[j].id
  }

  /** The change map says of each of the first `n` steps whether its two captures differ. */
  ghost predicate Decided(steps: seq<StepRecord>, n: nat, changes: map<string, bool>) {
    n <= |steps| && (forall i :: 0 <= i < n ==> steps[i].id in changes && changes[steps[i].id] == Differ(steps[i].before, steps[i].after))
  }

  ghost predicate OnlyDecided(steps: seq<StepRecord>, n: nat, changes: map<string, bool>) {
    n <= |steps| && forall id <- changes :: exists i :: 0 <= i < n && steps[i].id == id
  }

  /** A reported change is a delta in the journal. */
  lemma DifferMeansChanged(s: StepRecord)
    requires Differ(s.before, s.after) && DistinctObjects(s.before)
    ensures Changed(s)
  {
    DiffersFromItself(s.before);
    hide AllPaired;
  }

  lemma ChangedStepIsFound(steps: seq<StepRecord>, j: nat)
    requires DistinctIds(steps) && j < |steps| && Changed(steps[j])
    ensures ChangedById(steps, steps[j].id)
  {
    assert forall k :: 0 <= k < j ==> steps[k].id != steps[j].id;
  }

  /** A restart caused at apply makes the step part of the rollback, even if the service's own state never changed. */
  lemma CausedRestartApplies(steps: seq<StepRecord>, n: nat, s: ServiceSpec, changes: map<string, bool>)
    requires n < |steps| && DistinctIds(steps) && steps[n].reload == ServiceReloadRecord(s)
    requires Decided(steps, n, changes) && OnlyDecided(steps, n, changes) && RestartedByChange(s, changes)
    requires forall i :: 0 <= i < n ==> DistinctObjects(steps[i].before)
    ensures Applies(steps[n], steps)
  {
    hide Clean, Differ;
    var deps := s.policy.value.steps;
    var k :| 0 <= k < |deps| && deps[k] in changes && changes[deps[k]];
    var j :| 0 <= j < n && steps[j].id == deps[k];
    DifferMeansChanged(steps[j]);
    ChangedStepIsFound(steps, j);
    hide Changed, ChangedById;
    assert Clean(s.state) != "" by { assert "" !in RELOADS; }
    assert ChangedById(steps, steps[n].reload.value.deps[k]);
  }

  /** The rollback of a journal that says what the change map said restores the service. */
  lemma DecidedRestartIsPlanned(registered: set<string>, steps: seq<StepRecord>, n: nat, s: ServiceSpec, changes: map<string, bool>,
                                service: ObjectRecord)
    requires n < |steps| && DistinctIds(steps) && steps[n].reload == ServiceReloadRecord(s)
    requires Decided(steps, n, changes) && OnlyDecided(steps, n, changes) && RestartedByChange(s, changes)
    requires forall i :: 0 <= i < n ==> DistinctObjects(steps[i].before)
    requires Separate(steps) && AllRegistered(registered, steps) && steps[n].mode != Noop
    requires service in steps[n].before && service.kind == Service
    ensures Restore(service, Tolerates(steps[n].mode), steps[n].id) in Plan(registered, steps)
  {
    CausedRestartApplies(steps, n, s, changes);
    hide Clean, Differ, Applies, Plan, Separate, AllRegistered, RestartedByChange, DistinctRestores;
    PlanIsDistinct(registered, steps);
    var a := Restore(service, Tolerates(steps[n].mode), steps[n].id);
    assert Owns(steps[n], a) && Reverts(steps[n], steps);
  }

  // ----------------------------------------------------------- decided before they matter

  ghost predicate DistinctPlanIds(l: Launch) {
    forall i, j :: 0 <= i < j < |l.plans| ==> l.plans[i].id != l.plans[j].id
  }

  ghost predicate DecidedJob(l: Launch, job: Job, n: int) {
    0 <= n <= |job.journal.steps| && Decided(job.journal.steps, n, job.changes) && OnlyDecided(job.journal.steps, n, job.changes)
  }

  ghost predicate DecidedSave(l: Launch, s: Saving) {
    match s
    case FirstSave(job) => DecidedJob(l, job, DoneSteps(l, job))
    case BeforeSave(job) => DecidedJob(l, job, DoneSteps(l, job))
    case AfterSave(job) => DecidedJob(l, job, DoneSteps(l, job))
    case _ => true
  }

  /** While the steps run, the change map covers exactly the finished ones. */
  ghost predicate DecidedAt(l: Launch, pc: Pc) {
    match pc
    case Checking(job) => DecidedJob(l, job, DoneSteps(l, job))
    case Polling(job, _) => DecidedJob(l, job, DoneSteps(l, job))
    case CapturingBefore(job) => DecidedJob(l, job, DoneSteps(l, job))
    case ApplyingStep(job) => DecidedJob(l, job, DoneSteps(l, job))
    case CapturingAfter(job) => DecidedJob(l, job, DoneSteps(l, job))
    case Publishing(job) => DecidedJob(l, job, DoneSteps(l, job))
    case Writing(_, s) => DecidedSave(l, s)
    case Renaming(_, s) => DecidedSave(l, s)
    case _ => true
  }

  lemma RecordAppended(l: Launch, job: Job, w: World, o: Outcome)
    requires job.todo != [] && DecidedJob(l, job, DoneSteps(l, job))
    ensures DecidedAt(l, OnCapturingBefore(job, w, o))
  {
    hide Captured, Differ;
    if o.ok {
      var steps := OnCapturingBefore(job, w, o).saving.job.journal.steps;
      assert forall i :: 0 <= i < |job.journal.steps| ==> steps[i] == job.journal.steps[i];
    }
  }

  lemma RecordCompleted(l: Launch, job: Job, w: World, o: Outcome)
    requires DistinctPlanIds(l) && Midstep(l, job, w.host) && DecidedJob(l, job, DoneSteps(l, job))
    ensures DecidedAt(l, OnCapturingAfter(job, w, o))
  {
    hide Captured, Differ, Midstep, Decided, OnlyDecided, DistinctPlanIds;
    if o.ok {
      var n := DoneSteps(l, job);
      var steps := job.journal.steps;
      LastIsNew(l, job, w.host);
      var after := Captured(w.host, job.todo[0].keys, o);
      var steps' := steps[n := steps[n].(after := after)];
      var changes' := job.changes[steps[n].id := Differ(steps[n].before, after)];
      DecidedMore(steps, n, job.changes, after);
      assert OnCapturingAfter(job, w, o).saving.job.changes == changes';
      assert OnCapturingAfter(job, w, o).saving.job.journal.steps == steps';
    }
  }

  lemma LastIsNew(l: Launch, job: Job, host: Host)
    requires DistinctPlanIds(l) && Midstep(l, job, host)
    ensures var n := DoneSteps(l, job);
      0 <= n && |job.journal.steps| == n + 1 && |job.todo| > 0
      && forall i :: 0 <= i < n ==> job.journal.steps[i].id != job.journal.steps[n].id
  {
    hide CaptureOf, Untouched, Completed;
    assert forall i :: 0 <= i <= DoneSteps(l, job) ==> Names(job.journal.steps[i], l.plans[i]);
  }

  lemma DecidedMore(steps: seq<StepRecord>, n: nat, changes: map<string, bool>, after: seq<ObjectRecord>)
    requires n < |steps| && Decided(steps, n, changes) && OnlyDecided(steps, n, changes)
    requires forall i :: 0 <= i < n ==> steps[i].id != steps[n].id
    ensures var steps' := steps[n := steps[n].(after := after)];
      var changes' := changes[steps[n].id := Differ(steps[n].before, after)];
      Decided(steps', n + 1, changes') && OnlyDecided(steps', n + 1, changes')
  {
    hide Differ;
    var steps' := steps[n := steps[n].(after := after)];
    assert forall i :: 0 <= i < n ==> steps'[i] == steps[i];
    assert steps'[n].id == steps[n].id;
    forall id | id in changes ensures exists i :: 0 <= i < n + 1 && steps'[i].id == id {
      var i :| 0 <= i < n && steps[i].id == id;
      assert steps'[i].id == id;
    }
  }

  lemma DecidedNext(l: Launch, c: Config, o: Outcome)
    requires DistinctPlanIds(l) && Sound(c.pc) && AInv(l, c) && DecidedAt(l, c.pc)
    ensures DecidedAt(l, Next(l.registered, c.pc, c.world, o).pc)
  {
    hide Differ, Captured, Effect, Plan, PreflightPasses, Loaded, Resume, AtRest, Revertible, DecidedJob, AllDone, Undoing, OnCapturingBefore,
         OnCapturingAfter;
    match c.pc
    case Acquire(q) => FreshIsDecided(l, q);
    case CapturingBefore(job) => RecordAppended(l, job, c.world, o);
    case CapturingAfter(job) => RecordCompleted(l, job, c.world, o);
    case Preflight(v, _, _) => ResumeIsDecided(l, v, Plan(l.registered, StepsOf(v)), []); ResumeIsDecided(l, v, [], []);
    case Reverting(v, plan, failed) =>
      ResumeIsDecided(l, v, plan[1..], failed);
      ResumeIsDecided(l, v, plan[1..], failed + [plan[0].record]);
    case _ =>
  }

  lemma FreshIsDecided(l: Launch, q: Request)
    requires q.ApplyRequest? && q.steps == l.plans
    ensures DecidedAt(l, Started(q))
  {
  }

  lemma ResumeIsDecided(l: Launch, v: Revert, plan: seq<Attempt>, failed: seq<ObjectRecord>)
    ensures DecidedAt(l, Resume(v, plan, failed)) && DecidedAt(l, RevertFailed(v, true)) && DecidedAt(l, RevertFailed(v, false))
  {
  }

  lemma {:induction false} DecidedAlways(l: Launch, c: Config, s: Script)
    requires Launchable(l) && DistinctPlanIds(l) && Sound(c.pc) && AInv(l, c) && FreshSave(c.pc) && DecidedAt(l, c.pc)
    requires forall o <- s :: o.mode in l.modes
    ensures DecidedAt(l, Exec(l.registered, c, s).pc)
    decreases |s|
  {
    hide AInv, Launchable, Next, FreshSave, DecidedAt;
    if s != [] && !c.pc.Finished? {
      assert s[0] in s;
      AInvNext(l, c, s[0]);
      DecidedNext(l, c, s[0]);
      FreshSaveNext(l, c, s[0]);
      NextIsSound(l.registered, c.pc, c.world, s[0]);
      DecidedAlways(l, Next(l.registered, c.pc, c.world, s[0]), s[1..]);
    }
  }

  /** The profile the apply runs is the one whose graph was validated. */
  ghost predicate RunsGraph(l: Launch, steps: seq<GraphStep>) {
    Accepted(steps) && |steps| == |l.plans| && forall i :: 0 <= i < |steps| ==> steps[i].id == l.plans[i].id
  }

  /** When a step runs, every step it watches has been decided. */
  lemma WatchedStepsAreDecided(l: Launch, keepLocal: bool, w: World, s: Script, steps: seq<GraphStep>, dep: string)
    requires From(l, w, s) && RunsGraph(l, steps) && ApplyRun(l, keepLocal, w, s).pc.ApplyingStep?
    requires var job := ApplyRun(l, keepLocal, w, s).pc.job;
      0 <= DoneSteps(l, job) < |steps| && dep in Watched(steps[DoneSteps(l, job)])
    ensures var job := ApplyRun(l, keepLocal, w, s).pc.job;
      && dep in job.changes
      && exists i :: 0 <= i < DoneSteps(l, job) && i < |job.journal.steps| && job.journal.steps[i].id == dep
           && job.changes[dep] == Differ(job.journal.steps[i].before, job.journal.steps[i].after)
  {
    hide ApplyRun, From, Differ, TrimSpace;
    var c := ApplyRun(l, keepLocal, w, s);
    var n := DoneSteps(l, c.pc.job);
    GraphIdsDistinct(l, steps);
    DecidedRun(l, keepLocal, w, s);
    JournalledNames(l, keepLocal, w, s);
    assert WatchesEarlier(steps, n);
    var k :| 0 <= k < |Watched(steps[n])| && Watched(steps[n])[k] == dep;
    var j :| 0 <= j < n && steps[j].id == dep;
    assert c.pc.job.journal.steps[j].id == l.plans[j].id;
  }

  lemma DecidedRun(l: Launch, keepLocal: bool, w: World, s: Script)
    requires From(l, w, s) && DistinctPlanIds(l)
    ensures DecidedAt(l, ApplyRun(l, keepLocal, w, s).pc)
  {
    var c := Config(Acquire(ApplyCommand(l, keepLocal)), w);
    assert SameHost(w.host, l.host0) by { hide Read; }
    hide SameHost, Launchable;
    assert AInv(l, c);
    DecidedAlways(l, c, s);
  }

  lemma JournalledNames(l: Launch, keepLocal: bool, w: World, s: Script)
    requires From(l, w, s) && ApplyRun(l, keepLocal, w, s).pc.ApplyingStep?
    ensures var job := ApplyRun(l, keepLocal, w, s).pc.job;
      && |job.journal.steps| <= |l.plans|
      && forall i :: 0 <= i < |job.journal.steps| ==> job.journal.steps[i].id == l.plans[i].id
  {
    ApplyRunIsSafe(l, keepLocal, w, s);
    hide ApplyRun, From, CaptureOf, Untouched, Completed, Recoverable;
    var job := ApplyRun(l, keepLocal, w, s).pc.job;
    assert forall i :: 0 <= i < |job.journal.steps| ==> Names(job.journal.steps[i], l.plans[i]);
  }

  // --------------------------------------------------------- what a run records, it keeps

  /** The first `n` records stay as they are; the next one may still get its after-capture. */
  predicate Extends(was: seq<StepRecord>, n: nat, now: seq<StepRecord>) {
    && n < |was| && n < |now| && now[..n] == was[..n] && now[n].(after := []) == was[n].(after := [])
  }

  predicate Over(pc: Pc) { pc.Release? || pc.Finished? }

  /** The run still has these records, and publishes them when it succeeds. */
  ghost predicate Keeps(l: Launch, was: seq<StepRecord>, n: nat, c: Config) {
    if Over(c.pc) then
      var key := RunKey(l.profile, l.runId);
      c.pc.result == Applied ==> key in c.world.remote && Extends(was, n, c.world.remote[key].steps)
    else Extends(was, n, RecordsAt(c.pc))
  }

  /** One action leaves the finished records alone: it adds one, completes the last one, or does neither. */
  predicate Grown(was: seq<StepRecord>, now: seq<StepRecord>) {
    || now == was
    || (|now| == |was| + 1 && now[..|was|] == was)
    || (was != [] && |now| == |was| && now[..|was| - 1] == was[..|was| - 1]
        && now[|was| - 1].(after := []) == was[|was| - 1].(after := []))
  }

  lemma GrownExtends(was: seq<StepRecord>, n: nat, a: seq<StepRecord>, b: seq<StepRecord>)
    requires Extends(was, n, a) && Grown(a, b)
    ensures Extends(was, n, b)
  {
    if |b| == |a| + 1 && b[..|a|] == a {
      assert b[..n] == a[..n] && b[n] == a[n];
    } else if b != a {
      assert b[..n] == b[..|a| - 1][..n] && a[..n] == a[..|a| - 1][..n];
      if n < |a| - 1 { assert b[n] == b[..|a| - 1][n] && a[n] == a[..|a| - 1][n]; }
    }
  }

  lemma ResumeKeepsRecords(v: Revert, plan: seq<Attempt>, failed: seq<ObjectRecord>)
    requires !v.ForCommand?
    ensures RecordsAt(Resume(v, plan, failed)) == StepsOf(v) && !Over(Resume(v, plan, failed))
    ensures RecordsAt(RevertFailed(v, true)) == StepsOf(v) && !Over(RevertFailed(v, true))
    ensures RecordsAt(RevertFailed(v, false)) == StepsOf(v) && !Over(RevertFailed(v, false))
  {
  }

  lemma CapturesGrow(l: Launch, job: Job, w: World, o: Outcome)
    requires job.todo != []
    ensures Grown(job.journal.steps, RecordsAt(OnCapturingBefore(job, w, o)))
    ensures job.journal.steps != [] ==> Grown(job.journal.steps, RecordsAt(OnCapturingAfter(job, w, o)))
                                        && |RecordsAt(OnCapturingAfter(job, w, o))| == |job.journal.steps|
    ensures !Over(OnCapturingBefore(job, w, o)) && (job.journal.steps != [] ==> !Over(OnCapturingAfter(job, w, o)))
  {
    hide Captured, Differ;
  }

  lemma RevertingGrows(l: Launch, c: Config, o: Outcome)
    requires Sound(c.pc) && AInv(l, c) && (c.pc.Preflight? || c.pc.Reverting?)
    ensures var d := Next(l.registered, c.pc, c.world, o); RecordsAt(c.pc) == RecordsAt(d.pc)
  {
    if c.pc.Preflight? {
      ResumeKeepsRecords(c.pc.revert, Plan(l.registered, StepsOf(c.pc.revert)), []);
    } else {
      var v, plan, failed := c.pc.revert, c.pc.plan, c.pc.degraded;
      ResumeKeepsRecords(v, plan[1..], failed);
      ResumeKeepsRecords(v, plan[1..], failed + [plan[0].record]);
    }
    hide Revertible, Undoing, Plan, PreflightPasses, Put, Resume, RevertFailed;
  }

  lemma SavingKeepsRecords(l: Launch, c: Config, o: Outcome)
    requires AInv(l, c) && (c.pc.Writing? || c.pc.Renaming?)
    ensures var d := Next(l.registered, c.pc, c.world, o); Over(d.pc) || RecordsAt(d.pc) == RecordsAt(c.pc)
  {
    hide AtRest, Midstep, Revertible, AllDone, CoversAll, Undone;
  }

  lemma PlainKeepsRecords(l: Launch, c: Config, o: Outcome)
    requires c.pc.Checking? || c.pc.Polling? || c.pc.ApplyingStep? || c.pc.Publishing? || c.pc.Dropping?
    requires Sound(c.pc)
    ensures var d := Next(l.registered, c.pc, c.world, o); Over(d.pc) || RecordsAt(d.pc) == RecordsAt(c.pc)
  {
    hide Effect;
  }

  lemma NoOtherPoint(l: Launch, c: Config)
    requires AInv(l, c)
    ensures !c.pc.Load? && !c.pc.Claim? && !c.pc.Consume?
  {
  }

  lemma RecordsGrow(l: Launch, c: Config, o: Outcome)
    requires Sound(c.pc) && AInv(l, c) && !Over(c.pc) && !c.pc.Acquire?
    ensures var d := Next(l.registered, c.pc, c.world, o);
      !Over(d.pc) ==> Grown(RecordsAt(c.pc), RecordsAt(d.pc))
                      && (!c.pc.CapturingBefore? ==> |RecordsAt(d.pc)| == |RecordsAt(c.pc)|)
                      && (!c.pc.CapturingBefore? && !c.pc.CapturingAfter? ==> RecordsAt(d.pc) == RecordsAt(c.pc))
  {
    NoOtherPoint(l, c);
    hide AInv, OnCapturingBefore, OnCapturingAfter;
    if c.pc.Preflight? || c.pc.Reverting? {
      hide Next;
      RevertingGrows(l, c, o);
    } else if c.pc.CapturingBefore? || c.pc.CapturingAfter? {
      CapturesGrow(l, c.pc.job, c.world, o);
    } else if c.pc.Writing? || c.pc.Renaming? {
      hide Next;
      SavingKeepsRecords(l, c, o);
    } else {
      hide Next;
      PlainKeepsRecords(l, c, o);
    }
  }

  /** A run can only end well from its last save or the removal of the runner's file. */
  lemma EndsWellFrom(l: Launch, c: Config, o: Outcome)
    requires Sound(c.pc) && AInv(l, c) && !Over(c.pc)
    ensures var d := Next(l.registered, c.pc, c.world, o);
      Over(d.pc) && d.pc.result == Applied ==>
        (c.pc.Dropping? || (c.pc.Renaming? && c.pc.saving.KeepSave?) || (c.pc.Writing? && c.pc.saving.KeepSave?))
  {
    if c.pc.Preflight? || c.pc.Reverting? {
      RevertingGoesOn(l, c, o);
    } else {
      hide AtRest, Midstep, Revertible, Undoing, Captured, Effect, Differ, AllDone, CoversAll, Undone, Plan, OnPreflight, OnReverting;
    }
  }

  lemma RevertingGoesOn(l: Launch, c: Config, o: Outcome)
    requires Sound(c.pc) && AInv(l, c) && (c.pc.Preflight? || c.pc.Reverting?)
    ensures !Over(Next(l.registered, c.pc, c.world, o).pc)
  {
    if c.pc.Preflight? {
      ResumeKeepsRecords(c.pc.revert, Plan(l.registered, StepsOf(c.pc.revert)), []);
    } else {
      var v, plan, failed := c.pc.revert, c.pc.plan, c.pc.degraded;
      ResumeKeepsRecords(v, plan[1..], failed);
      ResumeKeepsRecords(v, plan[1..], failed + [plan[0].record]);
    }
    hide Revertible, Undoing, Plan, PreflightPasses, Put, Resume, RevertFailed;
  }

  /** A run that ends well published the records it had. */
  lemma PublishesRecords(l: Launch, c: Config, o: Outcome)
    requires Sound(c.pc) && AInv(l, c) && !Over(c.pc)
    ensures var d := Next(l.registered, c.pc, c.world, o);
      Over(d.pc) && d.pc.result == Applied ==>
        d.world.remote == Published(l, RecordsAt(c.pc)) && Published(l, RecordsAt(c.pc))[RunKey(l.profile, l.runId)].steps == RecordsAt(c.pc)
  {
    EndsWellFrom(l, c, o);
    var d := Next(l.registered, c.pc, c.world, o);
    if Over(d.pc) && d.pc.result == Applied {
      hide AllDone, Saved;
      assert d.world.remote == c.world.remote;
    }
  }

  lemma KeepsNext(l: Launch, was: seq<StepRecord>, n: nat, c: Config, o: Outcome)
    requires Sound(c.pc) && AInv(l, c) && Keeps(l, was, n, c)
    ensures Keeps(l, was, n, Next(l.registered, c.pc, c.world, o))
  {
    var d := Next(l.registered, c.pc, c.world, o);
    if Over(c.pc) {
      assert d.world.remote == c.world.remote;
    } else {
      RecordsGrow(l, c, o);
      PublishesRecords(l, c, o);
      hide Next, AInv, Extends, Grown, Published;
      if !Over(d.pc) { GrownExtends(was, n, RecordsAt(c.pc), RecordsAt(d.pc)); }
    }
  }

  lemma {:induction false} KeepsAlways(l: Launch, was: seq<StepRecord>, n: nat, c: Config, s: Script)
    requires Launchable(l) && Sound(c.pc) && AInv(l, c) && FreshSave(c.pc) && Keeps(l, was, n, c)
    requires forall o <- s :: o.mode in l.modes
    ensures Keeps(l, was, n, Exec(l.registered, c, s))
    decreases |s|
  {
    hide AInv, Launchable, Next, FreshSave, Keeps;
    if s != [] && !c.pc.Finished? {
      assert s[0] in s;
      AInvNext(l, c, s[0]);
      KeepsNext(l, was, n, c, s[0]);
      FreshSaveNext(l, c, s[0]);
      NextIsSound(l.registered, c.pc, c.world, s[0]);
      KeepsAlways(l, was, n, Next(l.registered, c.pc, c.world, s[0]), s[1..]);
    }
  }

  // ------------------------------------------------------------ captures list objects once

  /** The plugin lists no runtime policy twice. */
  predicate PoliciesOnce(s: Script) { forall o <- s :: DistinctObjects(o.policies) }

  predicate ListedOnce(steps: seq<StepRecord>) {
    forall i :: 0 <= i < |steps| ==> DistinctObjects(steps[i].before) && DistinctObjects(steps[i].after)
  }

  lemma ReadsAreAll(host: Host, order: seq<ObjectId>)
    ensures |Reads(host, order)| == |order|
  {
  }

  lemma PoliciesAreKeyed(policies: seq<PolicyRecord>)
    ensures forall i :: 0 <= i < |policies| ==> ObjectKey(policies[i]).NoKey? || ObjectKey(policies[i]).kind == Policy
  {
  }

  lemma CaptureListsOnce(host: Host, keys: seq<ObjectId>, o: Outcome)
    requires DistinctObjects(o.policies) && forall i, j :: 0 <= i < j < |keys| ==> keys[i] != keys[j]
    ensures DistinctObjects(Captured(host, keys, o))
  {
    hide Reads, CaptureOrder;
    var order := CaptureOrder(keys, o);
    CaptureOrderIs(keys, o);
    ReadsAreOwn(host, order);
    PoliciesAreKeyed(o.policies);
    hide ObjectKey;
    var mine, all := Reads(host, order), Captured(host, keys, o);
    assert |mine| == |order| by { ReadsAreAll(host, order); }
    assert forall i :: 0 <= i < |order| ==> all[i] == mine[i];
    assert forall i :: |order| <= i < |all| ==> all[i] == o.policies[i - |order|];
  }

  lemma NothingRecordedYet(l: Launch, c: Config, o: Outcome)
    requires Sound(c.pc) && AInv(l, c) && (c.pc.Acquire? || Over(c.pc))
    ensures RecordsAt(Next(l.registered, c.pc, c.world, o).pc) == []
  {
    hide EndInv, SameHost;
  }

  lemma ListedNext(l: Launch, c: Config, o: Outcome)
    requires Launchable(l) && Sound(c.pc) && AInv(l, c) && ListedOnce(RecordsAt(c.pc)) && DistinctObjects(o.policies)
    ensures ListedOnce(RecordsAt(Next(l.registered, c.pc, c.world, o).pc))
  {
    hide AtRest, Midstep, Launchable, DistinctObjects, AInv, Grown, OnCapturingBefore, OnCapturingAfter;
    if c.pc.Acquire? || Over(c.pc) {
      NothingRecordedYet(l, c, o);
    } else if c.pc.CapturingBefore? {
      assert AtRest(l, c.pc.job, c.world.host) by { CapturesAtRest(l, c); }
      NextIsListed(l, c.pc.job, c.world, o);
    } else if c.pc.CapturingAfter? {
      assert Midstep(l, c.pc.job, c.world.host) by { CapturesMidstep(l, c); }
      LastIsListed(l, c.pc.job, c.world, o);
    } else {
      RecordsGrow(l, c, o);
      hide Next;
    }
  }

  lemma CapturesMidstep(l: Launch, c: Config)
    requires AInv(l, c) && c.pc.CapturingAfter?
    ensures Midstep(l, c.pc.job, c.world.host)
  {
    hide Midstep;
  }

  lemma LastIsListed(l: Launch, job: Job, w: World, o: Outcome)
    requires Launchable(l) && Midstep(l, job, w.host) && ListedOnce(job.journal.steps) && DistinctObjects(o.policies)
    requires job.todo != [] && job.journal.steps != []
    ensures ListedOnce(RecordsAt(OnCapturingAfter(job, w, o)))
  {
    var n := DoneSteps(l, job);
    assert job.todo[0] == l.plans[n];
    PlanKeysDistinct(l, n);
    CaptureListsOnce(w.host, job.todo[0].keys, o);
    hide Captured, DistinctObjects, Midstep, Launchable, Differ;
  }

  lemma CapturesAtRest(l: Launch, c: Config)
    requires AInv(l, c) && c.pc.CapturingBefore?
    ensures AtRest(l, c.pc.job, c.world.host)
  {
    hide AtRest;
  }

  lemma NextIsListed(l: Launch, job: Job, w: World, o: Outcome)
    requires Launchable(l) && AtRest(l, job, w.host) && job.todo != [] && ListedOnce(job.journal.steps) && DistinctObjects(o.policies)
    ensures ListedOnce(RecordsAt(OnCapturingBefore(job, w, o)))
  {
    var n := DoneSteps(l, job);
    assert job.todo[0] == l.plans[n];
    PlanKeysDistinct(l, n);
    CaptureListsOnce(w.host, job.todo[0].keys, o);
    hide Captured, DistinctObjects, AtRest, Launchable;
  }

  lemma {:induction false} ListedAlways(l: Launch, c: Config, s: Script)
    requires Launchable(l) && Sound(c.pc) && AInv(l, c) && FreshSave(c.pc) && ListedOnce(RecordsAt(c.pc)) && PoliciesOnce(s)
    requires forall o <- s :: o.mode in l.modes
    ensures ListedOnce(RecordsAt(Exec(l.registered, c, s).pc))
    decreases |s|
  {
    hide AInv, Launchable, Next, FreshSave, ListedOnce, RecordsAt, DistinctObjects;
    if s != [] && !c.pc.Finished? {
      assert s[0] in s;
      AInvNext(l, c, s[0]);
      ListedNext(l, c, s[0]);
      FreshSaveNext(l, c, s[0]);
      NextIsSound(l.registered, c.pc, c.world, s[0]);
      ListedAlways(l, Next(l.registered, c.pc, c.world, s[0]), s[1..]);
    }
  }

  // ------------------------------------------------------------------------ the whole way

  /** At this point of a run the step about to be applied restarts this service because a watched step changed. */
  ghost predicate RestartingAt(l: Launch, c: Config, spec: ServiceSpec, service: ObjectRecord) {
    && c.pc.ApplyingStep? && c.pc.job.journal.steps != []
    && var record := c.pc.job.journal.steps[|c.pc.job.journal.steps| - 1];
    && record.reload == ServiceReloadRecord(spec) && record.mode != Noop
    && RestartedByChange(spec, c.pc.job.changes)
    && service in record.before && service.kind == Service
  }

  ghost predicate RestoresService(l: Launch, steps: seq<StepRecord>, service: ObjectRecord) {
    exists a :: a in Plan(l.registered, steps) && a.Restore? && a.record == service
  }

  lemma RecordedIdsDistinct(l: Launch, steps: seq<StepRecord>, host: Host)
    requires DistinctPlanIds(l) && Recorded(l, steps, host)
    ensures DistinctIds(steps)
  {
    hide CaptureOf;
    assert forall i :: 0 <= i < |steps| ==> Names(steps[i], l.plans[i]);
  }

  lemma ExtendedIs(was: seq<StepRecord>, n: nat, now: seq<StepRecord>)
    requires Extends(was, n, now)
    ensures forall i :: 0 <= i < n ==> now[i] == was[i]
    ensures now[n].reload == was[n].reload && now[n].mode == was[n].mode && now[n].before == was[n].before && now[n].id == was[n].id
  {
    assert forall i :: 0 <= i < n ==> now[i] == now[..n][i] == was[..n][i] == was[i];
    var x, y := now[n].(after := []), was[n].(after := []);
    assert x.reload == y.reload && x.mode == y.mode && x.before == y.before && x.id == y.id;
  }

  lemma DecidedThere(l: Launch, c: Config)
    requires AInv(l, c) && DecidedAt(l, c.pc) && c.pc.ApplyingStep?
    ensures var job := c.pc.job;
      var n := |job.journal.steps| - 1;
      n >= 0 && Decided(job.journal.steps, n, job.changes) && OnlyDecided(job.journal.steps, n, job.changes)
  {
    hide Revertible, Completed, Differ;
  }

  lemma DecidedStill(was: seq<StepRecord>, n: nat, now: seq<StepRecord>, changes: map<string, bool>)
    requires n <= |was| && n <= |now| && (forall i :: 0 <= i < n ==> now[i] == was[i])
    requires Decided(was, n, changes) && OnlyDecided(was, n, changes)
    ensures Decided(now, n, changes) && OnlyDecided(now, n, changes)
  {
    hide Differ;
    forall id <- changes ensures exists i :: 0 <= i < n && now[i].id == id {
      var i :| 0 <= i < n && was[i].id == id;
      assert now[i].id == id;
    }
  }

  lemma PlannedAsDecided(l: Launch, was: seq<StepRecord>, n: nat, now: seq<StepRecord>, spec: ServiceSpec, changes: map<string, bool>,
                         service: ObjectRecord)
    requires Extends(was, n, now) && ListedOnce(was)
    requires Decided(was, n, changes) && OnlyDecided(was, n, changes) && RestartedByChange(spec, changes)
    requires was[n].reload == ServiceReloadRecord(spec) && was[n].mode != Noop
    requires service in was[n].before && service.kind == Service
    requires DistinctIds(now) && Separate(now) && AllRegistered(l.registered, now)
    ensures RestoresService(l, now, service)
  {
    ExtendedIs(was, n, now);
    hide Differ, Separate, AllRegistered, DistinctObjects, DistinctIds, Plan, ServiceReloadRecord, RestartedByChange, Extends, Decided,
         OnlyDecided;
    DecidedStill(was, n, now, changes);
    DecidedRestartIsPlanned(l.registered, now, n, spec, changes, service);
  }

  lemma RecordedIsPlannable(l: Launch, steps: seq<StepRecord>, host: Host)
    requires Launchable(l) && DistinctPlanIds(l) && Recorded(l, steps, host)
    ensures DistinctIds(steps) && Separate(steps) && AllRegistered(l.registered, steps)
  {
    RecordedIsSeparate(l, steps, host);
    RecordedIsRegistered(l, steps, host);
    RecordedIdsDistinct(l, steps, host);
    hide Recorded, Launchable, DistinctPlanIds, Separate, AllRegistered, DistinctIds;
  }

  lemma ExtendedJournalRestores(l: Launch, c: Config, spec: ServiceSpec, service: ObjectRecord, steps: seq<StepRecord>, host: Host)
    requires Launchable(l) && DistinctPlanIds(l) && AInv(l, c) && DecidedAt(l, c.pc) && RestartingAt(l, c, spec, service)
    requires ListedOnce(RecordsAt(c.pc))
    requires Extends(RecordsAt(c.pc), |RecordsAt(c.pc)| - 1, steps) && Recorded(l, steps, host)
    ensures RestoresService(l, steps, service)
  {
    hide Launchable, AInv, DecidedAt, Recorded, Separate, AllRegistered, DistinctIds, ServiceReloadRecord, RestartedByChange, Extends,
         Decided, OnlyDecided, DistinctPlanIds, ListedOnce, RestoresService;
    DecidedThere(l, c);
    RecordedIsPlannable(l, steps, host);
    PlannedAsDecided(l, c.pc.job.journal.steps, |c.pc.job.journal.steps| - 1, steps, spec, c.pc.job.changes, service);
  }

  lemma GraphIdsDistinct(l: Launch, steps: seq<GraphStep>)
    requires RunsGraph(l, steps)
    ensures DistinctPlanIds(l)
  {
    hide TrimSpace;
  }

  /** Each restart a watched change caused in a run of a validated profile is replayed when the run is undone, whether a
      later rollback reverts the published journal or the apply reverts itself. */
  lemma CausedRestartIsReplayed(l: Launch, keepLocal: bool, w: World, s: Script, t: Script, graph: seq<GraphStep>,
                                spec: ServiceSpec, service: ObjectRecord)
    requires From(l, w, s + t) && RunsGraph(l, graph) && PoliciesOnce(s)
    requires RestartingAt(l, ApplyRun(l, keepLocal, w, s), spec, service)
    ensures var c := ApplyRun(l, keepLocal, w, s + t);
      var key := RunKey(l.profile, l.runId);
      && (c.pc == Finished(Applied) ==> key in c.world.remote && RestoresService(l, c.world.remote[key].steps, service))
      && (c.pc.Preflight? ==> RestoresService(l, RecordsAt(c.pc), service))
  {
    hide From, RunsGraph, ApplyRun, AInv, DecidedAt, ListedOnce, PoliciesOnce, RestoresService, RestartingAt, Launchable, DistinctPlanIds,
         Keeps, RecordsAt;
    FromInTwo(l, w, s, t);
    FromIsLaunchable(l, w, s);
    GraphIdsDistinct(l, graph);
    ApplyRunKeepsAInv(l, keepLocal, w, s);
    ApplyRunKeepsAInv(l, keepLocal, w, s + t);
    DecidedRun(l, keepLocal, w, s);
    ListedRun(l, keepLocal, w, s);
    KeptThere(l, keepLocal, w, s, t, spec, service);
    RestoredThere(l, ApplyRun(l, keepLocal, w, s), ApplyRun(l, keepLocal, w, s + t), spec, service);
  }

  lemma FromIsLaunchable(l: Launch, w: World, s: Script)
    requires From(l, w, s)
    ensures Launchable(l)
  {
  }

  lemma ApplyRunKeepsAInv(l: Launch, keepLocal: bool, w: World, s: Script)
    requires From(l, w, s)
    ensures AInv(l, ApplyRun(l, keepLocal, w, s))
  {
    ApplyRunIsSafe(l, keepLocal, w, s);
    hide From, AInv, ApplyRun;
  }

  lemma RestartingHasRecord(l: Launch, c: Config, spec: ServiceSpec, service: ObjectRecord)
    requires RestartingAt(l, c, spec, service)
    ensures Keeps(l, RecordsAt(c.pc), |RecordsAt(c.pc)| - 1, c) && |RecordsAt(c.pc)| > 0
  {
  }

  lemma KeptThere(l: Launch, keepLocal: bool, w: World, s: Script, t: Script, spec: ServiceSpec, service: ObjectRecord)
    requires From(l, w, s + t) && RestartingAt(l, ApplyRun(l, keepLocal, w, s), spec, service)
    ensures var b := ApplyRun(l, keepLocal, w, s);
      |RecordsAt(b.pc)| > 0 && Keeps(l, RecordsAt(b.pc), |RecordsAt(b.pc)| - 1, ApplyRun(l, keepLocal, w, s + t))
  {
    var b := ApplyRun(l, keepLocal, w, s);
    RestartingHasRecord(l, b, spec, service);
    hide RestartingAt, Keeps, RecordsAt, AInv, FreshSave, Launchable;
    FromInTwo(l, w, s, t);
    ApplyRunKeepsAInv(l, keepLocal, w, s);
    ApplyRunIsFresh(l, keepLocal, w, s);
    ExecConcat(l.registered, Config(Acquire(ApplyCommand(l, keepLocal)), w), s, t);
    hide Exec;
    KeepsAlways(l, RecordsAt(b.pc), |RecordsAt(b.pc)| - 1, b, t);
  }

  lemma RestoredThere(l: Launch, b: Config, c: Config, spec: ServiceSpec, service: ObjectRecord)
    requires Launchable(l) && DistinctPlanIds(l) && AInv(l, b) && AInv(l, c) && DecidedAt(l, b.pc) && ListedOnce(RecordsAt(b.pc))
    requires RestartingAt(l, b, spec, service)
    requires |RecordsAt(b.pc)| > 0 && Keeps(l, RecordsAt(b.pc), |RecordsAt(b.pc)| - 1, c)
    ensures var key := RunKey(l.profile, l.runId);
      && (c.pc == Finished(Applied) ==> key in c.world.remote && RestoresService(l, c.world.remote[key].steps, service))
      && (c.pc.Preflight? ==> RestoresService(l, RecordsAt(c.pc), service))
  {
    hide AInv, Launchable, DistinctPlanIds, DecidedAt, ListedOnce, RestoresService, RestartingAt, Extends, Recorded;
    if c.pc == Finished(Applied) {
      var steps := PublishedSteps(l, c);
      ExtendedJournalRestores(l, b, spec, service, steps, c.world.host);
    } else if c.pc.Preflight? {
      PreflightRecords(l, c);
      ExtendedJournalRestores(l, b, spec, service, RecordsAt(c.pc), c.world.host);
    }
  }

  lemma PublishedSteps(l: Launch, c: Config) returns (steps: seq<StepRecord>)
    requires AInv(l, c) && c.pc == Finished(Applied)
    ensures var key := RunKey(l.profile, l.runId);
      key in c.world.remote && c.world.remote[key].steps == steps && Recorded(l, steps, c.world.host)
  {
    hide Recorded, Untouched, Completed;
    steps :| AllDone(l, steps, c.world.host) && c.world.remote == Published(l, steps);
  }

  lemma PreflightRecords(l: Launch, c: Config)
    requires AInv(l, c) && c.pc.Preflight?
    ensures Recorded(l, RecordsAt(c.pc), c.world.host)
  {
    hide Recorded, Untouched;
  }

  lemma ListedRun(l: Launch, keepLocal: bool, w: World, s: Script)
    requires From(l, w, s) && PoliciesOnce(s)
    ensures ListedOnce(RecordsAt(ApplyRun(l, keepLocal, w, s).pc))
  {
    var c := Config(Acquire(ApplyCommand(l, keepLocal)), w);
    assert SameHost(w.host, l.host0) by { hide Read; }
    hide SameHost, Launchable;
    assert AInv(l, c);
    ListedAlways(l, c, s);
  }
}
