// How an apply ends: applied when nothing fails, and reverted by itself when one action of its steps does.
module AutoRollback {
  import opened Records
  import opened Journals
  import opened Protocol
  import opened CrashResume
  import opened RollbackRuns
  import opened ApplyRuns
  import opened ApplySafety
  import opened WriteAhead

  /** Between the first save and publication: where a failure makes the apply revert its steps. */
  predicate InSteps(pc: Pc) {
    match pc
    case Polling(_, _) => true
    case CapturingBefore(_) => true
    case ApplyingStep(_) => true
    case CapturingAfter(_) => true
    case Writing(_, s) => s.BeforeSave? || s.AfterSave?
    case Renaming(_, s) => s.BeforeSave? || s.AfterSave?
    case _ => false
  }

  /** On the way back with nothing lost. */
  predicate Undisturbed(pc: Pc) {
    match pc
    case Preflight(v, _, _) => !v.ForCommand?
    case Reverting(v, _, degraded) => !v.ForCommand? && degraded == []
    case Writing(_, s) => s.InterruptedSave? || s == FailedSave(true)
    case Renaming(_, s) => s.InterruptedSave? || s == FailedSave(true)
    case Release(result) => result == ApplyFailed(true)
    case Finished(result) => result == ApplyFailed(true)
    case _ => false
  }

  /** How many actions are left when nothing else fails. */
  function ActionsLeft(registered: set<string>, pc: Pc): nat {
    match pc
    case Writing(j, s) => if s.InterruptedSave? then |Plan(registered, j.steps)| + 6 else 3
    case Renaming(j, s) => if s.InterruptedSave? then |Plan(registered, j.steps)| + 5 else 2
    case Preflight(v, _, _) => |Plan(registered, StepsOf(v))| + 4
    case Reverting(_, plan, _) => |plan| + 3
    case Release(_) => 1
    case _ => 0
  }

  lemma FailureTurnsBack(l: Launch, c: Config, o: Outcome)
    requires Sound(c.pc) && AInv(l, c) && InSteps(c.pc) && !o.ok
    ensures var d := Next(l.registered, c.pc, c.world, o);
      Undisturbed(d.pc) && (d.pc.Preflight? || d.pc.Writing?)
      && RecordsAt(d.pc) == RecordsAt(c.pc) && ActionsLeft(l.registered, d.pc) <= |Plan(l.registered, RecordsAt(c.pc))| + 6
  {
    hide AtRest, Midstep, Plan, Captured, Effect, Differ;
  }

  lemma GoesOn(l: Launch, v: Revert, plan: seq<Attempt>, host: Host)
    requires !v.ForCommand? && Undoing(l, StepsOf(v), plan, [], host)
    ensures var pc := Resume(v, plan, []); Undisturbed(pc) && ActionsLeft(l.registered, pc) <= |plan| + 3
  {
    NextUndoIsRestore(l, StepsOf(v), plan, [], host);
    hide Undoing;
  }

  lemma UndisturbedNext(l: Launch, c: Config, o: Outcome)
    requires Launchable(l) && Sound(c.pc) && AInv(l, c) && Undisturbed(c.pc) && !c.pc.Finished? && o.ok && o.blind == {}
    ensures var d := Next(l.registered, c.pc, c.world, o);
      Undisturbed(d.pc) && ActionsLeft(l.registered, d.pc) < ActionsLeft(l.registered, c.pc)
  {
    var w := c.world;
    if c.pc.Preflight? {
      var v := c.pc.revert;
      AutoPreflightPasses(l, StepsOf(v), w.host);
      StartsUndoing(l, StepsOf(v), w.host);
      hide PreflightPasses, Undoing, Revertible, Plan, Launchable, Resume;
      GoesOn(l, v, Plan(l.registered, StepsOf(v)), w.host);
    } else if c.pc.Reverting? {
      var v, plan := c.pc.revert, c.pc.plan;
      UndoingOne(l, StepsOf(v), plan, [], w.host, o);
      hide Undoing, Plan, Launchable, Resume, Put;
      GoesOn(l, v, plan[1..], Put(w.host, plan[0].record));
    } else {
      hide Plan, Revertible, Launchable, EndInv, CoversAll, Undone;
    }
  }

  lemma {:induction false} UndisturbedRun(l: Launch, c: Config, t: Script)
    requires Launchable(l) && Sound(c.pc) && AInv(l, c) && FreshSave(c.pc) && Undisturbed(c.pc)
    requires Friendly(t) && |t| >= ActionsLeft(l.registered, c.pc) && forall o <- t :: o.mode in l.modes
    ensures Exec(l.registered, c, t).pc == Finished(ApplyFailed(true))
    decreases |t|
  {
    hide AInv, Launchable, Next, Plan;
    if !c.pc.Finished? {
      assert t[0] in t;
      AInvNext(l, c, t[0]);
      UndisturbedNext(l, c, t[0]);
      FreshSaveNext(l, c, t[0]);
      NextIsSound(l.registered, c.pc, c.world, t[0]);
      UndisturbedRun(l, Next(l.registered, c.pc, c.world, t[0]), t[1..]);
    }
  }

  lemma {:induction false} FreshAlways(l: Launch, c: Config, s: Script)
    requires Launchable(l) && Sound(c.pc) && AInv(l, c) && FreshSave(c.pc) && forall o <- s :: o.mode in l.modes
    ensures FreshSave(Exec(l.registered, c, s).pc)
    decreases |s|
  {
    hide AInv, Launchable, Next, FreshSave;
    if s != [] && !c.pc.Finished? {
      assert s[0] in s;
      AInvNext(l, c, s[0]);
      FreshSaveNext(l, c, s[0]);
      NextIsSound(l.registered, c.pc, c.world, s[0]);
      FreshAlways(l, Next(l.registered, c.pc, c.world, s[0]), s[1..]);
    }
  }

  lemma FailureReverts(l: Launch, c: Config, o: Outcome, t: Script)
    requires Launchable(l) && Sound(c.pc) && AInv(l, c) && FreshSave(c.pc) && InSteps(c.pc) && !o.ok && o.mode in l.modes
    requires Friendly(t) && |t| >= |Plan(l.registered, RecordsAt(c.pc))| + 6 && forall x <- t :: x.mode in l.modes
    ensures Exec(l.registered, c, [o] + t).pc == Finished(ApplyFailed(true))
  {
    FailureTurnsBack(l, c, o);
    AInvNext(l, c, o);
    FreshSaveNext(l, c, o);
    NextIsSound(l.registered, c.pc, c.world, o);
    hide AInv, Next, Launchable, Plan, RecordsAt, Undisturbed, Friendly;
    UndisturbedRun(l, Next(l.registered, c.pc, c.world, o), t);
    assert ([o] + t)[1..] == t;
  }

  lemma FromInTwo(l: Launch, w: World, s: Script, t: Script)
    requires From(l, w, s + t)
    ensures From(l, w, s) && forall o <- t :: o.mode in l.modes
  {
    hide Launchable;
    assert forall o <- s :: o in s + t;
    assert forall o <- t :: o in s + t;
  }

  lemma ApplyRunIsFresh(l: Launch, keepLocal: bool, w: World, s: Script)
    requires From(l, w, s)
    ensures FreshSave(ApplyRun(l, keepLocal, w, s).pc)
  {
    var start := Config(Acquire(ApplyCommand(l, keepLocal)), w);
    assert SameHost(w.host, l.host0) by { hide Read; }
    hide SameHost, Launchable;
    assert AInv(l, start);
    FreshAlways(l, start, s);
  }

  /** The runner's file for the profile is a whole journal of these steps with this status. */
  predicate OnFile(l: Launch, w: World, status: Status, steps: seq<StepRecord>) {
    l.profile in w.last && w.last[l.profile].Whole?
      && w.last[l.profile].journal.status == status && w.last[l.profile].journal.steps == steps
  }

  predicate SavesStatus(l: Launch, j: Journal, s: Saving, steps: seq<StepRecord>) {
    j.profile == l.profile && j.steps == steps && RecordsKept(s, steps)
      && j.status == (if s.InterruptedSave? then Interrupted else Status.Failed)
  }

  predicate RecordsKept(s: Saving, steps: seq<StepRecord>) { s.InterruptedSave? ==> s.job.journal.steps == steps }

  /** While a cancelled run reverts, its journal file says interrupted; when it or a failed one is over, the file says failed, it
      lists the steps so far, and the lock is free. */
  predicate FailureShows(l: Launch, steps: seq<StepRecord>, c: Config) {
    match c.pc
    case Preflight(v, _, _) => StepsOf(v) == steps && (v.ForCancel? ==> OnFile(l, c.world, Interrupted, steps))
    case Reverting(v, _, _) => StepsOf(v) == steps && (v.ForCancel? ==> OnFile(l, c.world, Interrupted, steps))
    case Writing(j, s) => SavesStatus(l, j, s, steps)
    case Renaming(j, s) =>
      SavesStatus(l, j, s, steps) && l.profile in c.world.tmp && c.world.tmp[l.profile] == Whole(j)
    case Release(_) => OnFile(l, c.world, Status.Failed, steps)
    case Finished(_) => OnFile(l, c.world, Status.Failed, steps) && !c.world.locked
    case _ => false
  }

  lemma TurnsBackShowing(l: Launch, c: Config, o: Outcome)
    requires Sound(c.pc) && AInv(l, c) && InSteps(c.pc) && !o.ok
    ensures FailureShows(l, RecordsAt(c.pc), Next(l.registered, c.pc, c.world, o))
  {
    hide AtRest, Revertible, Plan, Captured, Effect, Differ, Completed, Untouched, Recorded;
    if c.pc.Polling? { InStepsJournal(l, c); }
    hide Midstep;
  }

  lemma InStepsJournal(l: Launch, c: Config)
    requires AInv(l, c) && c.pc.Polling?
    ensures c.pc.job.journal.profile == l.profile
  {
    hide Revertible, Completed;
  }

  lemma ResumeShows(l: Launch, v: Revert, plan: seq<Attempt>, steps: seq<StepRecord>, w: World)
    requires OwnRevert(l, v) && StepsOf(v) == steps && (v.ForCancel? ==> OnFile(l, w, Interrupted, steps))
    ensures FailureShows(l, steps, Config(Resume(v, plan, []), w)) && FailureShows(l, steps, Config(RevertFailed(v, true), w))
  {
  }

  lemma ShowsNext(l: Launch, steps: seq<StepRecord>, c: Config, o: Outcome)
    requires Sound(c.pc) && AInv(l, c) && Undisturbed(c.pc) && !c.pc.Finished? && o.ok && FailureShows(l, steps, c)
    ensures FailureShows(l, steps, Next(l.registered, c.pc, c.world, o))
  {
    var w := c.world;
    if c.pc.Preflight? {
      ResumeShows(l, c.pc.revert, Plan(l.registered, StepsOf(c.pc.revert)), steps, w);
      hide PreflightPasses, Undoing, Revertible, Plan, Resume, FailureShows, RevertFailed;
    } else if c.pc.Reverting? {
      var w' := w.(host := Put(w.host, c.pc.plan[0].record));
      ResumeShows(l, c.pc.revert, c.pc.plan[1..], steps, w');
      hide Undoing, Plan, Resume, Put, RevertFailed;
    } else {
      hide Plan, Revertible, EndInv, CoversAll, Undone;
    }
  }

  lemma {:induction false} ShowsRun(l: Launch, steps: seq<StepRecord>, c: Config, t: Script)
    requires Launchable(l) && Sound(c.pc) && AInv(l, c) && FreshSave(c.pc) && Undisturbed(c.pc) && FailureShows(l, steps, c)
    requires Friendly(t) && forall o <- t :: o.mode in l.modes
    ensures FailureShows(l, steps, Exec(l.registered, c, t))
    decreases |t|
  {
    hide AInv, Launchable, Next, Plan, FailureShows;
    if t != [] && !c.pc.Finished? {
      assert t[0] in t;
      AInvNext(l, c, t[0]);
      UndisturbedNext(l, c, t[0]);
      ShowsNext(l, steps, c, t[0]);
      FreshSaveNext(l, c, t[0]);
      NextIsSound(l.registered, c.pc, c.world, t[0]);
      ShowsRun(l, steps, Next(l.registered, c.pc, c.world, t[0]), t[1..]);
    }
  }

  lemma FailureShown(l: Launch, c: Config, o: Outcome, t: Script)
    requires Launchable(l) && Sound(c.pc) && AInv(l, c) && FreshSave(c.pc) && InSteps(c.pc) && !o.ok && o.mode in l.modes
    requires Friendly(t) && forall x <- t :: x.mode in l.modes
    ensures FailureShows(l, RecordsAt(c.pc), Exec(l.registered, c, [o] + t))
  {
    FailureTurnsBack(l, c, o);
    TurnsBackShowing(l, c, o);
    AInvNext(l, c, o);
    FreshSaveNext(l, c, o);
    NextIsSound(l.registered, c.pc, c.world, o);
    hide AInv, Next, Launchable, Plan, RecordsAt, Undisturbed, Friendly, FailureShows;
    ShowsRun(l, RecordsAt(c.pc), Next(l.registered, c.pc, c.world, o), t);
    assert ([o] + t)[1..] == t;
  }

  /** Whenever a run stops after one action of its steps failed or cancelled it and no other did, its journal file shows what
      happened. */
  lemma FailureIsJournalled(l: Launch, keepLocal: bool, w: World, s: Script, o: Outcome, t: Script)
    requires From(l, w, s + ([o] + t)) && InSteps(ApplyRun(l, keepLocal, w, s).pc) && !o.ok && Friendly(t)
    ensures FailureShows(l, RecordsAt(ApplyRun(l, keepLocal, w, s).pc), ApplyRun(l, keepLocal, w, s + ([o] + t)))
  {
    hide AInv, Durable, NotTorn, Launchable, Plan, RecordsAt, Friendly, FreshSave, Exec, InSteps, FailureShows;
    FromInTwo(l, w, s, [o] + t);
    assert ([o] + t)[0] == o && forall x <- t :: x in [o] + t;
    assert o in [o] + t;
    ApplyRunIsSafe(l, keepLocal, w, s);
    ApplyRunIsFresh(l, keepLocal, w, s);
    ExecConcat(l.registered, Config(Acquire(ApplyCommand(l, keepLocal)), w), s, [o] + t);
    FailureShown(l, ApplyRun(l, keepLocal, w, s), o, t);
  }

  /** If any one action between the first save and publication fails and nothing fails after it, the apply reverts
      all it did and says so, in its journal file too. */
  lemma FailedApplyReverts(l: Launch, keepLocal: bool, w: World, s: Script, o: Outcome, t: Script)
    requires From(l, w, s + ([o] + t)) && InSteps(ApplyRun(l, keepLocal, w, s).pc) && !o.ok
    requires Friendly(t) && |t| >= |Plan(l.registered, RecordsAt(ApplyRun(l, keepLocal, w, s).pc))| + 6
    ensures var c := ApplyRun(l, keepLocal, w, s + ([o] + t));
      && c.pc == Finished(ApplyFailed(true)) && !c.world.locked
      && OnFile(l, c.world, Status.Failed, RecordsAt(ApplyRun(l, keepLocal, w, s).pc))
      && (Noop !in l.modes ==> SameHost(c.world.host, w.host) && c.world.remote == w.remote)
  {
    FromInTwo(l, w, s, [o] + t);
    assert ([o] + t)[0] == o && forall x <- t :: x in [o] + t;
    assert o in [o] + t;
    ApplyRunIsSafe(l, keepLocal, w, s);
    ApplyRunIsFresh(l, keepLocal, w, s);
    ExecConcat(l.registered, Config(Acquire(ApplyCommand(l, keepLocal)), w), s, [o] + t);
    hide AInv, Durable, NotTorn, Launchable, Plan, RecordsAt, Friendly, FreshSave, Exec, InSteps, OnFile;
    FailureReverts(l, ApplyRun(l, keepLocal, w, s), o, t);
    FailureIsJournalled(l, keepLocal, w, s, o, t);
    if Noop !in l.modes { AutomaticRollbackRestores(l, keepLocal, w, s + ([o] + t)); }
  }

  predicate EndsAs(pc: Pc, reverted: bool) {
    match pc
    case Writing(_, s) => s == FailedSave(reverted)
    case Renaming(_, s) => s == FailedSave(reverted)
    case Release(result) => result == ApplyFailed(reverted)
    case Finished(result) => result == ApplyFailed(reverted)
    case _ => false
  }

  function SavesLeft(pc: Pc): nat { if pc.Writing? then 3 else if pc.Renaming? then 2 else if pc.Release? then 1 else 0 }

  /** What a failed apply says about its rollback does not depend on whether its last save succeeds. */
  lemma {:induction false} LastSaveDecidesNothing(l: Launch, c: Config, reverted: bool, t: Script)
    requires Sound(c.pc) && EndsAs(c.pc, reverted)
    ensures var d := Exec(l.registered, c, t);
      && EndsAs(d.pc, reverted) && d.world.host == c.world.host && d.world.remote == c.world.remote
      && (|t| >= SavesLeft(c.pc) ==> d.pc == Finished(ApplyFailed(reverted)))
    decreases |t|
  {
    if t != [] && !c.pc.Finished? {
      NextIsSound(l.registered, c.pc, c.world, t[0]);
      LastSaveDecidesNothing(l, Next(l.registered, c.pc, c.world, t[0]), reverted, t[1..]);
    }
  }

  // ------------------------------------------------------------------- a run that never starts

  /** Between taking the lock and the first step. */
  predicate Starting(pc: Pc) {
    pc.Checking? || (pc.Writing? && pc.saving.FirstSave?) || (pc.Renaming? && pc.saving.FirstSave?)
  }

  predicate NeverStarted(pc: Pc) { pc == Release(NotApplied) || pc == Finished(NotApplied) }

  lemma {:induction false} NotAppliedStays(registered: set<string>, c: Config, t: Script)
    requires NeverStarted(c.pc)
    ensures var d := Exec(registered, c, t);
      NeverStarted(d.pc) && d.world.(locked := false) == c.world.(locked := false)
    decreases |t|
  {
    if t != [] && !c.pc.Finished? { NotAppliedStays(registered, Next(registered, c.pc, c.world, t[0]), t[1..]); }
  }

  lemma FailedStart(l: Launch, c: Config, o: Outcome)
    requires Sound(c.pc) && Starting(c.pc) && !o.ok
    ensures var d := Next(l.registered, c.pc, c.world, o);
      && d.pc == Release(NotApplied) && d.world.host == c.world.host && d.world.remote == c.world.remote
      && (c.pc.Checking? ==> d.world == c.world)
  {
  }

  lemma StartingUntouched(l: Launch, c: Config)
    requires AInv(l, c) && Starting(c.pc) && FreshSave(c.pc)
    ensures SameHost(c.world.host, l.host0) && c.world.remote == l.remote0
  {
    hide Revertible, Completed, Read;
    var job := if c.pc.Checking? then c.pc.job else c.pc.saving.job;
    assert job.journal.steps == [] && AtRest(l, job, c.world.host);
    hide AtRest, SameHost;
    AtRestMeans(l, job, c.world.host);
  }

  lemma {:induction false} NothingWrittenBefore(l: Launch, c: Config, s: Script)
    requires Sound(c.pc) && c.pc.Acquire? && c.pc.request.ApplyRequest?
    requires Exec(l.registered, c, s).pc.Checking?
    ensures Exec(l.registered, c, s).world.(locked := false) == c.world.(locked := false)
  {
    if s != [] {
      var d := Next(l.registered, c.pc, c.world, s[0]);
      NextIsSound(l.registered, c.pc, c.world, s[0]);
      if d.pc.Checking? { CheckingIsFirst(l, d, s[1..]); }
    }
  }

  predicate Past(pc: Pc) { !pc.Acquire? && !pc.Checking? }

  lemma PastStays(l: Launch, c: Config, o: Outcome)
    requires Sound(c.pc) && Past(c.pc)
    ensures Past(Next(l.registered, c.pc, c.world, o).pc)
  {
    hide Plan, Captured, PreflightPasses, Loaded, Differ, Effect;
  }

  lemma {:induction false} FinishedForGood(l: Launch, c: Config, s: Script)
    requires Sound(c.pc) && Past(c.pc)
    ensures Past(Exec(l.registered, c, s).pc)
    decreases |s|
  {
    hide Next, Past;
    if s != [] && !c.pc.Finished? {
      PastStays(l, c, s[0]);
      NextIsSound(l.registered, c.pc, c.world, s[0]);
      FinishedForGood(l, Next(l.registered, c.pc, c.world, s[0]), s[1..]);
    }
  }

  lemma CheckingIsFirst(l: Launch, c: Config, s: Script)
    requires Sound(c.pc) && c.pc.Checking? && Exec(l.registered, c, s).pc.Checking?
    ensures s == []
  {
    if s != [] {
      var d := Next(l.registered, c.pc, c.world, s[0]);
      NextIsSound(l.registered, c.pc, c.world, s[0]);
      FinishedForGood(l, d, s[1..]);
    }
  }

  /** A check of the target or a first save that fails ends the run as not applied, whatever comes after: host and target are as
      found, and after a failed check the runner's files too. */
  lemma FailedStartEnds(l: Launch, keepLocal: bool, w: World, s: Script, o: Outcome, t: Script)
    requires From(l, w, s + ([o] + t)) && Starting(ApplyRun(l, keepLocal, w, s).pc) && !o.ok
    ensures var c := ApplyRun(l, keepLocal, w, s + ([o] + t));
      && (c.pc == Release(NotApplied) || c.pc == Finished(NotApplied))
      && SameHost(c.world.host, w.host) && c.world.remote == w.remote
      && (ApplyRun(l, keepLocal, w, s).pc.Checking? ==> c.world.last == w.last && c.world.tmp == w.tmp)
  {
    var start := Config(Acquire(ApplyCommand(l, keepLocal)), w);
    var b := ApplyRun(l, keepLocal, w, s);
    FromInTwo(l, w, s, [o] + t);
    ApplyRunIsSafe(l, keepLocal, w, s);
    ApplyRunIsFresh(l, keepLocal, w, s);
    StartingUntouched(l, b);
    FailedStart(l, b, o);
    ExecConcat(l.registered, start, s, [o] + t);
    OneAction(l.registered, b.pc, b.world, o, t);
    if b.pc.Checking? { NothingWrittenBefore(l, start, s); }
    hide AInv, Durable, NotTorn, Launchable, FreshSave, Exec, SameHost, Next;
    NotAppliedStays(l.registered, Next(l.registered, b.pc, b.world, o), t);
  }

  // ---------------------------------------------------------------- an apply that meets no failure

  /** On the way to success. */
  predicate Advancing(pc: Pc) {
    match pc
    case Acquire(q) => q.ApplyRequest?
    case Checking(_) => true
    case Polling(job, before) => before ==> job.todo != []
    case CapturingBefore(job) => job.todo != []
    case ApplyingStep(job) => job.todo != []
    case CapturingAfter(job) => job.todo != []
    case Writing(_, s) => s.FirstSave? || s.AfterSave? || s.KeepSave? || (s.BeforeSave? && s.job.todo != [])
    case Renaming(_, s) => s.FirstSave? || s.AfterSave? || s.KeepSave? || (s.BeforeSave? && s.job.todo != [])
    case Publishing(_) => true
    case Dropping(_) => true
    case Release(result) => result == Applied
    case Finished(result) => result == Applied
    case _ => false
  }

  const PER_STEP: nat := 9
  const AT_LAST: nat := 4

  /** How many actions a step list needs, and the publication after it. */
  function StepsLeft(todo: seq<StepPlan>): nat { PER_STEP * |todo| + AT_LAST }

  /** How many actions are left when nothing fails: nine for each step, four to publish and release. */
  function ActionsToSuccess(pc: Pc): nat {
    match pc
    case Acquire(q) => if q.ApplyRequest? then StepsLeft(q.steps) + 4 else 0
    case Checking(job) => StepsLeft(job.todo) + 3
    case Writing(_, s) =>
      (match s
       case FirstSave(job) => StepsLeft(job.todo) + 2
       case BeforeSave(job) => StepsLeft(job.todo) - 2
       case AfterSave(job) => StepsLeft(job.todo) + 3
       case _ => 3)
    case Renaming(_, s) =>
      (match s
       case FirstSave(job) => StepsLeft(job.todo) + 1
       case BeforeSave(job) => StepsLeft(job.todo) - 3
       case AfterSave(job) => StepsLeft(job.todo) + 2
       case _ => 2)
    case Polling(job, before) => if before then StepsLeft(job.todo) else StepsLeft(job.todo) + 1
    case CapturingBefore(job) => StepsLeft(job.todo) - 1
    case ApplyingStep(job) => StepsLeft(job.todo) - 4
    case CapturingAfter(job) => if job.todo == [] then 0 else StepsLeft(job.todo[1..]) + 4
    case Publishing(_) => AT_LAST
    case Dropping(_) => 2
    case Release(_) => 1
    case _ => 0
  }

  /** The state machine took one action towards success. */
  ghost predicate Advances(registered: set<string>, c: Config, o: Outcome)
    requires Sound(c.pc)
  {
    var d := Next(registered, c.pc, c.world, o);
    Advancing(d.pc) && ActionsToSuccess(d.pc) < ActionsToSuccess(c.pc) && !d.pc.Acquire?
  }

  lemma SavesAdvance(registered: set<string>, c: Config, o: Outcome)
    requires Sound(c.pc) && Advancing(c.pc) && o.ok && (c.pc.Writing? || c.pc.Renaming?)
    ensures Advances(registered, c, o)
  {
  }

  lemma CapturesAdvance(registered: set<string>, c: Config, o: Outcome)
    requires Sound(c.pc) && Advancing(c.pc) && o.ok && (c.pc.CapturingBefore? || c.pc.CapturingAfter?)
    ensures Advances(registered, c, o)
  {
    hide Captured, Differ;
  }

  lemma OthersAdvance(registered: set<string>, c: Config, o: Outcome)
    requires Sound(c.pc) && Advancing(c.pc) && o.ok && (c.pc.Acquire? ==> !c.world.locked)
    requires c.pc.Acquire? || c.pc.Checking? || c.pc.Polling? || c.pc.ApplyingStep? || c.pc.Publishing? || c.pc.Dropping? || c.pc.Release?
    ensures Advances(registered, c, o)
  {
    hide Effect;
  }

  lemma AdvancingNext(registered: set<string>, c: Config, o: Outcome)
    requires Sound(c.pc) && Advancing(c.pc) && !c.pc.Finished? && o.ok && (c.pc.Acquire? ==> !c.world.locked)
    ensures Advances(registered, c, o)
  {
    hide Advances, ActionsToSuccess, Sound;
    if c.pc.Writing? || c.pc.Renaming? {
      SavesAdvance(registered, c, o);
    } else if c.pc.CapturingBefore? || c.pc.CapturingAfter? {
      CapturesAdvance(registered, c, o);
    } else {
      OthersAdvance(registered, c, o);
    }
  }

  lemma {:induction false} AdvancingRun(registered: set<string>, c: Config, s: Script)
    requires Sound(c.pc) && Advancing(c.pc) && Friendly(s) && |s| >= ActionsToSuccess(c.pc) && (c.pc.Acquire? ==> !c.world.locked)
    ensures Exec(registered, c, s).pc == Finished(Applied)
    decreases |s|
  {
    SomethingToDo(c.pc);
    hide Next, ActionsToSuccess;
    if !c.pc.Finished? {
      AdvancingNext(registered, c, s[0]);
      NextIsSound(registered, c.pc, c.world, s[0]);
      AdvancingRun(registered, Next(registered, c.pc, c.world, s[0]), s[1..]);
    }
  }

  lemma SomethingToDo(pc: Pc)
    requires Advancing(pc)
    ensures pc.Finished? || ActionsToSuccess(pc) > 0
  {
  }

  // ------------------------------------------------------------- what such an apply leaves behind

  predicate Mine(l: Launch, keepLocal: bool, job: Job) {
    job.keepLocal == keepLocal && job.journal.profile == l.profile && job.journal.runId == l.runId
  }

  /** The runner's slot for the profile: the published journal if it was to be kept, else empty. */
  predicate SlotAsAsked(l: Launch, keepLocal: bool, w: World) {
    var key := RunKey(l.profile, l.runId);
    if keepLocal then l.profile in w.last && key in w.remote && w.last[l.profile] == Whole(w.remote[key])
    else l.profile !in w.last
  }

  predicate PublishedIs(l: Launch, w: World, j: Journal) {
    var key := RunKey(l.profile, l.runId);
    j.profile == l.profile && key in w.remote && w.remote[key] == j
  }

  predicate SavesMine(l: Launch, keepLocal: bool, w: World, j: Journal, s: Saving) {
    match s
    case FirstSave(job) => Mine(l, keepLocal, job)
    case BeforeSave(job) => Mine(l, keepLocal, job)
    case AfterSave(job) => Mine(l, keepLocal, job)
    case KeepSave => keepLocal && PublishedIs(l, w, j)
    case _ => true
  }

  /** On the way to success the request to keep the journal is carried along, and met at the end with the lock freed. */
  predicate KeepsAsAsked(l: Launch, keepLocal: bool, c: Config) {
    match c.pc
    case Acquire(q) => q.ApplyRequest? && q.keepLocal == keepLocal && q.profile == l.profile && q.runId == l.runId
    case Checking(job) => Mine(l, keepLocal, job)
    case Polling(job, _) => Mine(l, keepLocal, job)
    case CapturingBefore(job) => Mine(l, keepLocal, job)
    case ApplyingStep(job) => Mine(l, keepLocal, job)
    case CapturingAfter(job) => Mine(l, keepLocal, job)
    case Publishing(job) => Mine(l, keepLocal, job)
    case Dropping(job) => !keepLocal && job.journal.profile == l.profile
    case Writing(j, s) => SavesMine(l, keepLocal, c.world, j, s)
    case Renaming(j, s) =>
      SavesMine(l, keepLocal, c.world, j, s) && j.profile in c.world.tmp && c.world.tmp[j.profile] == Whole(j)
    case Release(_) => SlotAsAsked(l, keepLocal, c.world)
    case Finished(_) => SlotAsAsked(l, keepLocal, c.world) && !c.world.locked
    case _ => true
  }

  lemma KeepsAsAskedNext(l: Launch, keepLocal: bool, c: Config, o: Outcome)
    requires Sound(c.pc) && Advancing(c.pc) && !c.pc.Finished? && o.ok && (c.pc.Acquire? ==> !c.world.locked)
    requires KeepsAsAsked(l, keepLocal, c)
    ensures KeepsAsAsked(l, keepLocal, Next(l.registered, c.pc, c.world, o))
  {
    hide Next, KeepsAsAsked, Advancing, Sound;
    if c.pc.Writing? || c.pc.Renaming? {
      SavesAsAsked(l, keepLocal, c, o);
    } else {
      OthersAsAsked(l, keepLocal, c, o);
    }
  }

  lemma SavesAsAsked(l: Launch, keepLocal: bool, c: Config, o: Outcome)
    requires Sound(c.pc) && Advancing(c.pc) && o.ok && (c.pc.Writing? || c.pc.Renaming?) && KeepsAsAsked(l, keepLocal, c)
    ensures KeepsAsAsked(l, keepLocal, Next(l.registered, c.pc, c.world, o))
  {
  }

  lemma OthersAsAsked(l: Launch, keepLocal: bool, c: Config, o: Outcome)
    requires Sound(c.pc) && Advancing(c.pc) && !c.pc.Finished? && o.ok && (c.pc.Acquire? ==> !c.world.locked)
    requires !c.pc.Writing? && !c.pc.Renaming? && KeepsAsAsked(l, keepLocal, c)
    ensures KeepsAsAsked(l, keepLocal, Next(l.registered, c.pc, c.world, o))
  {
    hide Captured, Differ, Effect;
  }

  lemma {:induction false} KeepsAsAskedRun(l: Launch, keepLocal: bool, c: Config, s: Script)
    requires Sound(c.pc) && Advancing(c.pc) && Friendly(s) && (c.pc.Acquire? ==> !c.world.locked) && KeepsAsAsked(l, keepLocal, c)
    ensures KeepsAsAsked(l, keepLocal, Exec(l.registered, c, s))
    decreases |s|
  {
    hide Next, KeepsAsAsked, ActionsToSuccess;
    if s != [] && !c.pc.Finished? {
      AdvancingNext(l.registered, c, s[0]);
      KeepsAsAskedNext(l, keepLocal, c, s[0]);
      NextIsSound(l.registered, c.pc, c.world, s[0]);
      KeepsAsAskedRun(l, keepLocal, Next(l.registered, c.pc, c.world, s[0]), s[1..]);
    }
  }

  /** An apply that finds the lock free and meets no failure ends applied, with its run published and its host complete, the lock
      free again, and the published journal in the runner's slot if that was asked for, else nothing there. */
  lemma FriendlyApplyFinishes(l: Launch, keepLocal: bool, w: World, s: Script)
    requires From(l, w, s) && !w.locked && Friendly(s) && |s| >= PER_STEP * |l.plans| + AT_LAST + 4
    ensures var c := ApplyRun(l, keepLocal, w, s);
      && c.pc == Finished(Applied) && (exists steps :: AllDone(l, steps, c.world.host) && c.world.remote == Published(l, steps))
      && !c.world.locked && SlotAsAsked(l, keepLocal, c.world)
  {
    var c := Config(Acquire(ApplyCommand(l, keepLocal)), w);
    AdvancingRun(l.registered, c, s);
    KeepsAsAskedRun(l, keepLocal, c, s);
    ApplyRunIsSafe(l, keepLocal, w, s);
    hide Exec, AllDone, Published, From, Friendly, SlotAsAsked;
  }
}
