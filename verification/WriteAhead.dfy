// Nothing is changed before what would undo it is durable.
module WriteAhead {
  import opened Records
  import opened Journals
  import opened Protocol
  import opened Restoration
  import opened CrashResume
  import opened ApplyRuns
  import opened ApplySafety

  /** The runner's journal file is absent or whole. */
  ghost predicate NotTorn(profile: string, w: World) {
    profile in w.last ==> w.last[profile].Whole?
  }

  ghost predicate InLocalJournal(l: Launch, w: World) {
    l.profile in w.last && w.last[l.profile].Whole? && CoversAll(l, w.last[l.profile].journal.steps, w.host)
  }

  ghost predicate InTargetJournal(l: Launch, w: World) {
    exists steps :: w.remote == Published(l, steps) && CoversAll(l, steps, w.host)
  }

  /** A durable journal holds the pre-run value of everything that is no longer at it. */
  ghost predicate Recoverable(l: Launch, w: World) {
    SameHost(w.host, l.host0) || InLocalJournal(l, w) || InTargetJournal(l, w)
  }

  /** The runner holds the journal of the whole successful run. */
  ghost predicate KeptLocally(l: Launch, w: World) {
    exists steps :: AllDone(l, steps, w.host) && l.profile in w.last && w.last[l.profile] == Whole(SuccessJournal(l, steps))
  }

  ghost predicate Durable(l: Launch, c: Config) {
    && Recoverable(l, c.world) && NotTorn(l.profile, c.world)
    && match c.pc
       case ApplyingStep(job) => l.profile in c.world.last && c.world.last[l.profile] == Whole(job.journal)
       case CapturingAfter(job) => l.profile in c.world.last && c.world.last[l.profile] == Whole(job.journal)
       case Renaming(j, _) => l.profile in c.world.tmp && c.world.tmp[l.profile] == Whole(j)
       case Release(result) => result == NotPublished(true) ==> KeptLocally(l, c.world)
       case Finished(result) => result == NotPublished(true) ==> KeptLocally(l, c.world)
       case _ => true
  }

  lemma SavedJournalCovers(l: Launch, j: Journal, s: Saving, w: World)
    requires SaveInv(l, j, s, w)
    ensures CoversAll(l, j.steps, w.host)
  {
    hide Midstep, AtRest, CoversAll, Undone, Revertible;
    match s
    case FirstSave(job) => AtRestMeans(l, job, w.host); RevertibleCoversAll(l, j.steps, w.host);
    case BeforeSave(job) => MidstepMeans(l, job, w.host); RevertibleCoversAll(l, j.steps, w.host);
    case AfterSave(job) => AtRestMeans(l, job, w.host); RevertibleCoversAll(l, j.steps, w.host);
    case InterruptedSave(job) => RevertibleCoversAll(l, j.steps, w.host);
    case FailedSave(_) =>
    case FallbackSave => RevertibleCoversAll(l, j.steps, w.host);
    case KeepSave => RevertibleCoversAll(l, j.steps, w.host);
  }

  lemma WritingIsDurable(l: Launch, j: Journal, s: Saving, w: World, o: Outcome)
    requires SaveInv(l, j, s, w) && Durable(l, Config(Writing(j, s), w))
    ensures Durable(l, OnWriting(j, s, l.registered, w, o))
  {
    var w' := OnWriting(j, s, l.registered, w, o).world;
    SameRecoverable(l, w, w');
    hide Recoverable, SaveInv, Plan;
    assert OnWriting(j, s, l.registered, w, o).pc == if o.ok then Renaming(j, s) else Saved(l.registered, s, false);
    assert SavedPc(Saved(l.registered, s, false));
  }

  /** A failed save never leads straight to an apply, nor to a promise that the journal was kept. */
  predicate SavedPc(pc: Pc) {
    && !pc.ApplyingStep? && !pc.CapturingAfter? && !pc.Renaming?
    && (pc.Release? || pc.Finished? ==> pc.result != NotPublished(true))
  }

  lemma SameRecoverable(l: Launch, w: World, w': World)
    requires Recoverable(l, w) && w'.host == w.host && w'.last == w.last && w'.remote == w.remote
    ensures Recoverable(l, w')
  {
    hide CoversAll, Published, SameHost;
    if InTargetJournal(l, w) {
      var steps :| w.remote == Published(l, steps) && CoversAll(l, steps, w.host);
      assert w'.remote == Published(l, steps);
    }
  }

  lemma RenamingIsDurable(l: Launch, j: Journal, s: Saving, w: World, o: Outcome)
    requires SaveInv(l, j, s, w) && Durable(l, Config(Renaming(j, s), w))
    ensures Durable(l, OnRenaming(j, s, l.registered, w, o))
  {
    var c := OnRenaming(j, s, l.registered, w, o);
    if Landed(o) {
      SavedJournalCovers(l, j, s, w);
      assert InLocalJournal(l, c.world);
    } else {
      SameRecoverable(l, w, c.world);
    }
    assert !o.ok ==> SavedPc(c.pc);
    assert s.BeforeSave? ==> j == s.job.journal;
    hide Recoverable, AtRest, Midstep, Revertible, CoversAll, Undone, AllDone, Plan;
    assert !s.BeforeSave? && !s.FallbackSave? ==> SavedPc(c.pc);
    if s.FallbackSave? && o.ok {
      assert AllDone(l, j.steps, c.world.host) && c.world.last[l.profile] == Whole(SuccessJournal(l, j.steps));
      assert KeptLocally(l, c.world);
    }
  }

  lemma ApplyingIsDurable(l: Launch, job: Job, w: World, o: Outcome)
    requires Launchable(l) && job.todo != [] && Midstep(l, job, w.host) && Durable(l, Config(ApplyingStep(job), w))
    ensures Durable(l, OnApplyingStep(job, w, o))
  {
    var w' := w.(host := Effect(w.host, job.todo[0].keys, o.values));
    EffectIsOwn(l, job, w.host, o.values);
    MidstepMeans(l, job, w'.host);
    RevertibleCoversAll(l, job.journal.steps, w'.host);
    hide Midstep, CoversAll, Effect, Revertible, Launchable;
    assert InLocalJournal(l, w');
  }

  lemma PutKeepsCoversAll(l: Launch, steps: seq<StepRecord>, host: Host, obj: ObjectRecord)
    requires CoversAll(l, steps, host) && Own(obj) && obj == Read(l.host0, ObjectKey(obj))
    ensures CoversAll(l, steps, Put(host, obj))
  {
    forall k ensures Read(Put(host, obj), k) == if k == ObjectKey(obj) then obj else Read(host, k) { ReadAfterPut(host, obj, k); }
    hide Read, ObjectKey, Put;
  }

  lemma PutKeepsSame(l: Launch, host: Host, obj: ObjectRecord)
    requires SameHost(host, l.host0) && Own(obj) && obj == Read(l.host0, ObjectKey(obj))
    ensures SameHost(Put(host, obj), l.host0)
  {
    forall k ensures Read(Put(host, obj), k) == if k == ObjectKey(obj) then obj else Read(host, k) { ReadAfterPut(host, obj, k); }
    hide Read, ObjectKey, Put;
  }

  lemma PutIsRecoverable(l: Launch, w: World, obj: ObjectRecord)
    requires Recoverable(l, w) && Own(obj) && obj == Read(l.host0, ObjectKey(obj))
    ensures Recoverable(l, w.(host := Put(w.host, obj)))
  {
    var w' := w.(host := Put(w.host, obj));
    if SameHost(w.host, l.host0) {
      PutKeepsSame(l, w.host, obj);
    } else if InLocalJournal(l, w) {
      PutKeepsCoversAll(l, w.last[l.profile].journal.steps, w.host, obj);
    } else {
      var steps :| w.remote == Published(l, steps) && CoversAll(l, steps, w.host);
      PutKeepsCoversAll(l, steps, w.host, obj);
      hide CoversAll, Published, Put;
      assert w'.remote == Published(l, steps);
    }
    hide CoversAll, Published, Put, SameHost, Read, ObjectKey;
  }

  lemma RevertingIsDurable(l: Launch, v: Revert, plan: seq<Attempt>, failed: seq<ObjectRecord>, w: World, o: Outcome)
    requires plan != [] && plan[0].Restore? && Recoverable(l, w) && NotTorn(l.profile, w)
    requires OwnRevert(l, v) && Undoing(l, StepsOf(v), plan, failed, w.host)
    ensures Durable(l, OnReverting(v, plan, failed, w, o))
  {
    var full := Plan(l.registered, StepsOf(v));
    SuffixStep(full, plan);
    assert plan[0] in full && Own(plan[0].record);
    assert plan[0].record == Read(l.host0, ObjectKey(plan[0].record));
    PutIsRecoverable(l, w, plan[0].record);
    ResumeIsSaved(v, plan[1..], failed);
    ResumeIsSaved(v, plan[1..], failed + [plan[0].record]);
    hide Undoing, Recoverable, Put, Plan, Own, ObjectKey, Read, Resume, RevertFailed;
    assert SavedPc(OnReverting(v, plan, failed, w, o).pc);
  }

  lemma ResumeIsSaved(v: Revert, plan: seq<Attempt>, failed: seq<ObjectRecord>)
    requires !v.ForCommand?
    ensures SavedPc(Resume(v, plan, failed)) && SavedPc(RevertFailed(v, false))
  {
  }

  lemma PublishingIsDurable(l: Launch, job: Job, w: World, o: Outcome)
    requires Launchable(l) && AInv(l, Config(Publishing(job), w)) && Recoverable(l, w) && NotTorn(l.profile, w)
    ensures Durable(l, OnPublishing(job, l.registered, w, o))
  {
    var c := OnPublishing(job, l.registered, w, o);
    AtRestMeans(l, job, w.host);
    RevertibleCoversAll(l, job.journal.steps, w.host);
    assert MyJob(l, job);
    hide Revertible, AtRest, CoversAll, SameHost, AllDone;
    if Landed(o) {
      assert c.world.remote == Published(l, job.journal.steps);
      assert InTargetJournal(l, c.world);
    } else {
      SameRecoverable(l, w, c.world);
    }
    hide Recoverable;
  }

  lemma DroppingIsDurable(l: Launch, job: Job, w: World, o: Outcome)
    requires AInv(l, Config(Dropping(job), w)) && NotTorn(l.profile, w)
    ensures Durable(l, Next(l.registered, Dropping(job), w, o))
  {
    RevertibleCoversAll(l, job.journal.steps, w.host);
    hide Revertible, CoversAll, SameHost, Published;
    assert InTargetJournal(l, Next(l.registered, Dropping(job), w, o).world);
  }

  /** Actions that touch neither the host nor a journal. */
  lemma QuietIsDurable(l: Launch, c: Config, d: Config)
    requires Durable(l, c) && SavedPc(d.pc) && d.world.host == c.world.host
    requires d.world.last == c.world.last && d.world.remote == c.world.remote
    ensures Durable(l, d)
  {
    SameRecoverable(l, c.world, d.world);
    hide Recoverable;
  }

  lemma ReleaseIsDurable(l: Launch, result: Ending, w: World, w': World)
    requires Durable(l, Config(Release(result), w)) && w' == w.(locked := w'.locked)
    ensures Durable(l, Config(Finished(result), w'))
  {
    SameRecoverable(l, w, w');
    hide Recoverable, AllDone;
    if KeptLocally(l, w) {
      var steps :| AllDone(l, steps, w.host) && l.profile in w.last && w.last[l.profile] == Whole(SuccessJournal(l, steps));
      assert w'.last[l.profile] == Whole(SuccessJournal(l, steps));
    }
  }

  lemma DurableNext(l: Launch, c: Config, o: Outcome)
    requires Launchable(l) && Sound(c.pc) && AInv(l, c) && Durable(l, c)
    ensures Durable(l, Next(l.registered, c.pc, c.world, o))
  {
    var w := c.world;
    hide Launchable, AtRest, Midstep, Undoing, SaveInv, EndInv, OnLoad, OnClaim, OnConsume, OnReverting, Revertible,
         OnWriting, OnRenaming, OnPublishing, OnApplyingStep, AllDone, Recoverable, NotTorn, KeptLocally, PreflightPasses, Plan, Captured, Differ;
    match c.pc
    case Writing(j, s) => WritingIsDurable(l, j, s, w, o);
    case Renaming(j, s) => RenamingIsDurable(l, j, s, w, o);
    case ApplyingStep(job) => ApplyingIsDurable(l, job, w, o);
    case Reverting(v, plan, failed) => RevertingIsDurable(l, v, plan, failed, w, o);
    case Publishing(job) => PublishingIsDurable(l, job, w, o);
    case Dropping(job) => DroppingIsDurable(l, job, w, o);
    case Acquire(_) => QuietIsDurable(l, c, Next(l.registered, c.pc, w, o));
    case Checking(_) => QuietIsDurable(l, c, Next(l.registered, c.pc, w, o));
    case Polling(_, _) => QuietIsDurable(l, c, Next(l.registered, c.pc, w, o));
    case CapturingBefore(_) => QuietIsDurable(l, c, Next(l.registered, c.pc, w, o));
    case CapturingAfter(_) => QuietIsDurable(l, c, Next(l.registered, c.pc, w, o));
    case Preflight(_, _, _) => QuietIsDurable(l, c, Next(l.registered, c.pc, w, o));
    case Release(result) => ReleaseIsDurable(l, result, w, if Landed(o) then w.(locked := false) else w);
    case Finished(_) =>
  }

  lemma {:induction false} DurableAlways(l: Launch, c: Config, s: Script)
    requires Launchable(l) && Sound(c.pc) && AInv(l, c) && FreshSave(c.pc) && Durable(l, c)
    requires forall o <- s :: o.mode in l.modes
    ensures Durable(l, Exec(l.registered, c, s)) && AInv(l, Exec(l.registered, c, s))
    decreases |s|
  {
    hide AInv, Launchable, Next, FreshSave, Durable;
    if s != [] && !c.pc.Finished? {
      assert s[0] in s;
      AInvNext(l, c, s[0]);
      DurableNext(l, c, s[0]);
      FreshSaveNext(l, c, s[0]);
      NextIsSound(l.registered, c.pc, c.world, s[0]);
      DurableAlways(l, Next(l.registered, c.pc, c.world, s[0]), s[1..]);
    }
  }

  // ------------------------------------------------------------------------ main results

  function ApplyCommand(l: Launch, keepLocal: bool): Request { ApplyRequest(l.profile, l.runId, l.plans, keepLocal) }

  /** One apply from the first action, under any environment. */
  ghost function ApplyRun(l: Launch, keepLocal: bool, w: World, s: Script): Config {
    Exec(l.registered, Config(Acquire(ApplyCommand(l, keepLocal)), w), s)
  }

  ghost predicate From(l: Launch, w: World, s: Script) {
    Launchable(l) && w.host == l.host0 && w.remote == l.remote0 && forall o <- s :: o.mode in l.modes
  }

  lemma ApplyRunIsSafe(l: Launch, keepLocal: bool, w: World, s: Script)
    requires From(l, w, s)
    ensures AInv(l, ApplyRun(l, keepLocal, w, s))
    ensures NotTorn(l.profile, w) ==> Durable(l, ApplyRun(l, keepLocal, w, s))
  {
    var c := Config(Acquire(ApplyCommand(l, keepLocal)), w);
    assert SameHost(w.host, l.host0) by { hide Read; }
    hide SameHost, Launchable;
    assert AInv(l, c);
    AInvAlways(l, c, s);
    if NotTorn(l.profile, w) { DurableAlways(l, c, s); }
  }

  /** When the target refused the journal and the fallback was reported as written, the runner has the whole run. */
  lemma FallbackKeepsJournal(l: Launch, keepLocal: bool, w: World, s: Script)
    requires From(l, w, s) && NotTorn(l.profile, w)
    requires ApplyRun(l, keepLocal, w, s).pc == Finished(NotPublished(true))
    ensures KeptLocally(l, ApplyRun(l, keepLocal, w, s).world)
  {
    ApplyRunIsSafe(l, keepLocal, w, s);
    hide Recoverable, NotTorn, ApplyRun, From, KeptLocally;
  }

  /** Stop an apply anywhere: a whole journal on the runner or the target records every changed object's pre-run value. */
  lemma StoppedApplyIsRecoverable(l: Launch, keepLocal: bool, w: World, s: Script)
    requires From(l, w, s) && NotTorn(l.profile, w)
    ensures Recoverable(l, ApplyRun(l, keepLocal, w, s).world) && NotTorn(l.profile, ApplyRun(l, keepLocal, w, s).world)
  {
    ApplyRunIsSafe(l, keepLocal, w, s);
    hide Recoverable, NotTorn, ApplyRun, From;
  }

  /** No plugin changes the host before the runner's journal holds exactly the step's objects as they are. */
  lemma ApplyIsWriteAhead(l: Launch, keepLocal: bool, w: World, s: Script)
    requires From(l, w, s) && NotTorn(l.profile, w) && ApplyRun(l, keepLocal, w, s).pc.ApplyingStep?
    ensures var c := ApplyRun(l, keepLocal, w, s);
      var job := c.pc.job;
      && l.profile in c.world.last && c.world.last[l.profile] == Whole(job.journal)
      && job.todo != [] && job.journal.steps != []
      && Names(job.journal.steps[|job.journal.steps| - 1], job.todo[0])
      && CaptureOf(job.todo[0].keys, l.host0, job.journal.steps[|job.journal.steps| - 1].before)
  {
    ApplyRunIsSafe(l, keepLocal, w, s);
    hide Recoverable, NotTorn, ApplyRun, From, CaptureOf, Untouched, Completed;
  }

  /** An automatic rollback that reports completion leaves the host as the run found it. */
  lemma AutomaticRollbackRestores(l: Launch, keepLocal: bool, w: World, s: Script)
    requires From(l, w, s) && Noop !in l.modes && ApplyRun(l, keepLocal, w, s).pc == Finished(ApplyFailed(true))
    ensures SameHost(ApplyRun(l, keepLocal, w, s).world.host, w.host)
    ensures ApplyRun(l, keepLocal, w, s).world.remote == w.remote
  {
    ApplyRunIsSafe(l, keepLocal, w, s);
    hide ApplyRun, Launchable;
    var c := ApplyRun(l, keepLocal, w, s);
    var steps :| ModesIn(l, steps) && Undone(l, steps, c.world.host);
    hide Read;
    assert forall k :: !NoopKey(l, steps, k);
  }

  // ------------------------------------------------------------------ journal files are whole

  /** Each journal file is the one the command found or a whole journal of its own profile. */
  ghost predicate OldOrWhole(last: map<string, FileText>, now: map<string, FileText>) {
    forall p <- now :: (p in last && now[p] == last[p]) || (now[p].Whole? && now[p].journal.profile == p)
  }

  /** And what is about to be renamed is whole. */
  ghost predicate WholeSince(last: map<string, FileText>, c: Config) {
    && OldOrWhole(last, c.world.last)
    && (c.pc.Renaming? ==> c.pc.journal.profile in c.world.tmp && c.world.tmp[c.pc.journal.profile] == Whole(c.pc.journal))
  }

  lemma OnlyWritingRenames(registered: set<string>, pc: Pc, w: World, o: Outcome)
    requires Sound(pc) && !pc.Writing? && !(pc.Claim? && pc.local)
    ensures !Next(registered, pc, w, o).pc.Renaming?
  {
    hide Plan, Captured, PreflightPasses, Loaded, Differ, Effect, Put;
  }

  lemma SavingStaysWhole(registered: set<string>, last: map<string, FileText>, c: Config, o: Outcome)
    requires Sound(c.pc) && WholeSince(last, c) && (c.pc.Writing? || c.pc.Renaming? || (c.pc.Claim? && c.pc.local))
    ensures WholeSince(last, Next(registered, c.pc, c.world, o))
  {
    if c.pc.Renaming? { OnlyWritingRenames(registered, c.pc, c.world, o); }
    hide Plan, Resume, Failing;
  }

  /** No other action writes a journal file. */
  lemma FilesStayOrGo(registered: set<string>, pc: Pc, w: World, o: Outcome)
    requires Sound(pc) && !pc.Writing? && !pc.Renaming? && !(pc.Claim? && pc.local)
    ensures forall p <- Next(registered, pc, w, o).world.last :: p in w.last && Next(registered, pc, w, o).world.last[p] == w.last[p]
  {
    hide Plan, PreflightPasses, Put, Resume, Effect, OnLoad, OnPreflight, OnCapturingBefore, OnCapturingAfter;
  }

  lemma StillWhole(last: map<string, FileText>, a: map<string, FileText>, b: map<string, FileText>)
    requires OldOrWhole(last, a) && forall p <- b :: p in a && b[p] == a[p]
    ensures OldOrWhole(last, b)
  {
  }

  lemma WholeNext(registered: set<string>, last: map<string, FileText>, c: Config, o: Outcome)
    requires Sound(c.pc) && WholeSince(last, c)
    ensures WholeSince(last, Next(registered, c.pc, c.world, o))
  {
    hide Next, OldOrWhole;
    if c.pc.Writing? || c.pc.Renaming? || (c.pc.Claim? && c.pc.local) {
      SavingStaysWhole(registered, last, c, o);
    } else {
      OnlyWritingRenames(registered, c.pc, c.world, o);
      FilesStayOrGo(registered, c.pc, c.world, o);
      StillWhole(last, c.world.last, Next(registered, c.pc, c.world, o).world.last);
    }
  }

  lemma {:induction false} WholeAlways(registered: set<string>, last: map<string, FileText>, c: Config, s: Script)
    requires Sound(c.pc) && WholeSince(last, c)
    ensures WholeSince(last, Exec(registered, c, s))
    decreases |s|
  {
    hide Next, WholeSince;
    if s != [] && !c.pc.Finished? {
      WholeNext(registered, last, c, s[0]);
      NextIsSound(registered, c.pc, c.world, s[0]);
      WholeAlways(registered, last, Next(registered, c.pc, c.world, s[0]), s[1..]);
    }
  }

  /** Neither command, wherever it fails or stops, leaves a torn file under a journal's name. */
  lemma JournalsStayWhole(registered: set<string>, q: Request, w: World, s: Script)
    ensures OldOrWhole(w.last, Exec(registered, Config(Acquire(q), w), s).world.last)
  {
    WholeAlways(registered, w.last, Config(Acquire(q), w), s);
    hide Exec, OldOrWhole;
  }
}
