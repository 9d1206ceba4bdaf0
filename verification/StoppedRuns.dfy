// An apply that stops anywhere leaves a journal whose replay restores the host.
module StoppedRuns {
  import opened Records
  import opened Journals
  import opened Protocol
  import opened Restoration
  import opened CrashResume
  import opened RollbackRuns
  import opened ApplyRuns
  import opened ApplySafety
  import opened WriteAhead

  /** Every object away from its pre-run value has that value waiting in these steps' plan. */
  ghost predicate Replays(l: Launch, steps: seq<StepRecord>, host: Host) {
    PreRunValues(l, steps) && DistinctRestores(Plan(l.registered, steps)) && Covered(l, steps, host) && ModesIn(l, steps)
  }

  lemma RevertibleReplays(l: Launch, steps: seq<StepRecord>, host: Host)
    requires Launchable(l) && Revertible(l, steps, host)
    ensures Replays(l, steps, host)
  {
    PlanHoldsPreRunValues(l, steps, host);
    RevertibleIsCovered(l, steps, host);
    RevertibleCoversAll(l, steps, host);
    hide PreRunValues, Covered, DistinctRestores, Launchable, Revertible, Plan;
  }

  /** Replaying these journalled steps gives this host. */
  ghost predicate ReplayGives(registered: set<string>, steps: seq<StepRecord>, from: Host, host: Host) {
    var plan := Plan(registered, steps);
    (forall a <- plan :: a.Restore?) && SameHost(Restored(plan, from), host)
  }

  lemma ReplayIsHost0(l: Launch, steps: seq<StepRecord>, host: Host)
    requires Noop !in l.modes && Replays(l, steps, host)
    ensures ReplayGives(l.registered, steps, host, l.host0)
  {
    var plan := Plan(l.registered, steps);
    forall k ensures !NoopKey(l, steps, k) {}
    hide Plan, NoopKey;
    forall k ensures Read(Restored(plan, host), k) == Read(l.host0, k) {
      RestoredReads(plan, host, k);
      hide Read, ObjectKey, Restored, DistinctRestores;
    }
  }

  /** Replaying the plan of a partial run's journal gives the host the run found. */
  lemma ReplayRestores(l: Launch, steps: seq<StepRecord>, host: Host)
    requires Launchable(l) && Noop !in l.modes && Revertible(l, steps, host)
    ensures ReplayGives(l.registered, steps, host, l.host0)
  {
    RevertibleReplays(l, steps, host);
    hide Launchable, Revertible, Replays, ReplayGives;
    ReplayIsHost0(l, steps, host);
  }

  /** The host is untouched, or the runner's journal is one whose replay restores it. */
  ghost predicate Replayable(l: Launch, w: World) {
    SameHost(w.host, l.host0)
    || (l.profile in w.last && w.last[l.profile].Whole? && Replays(l, w.last[l.profile].journal.steps, w.host))
  }

  /** The run succeeded and its journal may be on the target only. */
  predicate Succeeded(pc: Pc) { (pc.Release? || pc.Finished?) && pc.result == Applied }

  predicate SavesFailure(pc: Pc) { (pc.Writing? || pc.Renaming?) && pc.saving.FailedSave? }

  /** What holds wherever an apply stops; a journal saved as failed still replays. */
  ghost predicate ReplayableAt(l: Launch, c: Config) {
    && (Succeeded(c.pc) || Replayable(l, c.world))
    && (SavesFailure(c.pc) ==> Replays(l, c.pc.journal.steps, c.world.host))
  }

  lemma SavedReplays(l: Launch, c: Config)
    requires Launchable(l) && AInv(l, c) && ReplayableAt(l, c) && (c.pc.Writing? || c.pc.Renaming?)
    ensures Replays(l, c.pc.journal.steps, c.world.host)
  {
    var j, w := c.pc.journal, c.world;
    hide Midstep, AtRest, Revertible, Replays, Launchable, Replayable;
    match c.pc.saving
    case FirstSave(job) => AtRestMeans(l, job, w.host); RevertibleReplays(l, j.steps, w.host);
    case BeforeSave(job) => MidstepMeans(l, job, w.host); RevertibleReplays(l, j.steps, w.host);
    case AfterSave(job) => AtRestMeans(l, job, w.host); RevertibleReplays(l, j.steps, w.host);
    case InterruptedSave(_) => RevertibleReplays(l, j.steps, w.host);
    case FailedSave(_) =>
    case FallbackSave => RevertibleReplays(l, j.steps, w.host);
    case KeepSave => RevertibleReplays(l, j.steps, w.host);
  }

  /** Where a revert goes, with the records it works from. */
  predicate Follows(v: Revert, pc: Pc) {
    || (pc.Reverting? && pc.revert == v)
    || (SavesFailure(pc) && pc.journal.steps == StepsOf(v))
  }

  lemma ResumeFollows(v: Revert, plan: seq<Attempt>, failed: seq<ObjectRecord>)
    requires !v.ForCommand?
    ensures Follows(v, Resume(v, plan, failed)) && Follows(v, RevertFailed(v, true)) && Follows(v, RevertFailed(v, false))
  {
  }

  lemma FollowsIsReplayable(l: Launch, v: Revert, d: Config)
    requires Follows(v, d.pc) && Replayable(l, d.world) && Replays(l, StepsOf(v), d.world.host)
    ensures ReplayableAt(l, d)
  {
    hide Replays, Replayable;
  }

  /** A save leaves the host alone, and the runner's file is the old one or the saved journal. */
  lemma SavingMeans(l: Launch, c: Config, o: Outcome)
    requires AInv(l, c) && Durable(l, c) && (c.pc.Writing? || c.pc.Renaming?)
    ensures var d := Next(l.registered, c.pc, c.world, o);
      && d.world.host == c.world.host
      && (d.world.last == c.world.last
          || (l.profile in d.world.last && d.world.last[l.profile] == Whole(c.pc.journal)))
  {
    assert c.pc.journal.profile == l.profile;
    hide AInv, Recoverable, KeptLocally, Saved;
  }

  lemma SavingGoesTo(l: Launch, c: Config, o: Outcome)
    requires AInv(l, c) && (c.pc.Writing? || c.pc.Renaming?)
    ensures var d := Next(l.registered, c.pc, c.world, o); SavesFailure(d.pc) ==> d.pc.journal.steps == c.pc.journal.steps
  {
    hide Plan, AtRest, Midstep, Revertible, AllDone, CoversAll, Undone, Resume;
  }

  lemma SavingStays(l: Launch, c: Config, o: Outcome)
    requires Launchable(l) && AInv(l, c) && Durable(l, c) && ReplayableAt(l, c) && (c.pc.Writing? || c.pc.Renaming?)
    ensures ReplayableAt(l, Next(l.registered, c.pc, c.world, o))
  {
    SavedReplays(l, c);
    SavingMeans(l, c, o);
    SavingGoesTo(l, c, o);
    hide AInv, Durable, Next, Replays, SameHost, Launchable;
  }

  lemma PutStillReplays(l: Launch, steps: seq<StepRecord>, host: Host, obj: ObjectRecord)
    requires Replays(l, steps, host) && Own(obj) && obj == Read(l.host0, ObjectKey(obj))
    ensures Replays(l, steps, Put(host, obj))
  {
    forall k ensures Read(Put(host, obj), k) == if k == ObjectKey(obj) then obj else Read(host, k) { ReadAfterPut(host, obj, k); }
    hide Read, ObjectKey, Put, Plan, NoopKey, DistinctRestores, PreRunValues;
  }

  lemma RevertingStays(l: Launch, c: Config, o: Outcome)
    requires Sound(c.pc) && AInv(l, c) && ReplayableAt(l, c) && c.pc.Reverting?
    ensures ReplayableAt(l, Next(l.registered, c.pc, c.world, o))
  {
    var v, plan, failed, w := c.pc.revert, c.pc.plan, c.pc.degraded, c.world;
    var obj := plan[0].record;
    SuffixStep(Plan(l.registered, StepsOf(v)), plan);
    assert plan[0] in Plan(l.registered, StepsOf(v)) && Own(obj) && obj == Read(l.host0, ObjectKey(obj));
    assert Replays(l, StepsOf(v), w.host);
    PutStillReplays(l, StepsOf(v), w.host, obj);
    if SameHost(w.host, l.host0) { PutKeepsSame(l, w.host, obj); } else { PutStillReplays(l, w.last[l.profile].journal.steps, w.host, obj); }
    ResumeFollows(v, plan[1..], failed);
    ResumeFollows(v, plan[1..], failed + [obj]);
    var d := Next(l.registered, c.pc, w, o);
    hide Replays, SameHost, Undoing, Put, Resume, Read, ObjectKey, Own, Plan, RevertFailed;
    assert Replayable(l, d.world) && Follows(v, d.pc);
    FollowsIsReplayable(l, v, d);
  }

  lemma PreflightStays(l: Launch, c: Config, o: Outcome)
    requires Launchable(l) && AInv(l, c) && ReplayableAt(l, c) && c.pc.Preflight?
    ensures ReplayableAt(l, Next(l.registered, c.pc, c.world, o))
  {
    var v := c.pc.revert;
    RevertibleReplays(l, StepsOf(v), c.world.host);
    ResumeFollows(v, Plan(l.registered, StepsOf(v)), []);
    hide Replays, Replayable, Plan, Resume, RevertFailed, PreflightPasses, Revertible, Launchable;
    FollowsIsReplayable(l, v, Next(l.registered, c.pc, c.world, o));
  }

  lemma ApplyingStays(l: Launch, c: Config, o: Outcome)
    requires Launchable(l) && Sound(c.pc) && AInv(l, c) && Durable(l, c) && c.pc.ApplyingStep?
    ensures ReplayableAt(l, Next(l.registered, c.pc, c.world, o))
  {
    var job, w := c.pc.job, c.world;
    EffectIsOwn(l, job, w.host, o.values);
    MidstepMeans(l, job, Effect(w.host, job.todo[0].keys, o.values));
    RevertibleReplays(l, job.journal.steps, Effect(w.host, job.todo[0].keys, o.values));
    hide Midstep, Effect, Replays, Revertible, Launchable, SameHost, Recoverable;
  }

  lemma QuietStays(l: Launch, w: World, w': World)
    requires Replayable(l, w) && w'.host == w.host && w'.last == w.last
    ensures Replayable(l, w')
  {
    hide Replays, SameHost;
  }

  predicate Quiet(pc: Pc) {
    match pc
    case Acquire(_) => true
    case Checking(_) => true
    case Polling(_, _) => true
    case CapturingBefore(_) => true
    case CapturingAfter(_) => true
    case Publishing(_) => true
    case Release(_) => true
    case Finished(_) => true
    case _ => false
  }

  lemma QuietNext(l: Launch, c: Config, o: Outcome)
    requires Sound(c.pc) && AInv(l, c) && Quiet(c.pc)
    ensures var d := Next(l.registered, c.pc, c.world, o);
      d.world.host == c.world.host && d.world.last == c.world.last && !SavesFailure(d.pc) && (Succeeded(c.pc) ==> Succeeded(d.pc))
  {
    if c.pc.CapturingBefore? || c.pc.CapturingAfter? {
      CapturesAreQuiet(l, c, o);
    } else {
      hide AtRest, Midstep, EndInv, AllDone, SameHost, OnCapturingBefore, OnCapturingAfter, OnLoad, OnPreflight, OnClaim, OnReverting, OnConsume,
           OnWriting, OnRenaming;
    }
  }

  lemma CapturesAreQuiet(l: Launch, c: Config, o: Outcome)
    requires Sound(c.pc) && (c.pc.CapturingBefore? || c.pc.CapturingAfter?)
    ensures var d := Next(l.registered, c.pc, c.world, o);
      d.world == c.world && !SavesFailure(d.pc) && !Succeeded(c.pc)
  {
    hide Captured, Differ;
  }

  lemma ReplayableNext(l: Launch, c: Config, o: Outcome)
    requires Launchable(l) && Sound(c.pc) && AInv(l, c) && Durable(l, c) && ReplayableAt(l, c)
    ensures ReplayableAt(l, Next(l.registered, c.pc, c.world, o))
  {
    var d := Next(l.registered, c.pc, c.world, o);
    if c.pc.Writing? || c.pc.Renaming? {
      SavingStays(l, c, o);
    } else if c.pc.Reverting? {
      RevertingStays(l, c, o);
    } else if c.pc.Preflight? {
      PreflightStays(l, c, o);
    } else if c.pc.ApplyingStep? {
      ApplyingStays(l, c, o);
    } else if c.pc.Dropping? {
      assert Succeeded(d.pc);
    } else {
      hide Next, Replayable, Durable, Replays;
      assert Quiet(c.pc) by { hide AtRest; }
      QuietNext(l, c, o);
      if !Succeeded(c.pc) { QuietStays(l, c.world, d.world); }
    }
  }

  lemma {:induction false} ReplayableAlways(l: Launch, c: Config, s: Script)
    requires Launchable(l) && Sound(c.pc) && AInv(l, c) && FreshSave(c.pc) && Durable(l, c) && ReplayableAt(l, c)
    requires forall o <- s :: o.mode in l.modes
    ensures ReplayableAt(l, Exec(l.registered, c, s)) && AInv(l, Exec(l.registered, c, s))
    decreases |s|
  {
    hide AInv, Launchable, Next, FreshSave, Durable, ReplayableAt;
    if s != [] && !c.pc.Finished? {
      assert s[0] in s;
      AInvNext(l, c, s[0]);
      DurableNext(l, c, s[0]);
      FreshSaveNext(l, c, s[0]);
      ReplayableNext(l, c, s[0]);
      NextIsSound(l.registered, c.pc, c.world, s[0]);
      ReplayableAlways(l, Next(l.registered, c.pc, c.world, s[0]), s[1..]);
    }
  }

  /** Stop an apply anywhere, inside its own rollback and its last saves included: the host is untouched, or replaying the
      runner's journal restores it; once the run has succeeded, replaying the target's journal does. */
  lemma StoppedRunReplays(l: Launch, keepLocal: bool, w: World, s: Script)
    requires From(l, w, s) && NotTorn(l.profile, w) && Noop !in l.modes
    ensures var c := ApplyRun(l, keepLocal, w, s);
      var v := c.world;
      if Succeeded(c.pc) then
        var key := RunKey(l.profile, l.runId);
        key in v.remote && ReplayGives(l.registered, v.remote[key].steps, v.host, w.host)
      else
        SameHost(v.host, w.host)
        || (l.profile in v.last && v.last[l.profile].Whole?
            && ReplayGives(l.registered, v.last[l.profile].journal.steps, v.host, w.host))
  {
    var start := Config(Acquire(ApplyCommand(l, keepLocal)), w);
    assert SameHost(w.host, l.host0) by { hide Read; }
    hide SameHost, Launchable, Plan;
    assert AInv(l, start) && Durable(l, start);
    ReplayableAlways(l, start, s);
    var c := Exec(l.registered, start, s);
    hide Exec, Durable, Revertible, Replays;
    if Succeeded(c.pc) {
      var steps :| AllDone(l, steps, c.world.host) && c.world.remote == Published(l, steps);
      ReplayRestores(l, steps, c.world.host);
    } else if !SameHost(c.world.host, l.host0) {
      hide AInv;
      ReplayIsHost0(l, c.world.last[l.profile].journal.steps, c.world.host);
    }
  }
}
