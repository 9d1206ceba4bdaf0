// Which restores a rollback makes and which failures it survives, said of the journal's own fields.
module Accounting {
  import opened Wrappers
  import opened Records
  import opened Journals
  import opened Protocol
  import opened RestorePass
  import opened Restoration
  import opened CrashResume
  import opened RollbackRuns
  import opened DegradedEnds

  /** Steps of these modes promise no faithful revert. */
  predicate Forgiving(m: Mode) { m == BestEffort || m == Irreversible }

  // ---------------------------------------------------------------------- what is restored

  const RELOAD_WORDS: set<string> := {"restarted", "restart", "reloaded", "reload", "reload-or-restart"}

  /** The first step of that id has a capture after the run that is not the one before it. */
  predicate HasDelta(steps: seq<StepRecord>, id: string) {
    exists i :: 0 <= i < |steps| && steps[i].id == id && steps[i].before != steps[i].after
                && forall j :: 0 <= j < i ==> steps[j].id != id
  }

  /** The step has a delta, or its service was told to reload, unconditionally or by a watched step with a delta. */
  predicate IsReverted(steps: seq<StepRecord>, i: nat)
    requires i < |steps|
  {
    var s := steps[i];
    && s.mode != Noop
    && (s.before != s.after
        || (s.reload.Some? && s.reload.value.action in RELOAD_WORDS
            && (s.reload.value.policy != "on_change" || exists d :: d in s.reload.value.deps && HasDelta(steps, d))))
  }

  lemma RevertsIs(steps: seq<StepRecord>, i: nat)
    requires i < |steps|
    ensures Reverts(steps[i], steps) <==> IsReverted(steps, i)
  {
    var s := steps[i];
    forall d ensures ChangedById(steps, d) <==> HasDelta(steps, d) {}
    hide ChangedById, HasDelta;
    if s.reload.Some? {
      var deps := s.reload.value.deps;
      assert (exists d :: d in deps && HasDelta(steps, d)) <==> (exists k :: 0 <= k < |deps| && ChangedById(steps, deps[k]));
    }
  }

  /** A rollback restores exactly the ordinary objects of the reverted steps, and forgives the failure of those whose step is
      best-effort or irreversible. */
  lemma PlanIs(registered: set<string>, steps: seq<StepRecord>, a: Attempt)
    requires Separate(steps) && AllRegistered(registered, steps)
    ensures a in Plan(registered, steps) <==>
            a.Restore? && exists i :: 0 <= i < |steps| && IsReverted(steps, i) && a.record in steps[i].before && a.record.kind != Policy
                                      && a.step == steps[i].id && a.tolerant == Forgiving(steps[i].mode)
  {
    PlanIsDistinct(registered, steps);
    forall i | 0 <= i < |steps| ensures Reverts(steps[i], steps) <==> IsReverted(steps, i) { RevertsIs(steps, i); }
    hide Applies, Plan, IsReverted, Separate, AllRegistered, DistinctRestores;
  }

  /** An object belongs to one step only, so a restore of it is as strict as that step. */
  lemma ToleranceIsOfItsStep(registered: set<string>, steps: seq<StepRecord>, a: Attempt, i: nat)
    requires Separate(steps) && AllRegistered(registered, steps) && a in Plan(registered, steps) && a.Restore?
    requires i < |steps| && a.record in steps[i].before
    ensures a.tolerant == Forgiving(steps[i].mode)
  {
    PlanIs(registered, steps, a);
    hide Plan, IsReverted, AllRegistered, ObjectKey;
    var k :| 0 <= k < |steps| && a.record in steps[k].before && a.record.kind != Policy && a.tolerant == Forgiving(steps[k].mode);
    assert k == i;
  }

  // ------------------------------------------------------------------------- over runs

  /** The object belongs to a step that promises no faithful revert. */
  ghost predicate Forgivable(steps: seq<StepRecord>, o: ObjectRecord) {
    exists i :: 0 <= i < |steps| && o in steps[i].before && Forgiving(steps[i].mode)
  }

  ghost predicate AllForgivable(steps: seq<StepRecord>, lost: seq<ObjectRecord>) { forall o <- lost :: Forgivable(steps, o) }

  /** The objects a rollback has given up on so far. */
  function Lost(pc: Pc): seq<ObjectRecord> {
    match pc
    case Reverting(_, _, degraded) => degraded
    case Consume(_, _, degraded) => degraded
    case Release(Degraded(failed)) => failed
    case Finished(Degraded(failed)) => failed
    case _ => []
  }

  lemma NextInPlan(r: Run, c: Config)
    requires Valid(r) && Sound(c.pc) && Inv(r, c) && c.pc.Reverting?
    ensures c.pc.plan[0] in FullPlan(r) && c.pc.revert == ForCommand(r.local, JournalOf(r, RollingBack)) && Stored(r, c.world, RollingBack)
    ensures forall a <- c.pc.plan :: a.Restore?
  {
    hide Plan, FullPlan, Inv, Valid, Going;
    RevertingIsGoing(r, c);
    InThePlan(r, c.world, c.pc.plan, c.pc.degraded);
    assert c.pc.plan[0] in c.pc.plan;
    GoingIsStored(r, c.world, c.pc.plan, c.pc.degraded);
  }

  lemma GoingIsStored(r: Run, w: World, plan: seq<Attempt>, failed: seq<ObjectRecord>)
    requires Going(r, w, plan, failed)
    ensures Stored(r, w, RollingBack)
  {
    hide FullPlan, Stored, Partly, Tried;
  }

  lemma LossIsForgivable(r: Run, c: Config)
    requires Valid(r) && Sound(c.pc) && Inv(r, c) && c.pc.Reverting? && c.pc.plan[0].tolerant
    ensures Forgivable(r.steps, c.pc.plan[0].record)
  {
    NextInPlan(r, c);
    PlanIs(r.registered, r.steps, c.pc.plan[0]);
    hide Plan, Inv, IsReverted;
  }

  lemma LostAfterResume(v: Revert, plan: seq<Attempt>, degraded: seq<ObjectRecord>)
    requires v.ForCommand?
    ensures Lost(Resume(v, plan, degraded)) == degraded || Lost(Resume(v, plan, degraded)) == []
    ensures Lost(RevertFailed(v, false)) == [] && Lost(RevertFailed(v, true)) == []
  {
  }

  lemma LostNext(r: Run, c: Config, o: Outcome)
    requires Valid(r) && Sound(c.pc) && Inv(r, c) && AllForgivable(r.steps, Lost(c.pc))
    ensures AllForgivable(r.steps, Lost(Next(r.registered, c.pc, c.world, o).pc))
  {
    if c.pc.Reverting? {
      var v, plan, degraded := c.pc.revert, c.pc.plan, c.pc.degraded;
      NextInPlan(r, c);
      LostAfterResume(v, plan[1..], degraded);
      LostAfterResume(v, plan[1..], degraded + [plan[0].record]);
      if plan[0].tolerant { LossIsForgivable(r, c); }
      hide Inv, Valid, Forgivable, Resume, RevertFailed, Put;
    } else {
      QuietLoss(r, c, o);
    }
  }

  lemma QuietLoss(r: Run, c: Config, o: Outcome)
    requires Sound(c.pc) && Inv(r, c) && !c.pc.Reverting?
    ensures var d := Next(r.registered, c.pc, c.world, o).pc; Lost(d) == Lost(c.pc) || Lost(d) == []
  {
    if c.pc.Claim? || c.pc.Writing? || c.pc.Renaming? {
      ClaimingLoss(r, c, o);
    } else {
      hide Plan, Resumable, Going, Ended, Loaded, PreflightPasses, OnClaim, OnWriting, OnRenaming, OnReverting;
    }
  }

  lemma ClaimingLoss(r: Run, c: Config, o: Outcome)
    requires Sound(c.pc) && Inv(r, c) && (c.pc.Claim? || c.pc.Writing? || c.pc.Renaming?)
    ensures Lost(Next(r.registered, c.pc, c.world, o).pc) == []
  {
    hide Plan, Resume, Resumable, Stored, Partly, SameHost, Going, Ended;
    LostAfterResume(ForCommand(r.local, JournalOf(r, RollingBack)), FullPlan(r), []);
  }

  lemma {:induction false} LostAlways(r: Run, c: Config, s: Script)
    requires Valid(r) && Sound(c.pc) && Inv(r, c) && AllForgivable(r.steps, Lost(c.pc))
    ensures AllForgivable(r.steps, Lost(Exec(r.registered, c, s).pc))
    decreases |s|
  {
    hide Inv, Valid, Next, AllForgivable, Lost;
    if s != [] && !c.pc.Finished? {
      InvNext(r, c, s[0]);
      LostNext(r, c, s[0]);
      NextIsSound(r.registered, c.pc, c.world, s[0]);
      LostAlways(r, Next(r.registered, c.pc, c.world, s[0]), s[1..]);
    }
  }

  /** Every object a rollback gives up on, at any point and in its final report, is of a best-effort or irreversible step. */
  lemma DegradedIsForgivable(r: Run, force: bool, w: World, s: Script)
    requires Valid(r) && Resumable(r, w)
    ensures AllForgivable(r.steps, Lost(OneAttempt(r, force, w, s).pc))
  {
    var c := Config(Acquire(Command(r, force)), w.(locked := false));
    SameStores(r, w, c.world, Success);
    SameStores(r, w, c.world, RollingBack);
    hide Stored, Partly, SameHost, Valid, FullPlan, Exec, Forgivable;
    LostAlways(r, c, s);
  }

  predicate IsStuck(pc: Pc) { pc == Release(Stuck) || pc == Finished(Stuck) }

  lemma {:induction false} StuckStays(registered: set<string>, c: Config, s: Script)
    requires IsStuck(c.pc)
    ensures var d := Exec(registered, c, s);
      IsStuck(d.pc) && d.world.last == c.world.last && d.world.remote == c.world.remote && d.world.host == c.world.host
    decreases |s|
  {
    if s != [] && !c.pc.Finished? { StuckStays(registered, Next(registered, c.pc, c.world, s[0]), s[1..]); }
  }

  lemma ReachesInv(r: Run, force: bool, w: World, s: Script)
    requires Valid(r) && Resumable(r, w)
    ensures Inv(r, OneAttempt(r, force, w, s))
  {
    AttemptKeeps(r, force, w, s);
  }

  lemma StrictFails(r: Run, c: Config, o: Outcome, i: nat)
    requires Valid(r) && Sound(c.pc) && Inv(r, c) && c.pc.Reverting? && !o.ok
    requires i < |r.steps| && c.pc.plan[0].record in r.steps[i].before && !Forgiving(r.steps[i].mode)
    ensures var d := Next(r.registered, c.pc, c.world, o);
      d.pc == Release(Stuck) && d.world.last == c.world.last && d.world.remote == c.world.remote && Stored(r, c.world, RollingBack)
  {
    NextInPlan(r, c);
    ToleranceIsOfItsStep(r.registered, r.steps, c.pc.plan[0], i);
    hide Inv, Plan, Separate, AllRegistered, Stored, Put;
  }

  /** The reported failure of a restore whose step is neither best-effort nor irreversible ends the command as stuck, whatever
      comes after it, and the journal is still there, marked as being rolled back. */
  lemma StrictFailureStops(r: Run, force: bool, w: World, s: Script, o: Outcome, t: Script, i: nat)
    requires Valid(r) && Resumable(r, w) && OneAttempt(r, force, w, s).pc.Reverting? && !o.ok
    requires i < |r.steps| && OneAttempt(r, force, w, s).pc.plan[0].record in r.steps[i].before && !Forgiving(r.steps[i].mode)
    ensures var d := OneAttempt(r, force, w, s + ([o] + t));
      && (d.pc == Release(Stuck) || d.pc == Finished(Stuck))
      && Loaded(d.world, r.profile, r.local) == Some(Journal(r.profile, r.runId, RollingBack, r.steps))
  {
    var start := Config(Acquire(Command(r, force)), w.(locked := false));
    var c := Exec(r.registered, start, s);
    ReachesInv(r, force, w, s);
    ExecConcat(r.registered, start, s, [o] + t);
    OneAction(r.registered, c.pc, c.world, o, t);
    StrictFails(r, c, o, i);
    hide Inv, Valid, Exec, Next, Resumable, Loaded;
    var d := Next(r.registered, c.pc, c.world, o);
    StuckStays(r.registered, d, t);
    SameStores(r, c.world, Exec(r.registered, d, t).world, RollingBack);
  }

  /** The failure of a restore of a best-effort or irreversible step never ends the rollback: the object is reported, and the
      next one is restored, or the journal consumed if it was the last. */
  lemma ForgivenFailureGoesOn(r: Run, force: bool, w: World, s: Script, o: Outcome, i: nat)
    requires Valid(r) && Resumable(r, w) && OneAttempt(r, force, w, s).pc.Reverting? && !o.ok
    requires i < |r.steps| && OneAttempt(r, force, w, s).pc.plan[0].record in r.steps[i].before && Forgiving(r.steps[i].mode)
    ensures var c, d := OneAttempt(r, force, w, s), OneAttempt(r, force, w, s + [o]);
      var lost := c.pc.degraded + [c.pc.plan[0].record];
      d.pc == if c.pc.plan[1..] == [] then Consume(r.local, JournalOf(r, RollingBack), lost) else Reverting(c.pc.revert, c.pc.plan[1..], lost)
  {
    var start := Config(Acquire(Command(r, force)), w.(locked := false));
    var c := Exec(r.registered, start, s);
    ReachesInv(r, force, w, s);
    ExecSnoc(r.registered, start, s, o);
    NextInPlan(r, c);
    ToleranceIsOfItsStep(r.registered, r.steps, c.pc.plan[0], i);
    hide Inv, Plan, Separate, AllRegistered, Stored, Put, Exec, Resumable;
    assert forall a <- c.pc.plan[1..] :: a in c.pc.plan;
    assert c.pc.plan[1..] != [] ==> c.pc.plan[1..][0] in c.pc.plan[1..];
  }

  /** In an apply's own rollback a failure is met the same way: a strict one makes the run end as not reverted. */
  lemma OwnFailureIs(registered: set<string>, c: Config, o: Outcome, steps: seq<StepRecord>, i: nat)
    requires Sound(c.pc) && c.pc.Reverting? && !c.pc.revert.ForCommand? && steps == StepsOf(c.pc.revert) && !o.ok
    requires Separate(steps) && AllRegistered(registered, steps) && (forall a <- c.pc.plan :: a in Plan(registered, steps))
    requires i < |steps| && c.pc.plan[0].record in steps[i].before
    ensures var d := Next(registered, c.pc, c.world, o).pc;
      d == if !Forgiving(steps[i].mode) || c.pc.plan[1..] == [] then Failing(c.pc.revert.job, false)
           else Reverting(c.pc.revert, c.pc.plan[1..], c.pc.degraded + [c.pc.plan[0].record])
  {
    ToleranceIsOfItsStep(registered, steps, c.pc.plan[0], i);
    PlanIsRestores(registered, steps);
    hide Plan, Separate, AllRegistered, Put;
    assert forall a <- c.pc.plan[1..] :: a in c.pc.plan;
    assert c.pc.plan[1..] != [] ==> c.pc.plan[1..][0] in c.pc.plan[1..];
  }
}
