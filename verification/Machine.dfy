// The commands as they run: one client updating the host, its journal files and the lock in place.
module Machine {
  import opened Wrappers
  import opened Text
  import opened Sorting
  import opened Records
  import opened Journals
  import opened Protocol
  import opened RunNames

  /** How a call ends: the process stopped inside it, or it returned without or with an error. */
  datatype Reply = Stopped | Fine | Error

  class Client {
    const registered: set<string>
    var host: Host
    var last: map<string, FileText>
    var tmp: map<string, FileText>
    var remote: map<RunKey, Journal>
    var locked: bool

    /** The journal the command works on, and which steps changed something. */
    var journal: Journal
    var changes: map<string, bool>

    /** What the environment will answer. */
    var script: Script

    constructor (registered: set<string>, w: World, script: Script)
      ensures this.registered == registered && Shared() == w && this.script == script
    {
      this.registered := registered;
      host, last, tmp, remote, locked := w.host, w.last, w.tmp, w.remote, w.locked;
      journal, changes := Journal("", "", InProgress, []), map[];
      this.script := script;
    }

    ghost function Shared(): World
      reads this
    {
      World(host, last, tmp, remote, locked)
    }

    /** Where the state machine ends from this point of the program and the present state. */
    ghost function From(pc: Pc): Config
      requires Sound(pc)
      reads this
    {
      Exec(registered, Config(pc, Shared()), script)
    }

    ghost function JobNow(todo: seq<StepPlan>, keepLocal: bool): Job
      reads this
    {
      Job(todo, journal, keepLocal, changes)
    }

    /** The environment's answer to the next action. */
    method Take() returns (stopped: bool, o: Outcome)
      modifies this`script
      ensures stopped <==> old(script) == []
      ensures stopped ==> script == []
      ensures !stopped ==> old(script) == [o] + script
    {
      stopped := script == [];
      o := Outcome(false, false, false, {}, [], map[], OtherMode, [], None);
      if !stopped { o, script := script[0], script[1..]; }
    }

    // ------------------------------------------------------------------------ the lock

    method AcquireMutationLock(ghost request: Request) returns (r: Reply)
      modifies this`locked, this`script
      ensures var at := if r.Stopped? then Acquire(request) else if r.Fine? then Started(request) else Finished(NotLocked);
        From(at) == old(From(Acquire(request)))
      ensures r.Stopped? ==> script == []
      ensures r.Fine? ==> !old(locked) && locked
    {
      var stopped, o := Take();
      if stopped { return Stopped; }
      OneAction(registered, Acquire(request), Shared(), o, script);
      var free := !locked;
      if Landed(o) { locked := true; }
      r := if o.ok && free then Fine else Error;
    }

    method ReleaseMutationLock(ghost result: Ending) returns (r: Reply)
      modifies this`locked, this`script
      ensures From(if r.Stopped? then Release(result) else Finished(result)) == old(From(Release(result)))
      ensures r.Stopped? ==> script == []
    {
      var stopped, o := Take();
      if stopped { return Stopped; }
      OneAction(registered, Release(result), Shared(), o, script);
      if Landed(o) { locked := false; }
      r := if o.ok then Fine else Error;
    }

    // ---------------------------------------------------------------- the journal files

    /** Writes the temporary file, then renames it. */
    method SaveLast(ghost saving: Saving) returns (r: Reply, ghost at: Pc)
      requires SoundSaving(saving)
      modifies this`last, this`tmp, this`script
      ensures Sound(at) && From(at) == old(From(Writing(journal, saving)))
      ensures if r.Stopped? then script == [] else at == Saved(registered, saving, r.Fine?)
      ensures old(script) == [] ==> r.Stopped? && Shared() == old(Shared())
    {
      hide Saved, Plan, Exec, Next;
      at := Writing(journal, saving);
      var stopped, o := Take();
      if stopped { return Stopped, at; }
      SavingIs(registered, journal, saving, Shared(), o);
      OneAction(registered, at, Shared(), o, script);
      at := Next(registered, at, Shared(), o).pc;
      if Landed(o) {
        tmp := tmp[journal.profile := Whole(journal)];
      } else if o.torn {
        tmp := tmp[journal.profile := Torn];
      }
      assert From(at) == old(From(Writing(journal, saving)));
      if !o.ok { return Error, at; }
      assert at == Renaming(journal, saving);
      label written:
      stopped, o := Take();
      if stopped { return Stopped, at; }
      SavingIs(registered, journal, saving, Shared(), o);
      OneAction(registered, at, Shared(), o, script);
      at := Next(registered, at, Shared(), o).pc;
      if Landed(o) && journal.profile in tmp {
        last := last[journal.profile := tmp[journal.profile]];
        tmp := tmp - {journal.profile};
      }
      assert From(at) == old@written(From(Renaming(journal, saving)));
      r := if o.ok then Fine else Error;
    }

    method LoadRollbackJournal(profile: string, local: bool, ghost force: bool) returns (r: Reply, ghost at: Pc)
      requires AllRunIds(remote)
      modifies this`journal, this`script
      ensures Sound(at) && From(at) == old(From(Load(profile, local, force)))
      ensures r.Stopped? ==> script == []
      ensures r.Fine? ==> at == if journal.status == Success then Preflight(ForCommand(local, journal), force, false)
                                else if journal.status == RollingBack then Preflight(ForCommand(local, journal), force, true)
                                else Release(Refused)
      ensures r.Error? ==> at == Release(Refused)
    {
      at := Load(profile, local, force);
      var stopped, o := Take();
      if stopped { return Stopped, at; }
      OneAction(registered, at, Shared(), o, script);
      at := Next(registered, at, Shared(), o).pc;
      if !o.ok { return Error, at; }
      if local {
        if profile !in last || last[profile].Torn? { return Error, at; }
        journal := last[profile].journal;
      } else {
        var found := LoadRemoteLast(profile);
        if found.None? { return Error, at; }
        journal := found.value;
      }
      r := Fine;
    }

    /** Lists the profile's directory and reads the journal of the greatest name. */
    method LoadRemoteLast(profile: string) returns (found: Option<Journal>)
      requires AllRunIds(remote)
      ensures found == Loaded(Shared(), profile, false)
    {
      var lines := List(profile);
      var filename := LatestFile(lines);
      if filename == "" {
        NothingListed(remote, profile, lines);
        return None;
      }
      var id := filename[..|filename| - 5];
      GreatestListed(remote, profile, lines, filename);
      var journal := remote[RunKey(profile, id)];
      if FileName(journal.runId) != filename {
        return None;
      }
      assert FileName(journal.runId)[..|filename| - 5] == journal.runId;
      return Some(journal);
    }

    /** The profile's journal files in some order. */
    method List(profile: string) returns (lines: seq<string>)
      ensures ListsRuns(remote, profile, lines)
    {
      lines := [];
      var left := remote.Keys;
      while left != {}
        invariant left <= remote.Keys
        invariant forall k :: k in remote && k.profile == profile && k !in left ==> FileName(k.runId) in lines
        invariant forall line <- lines :: exists k :: k in remote && k.profile == profile && FileName(k.runId) == line
        decreases |left|
      {
        var k :| k in left;
        left := left - {k};
        if k.profile == profile { lines := lines + [FileName(k.runId)]; }
      }
    }

    /** Every check of every step, before anything is changed. */
    method CheckPreflight(steps: seq<StepRecord>, force: bool, resuming: bool, automatic: bool, ghost revert: Revert)
      returns (r: Reply, ghost at: Pc)
      requires steps == StepsOf(revert) && automatic == !revert.ForCommand?
      modifies this`script
      ensures Sound(at) && From(at) == old(From(Preflight(revert, force, resuming)))
      ensures r.Stopped? ==> script == []
      ensures r.Fine? ==> at == if revert.ForCommand? then Claim(revert.local, revert.journal)
                                else Resume(revert, Plan(registered, steps), [])
      ensures r.Error? ==> at == RevertFailed(revert, true)
    {
      hide Plan, PreflightPasses, Resume;
      at := Preflight(revert, force, resuming);
      var stopped, o := Take();
      if stopped { return Stopped, at; }
      OneAction(registered, at, Shared(), o, script);
      at := Next(registered, at, Shared(), o).pc;
      var passes := PreflightRollbackConflicts(View(host, o.blind), registered, steps, force, resuming);
      // Only an automatic rollback checks for root access here; the command has done so before the lock.
      r := if passes && (!automatic || o.ok) then Fine else Error;
    }

    // -------------------------------------------------------------------------- restores

    /** A plugin's restore of one object. */
    method RollbackObject(record: ObjectRecord, ghost revert: Revert, ghost tolerant: bool, ghost step: string,
                          ghost rest: seq<Attempt>, ghost failed: seq<ObjectRecord>) returns (r: Reply, ghost at: Pc)
      modifies this`host, this`script
      ensures Sound(at) && From(at) == old(From(Resume(revert, [Restore(record, tolerant, step)] + rest, failed)))
      ensures r.Stopped? ==> script == []
      ensures r.Fine? ==> at == Resume(revert, rest, failed)
      ensures r.Error? ==> at == if tolerant then Resume(revert, rest, failed + [record]) else RevertFailed(revert, false)
    {
      ghost var plan := [Restore(record, tolerant, step)] + rest;
      assert plan[1..] == rest;
      at := Resume(revert, plan, failed);
      assert at == Pc.Reverting(revert, plan, failed);
      hide Resume, Put;
      var stopped, o := Take();
      if stopped { return Stopped, at; }
      OneAction(registered, at, Shared(), o, script);
      at := Next(registered, at, Shared(), o).pc;
      if Landed(o) { host := Put(host, record); }
      r := if o.ok then Fine else Error;
    }

    /** Restores one step's objects, last first. */
    method RollbackStepWithMode(step: StepRecord, ghost revert: Revert, ghost rest: seq<Attempt>, ghost failed: seq<ObjectRecord>)
      returns (r: Reply, degraded: seq<ObjectRecord>, ghost at: Pc)
      modifies this`host, this`script
      ensures Sound(at) && From(at) == old(From(Resume(revert, Attempts(registered, step) + rest, failed)))
      ensures r.Stopped? ==> script == []
      ensures r.Fine? ==> at == Resume(revert, rest, failed + degraded)
      ensures r.Error? ==> at == RevertFailed(revert, false)
    {
      hide Resume, Next, Restores, Exec, Tolerates, Attempts, Sound;
      degraded := [];
      at := Resume(revert, Attempts(registered, step) + rest, failed);
      ResumeIsSound(revert, Attempts(registered, step) + rest, failed);
      StepAttempts(registered, step, revert, rest, failed);
      assert failed + degraded == failed;
      if step.mode == Noop { return Fine, degraded, at; }
      if step.typ !in registered { return Error, degraded, at; }
      var i := |step.before|;
      assert step.before[..i] == step.before;
      while i > 0
        invariant 0 <= i <= |step.before|
        invariant at == Resume(revert, Restores(step.before[..i], Tolerates(step.mode), step.id) + rest, failed + degraded)
        invariant Sound(at) && From(at) == old(From(Resume(revert, Attempts(registered, step) + rest, failed)))
      {
        i := i - 1;
        var obj := step.before[i];
        ghost var before := Restores(step.before[..i], Tolerates(step.mode), step.id) + rest;
        RestoresSnoc(step.before, i, Tolerates(step.mode), step.id, rest);
        if obj.kind == Policy { continue; }
        var reply: Reply;
        reply, at := RollbackObject(obj, revert, Tolerates(step.mode), step.id, before, failed + degraded);
        if reply.Stopped? { return Stopped, degraded, at; }
        if reply.Fine? { continue; }
        if !Tolerates(step.mode) { return Error, degraded, at; }
        assert failed + degraded + [obj] == failed + (degraded + [obj]);
        degraded := degraded + [obj];
      }
      NothingLeftToRestore(step.before, Tolerates(step.mode), step.id, rest);
      r := Fine;
    }

    /** Reverts the applying steps last first, those with service objects after all others. */
    method ExecuteRollbackSteps(steps: seq<StepRecord>, ghost revert: Revert)
      returns (r: Reply, degraded: seq<ObjectRecord>, ghost at: Pc)
      modifies this`host, this`script
      ensures Sound(at) && From(at) == old(From(Resume(revert, Plan(registered, steps), [])))
      ensures r.Stopped? ==> script == []
      ensures r.Fine? ==> at == RevertDone(revert, degraded)
      ensures r.Error? ==> at == RevertFailed(revert, false)
    {
      var deferred: seq<StepRecord> := [];
      degraded := [];
      at := Resume(revert, Plan(registered, steps), []);
      ResumeIsSound(revert, Plan(registered, steps), []);
      var i := |steps|;
      assert steps[..i] == steps && [] + Backwards(steps, steps, true) == Backwards(steps, steps, true);
      hide Resume, Applies, HasService, Attempts, AttemptsOf, Backwards, Exec;
      while i > 0
        invariant 0 <= i <= |steps|
        invariant at == Resume(revert, Remaining(registered, steps, i, deferred), degraded)
        invariant Sound(at) && From(at) == old(From(Resume(revert, Plan(registered, steps), [])))
      {
        i := i - 1;
        var step := steps[i];
        RemainingStep(registered, steps, i, deferred);
        var applies := RollbackStepApplies(step, steps);
        if !applies { continue; }
        var service := StepHasServiceObjects(step);
        if service {
          deferred := deferred + [step];
          continue;
        }
        var reply: Reply, lost: seq<ObjectRecord>;
        reply, lost, at := RollbackStepWithMode(step, revert, Remaining(registered, steps, i, deferred), degraded);
        degraded := degraded + lost;
        if !reply.Fine? { return reply, degraded, at; }
      }
      OnlyDeferred(registered, steps, deferred);
      i := 0;
      while i < |deferred|
        invariant 0 <= i <= |deferred|
        invariant at == Resume(revert, AttemptsOf(registered, deferred[i..]), degraded)
        invariant Sound(at) && From(at) == old(From(Resume(revert, Plan(registered, steps), [])))
      {
        DeferredStep(registered, deferred, i);
        var reply: Reply, lost: seq<ObjectRecord>;
        reply, lost, at := RollbackStepWithMode(deferred[i], revert, AttemptsOf(registered, deferred[i + 1..]), degraded);
        degraded := degraded + lost;
        if !reply.Fine? { return reply, degraded, at; }
        i := i + 1;
      }
      NothingDeferred(registered, revert, deferred, degraded);
      r := Fine;
    }

    // ---------------------------------------------------------------- the rollback command

    /** Marks the stored journal so that an interrupted rollback is resumed. */
    method ClaimJournal(local: bool) returns (r: Reply, ghost at: Pc)
      modifies this`journal, this`last, this`tmp, this`remote, this`script
      ensures Sound(at) && From(at) == old(From(Claim(local, journal)))
      ensures r.Stopped? ==> script == []
      ensures r.Fine? ==> journal == old(journal).(status := RollingBack)
                          && at == Resume(ForCommand(local, journal), Plan(registered, journal.steps), [])
      ensures r.Error? ==> journal == old(journal) && at == Release(Refused)
    {
      hide Resume, Plan;
      var restore := journal.status;
      at := Claim(local, journal);
      journal := journal.(status := RollingBack);
      if local {
        ClaimIsSave(registered, at, Shared(), script);
        ghost var idle := script == [];
        r, at := SaveLast(ClaimSave(journal));
        if idle { at := Claim(local, old(journal)); }
        assert From(at) == old(From(Claim(local, journal)));
      } else {
        r, at := SaveRemoteLast(at);
      }
      if r.Error? { journal := journal.(status := restore); }
    }

    /** Writes the journal to the target; the write is one atomic action. */
    method SaveRemoteLast(ghost from: Pc) returns (r: Reply, ghost at: Pc)
      requires (from.Claim? && !from.local && journal == from.journal.(status := RollingBack))
               || (from.Publishing? && journal == from.job.journal.(status := Success))
      modifies this`remote, this`script
      ensures Sound(at) && From(at) == old(From(from))
      ensures if r.Stopped? then script == []
              else at == if from.Claim? then (if r.Fine? then Resume(ForCommand(false, journal), Plan(registered, journal.steps), [])
                                              else Release(Refused))
                         else if r.Fine? then (if from.job.keepLocal then Writing(journal, KeepSave) else Dropping(from.job))
                         else Writing(journal, FallbackSave)
    {
      hide Resume, Plan, Exec;
      at := from;
      var stopped, o := Take();
      if stopped { return Stopped, at; }
      OneAction(registered, at, Shared(), o, script);
      at := Next(registered, at, Shared(), o).pc;
      if Landed(o) { remote := remote[RemoteKey(journal) := journal]; }
      r := if o.ok then Fine else Error;
    }

    method ConsumeJournal(local: bool, degraded: seq<ObjectRecord>) returns (r: Reply, ghost at: Pc)
      modifies this`last, this`remote, this`script
      ensures Sound(at) && From(at) == old(From(Consume(local, journal, degraded)))
      ensures r.Stopped? ==> script == []
      ensures r.Fine? ==> at == Release(if degraded == [] then RolledBack else Degraded(degraded))
      ensures r.Error? ==> at == Release(NotConsumed)
    {
      at := Consume(local, journal, degraded);
      var stopped, o := Take();
      if stopped { return Stopped, at; }
      OneAction(registered, at, Shared(), o, script);
      at := Next(registered, at, Shared(), o).pc;
      if Landed(o) {
        if local { last := last - {journal.profile}; } else { remote := remote - {RemoteKey(journal)}; }
      }
      r := if o.ok then Fine else Error;
    }

    /** Everything the command does while it holds the lock. */
    method RollbackLocked(profile: string, local: bool, force: bool) returns (stopped: bool, result: Ending, ghost at: Pc)
      requires AllRunIds(remote)
      modifies this`host, this`last, this`tmp, this`remote, this`journal, this`script
      ensures Sound(at) && From(at) == old(From(Load(profile, local, force)))
      ensures if stopped then script == [] else at == Release(result)
    {
      hide Resume, Plan, Next, Exec;
      var r: Reply;
      result := Refused;
      r, at := LoadRollbackJournal(profile, local, force);
      if !r.Fine? { return r.Stopped?, Refused, at; }
      if journal.status != Success && journal.status != RollingBack { return false, Refused, at; }
      r, at := CheckPreflight(journal.steps, force, journal.status == RollingBack, false, ForCommand(local, journal));
      if !r.Fine? { return r.Stopped?, Refused, at; }
      r, at := ClaimJournal(local);
      if !r.Fine? { return r.Stopped?, Refused, at; }
      var degraded;
      r, degraded, at := ExecuteRollbackSteps(journal.steps, ForCommand(local, journal));
      if !r.Fine? { return r.Stopped?, Stuck, at; }
      r, at := ConsumeJournal(local, degraded);
      if !r.Fine? { return r.Stopped?, NotConsumed, at; }
      return false, if degraded == [] then RolledBack else Degraded(degraded), at;
    }

    method RollbackCommand(profile: string, local: bool, force: bool) returns (stopped: bool, result: Ending, ghost at: Pc)
      requires AllRunIds(remote)
      modifies this
      ensures AllRunIds(remote)
      ensures Exec(registered, Config(Acquire(RollbackRequest(profile, local, force)), old(Shared())), old(script)) == Config(at, Shared())
      ensures stopped || at == Finished(result)
    {
      hide Next, AllRunIds;
      NamesStay(registered, RollbackRequest(profile, local, force), Shared(), script);
      var r := AcquireMutationLock(RollbackRequest(profile, local, force));
      at := if r.Stopped? then Acquire(RollbackRequest(profile, local, force)) else Finished(NotLocked);
      if !r.Fine? { return r.Stopped?, NotLocked, at; }
      stopped, result, at := RollbackLocked(profile, local, force);
      if stopped { return; }
      r := ReleaseMutationLock(result);
      at := if r.Stopped? then Release(result) else Finished(result);
      stopped := r.Stopped?;
    }

    // -------------------------------------------------------------------- the apply command

    /** The automatic rollback of a run that failed or was cancelled. */
    method RollbackSteps(steps: seq<StepRecord>, ghost revert: Revert) returns (r: Reply, ghost at: Pc)
      requires !revert.ForCommand? && steps == StepsOf(revert)
      modifies this`host, this`script
      ensures Sound(at) && From(at) == old(From(Preflight(revert, false, false)))
      ensures if r.Stopped? then script == [] else at == Failing(revert.job, r.Fine?)
    {
      hide Resume, Plan, Next, Exec;
      r, at := CheckPreflight(steps, false, false, true, revert);
      if !r.Fine? { return; }
      var degraded;
      r, degraded, at := ExecuteRollbackSteps(steps, revert);
      if r.Fine? && degraded != [] { r := Error; }
    }

    /** Between steps: a cancelled run saves its journal and reverts what it has done. */
    method AbortIfCancelled(ghost todo: seq<StepPlan>, ghost keepLocal: bool, ghost before: bool)
      returns (r: Reply, ghost at: Pc, reverted: bool)
      requires before ==> todo != []
      modifies this`host, this`last, this`tmp, this`journal, this`script
      ensures Sound(at) && From(at) == old(From(Polling(JobNow(todo, keepLocal), before)))
      ensures r.Stopped? ==> script == []
      ensures r.Fine? ==> journal == old(journal)
                          && at == if before then CapturingBefore(JobNow(todo, keepLocal)) else NextStep(JobNow(todo, keepLocal))
      ensures r.Error? ==> at == Failing(JobNow(todo, keepLocal), reverted)
    {
      hide Next, Exec, Plan, PreflightPasses, Differ, Captured, AllRunIds;
      ghost var job := JobNow(todo, keepLocal);
      at := Polling(job, before);
      reverted := true;
      var stopped, o := Take();
      if stopped { return Stopped, at, reverted; }
      PollingIs(registered, job, before, Shared(), o);
      OneAction(registered, at, Shared(), o, script);
      at := Next(registered, at, Shared(), o).pc;
      assert From(at) == old(From(Polling(JobNow(todo, keepLocal), before)));
      if o.ok { return Fine, at, reverted; }
      journal := journal.(status := Interrupted);
      r, at := SaveLast(InterruptedSave(job));
      if r.Stopped? { return; }
      if |journal.steps| > 0 {
        r, at := RollbackSteps(journal.steps, ForCancel(job));
        if r.Stopped? { return; }
        reverted := r.Fine?;
      }
      r := Error;
    }

    /** Captures the step's objects and makes them durable before anything is changed. */
    method RecordBefore(step: StepPlan, ghost todo: seq<StepPlan>, ghost keepLocal: bool)
      returns (r: Reply, before: seq<ObjectRecord>, ghost at: Pc)
      requires todo != [] && todo[0] == step
      modifies this`last, this`tmp, this`journal, this`script
      ensures Sound(at) && From(at) == old(From(CapturingBefore(JobNow(todo, keepLocal))))
      ensures r.Stopped? ==> script == []
      ensures r.Fine? ==> at == ApplyingStep(JobNow(todo, keepLocal)) && journal.steps != []
                          && journal.steps[|journal.steps| - 1].before == before
      ensures r.Error? ==> at == StepFailed(JobNow(todo, keepLocal))
    {
      hide Captured, Plan, Next, Exec, OnCapturingBefore;
      before := [];
      at := CapturingBefore(JobNow(todo, keepLocal));
      var stopped, o := Take();
      if stopped { return Stopped, before, at; }
      CapturingIs(registered, JobNow(todo, keepLocal), Shared(), o);
      CapturedBeforeIs(JobNow(todo, keepLocal), Shared(), o);
      OneAction(registered, at, Shared(), o, script);
      at := Next(registered, at, Shared(), o).pc;
      assert From(at) == old(From(CapturingBefore(JobNow(todo, keepLocal))));
      if !o.ok { return Error, before, at; }
      before := Captured(host, step.keys, o);
      journal := journal.(steps := journal.steps + [StepRecord(step.id, step.typ, o.mode, before, [], o.reload)]);
      assert at == Writing(journal, BeforeSave(JobNow(todo, keepLocal)));
      r, at := SaveLast(BeforeSave(JobNow(todo, keepLocal)));
    }

    /** The plugin changes its objects. */
    method RunStep(step: StepPlan, ghost todo: seq<StepPlan>, ghost keepLocal: bool) returns (r: Reply, ghost at: Pc)
      requires todo != [] && todo[0] == step && journal.steps != []
      modifies this`host, this`script
      ensures Sound(at) && From(at) == old(From(ApplyingStep(JobNow(todo, keepLocal))))
      ensures r.Stopped? ==> script == []
      ensures r.Fine? ==> at == CapturingAfter(JobNow(todo, keepLocal))
      ensures r.Error? ==> at == StepFailed(JobNow(todo, keepLocal))
    {
      hide Effect, Plan;
      at := ApplyingStep(JobNow(todo, keepLocal));
      var stopped, o := Take();
      if stopped { return Stopped, at; }
      OneAction(registered, at, Shared(), o, script);
      at := Next(registered, at, Shared(), o).pc;
      host := Effect(host, step.keys, o.values);
      r := if o.ok then Fine else Error;
    }

    /** Captures the objects again, notes whether they differ and completes the step's record. */
    method CompleteRecord(step: StepPlan, before: seq<ObjectRecord>, ghost todo: seq<StepPlan>, ghost keepLocal: bool)
      returns (r: Reply, ghost at: Pc)
      requires todo != [] && todo[0] == step && journal.steps != []
      requires journal.steps[|journal.steps| - 1].before == before
      modifies this`journal, this`changes, this`script
      ensures Sound(at) && From(at) == old(From(CapturingAfter(JobNow(todo, keepLocal))))
      ensures r.Stopped? ==> script == []
      ensures r.Fine? ==> at == Writing(journal, AfterSave(JobNow(todo[1..], keepLocal)))
      ensures r.Error? ==> at == StepFailed(JobNow(todo, keepLocal))
    {
      hide Captured, Plan, Differ, Next, Exec;
      at := CapturingAfter(JobNow(todo, keepLocal));
      var stopped, o := Take();
      if stopped { return Stopped, at; }
      CapturingIs(registered, JobNow(todo, keepLocal), Shared(), o);
      OneAction(registered, at, Shared(), o, script);
      at := Next(registered, at, Shared(), o).pc;
      if !o.ok { return Error, at; }
      var after := Captured(host, step.keys, o);
      var n := |journal.steps| - 1;
      var differ := CapturesDiffer(before, after);
      changes := changes[journal.steps[n].id := differ];
      journal := journal.(steps := journal.steps[n := journal.steps[n].(after := after)]);
      r := Fine;
    }

    method RecordAfter(step: StepPlan, before: seq<ObjectRecord>, ghost todo: seq<StepPlan>, ghost keepLocal: bool)
      returns (r: Reply, ghost at: Pc, ghost left: seq<StepPlan>)
      requires todo != [] && todo[0] == step && journal.steps != []
      requires journal.steps[|journal.steps| - 1].before == before
      modifies this`last, this`tmp, this`journal, this`changes, this`script
      ensures Sound(at) && From(at) == old(From(CapturingAfter(JobNow(todo, keepLocal))))
      ensures r.Stopped? ==> script == []
      ensures r.Fine? ==> at == Polling(JobNow(todo[1..], keepLocal), false)
      ensures r.Error? ==> at == StepFailed(JobNow(left, keepLocal))
    {
      hide Next, Exec, StepFailed;
      left := todo;
      r, at := CompleteRecord(step, before, todo, keepLocal);
      if !r.Fine? { return; }
      left := todo[1..];
      r, at := SaveLast(AfterSave(JobNow(left, keepLocal)));
    }

    method ExecuteStep(step: StepPlan, ghost todo: seq<StepPlan>, ghost keepLocal: bool)
      returns (r: Reply, ghost at: Pc, ghost left: seq<StepPlan>)
      requires todo != [] && todo[0] == step
      modifies this`host, this`last, this`tmp, this`journal, this`changes, this`script
      ensures Sound(at) && From(at) == old(From(CapturingBefore(JobNow(todo, keepLocal))))
      ensures r.Stopped? ==> script == []
      ensures r.Fine? ==> at == Polling(JobNow(todo[1..], keepLocal), false)
      ensures r.Error? ==> at == StepFailed(JobNow(left, keepLocal))
    {
      hide Exec;
      left := todo;
      var before;
      r, before, at := RecordBefore(step, todo, keepLocal);
      if !r.Fine? { return; }
      r, at := RunStep(step, todo, keepLocal);
      if !r.Fine? { return; }
      r, at, left := RecordAfter(step, before, todo, keepLocal);
    }

    /** One step of the profile with the cancellation checks around it; a failed step is rolled back with all before it. */
    method ApplyStep(step: StepPlan, ghost todo: seq<StepPlan>, ghost keepLocal: bool)
      returns (r: Reply, ghost at: Pc, ghost left: seq<StepPlan>, reverted: bool)
      requires todo != [] && todo[0] == step
      modifies this`host, this`last, this`tmp, this`journal, this`changes, this`script
      ensures Sound(at) && From(at) == old(From(NextStep(JobNow(todo, keepLocal))))
      ensures r.Stopped? ==> script == []
      ensures r.Fine? ==> at == NextStep(JobNow(todo[1..], keepLocal))
      ensures r.Error? ==> at == Failing(JobNow(left, keepLocal), reverted)
    {
      hide Exec, Failing, StepFailed;
      left := todo;
      r, at, reverted := AbortIfCancelled(left, keepLocal, true);
      if !r.Fine? { return; }
      r, at, left := ExecuteStep(step, left, keepLocal);
      if r.Stopped? { return; }
      if r.Error? {
        r, at, reverted := RevertFailedStep(left, keepLocal);
        return;
      }
      left := todo[1..];
      r, at, reverted := AbortIfCancelled(left, keepLocal, false);
    }

    method RevertFailedStep(ghost left: seq<StepPlan>, ghost keepLocal: bool) returns (r: Reply, ghost at: Pc, reverted: bool)
      modifies this`host, this`script
      ensures Sound(at) && From(at) == old(From(StepFailed(JobNow(left, keepLocal))))
      ensures !r.Fine? && (r.Stopped? ==> script == [])
      ensures r.Error? ==> at == Failing(JobNow(left, keepLocal), reverted)
    {
      hide Exec, Failing;
      r, at := RollbackSteps(journal.steps, ForFailure(JobNow(left, keepLocal)));
      reverted := r.Fine?;
      if r.Fine? { r := Error; }
    }

    /** Runs the steps in order; a failed or cancelled run is rolled back. */
    method ApplyProfile(steps: seq<StepPlan>, ghost keepLocal: bool)
      returns (r: Reply, ghost at: Pc, ghost left: seq<StepPlan>, reverted: bool)
      modifies this`host, this`last, this`tmp, this`journal, this`changes, this`script
      ensures Sound(at) && From(at) == old(From(NextStep(JobNow(steps, keepLocal))))
      ensures r.Stopped? ==> script == []
      ensures r.Fine? ==> at == Publishing(JobNow([], keepLocal))
      ensures r.Error? ==> at == Failing(JobNow(left, keepLocal), reverted)
    {
      hide Exec, Failing;
      at, left := NextStep(JobNow(steps, keepLocal)), steps;
      reverted := false;
      assert steps[0..] == steps;
      for i := 0 to |steps|
        invariant at == NextStep(JobNow(steps[i..], keepLocal))
        invariant From(at) == old(From(NextStep(JobNow(steps, keepLocal))))
      {
        assert steps[i..][1..] == steps[i + 1..];
        r, at, left, reverted := ApplyStep(steps[i], steps[i..], keepLocal);
        if !r.Fine? { return; }
      }
      assert steps[|steps|..] == [];
      r := Fine;
    }

    /** Removes the runner's journal; a failure only warns. */
    method RemoveLast(ghost job: Job) returns (r: Reply)
      requires job.journal.profile == journal.profile
      modifies this`last, this`script
      ensures From(if r.Stopped? then Dropping(job) else Release(Applied)) == old(From(Dropping(job)))
      ensures r.Stopped? ==> script == []
    {
      var stopped, o := Take();
      if stopped { return Stopped; }
      OneAction(registered, Dropping(job), Shared(), o, script);
      if Landed(o) { last := last - {journal.profile}; }
      r := if o.ok then Fine else Error;
    }

    /** After the steps: the journal moves to the target, or stays on the runner if that fails. */
    method Publish(keepLocal: bool) returns (stopped: bool, result: Ending, ghost at: Pc)
      modifies this`journal, this`last, this`tmp, this`remote, this`script
      ensures Sound(at) && From(at) == old(From(Publishing(JobNow([], keepLocal))))
      ensures if stopped then script == [] else at == Release(result)
    {
      hide Exec, Next;
      ghost var job := JobNow([], keepLocal);
      journal := journal.(status := Success);
      var r: Reply;
      result := Applied;
      r, at := SaveRemoteLast(Publishing(job));
      if r.Stopped? { return true, result, at; }
      if r.Error? {
        r, at := SaveLast(FallbackSave);
        return r.Stopped?, NotPublished(r.Fine?), at;
      }
      if keepLocal {
        r, at := SaveLast(KeepSave);
      } else {
        r := RemoveLast(job);
        at := if r.Stopped? then Dropping(job) else Release(Applied);
      }
      stopped := r.Stopped?;
    }

    /** Everything the command does while it holds the lock. */
    method ApplyLocked(profile: string, now: Stamp, steps: seq<StepPlan>, keepLocal: bool)
      returns (stopped: bool, result: Ending, ghost at: Pc)
      modifies this`host, this`last, this`tmp, this`remote, this`journal, this`changes, this`script
      ensures Sound(at) && From(at) == old(From(Started(ApplyRequest(profile, RunId(now), steps, keepLocal))))
      ensures if stopped then script == [] else at == Release(result)
    {
      hide Exec, Next, Failing;
      result := NotApplied;
      journal, changes := Journal(profile, RunId(now), InProgress, []), map[];
      ghost var job := JobNow(steps, keepLocal);
      var r: Reply;
      r, at := CheckTarget(job);
      if !r.Fine? { return r.Stopped?, result, at; }
      r, at := SaveLast(FirstSave(job));
      if !r.Fine? { return r.Stopped?, result, at; }
      ghost var left: seq<StepPlan>;
      var reverted: bool;
      r, at, left, reverted := ApplyProfile(steps, keepLocal);
      if r.Stopped? { return true, result, at; }
      if r.Error? {
        stopped, at := MarkFailed(JobNow(left, keepLocal), reverted);
        return stopped, ApplyFailed(reverted), at;
      }
      stopped, result, at := Publish(keepLocal);
    }

    /** The host and version checks before anything is written. */
    method CheckTarget(ghost job: Job) returns (r: Reply, ghost at: Pc)
      modifies this`script
      ensures Sound(at) && From(at) == old(From(Checking(job)))
      ensures r.Stopped? ==> script == []
      ensures r.Fine? ==> at == Writing(job.journal, FirstSave(job))
      ensures r.Error? ==> at == Release(NotApplied)
    {
      at := Checking(job);
      var quiet, o := Take();
      if quiet { return Stopped, at; }
      OneAction(registered, at, Shared(), o, script);
      at := Next(registered, at, Shared(), o).pc;
      r := if o.ok then Fine else Error;
    }

    method MarkFailed(ghost job: Job, reverted: bool) returns (stopped: bool, ghost at: Pc)
      requires job.journal == journal
      modifies this`last, this`tmp, this`journal, this`script
      ensures Sound(at) && From(at) == old(From(Failing(job, reverted)))
      ensures if stopped then script == [] else at == Release(ApplyFailed(reverted))
    {
      hide Exec, Next;
      journal := journal.(status := Status.Failed);
      var r: Reply;
      r, at := SaveLast(FailedSave(reverted));
      stopped := r.Stopped?;
    }

    /** The run is named by the time it starts, so the target lists only names of runs. */
    method Apply(profile: string, now: Stamp, steps: seq<StepPlan>, keepLocal: bool)
      returns (stopped: bool, result: Ending, ghost at: Pc)
      modifies this
      ensures Exec(registered, Config(Acquire(ApplyRequest(profile, RunId(now), steps, keepLocal)), old(Shared())), old(script)) == Config(at, Shared())
      ensures stopped || at == Finished(result)
      ensures old(AllRunIds(remote)) ==> AllRunIds(remote)
    {
      hide Next, RunId, IsRunId, AllRunIds;
      RunIdIsOne(now);
      ghost var request := ApplyRequest(profile, RunId(now), steps, keepLocal);
      NamesStay(registered, request, Shared(), script);
      var r := AcquireMutationLock(request);
      at := if r.Stopped? then Acquire(request) else Finished(NotLocked);
      if !r.Fine? { return r.Stopped?, NotLocked, at; }
      stopped, result, at := ApplyLocked(profile, now, steps, keepLocal);
      if stopped { return; }
      r := ReleaseMutationLock(result);
      at := if r.Stopped? then Release(result) else Finished(result);
      stopped := r.Stopped?;
    }
  }

  // ------------------------------------------------------------------ names on the target

  /** Every journal on the target is named like a run. */
  predicate AllRunIds(remote: map<RunKey, Journal>) { forall k <- remote :: IsRunId(k.runId) }

  predicate NamedRequest(q: Request) { q.ApplyRequest? ==> IsRunId(q.runId) }

  predicate NamedJob(job: Job) { IsRunId(job.journal.runId) }

  predicate NamedRevert(v: Revert) {
    match v
    case ForCommand(local, journal) => local || IsRunId(journal.runId)
    case ForFailure(job) => NamedJob(job)
    case ForCancel(job) => NamedJob(job)
  }

  predicate NamedSave(s: Saving) {
    match s
    case FirstSave(job) => NamedJob(job)
    case BeforeSave(job) => NamedJob(job)
    case AfterSave(job) => NamedJob(job)
    case InterruptedSave(job) => NamedJob(job)
    case _ => true
  }

  /** Whatever this point of a command may still write to the target is named like a run. */
  predicate NamedAt(pc: Pc) {
    match pc
    case Acquire(q) => NamedRequest(q)
    case Preflight(v, _, _) => NamedRevert(v)
    case Claim(local, journal) => local || IsRunId(journal.runId)
    case Reverting(v, _, _) => NamedRevert(v)
    case Writing(_, s) => NamedSave(s)
    case Renaming(_, s) => NamedSave(s)
    case Checking(job) => NamedJob(job)
    case Polling(job, _) => NamedJob(job)
    case CapturingBefore(job) => NamedJob(job)
    case ApplyingStep(job) => NamedJob(job)
    case CapturingAfter(job) => NamedJob(job)
    case Publishing(job) => NamedJob(job)
    case _ => true
  }

  lemma LoadedIsNamed(w: World, profile: string)
    requires AllRunIds(w.remote) && Loaded(w, profile, false).Some?
    ensures IsRunId(Loaded(w, profile, false).value.runId)
  {
    hide IsRunId;
    var id := Latest(RunIds(w.remote, profile)).value;
    assert id in RunIds(w.remote, profile);
    assert RunKey(profile, id) in w.remote;
  }

  lemma ResumeIsNamed(v: Revert, plan: seq<Attempt>, failed: seq<ObjectRecord>)
    requires NamedRevert(v)
    ensures NamedAt(Resume(v, plan, failed)) && NamedAt(RevertFailed(v, true)) && NamedAt(RevertFailed(v, false))
  {
    hide IsRunId;
  }

  lemma ClaimNames(registered: set<string>, local: bool, journal: Journal, w: World, o: Outcome)
    requires NamedAt(Claim(local, journal)) && AllRunIds(w.remote)
    ensures var d := OnClaim(registered, local, journal, w, o); NamedAt(d.pc) && AllRunIds(d.world.remote)
  {
    var claimed := journal.(status := RollingBack);
    ResumeIsNamed(ForCommand(local, claimed), Plan(registered, claimed.steps), []);
    hide IsRunId, Plan, Resume;
  }

  lemma SaveNames(registered: set<string>, journal: Journal, saving: Saving, w: World, o: Outcome)
    requires NamedSave(saving) && AllRunIds(w.remote)
    ensures var d := OnWriting(journal, saving, registered, w, o); NamedAt(d.pc) && AllRunIds(d.world.remote)
    ensures var d := OnRenaming(journal, saving, registered, w, o); NamedAt(d.pc) && AllRunIds(d.world.remote)
  {
    if saving.ClaimSave? {
      ResumeIsNamed(ForCommand(true, saving.journal), Plan(registered, saving.journal.steps), []);
    }
    hide IsRunId, AllRunIds, Plan, Resume;
  }

  lemma RevertNames(registered: set<string>, pc: Pc, w: World, o: Outcome)
    requires Sound(pc) && NamedAt(pc) && (pc.Preflight? || pc.Reverting?)
    ensures var d := Next(registered, pc, w, o); NamedAt(d.pc) && d.world.remote == w.remote
  {
    if pc.Preflight? {
      ResumeIsNamed(pc.revert, Plan(registered, StepsOf(pc.revert)), []);
    } else {
      ResumeIsNamed(pc.revert, pc.plan[1..], pc.degraded);
      ResumeIsNamed(pc.revert, pc.plan[1..], pc.degraded + [pc.plan[0].record]);
    }
    hide IsRunId, Plan, Resume, RevertFailed, PreflightPasses, Put;
  }

  lemma LoadNames(profile: string, local: bool, force: bool, w: World, o: Outcome)
    requires AllRunIds(w.remote)
    ensures NamedAt(OnLoad(profile, local, force, w, o))
  {
    if !local && Loaded(w, profile, false).Some? { LoadedIsNamed(w, profile); }
    hide IsRunId, Loaded, AllRunIds;
  }

  /** The steps of an apply, up to and with its publication. */
  lemma StepNames(registered: set<string>, pc: Pc, w: World, o: Outcome)
    requires Sound(pc) && NamedAt(pc) && AllRunIds(w.remote)
    requires pc.Checking? || pc.Polling? || pc.CapturingBefore? || pc.ApplyingStep? || pc.CapturingAfter? || pc.Publishing?
    ensures var d := Next(registered, pc, w, o); NamedAt(d.pc) && AllRunIds(d.world.remote)
  {
    hide IsRunId, Captured, Differ, Effect;
  }

  lemma NamesNext(registered: set<string>, c: Config, o: Outcome)
    requires Sound(c.pc) && NamedAt(c.pc) && AllRunIds(c.world.remote)
    ensures var d := Next(registered, c.pc, c.world, o); NamedAt(d.pc) && AllRunIds(d.world.remote)
  {
    match c.pc
    case Claim(local, journal) => ClaimNames(registered, local, journal, c.world, o);
    case Writing(journal, saving) => SaveNames(registered, journal, saving, c.world, o);
    case Renaming(journal, saving) => SaveNames(registered, journal, saving, c.world, o);
    case Preflight(_, _, _) => RevertNames(registered, c.pc, c.world, o);
    case Reverting(_, _, _) => RevertNames(registered, c.pc, c.world, o);
    case Load(profile, local, force) => LoadNames(profile, local, force, c.world, o);
    case Acquire(_) => hide IsRunId, AllRunIds;
    case Consume(_, _, _) => hide IsRunId;
    case Release(_) => hide IsRunId, AllRunIds;
    case Finished(_) =>
    case Dropping(_) => hide IsRunId, AllRunIds;
    case _ => StepNames(registered, c.pc, c.world, o);
  }

  lemma {:induction false} NamesAlways(registered: set<string>, c: Config, s: Script)
    requires Sound(c.pc) && NamedAt(c.pc) && AllRunIds(c.world.remote)
    ensures AllRunIds(Exec(registered, c, s).world.remote)
    decreases |s|
  {
    hide Next, NamedAt, AllRunIds;
    if s != [] && !c.pc.Finished? {
      NamesNext(registered, c, s[0]);
      NextIsSound(registered, c.pc, c.world, s[0]);
      NamesAlways(registered, Next(registered, c.pc, c.world, s[0]), s[1..]);
    }
  }

  /** Neither command, wherever it fails or stops, leaves a journal on the target that is not named like a run. */
  lemma NamesStay(registered: set<string>, q: Request, w: World, s: Script)
    requires NamedRequest(q)
    ensures AllRunIds(w.remote) ==> AllRunIds(Exec(registered, Config(Acquire(q), w), s).world.remote)
  {
    hide Exec, AllRunIds;
    if AllRunIds(w.remote) { NamesAlways(registered, Config(Acquire(q), w), s); }
  }

  // ------------------------------------------------------------------ reading a listing

  ghost predicate ListsRuns(remote: map<RunKey, Journal>, profile: string, lines: seq<string>) {
    && (forall k :: k in remote && k.profile == profile ==> FileName(k.runId) in lines)
    && (forall line <- lines :: exists k :: k in remote && k.profile == profile && FileName(k.runId) == line)
  }

  lemma NothingListed(remote: map<RunKey, Journal>, profile: string, lines: seq<string>)
    requires ListsRuns(remote, profile, lines) && AllRunIds(remote)
    requires forall i :: 0 <= i < |lines| ==> !IsJournalFile(TrimSpace(lines[i]))
    ensures Latest(RunIds(remote, profile)) == None
  {
    hide IsJournalFile, TrimSpace, IsRunId;
    forall k | k in remote && k.profile == profile ensures false {
      var i :| 0 <= i < |lines| && lines[i] == FileName(k.runId);
      FileNames(k.runId);
      FileNameSpaceless(k.runId);
    }
  }

  lemma GreatestListed(remote: map<RunKey, Journal>, profile: string, lines: seq<string>, filename: string)
    requires ListsRuns(remote, profile, lines) && AllRunIds(remote)
    requires IsJournalFile(filename) && exists i :: 0 <= i < |lines| && TrimSpace(lines[i]) == filename
    requires forall i :: 0 <= i < |lines| && IsJournalFile(TrimSpace(lines[i])) ==> StringLe(TrimSpace(lines[i]), filename)
    ensures var id := filename[..|filename| - 5];
      RunKey(profile, id) in remote && FileName(id) == filename && Latest(RunIds(remote, profile)) == Some(id)
  {
    hide IsJournalFile, TrimSpace, IsRunId, Latest, StringLe;
    var i :| 0 <= i < |lines| && TrimSpace(lines[i]) == filename;
    assert lines[i] in lines;
    var k :| k in remote && k.profile == profile && FileName(k.runId) == lines[i];
    FileNames(k.runId);
    FileNameSpaceless(k.runId);
    assert filename == k.runId + SUFFIX;
    var id := filename[..|filename| - 5];
    assert id == k.runId;
    var ids := RunIds(remote, profile);
    forall x <- ids ensures StringLe(x, id) {
      assert RunKey(profile, x) in remote;
      assert FileName(x) in lines;
      var j :| 0 <= j < |lines| && lines[j] == FileName(x);
      FileNames(x);
      FileNameSpaceless(x);
      FileOrder(x, id);
    }
    LatestIs(ids, id);
  }

  // ----------------------------------------------------------------------- single actions

  lemma SavingIs(registered: set<string>, journal: Journal, saving: Saving, w: World, o: Outcome)
    requires SoundSaving(saving)
    ensures Next(registered, Writing(journal, saving), w, o) == OnWriting(journal, saving, registered, w, o)
    ensures Next(registered, Renaming(journal, saving), w, o) == OnRenaming(journal, saving, registered, w, o)
  {
    hide OnWriting, OnRenaming;
  }

  lemma PollingIs(registered: set<string>, job: Job, before: bool, w: World, o: Outcome)
    requires before ==> job.todo != []
    ensures Next(registered, Polling(job, before), w, o) ==
            Config(if !o.ok then Writing(job.journal.(status := Interrupted), InterruptedSave(job))
                   else if before then CapturingBefore(job) else NextStep(job), w)
  {
    hide NextStep;
  }

  lemma CapturingIs(registered: set<string>, job: Job, w: World, o: Outcome)
    requires job.todo != []
    ensures Next(registered, CapturingBefore(job), w, o) == Config(OnCapturingBefore(job, w, o), w)
    ensures job.journal.steps != [] ==> Next(registered, CapturingAfter(job), w, o) == Config(OnCapturingAfter(job, w, o), w)
  {
    hide OnCapturingBefore, OnCapturingAfter;
  }

  lemma CapturedBeforeIs(job: Job, w: World, o: Outcome)
    requires job.todo != []
    ensures var record := StepRecord(job.todo[0].id, job.todo[0].typ, o.mode, Captured(w.host, job.todo[0].keys, o), [], o.reload);
      var journal := job.journal.(steps := job.journal.steps + [record]);
      && OnCapturingBefore(job, w, o) == (if o.ok then Writing(journal, BeforeSave(job.(journal := journal))) else StepFailed(job))
      && SoundSaving(BeforeSave(job.(journal := journal)))
  {
    hide Captured;
  }

  // ----------------------------------------------------------------- unrolling the plan

  lemma ResumeIsSound(revert: Revert, plan: seq<Attempt>, failed: seq<ObjectRecord>)
    ensures Sound(Resume(revert, plan, failed))
  {
  }

  lemma StepAttempts(registered: set<string>, step: StepRecord, revert: Revert, rest: seq<Attempt>, failed: seq<ObjectRecord>)
    ensures step.mode == Noop ==> Attempts(registered, step) + rest == rest
    ensures step.mode != Noop && step.typ !in registered ==>
              Resume(revert, Attempts(registered, step) + rest, failed) == RevertFailed(revert, false)
    ensures step.mode != Noop && step.typ in registered ==>
              Attempts(registered, step) == Restores(step.before, Tolerates(step.mode), step.id)
  {
  }

  lemma RestoresSnoc(before: seq<ObjectRecord>, i: nat, tolerant: bool, step: string, rest: seq<Attempt>)
    requires i < |before|
    ensures Restores(before[..i + 1], tolerant, step) + rest ==
            (if before[i].kind == Policy then [] else [Restore(before[i], tolerant, step)])
            + (Restores(before[..i], tolerant, step) + rest)
    ensures before[i].kind == Policy ==>
            Restores(before[..i + 1], tolerant, step) + rest == Restores(before[..i], tolerant, step) + rest
  {
    assert before[..i + 1][..i] == before[..i];
  }

  lemma NothingLeftToRestore(before: seq<ObjectRecord>, tolerant: bool, step: string, rest: seq<Attempt>)
    ensures Restores(before[..0], tolerant, step) + rest == rest
  {
  }

  /** What is left of the plan when the first `i` steps have not been looked at. */
  function Remaining(registered: set<string>, steps: seq<StepRecord>, i: nat, deferred: seq<StepRecord>): seq<Attempt>
    requires i <= |steps|
  {
    AttemptsOf(registered, Backwards(steps[..i], steps, false))
    + AttemptsOf(registered, deferred + Backwards(steps[..i], steps, true))
  }

  lemma RemainingStep(registered: set<string>, steps: seq<StepRecord>, i: nat, deferred: seq<StepRecord>)
    requires i < |steps|
    ensures !Applies(steps[i], steps) ==> Remaining(registered, steps, i + 1, deferred) == Remaining(registered, steps, i, deferred)
    ensures Applies(steps[i], steps) && HasService(steps[i]) ==>
              Remaining(registered, steps, i + 1, deferred) == Remaining(registered, steps, i, deferred + [steps[i]])
    ensures Applies(steps[i], steps) && !HasService(steps[i]) ==>
              Remaining(registered, steps, i + 1, deferred) == Attempts(registered, steps[i]) + Remaining(registered, steps, i, deferred)
  {
    hide Applies, HasService, Attempts;
    var step := steps[i];
    assert steps[..i + 1][..i] == steps[..i] && steps[..i + 1][i] == step;
    var plain, services := Backwards(steps[..i], steps, false), Backwards(steps[..i], steps, true);
    if !Applies(step, steps) {
      assert [] + plain == plain && [] + services == services;
    } else if HasService(step) {
      assert [] + plain == plain;
      assert deferred + ([step] + services) == deferred + [step] + services;
    } else {
      assert [] + services == services;
      assert ([step] + plain)[1..] == plain;
      assert AttemptsOf(registered, [step] + plain) == Attempts(registered, step) + AttemptsOf(registered, plain);
    }
  }

  lemma OnlyDeferred(registered: set<string>, steps: seq<StepRecord>, deferred: seq<StepRecord>)
    ensures Remaining(registered, steps, 0, deferred) == AttemptsOf(registered, deferred[0..])
  {
    assert steps[..0] == [] && deferred + [] == deferred == deferred[0..];
  }

  lemma DeferredStep(registered: set<string>, deferred: seq<StepRecord>, i: nat)
    requires i < |deferred|
    ensures AttemptsOf(registered, deferred[i..]) == Attempts(registered, deferred[i]) + AttemptsOf(registered, deferred[i + 1..])
  {
    assert deferred[i..][1..] == deferred[i + 1..];
  }

  lemma NothingDeferred(registered: set<string>, revert: Revert, deferred: seq<StepRecord>, degraded: seq<ObjectRecord>)
    ensures Resume(revert, AttemptsOf(registered, deferred[|deferred|..]), degraded) == RevertDone(revert, degraded)
  {
  }

  /** A local claim is the first action of a save. */
  lemma ClaimIsSave(registered: set<string>, pc: Pc, w: World, s: Script)
    requires pc.Claim? && pc.local
    ensures var claimed := pc.journal.(status := RollingBack);
      Exec(registered, Config(pc, w), s) == Exec(registered, Config(Writing(claimed, ClaimSave(claimed)), w), s)
      || s == []
  {
    hide Plan, Resume, Saved;
  }
}
