// A rollback restores nothing before its whole preflight passed and its journal is durably claimed.
module RollbackOrder {
  import opened Records
  import opened Journals
  import opened Protocol

  /** At the n-th action the preflight of these steps passed, with the host still as the command found it. */
  ghost predicate PassedAt(registered: set<string>, start: Config, s: Script, n: nat, steps: seq<StepRecord>)
    requires Sound(start.pc) && n < |s|
  {
    var d := Exec(registered, start, s[..n]);
    && d.pc.Preflight? && d.pc.revert.ForCommand? && d.pc.revert.journal.steps == steps
    && d.world.host == start.world.host
    && PreflightPasses(View(d.world.host, s[n].blind), registered, steps, d.pc.force, d.pc.resuming)
  }

  ghost predicate Passed(registered: set<string>, start: Config, s: Script, steps: seq<StepRecord>)
    requires Sound(start.pc)
  {
    exists n: nat :: n < |s| && PassedAt(registered, start, s, n, steps)
  }

  lemma PassedStays(registered: set<string>, start: Config, s: Script, o: Outcome, steps: seq<StepRecord>)
    requires Sound(start.pc) && Passed(registered, start, s, steps)
    ensures Passed(registered, start, s + [o], steps)
  {
    var n: nat :| n < |s| && PassedAt(registered, start, s, n, steps);
    hide PreflightPasses;
    assert (s + [o])[..n] == s[..n] && (s + [o])[n] == s[n];
    assert PassedAt(registered, start, s + [o], n, steps);
  }

  /** The journal is on disk with the status that makes an interrupted rollback resume. */
  predicate ClaimIsDurable(local: bool, j: Journal, w: World) {
    && j.status == RollingBack
    && if local then j.profile in w.last && w.last[j.profile] == Whole(j)
       else RemoteKey(j) in w.remote && w.remote[RemoteKey(j)] == j
  }

  ghost predicate Gated(registered: set<string>, start: Config, s: Script, c: Config)
    requires Sound(start.pc)
  {
    match c.pc
    case Acquire(q) => q.RollbackRequest? && c.world.host == start.world.host
    case Load(_, _, _) => c.world.host == start.world.host
    case Preflight(v, _, _) => v.ForCommand? && c.world.host == start.world.host
    case Claim(_, j) => c.world.host == start.world.host && Passed(registered, start, s, j.steps)
    case Writing(j, x) =>
      && c.world.host == start.world.host
      && x == ClaimSave(j) && j.status == RollingBack && Passed(registered, start, s, j.steps)
    case Renaming(j, x) =>
      && c.world.host == start.world.host
      && x == ClaimSave(j) && j.status == RollingBack && Passed(registered, start, s, j.steps)
      && j.profile in c.world.tmp && c.world.tmp[j.profile] == Whole(j)
    case Reverting(v, _, _) =>
      v.ForCommand? && Passed(registered, start, s, v.journal.steps) && ClaimIsDurable(v.local, v.journal, c.world)
    case Consume(local, j, _) => Passed(registered, start, s, j.steps) && ClaimIsDurable(local, j, c.world)
    case Release(result) => result in {NotLocked, Refused} ==> c.world.host == start.world.host
    case Finished(result) => result in {NotLocked, Refused} ==> c.world.host == start.world.host
    case _ => false
  }

  lemma ResumeIsGated(registered: set<string>, start: Config, s: Script, local: bool, j: Journal, plan: seq<Attempt>,
                      failed: seq<ObjectRecord>, w: World)
    requires Sound(start.pc) && Passed(registered, start, s, j.steps) && ClaimIsDurable(local, j, w)
    ensures Gated(registered, start, s, Config(Resume(ForCommand(local, j), plan, failed), w))
  {
    hide Passed, ClaimIsDurable;
  }

  lemma GatedPreflight(registered: set<string>, start: Config, s: Script, c: Config, o: Outcome)
    requires Sound(start.pc) && c.pc.Preflight? && c == Exec(registered, start, s) && Gated(registered, start, s, c)
    ensures Gated(registered, start, s + [o], Next(registered, c.pc, c.world, o))
  {
    hide PreflightPasses, Exec, Plan;
    var steps := c.pc.revert.journal.steps;
    assert (s + [o])[..|s|] == s;
    if PreflightPasses(View(c.world.host, o.blind), registered, steps, c.pc.force, c.pc.resuming) {
      assert PassedAt(registered, start, s + [o], |s|, steps);
      hide PassedAt;
      assert Passed(registered, start, s + [o], steps);
    }
    hide Passed, PassedAt;
  }

  lemma ClaimIsStored(j: Journal, w: World)
    requires j.status == RollingBack
    ensures ClaimIsDurable(false, j, w.(remote := w.remote[RemoteKey(j) := j]))
  {
  }

  lemma GatedClaim(registered: set<string>, start: Config, s: Script, c: Config, o: Outcome)
    requires Sound(start.pc) && c.pc.Claim? && Gated(registered, start, s, c)
    ensures Gated(registered, start, s + [o], Next(registered, c.pc, c.world, o))
  {
    hide Passed, Plan, Resume, Exec, RunIds, ClaimIsDurable;
    PassedStays(registered, start, s, o, c.pc.journal.steps);
    var claimed := c.pc.journal.(status := RollingBack);
    var w := c.world.(remote := c.world.remote[RemoteKey(claimed) := claimed]);
    ClaimIsStored(claimed, c.world);
    ResumeIsGated(registered, start, s + [o], false, claimed, Plan(registered, claimed.steps), [], w);
  }

  lemma GatedSave(registered: set<string>, start: Config, s: Script, c: Config, o: Outcome)
    requires Sound(start.pc) && Sound(c.pc) && (c.pc.Writing? || c.pc.Renaming?) && Gated(registered, start, s, c)
    ensures Gated(registered, start, s + [o], Next(registered, c.pc, c.world, o))
  {
    var j := c.pc.journal;
    PassedStays(registered, start, s, o, j.steps);
    hide Passed, Plan, Resume;
    if c.pc.Renaming? {
      var w := c.world.(last := c.world.last[j.profile := Whole(j)], tmp := c.world.tmp - {j.profile});
      ResumeIsGated(registered, start, s + [o], true, j, Plan(registered, j.steps), [], w);
    }
  }

  lemma GatedRestore(registered: set<string>, start: Config, s: Script, c: Config, o: Outcome)
    requires Sound(start.pc) && Sound(c.pc) && c.pc.Reverting? && Gated(registered, start, s, c)
    ensures Gated(registered, start, s + [o], Next(registered, c.pc, c.world, o))
  {
    var v, plan, failed := c.pc.revert, c.pc.plan, c.pc.degraded;
    PassedStays(registered, start, s, o, v.journal.steps);
    hide Passed, Resume, Put;
    var w := Next(registered, c.pc, c.world, o).world;
    ResumeIsGated(registered, start, s + [o], v.local, v.journal, plan[1..], failed, w);
    ResumeIsGated(registered, start, s + [o], v.local, v.journal, plan[1..], failed + [plan[0].record], w);
  }

  lemma GatedNext(registered: set<string>, start: Config, s: Script, c: Config, o: Outcome)
    requires Sound(start.pc) && Sound(c.pc) && c == Exec(registered, start, s) && Gated(registered, start, s, c)
    ensures Gated(registered, start, s + [o], Next(registered, c.pc, c.world, o))
  {
    if c.pc.Preflight? {
      GatedPreflight(registered, start, s, c, o);
    } else if c.pc.Claim? {
      GatedClaim(registered, start, s, c, o);
    } else if c.pc.Writing? || c.pc.Renaming? {
      GatedSave(registered, start, s, c, o);
    } else if c.pc.Reverting? {
      GatedRestore(registered, start, s, c, o);
    } else {
      hide Passed, PreflightPasses, Plan, Loaded, Exec, Put, OnPreflight, OnClaim, OnWriting, OnRenaming, OnReverting;
    }
  }

  lemma {:induction false} GatedAlways(registered: set<string>, start: Config, s: Script)
    requires Sound(start.pc) && start.pc.Acquire? && start.pc.request.RollbackRequest?
    ensures Gated(registered, start, s, Exec(registered, start, s))
    decreases |s|
  {
    if s == [] {
      hide Passed;
    } else {
      var init, o := s[..|s| - 1], s[|s| - 1];
      assert s == init + [o];
      GatedAlways(registered, start, init);
      ExecSnoc(registered, start, init, o);
      GatedNext(registered, start, init, Exec(registered, start, init), o);
      hide Gated, Next, Exec;
    }
  }

  /** Whenever the command is about to restore an object, the preflight of all steps has passed and the claim is durable. */
  lemma RestoresAreGated(registered: set<string>, profile: string, local: bool, force: bool, w: World, s: Script)
    requires Exec(registered, Config(Acquire(RollbackRequest(profile, local, force)), w), s).pc.Reverting?
    ensures var start := Config(Acquire(RollbackRequest(profile, local, force)), w);
      var c := Exec(registered, start, s);
      && c.pc.revert.ForCommand?
      && Passed(registered, start, s, c.pc.revert.journal.steps)
      && ClaimIsDurable(c.pc.revert.local, c.pc.revert.journal, c.world)
  {
    GatedAlways(registered, Config(Acquire(RollbackRequest(profile, local, force)), w), s);
    hide Passed, Exec;
  }

  /** A rollback that refuses, for want of the lock, a journal, a claim or a clean preflight, leaves the host alone. */
  lemma RefusalLeavesHost(registered: set<string>, profile: string, local: bool, force: bool, w: World, s: Script)
    requires Exec(registered, Config(Acquire(RollbackRequest(profile, local, force)), w), s).pc
             in {Finished(Refused), Finished(NotLocked)}
    ensures Exec(registered, Config(Acquire(RollbackRequest(profile, local, force)), w), s).world.host == w.host
  {
    GatedAlways(registered, Config(Acquire(RollbackRequest(profile, local, force)), w), s);
    hide Exec;
  }
}
