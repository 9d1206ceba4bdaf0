// Which runs the rollback command admits: what a stopped or failed apply journalled is not among them.
module Admission {
  import opened Wrappers
  import opened Records
  import opened Journals
  import opened Protocol
  import opened CrashResume
  import opened ApplyRuns
  import opened ApplySafety
  import opened WriteAhead

  /** A rollback from the runner's journal, once the operator has cleared a stale lock, up to the loading of its journal. */
  ghost function Opened(registered: set<string>, profile: string, force: bool, w: World, o: Outcome, p: Outcome): Pc {
    Exec(registered, Config(Acquire(RollbackRequest(profile, true, force)), w.(locked := false)), [o, p]).pc
  }

  predicate Admits(status: Status) { status == Success || status == RollingBack }

  lemma OpenedIs(registered: set<string>, profile: string, force: bool, w: World, o: Outcome, p: Outcome)
    requires o.ok && p.ok
    ensures exists v: World :: v.last == w.last && Opened(registered, profile, force, w, o, p) == OnLoad(profile, true, force, v, p)
  {
    hide OnLoad;
    var c := Config(Acquire(RollbackRequest(profile, true, force)), w.(locked := false));
    assert [o, p][1..] == [p] && [p][1..] == [];
    var d := Next(registered, c.pc, c.world, o);
    NextIsSound(registered, c.pc, c.world, o);
    NextIsSound(registered, d.pc, d.world, p);
    var e := Next(registered, d.pc, d.world, p);
    assert Exec(registered, c, [o, p]) == Exec(registered, d, [p]) == Exec(registered, e, []) == e;
    assert d.world.last == w.last && e.pc == OnLoad(profile, true, force, d.world, p);
  }

  /** With the lock free and the journal readable, the command is refused exactly if the runner has no whole journal or one
      that is neither of a successful run nor of a rollback under way; otherwise it goes on to its preflight. */
  lemma RefusedIff(registered: set<string>, profile: string, force: bool, w: World, o: Outcome, p: Outcome)
    requires o.ok && p.ok
    ensures var pc := Opened(registered, profile, force, w, o, p);
      && (pc == Release(Refused) <==>
            !(profile in w.last && w.last[profile].Whole? && Admits(w.last[profile].journal.status)))
      && (pc == Release(Refused) || (pc.Preflight? && pc.revert == ForCommand(true, w.last[profile].journal)))
  {
    hide Opened;
    OpenedIs(registered, profile, force, w, o, p);
  }

  // --------------------------------------------------------- what an apply leaves on the runner

  /** The run's outcome is out: its journal went to the target, or was meant to. */
  predicate Announced(pc: Pc) {
    (pc.Release? || pc.Finished?) && (pc.result == Applied || pc.result.NotPublished?)
  }

  /** Until then the runner's file is the one found, or marks the run as unfinished. */
  ghost predicate Unfinished(profile: string, last: map<string, FileText>, c: Config) {
    && (Announced(c.pc) || (profile in c.world.last ==>
          (profile in last && c.world.last[profile] == last[profile])
          || (c.world.last[profile].Whole? && !Admits(c.world.last[profile].journal.status))))
    && (c.pc.Writing? || c.pc.Renaming? ==>
          c.pc.saving.FallbackSave? || c.pc.saving.KeepSave? || !Admits(c.pc.journal.status))
    && (c.pc.Renaming? ==> c.pc.journal.profile in c.world.tmp && c.world.tmp[c.pc.journal.profile] == Whole(c.pc.journal))
    && UnfinishedJob(c.pc)
  }

  predicate UnfinishedJob(pc: Pc) {
    match pc
    case Checking(job) => !Admits(job.journal.status)
    case Polling(job, _) => !Admits(job.journal.status)
    case CapturingBefore(job) => !Admits(job.journal.status)
    case ApplyingStep(job) => !Admits(job.journal.status)
    case CapturingAfter(job) => !Admits(job.journal.status)
    case Writing(_, s) => UnfinishedSave(s)
    case Renaming(_, s) => UnfinishedSave(s)
    case _ => true
  }

  predicate UnfinishedSave(s: Saving) {
    match s
    case FirstSave(job) => !Admits(job.journal.status)
    case BeforeSave(job) => !Admits(job.journal.status)
    case AfterSave(job) => !Admits(job.journal.status)
    case _ => true
  }

  predicate Applying(pc: Pc) {
    match pc
    case Acquire(q) => q.ApplyRequest?
    case Load(_, _, _) => false
    case Claim(_, _) => false
    case Consume(_, _, _) => false
    case Preflight(v, _, _) => !v.ForCommand?
    case Reverting(v, _, _) => !v.ForCommand?
    case Writing(_, s) => !s.ClaimSave?
    case Renaming(_, s) => !s.ClaimSave?
    case _ => true
  }

  lemma AInvApplies(l: Launch, c: Config)
    requires AInv(l, c)
    ensures Applying(c.pc)
  {
    hide AtRest, Midstep, Revertible, Undoing, AllDone, CoversAll, Undone, EndInv;
  }

  lemma SavingUnfinished(registered: set<string>, profile: string, last: map<string, FileText>, c: Config, o: Outcome)
    requires Sound(c.pc) && (c.pc.Writing? || c.pc.Renaming?) && Applying(c.pc) && Unfinished(profile, last, c)
    ensures Unfinished(profile, last, Next(registered, c.pc, c.world, o))
  {
    hide Plan;
  }

  lemma RevertUnfinished(registered: set<string>, c: Config, o: Outcome)
    requires Sound(c.pc) && (c.pc.Preflight? || c.pc.Reverting?) && Applying(c.pc)
    ensures var d := Next(registered, c.pc, c.world, o);
      && d.world.last == c.world.last && !Announced(d.pc) && !d.pc.Renaming? && UnfinishedJob(d.pc)
      && (d.pc.Writing? ==> d.pc.saving.FailedSave? && d.pc.journal.status == Status.Failed)
  {
    if c.pc.Preflight? {
      ResumeUnfinished(c.pc.revert, Plan(registered, StepsOf(c.pc.revert)), []);
    } else {
      ResumeUnfinished(c.pc.revert, c.pc.plan[1..], c.pc.degraded);
      ResumeUnfinished(c.pc.revert, c.pc.plan[1..], c.pc.degraded + [c.pc.plan[0].record]);
    }
    hide Plan, PreflightPasses, Resume, RevertFailed, Put;
  }

  predicate IsReverting(pc: Pc) { pc.Reverting? || (pc.Writing? && pc.saving.FailedSave? && pc.journal.status == Status.Failed) }

  lemma ResumeUnfinished(v: Revert, plan: seq<Attempt>, degraded: seq<ObjectRecord>)
    requires !v.ForCommand?
    ensures IsReverting(Resume(v, plan, degraded)) && IsReverting(RevertFailed(v, true)) && IsReverting(RevertFailed(v, false))
  {
  }

  lemma UnfinishedNext(registered: set<string>, profile: string, last: map<string, FileText>, c: Config, o: Outcome)
    requires Sound(c.pc) && Applying(c.pc) && Unfinished(profile, last, c)
    ensures Unfinished(profile, last, Next(registered, c.pc, c.world, o))
  {
    if c.pc.Writing? || c.pc.Renaming? {
      SavingUnfinished(registered, profile, last, c, o);
    } else if c.pc.Preflight? || c.pc.Reverting? {
      RevertUnfinished(registered, c, o);
      hide Next;
    } else if c.pc.CapturingBefore? || c.pc.CapturingAfter? {
      hide Captured, Differ;
    } else {
      hide Effect, OnCapturingBefore, OnCapturingAfter, OnLoad, OnPreflight, OnClaim, OnReverting, OnConsume, OnWriting, OnRenaming;
    }
  }

  lemma {:induction false} UnfinishedAlways(l: Launch, last: map<string, FileText>, c: Config, s: Script)
    requires Launchable(l) && Sound(c.pc) && AInv(l, c) && FreshSave(c.pc) && Unfinished(l.profile, last, c)
    requires forall o <- s :: o.mode in l.modes
    ensures Unfinished(l.profile, last, Exec(l.registered, c, s))
    decreases |s|
  {
    hide AInv, Launchable, Next, FreshSave, Unfinished, Applying;
    if s != [] && !c.pc.Finished? {
      assert s[0] in s;
      AInvApplies(l, c);
      AInvNext(l, c, s[0]);
      FreshSaveNext(l, c, s[0]);
      UnfinishedNext(l.registered, l.profile, last, c, s[0]);
      NextIsSound(l.registered, c.pc, c.world, s[0]);
      UnfinishedAlways(l, last, Next(l.registered, c.pc, c.world, s[0]), s[1..]);
    }
  }

  /** Stop an apply anywhere before its outcome is out, or let it fail: from what it wrote on the runner the rollback command
      rolls nothing back. */
  lemma StoppedApplyIsRefused(l: Launch, keepLocal: bool, w: World, s: Script, force: bool, o: Outcome, p: Outcome)
    requires From(l, w, s) && l.profile !in w.last && o.ok && p.ok && !Announced(ApplyRun(l, keepLocal, w, s).pc)
    ensures Opened(l.registered, l.profile, force, ApplyRun(l, keepLocal, w, s).world, o, p) == Release(Refused)
  {
    var c := Config(Acquire(ApplyCommand(l, keepLocal)), w);
    assert SameHost(w.host, l.host0) by { hide Read; }
    hide SameHost, Launchable;
    assert AInv(l, c);
    UnfinishedAlways(l, w.last, c, s);
    hide Exec, AInv;
    RefusedIff(l.registered, l.profile, force, ApplyRun(l, keepLocal, w, s).world, o, p);
  }
}
