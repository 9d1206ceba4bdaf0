// Successful runs of one profile stack up on the target, and rollbacks pop them.
module StackDiscipline {
  import opened Wrappers
  import opened Records
  import opened Sorting
  import opened Journals
  import opened Protocol
  import opened RestorePass
  import opened Restoration
  import opened CrashResume
  import opened ApplyRuns
  import opened ApplySafety
  import opened WriteAhead
  import opened RunNames

  /** The run's name is greater than that of every run already on the target. */
  ghost predicate NewestRun(l: Launch) {
    forall id <- RunIds(l.remote0, l.profile) :: StringLe(id, l.runId) && id != l.runId
  }

  function RunOf(l: Launch, steps: seq<StepRecord>, host: Host): Run {
    Run(l.registered, false, l.profile, l.runId, steps, host)
  }

  lemma AfterIsLiveOf(l: Launch, steps: seq<StepRecord>, host: Host, i: nat)
    requires AllDone(l, steps, host) && i < |steps|
    ensures AfterIsLive(steps[i], host)
  {
    var s, keys := steps[i], l.plans[i].keys;
    assert CaptureOf(keys, host, s.after) && CaptureOf(keys, l.host0, s.before);
    hide AllDone, Revertible, Completed;
    forall o <- s.after | Ordinary(o)
      ensures PayloadPresent(o) && Read(host, ObjectKey(o)) == o
      ensures exists b :: b in s.before && Ordinary(b) && ObjectKey(b) == ObjectKey(o)
    {
      var k := ObjectKey(o);
      assert k in keys;
      assert Read(l.host0, k) in s.before && ObjectKey(Read(l.host0, k)) == k;
    }
  }

  lemma PublishedIsLatest(l: Launch, steps: seq<StepRecord>, w: World)
    requires NewestRun(l) && w.remote == Published(l, steps)
    ensures Loaded(w, l.profile, false) == Some(SuccessJournal(l, steps))
  {
    var ids := RunIds(w.remote, l.profile);
    assert RunKey(l.profile, l.runId) in w.remote;
    forall x <- ids ensures StringLe(x, l.runId) {
      OrdersAreTotal();
      assert x == l.runId || x in RunIds(l.remote0, l.profile);
    }
    LatestIs(ids, l.runId);
  }

  lemma DoneIsUndrifted(l: Launch, steps: seq<StepRecord>, host: Host)
    requires Launchable(l) && AllDone(l, steps, host)
    ensures Undrifted(l.registered, steps, host)
  {
    RecordedIsSeparate(l, steps, host);
    RecordedIsRegistered(l, steps, host);
    forall s <- steps ensures AfterIsLive(s, host) {
      var i :| 0 <= i < |steps| && steps[i] == s;
      AfterIsLiveOf(l, steps, host, i);
    }
    hide AfterIsLive, AllRegistered, Separate, Launchable, AllDone;
  }

  /** A run that was applied can be rolled back. */
  lemma AppliedIsResumable(l: Launch, steps: seq<StepRecord>, w: World)
    requires Launchable(l) && NewestRun(l) && AllDone(l, steps, w.host) && w.remote == Published(l, steps)
    ensures var r := RunOf(l, steps, w.host);
      Valid(r) && Undrifted(r.registered, r.steps, r.pre) && Resumable(r, w)
  {
    var r := RunOf(l, steps, w.host);
    DoneIsUndrifted(l, steps, w.host);
    PublishedIsLatest(l, steps, w);
    assert SameHost(w.host, w.host) by { hide Read; }
    assert Partly(FullPlan(r), w.host, w.host) by { hide Read, FullPlan; }
    hide Loaded, Published, FullPlan, Partly, SameHost, AfterIsLive, AllRegistered, Separate, Launchable, AllDone;
  }

  /** A run whose journal only reached the runner can be rolled back from there. */
  lemma KeptLocallyIsResumable(l: Launch, w: World) returns (steps: seq<StepRecord>)
    requires Launchable(l) && KeptLocally(l, w)
    ensures AllDone(l, steps, w.host)
    ensures var r := RunOf(l, steps, w.host).(local := true);
      Valid(r) && Undrifted(r.registered, r.steps, r.pre) && Resumable(r, w)
  {
    steps :| AllDone(l, steps, w.host) && l.profile in w.last && w.last[l.profile] == Whole(SuccessJournal(l, steps));
    var r := RunOf(l, steps, w.host).(local := true);
    DoneIsUndrifted(l, steps, w.host);
    assert Loaded(w, l.profile, true) == Some(SuccessJournal(l, steps));
    assert SameHost(w.host, w.host) by { hide Read; }
    assert Partly(FullPlan(r), w.host, w.host) by { hide Read, FullPlan; }
    hide Loaded, FullPlan, Partly, SameHost, AfterIsLive, AllRegistered, Separate, Launchable, AllDone;
  }

  /** The journalled values put back are the host the run found. */
  lemma ConsumedIsHost0(l: Launch, steps: seq<StepRecord>, pre: Host, host: Host)
    requires Launchable(l) && Noop !in l.modes && AllDone(l, steps, pre)
    requires Partly(Plan(l.registered, steps), pre, host) && Tried(Plan(l.registered, steps), |Plan(l.registered, steps)|, host, [])
    ensures SameHost(host, l.host0)
  {
    var plan := Plan(l.registered, steps);
    PlanHoldsPreRunValues(l, steps, pre);
    RevertibleIsCovered(l, steps, pre);
    forall k ensures !NoopKey(l, steps, k) { hide CaptureOf; }
    hide Plan, Launchable, NoopKey, AllDone;
    forall k ensures Read(host, k) == Read(l.host0, k) {
      AllTriedRestores(plan, pre, host, k);
      hide Read, ObjectKey, Partly, Tried, DistinctRestores;
      BackAtKey(l, steps, pre, host, k);
    }
  }

  lemma BackAtKey(l: Launch, steps: seq<StepRecord>, pre: Host, host: Host, k: Key)
    requires PreRunValues(l, steps) && Covered(l, steps, pre) && !NoopKey(l, steps, k)
    requires (forall a <- Plan(l.registered, steps) :: ObjectKey(a.record) != k) ==> Read(host, k) == Read(pre, k)
    requires forall a <- Plan(l.registered, steps) :: ObjectKey(a.record) == k ==> Read(host, k) == a.record
    ensures Read(host, k) == Read(l.host0, k)
  {
    hide Read, ObjectKey, Plan, NoopKey;
  }

  // ----------------------------------------------------------- a rollback touches one run

  lemma OnlyThisRunWritten(r: Run, c: Config, o: Outcome)
    requires !r.local && Inv(r, c) && (c.pc.Claim? || c.pc.Consume?)
    ensures Next(r.registered, c.pc, c.world, o).world.remote - {RunKey(r.profile, r.runId)}
            == c.world.remote - {RunKey(r.profile, r.runId)}
  {
    hide Resumable, Going, Plan, Resume, FullPlan;
    assert RemoteKey(c.pc.journal) == RunKey(r.profile, r.runId);
  }

  /** Every other action of a rollback leaves the target's journals alone. */
  lemma NothingWritten(registered: set<string>, pc: Pc, w: World, o: Outcome)
    requires Sound(pc) && !pc.Claim? && !pc.Consume? && !pc.Publishing?
    ensures Next(registered, pc, w, o).world.remote == w.remote
  {
    hide Plan, PreflightPasses, Put, Resume, Effect, OnLoad, OnPreflight, OnCapturingBefore, OnCapturingAfter, Saved;
  }

  lemma RollbackNeverPublishes(r: Run, c: Config)
    requires Inv(r, c)
    ensures !c.pc.Publishing?
  {
  }

  lemma OtherRunsStay(r: Run, c: Config, o: Outcome)
    requires !r.local && Sound(c.pc) && Inv(r, c)
    ensures Next(r.registered, c.pc, c.world, o).world.remote - {RunKey(r.profile, r.runId)}
            == c.world.remote - {RunKey(r.profile, r.runId)}
  {
    hide Inv, Next;
    RollbackNeverPublishes(r, c);
    if c.pc.Claim? || c.pc.Consume? { OnlyThisRunWritten(r, c, o); } else { NothingWritten(r.registered, c.pc, c.world, o); }
  }

  lemma {:induction false} OtherRunsAlwaysStay(r: Run, c: Config, s: Script)
    requires !r.local && Valid(r) && Sound(c.pc) && Inv(r, c)
    ensures Exec(r.registered, c, s).world.remote - {RunKey(r.profile, r.runId)}
            == c.world.remote - {RunKey(r.profile, r.runId)}
    decreases |s|
  {
    hide Inv, Valid, Next;
    if s != [] && !c.pc.Finished? {
      OtherRunsStay(r, c, s[0]);
      InvNext(r, c, s[0]);
      NextIsSound(r.registered, c.pc, c.world, s[0]);
      OtherRunsAlwaysStay(r, Next(r.registered, c.pc, c.world, s[0]), s[1..]);
    }
  }

  /** A rollback from the runner's journal leaves the target's journals alone. */
  lemma LocalRollbackStep(r: Run, c: Config, o: Outcome)
    requires r.local && Sound(c.pc) && Inv(r, c)
    ensures Next(r.registered, c.pc, c.world, o).world.remote == c.world.remote
  {
    if c.pc.Claim? || c.pc.Consume? {
      hide Resumable, Going, Plan, Resume, FullPlan;
    } else {
      RollbackNeverPublishes(r, c);
      NothingWritten(r.registered, c.pc, c.world, o);
    }
  }

  lemma {:induction false} LocalRollbackKeepsTarget(r: Run, c: Config, s: Script)
    requires r.local && Valid(r) && Sound(c.pc) && Inv(r, c)
    ensures Exec(r.registered, c, s).world.remote == c.world.remote
    decreases |s|
  {
    hide Inv, Valid, Next;
    if s != [] && !c.pc.Finished? {
      LocalRollbackStep(r, c, s[0]);
      InvNext(r, c, s[0]);
      NextIsSound(r.registered, c.pc, c.world, s[0]);
      LocalRollbackKeepsTarget(r, Next(r.registered, c.pc, c.world, s[0]), s[1..]);
    }
  }

  lemma StartsLocally(l: Launch, w: World, force: bool) returns (steps: seq<StepRecord>)
    requires Launchable(l) && KeptLocally(l, w)
    ensures var r := RunOf(l, steps, w.host).(local := true);
      && AllDone(l, steps, w.host) && Valid(r) && Inv(r, Config(Acquire(RollbackRequest(l.profile, true, force)), w))
  {
    hide AllDone, Launchable, Valid, Undrifted, Resumable, KeptLocally;
    steps := KeptLocallyIsResumable(l, w);
  }

  lemma UnpublishedMeans(l: Launch, w: World)
    requires NewestRun(l) && EndInv(l, NotPublished(true), w)
    ensures w.remote == l.remote0 <==> RunKey(l.profile, l.runId) !in w.remote
    ensures w.remote != l.remote0 ==>
              var j := w.remote[RunKey(l.profile, l.runId)]; Loaded(w, l.profile, false) == Some(j) && j.status == Success
  {
    KeyIsNew(l);
    var steps :| AllDone(l, steps, w.host) && MaybePublished(l, steps, w);
    if w.remote == Published(l, steps) { PublishedIsLatest(l, steps, w); }
    hide AllDone, NewestRun, Loaded;
  }

  /** A run whose publication was reported as failed is rolled back from the runner: the host is as found, and the target's
      journals are too exactly if the publication had not landed. If it had, the target still names the run as its latest. */
  lemma LocalRollbackOfUnpublished(l: Launch, keepLocal: bool, w: World, s: Script, force: bool, t: Script)
    requires From(l, w, s) && NotTorn(l.profile, w) && Noop !in l.modes && NewestRun(l)
    requires ApplyRun(l, keepLocal, w, s).pc == Finished(NotPublished(true))
    requires var c := ApplyRun(l, keepLocal, w, s);
      Exec(l.registered, Config(Acquire(RollbackRequest(l.profile, true, force)), c.world), t).pc == Finished(RolledBack)
    ensures var c := ApplyRun(l, keepLocal, w, s);
      var v := Exec(l.registered, Config(Acquire(RollbackRequest(l.profile, true, force)), c.world), t).world;
      var key := RunKey(l.profile, l.runId);
      && SameHost(v.host, w.host)
      && (v.remote == w.remote <==> key !in c.world.remote)
      && (key in c.world.remote ==> Loaded(v, l.profile, false) == Some(c.world.remote[key]) && c.world.remote[key].status == Success)
  {
    hide Inv, Exec, Valid, NewestRun, AllDone, Launchable, Partly, Tried, Plan, Published, SameHost, Loaded, KeptLocally, Recoverable, NotTorn,
         EndInv;
    ApplyRunIsSafe(l, keepLocal, w, s);
    var c := ApplyRun(l, keepLocal, w, s);
    var start := Config(Acquire(RollbackRequest(l.profile, true, force)), c.world);
    var steps := StartsLocally(l, c.world, force);
    var r := RunOf(l, steps, c.world.host).(local := true);
    InvAlways(r, start, t);
    LocalRollbackKeepsTarget(r, start, t);
    var d := Exec(r.registered, start, t);
    FinishedMeans(r, d);
    ConsumedIsHost0(l, steps, c.world.host, d.world.host);
    UnpublishedMeans(l, c.world);
    SameTargets(c.world, d.world, l.profile);
  }

  lemma SameTargets(w: World, v: World, profile: string)
    requires w.remote == v.remote
    ensures Loaded(w, profile, false) == Loaded(v, profile, false)
  {
  }

  // ---------------------------------------------------------------------------- the stack

  ghost predicate TopIs(l: Launch, host: Host, remote: map<RunKey, Journal>) {
    && Launchable(l) && Noop !in l.modes && NewestRun(l)
    && exists steps :: AllDone(l, steps, host) && remote == Published(l, steps)
  }

  /** The host and the target's journals are what these runs, one on top of the other, have made of them. */
  ghost predicate Stacked(host: Host, remote: map<RunKey, Journal>, runs: seq<Launch>)
    decreases |runs|
  {
    runs == [] || (TopIs(runs[|runs| - 1], host, remote)
                   && Stacked(runs[|runs| - 1].host0, runs[|runs| - 1].remote0, runs[..|runs| - 1]))
  }

  lemma AllDoneOfSame(l: Launch, steps: seq<StepRecord>, host: Host, host': Host)
    requires AllDone(l, steps, host) && SameHost(host, host')
    ensures AllDone(l, steps, host')
  {
    forall i | 0 <= i < |steps| ensures CaptureOf(l.plans[i].keys, host', steps[i].after) {
      hide Read, CaptureOf;
      CaptureKept(l.plans[i].keys, host, host', steps[i].after);
    }
    hide Read, CaptureOf, Touched;
  }

  lemma StackedOfSame(host: Host, host': Host, remote: map<RunKey, Journal>, runs: seq<Launch>)
    requires Stacked(host, remote, runs) && SameHost(host, host')
    ensures Stacked(host', remote, runs)
  {
    if runs != [] {
      var l := runs[|runs| - 1];
      var steps :| AllDone(l, steps, host) && remote == Published(l, steps);
      AllDoneOfSame(l, steps, host, host');
      hide AllDone, Published, Launchable, NewestRun, SameHost;
      assert TopIs(l, host', remote);
    }
  }

  /** An apply that succeeds pushes its run. */
  lemma ApplyPushes(l: Launch, keepLocal: bool, w: World, s: Script, runs: seq<Launch>)
    requires From(l, w, s) && Noop !in l.modes && NewestRun(l) && Stacked(w.host, w.remote, runs)
    requires ApplyRun(l, keepLocal, w, s).pc == Finished(Applied)
    ensures var c := ApplyRun(l, keepLocal, w, s); Stacked(c.world.host, c.world.remote, runs + [l])
  {
    ApplyRunIsSafe(l, keepLocal, w, s);
    var c := ApplyRun(l, keepLocal, w, s);
    hide ApplyRun, AllDone, Launchable, NewestRun, Published;
    assert TopIs(l, c.world.host, c.world.remote);
    assert (runs + [l])[..|runs|] == runs;
  }

  ghost function RollbackRun(registered: set<string>, profile: string, force: bool, w: World, s: Script): Config {
    Exec(registered, Config(Acquire(RollbackRequest(profile, false, force)), w), s)
  }

  lemma StartsRollback(l: Launch, steps: seq<StepRecord>, force: bool, w: World)
    requires Launchable(l) && NewestRun(l) && AllDone(l, steps, w.host) && w.remote == Published(l, steps)
    ensures var r := RunOf(l, steps, w.host);
      Valid(r) && Inv(r, Config(Acquire(RollbackRequest(l.profile, false, force)), w))
  {
    hide Launchable, NewestRun, AllDone, Resumable, Undrifted, Valid, Published;
    AppliedIsResumable(l, steps, w);
  }

  lemma JournalGone(l: Launch, steps: seq<StepRecord>, remote: map<RunKey, Journal>)
    requires NewestRun(l) && RunKey(l.profile, l.runId) !in remote
    requires remote - {RunKey(l.profile, l.runId)} == Published(l, steps) - {RunKey(l.profile, l.runId)}
    ensures remote == l.remote0
  {
    KeyIsNew(l);
    var key := RunKey(l.profile, l.runId);
    assert remote == remote - {key};
    assert Published(l, steps) - {key} == l.remote0;
  }

  lemma PopOne(l: Launch, steps: seq<StepRecord>, force: bool, w: World, s: Script)
    requires Launchable(l) && Noop !in l.modes && NewestRun(l) && AllDone(l, steps, w.host) && w.remote == Published(l, steps)
    requires RollbackRun(l.registered, l.profile, force, w, s).pc == Finished(RolledBack)
    ensures var c := RollbackRun(l.registered, l.profile, force, w, s);
      SameHost(c.world.host, l.host0) && c.world.remote == l.remote0
  {
    hide Inv, Exec, Valid, NewestRun, AllDone, Launchable, Partly, Tried, Plan, Published, SameHost;
    var r := RunOf(l, steps, w.host);
    var start := Config(Acquire(RollbackRequest(l.profile, false, force)), w);
    StartsRollback(l, steps, force, w);
    InvAlways(r, start, s);
    OtherRunsAlwaysStay(r, start, s);
    var c := Exec(r.registered, start, s);
    FinishedMeans(r, c);
    ConsumedIsHost0(l, steps, w.host, c.world.host);
    JournalGone(l, steps, c.world.remote);
  }

  lemma FinishedMeans(r: Run, c: Config)
    requires Inv(r, c) && c.pc == Finished(RolledBack)
    ensures Consumed(r, c.world, [])
  {
    hide Consumed;
  }

  lemma KeyIsNew(l: Launch)
    requires NewestRun(l)
    ensures RunKey(l.profile, l.runId) !in l.remote0
  {
    assert RunKey(l.profile, l.runId) in l.remote0 ==> l.runId in RunIds(l.remote0, l.profile);
  }

  /** A rollback that succeeds pops the last run: host and journals are as that run found them. */
  lemma RollbackPops(force: bool, w: World, s: Script, runs: seq<Launch>)
    requires runs != [] && Stacked(w.host, w.remote, runs)
    requires var l := runs[|runs| - 1]; RollbackRun(l.registered, l.profile, force, w, s).pc == Finished(RolledBack)
    ensures var l := runs[|runs| - 1];
      var c := RollbackRun(l.registered, l.profile, force, w, s);
      && SameHost(c.world.host, l.host0) && c.world.remote == l.remote0
      && Stacked(c.world.host, c.world.remote, runs[..|runs| - 1])
  {
    var l := runs[|runs| - 1];
    var steps :| AllDone(l, steps, w.host) && w.remote == Published(l, steps);
    PopOne(l, steps, force, w, s);
    hide RollbackRun, AllDone, Published, TopIs;
    var c := RollbackRun(l.registered, l.profile, force, w, s);
    SameHostSymmetric(c.world.host, l.host0);
    StackedOfSame(l.host0, c.world.host, c.world.remote, runs[..|runs| - 1]);
  }

  lemma SameHostSymmetric(a: Host, b: Host)
    requires SameHost(a, b)
    ensures SameHost(b, a)
  {
    hide Read;
  }

  // --------------------------------------------------------- n applies, then k rollbacks

  /** Applies of one profile, each starting where the one before left the target, all successful. */
  ghost predicate AppliedInTurn(w: World, runs: seq<Launch>, scripts: seq<Script>, end: World)
    decreases |runs|
  {
    if runs == [] then scripts == [] && end == w
    else
      |scripts| == |runs| &&
      var n := |runs| - 1;
      exists mid: World :: AppliedInTurn(w, runs[..n], scripts[..n], mid)
        && From(runs[n], mid, scripts[n]) && Noop !in runs[n].modes
        && ApplyRun(runs[n], false, mid, scripts[n]) == Config(Finished(Applied), end)
  }

  predicate Earlier(a: Stamp, b: Stamp) { Before(a, b) && a != b }

  /** The clock moves on between the runs. */
  predicate InTimeOrder(stamps: seq<Stamp>) {
    forall i, j :: 0 <= i < j < |stamps| ==> Earlier(stamps[i], stamps[j])
  }

  /** The runs are named by the times they were started at. */
  predicate NamedBy(runs: seq<Launch>, stamps: seq<Stamp>) {
    |runs| == |stamps| && forall i :: 0 <= i < |runs| ==> InRange(stamps[i]) && runs[i].runId == RunId(stamps[i])
  }

  /** Every run of the profile on the target was started before this time. */
  ghost predicate AllEarlier(remote: map<RunKey, Journal>, profile: string, t: Stamp) {
    forall id <- RunIds(remote, profile) :: exists u :: InRange(u) && Earlier(u, t) && RunId(u) == id
  }

  /** The fixed-width names put a run started later after every earlier one. */
  lemma LaterRunIsNewest(l: Launch, t: Stamp)
    requires InRange(t) && l.runId == RunId(t) && AllEarlier(l.remote0, l.profile, t)
    ensures NewestRun(l)
  {
    hide InRange, RunId, StringLe, Before, RunIds;
    forall id <- RunIds(l.remote0, l.profile) ensures StringLe(id, l.runId) && id != l.runId {
      var u :| InRange(u) && Earlier(u, t) && RunId(u) == id;
      NameOrderIsTimeOrder(u, t);
      NameOrderIsTimeOrder(t, u);
      if id == l.runId { BeforeIsAntisymmetric(u, t); }
    }
  }

  lemma BeforeIsAntisymmetric(a: Stamp, b: Stamp)
    requires Before(a, b) && Before(b, a)
    ensures a == b
  {
  }

  lemma EarlierIsTransitive(a: Stamp, b: Stamp, c: Stamp)
    requires Earlier(a, b) && Earlier(b, c)
    ensures Earlier(a, c)
  {
  }

  lemma StillEarlier(l: Launch, steps: seq<StepRecord>, t: Stamp, next: Stamp)
    requires InRange(t) && l.runId == RunId(t) && AllEarlier(l.remote0, l.profile, t) && Earlier(t, next)
    ensures AllEarlier(Published(l, steps), l.profile, next)
  {
    hide InRange, RunId, Earlier;
    forall id <- RunIds(Published(l, steps), l.profile) ensures exists u :: InRange(u) && Earlier(u, next) && RunId(u) == id {
      if id != l.runId {
        assert id in RunIds(l.remote0, l.profile);
        var u :| InRange(u) && Earlier(u, t) && RunId(u) == id;
        EarlierIsTransitive(u, t, next);
      }
    }
  }

  /** One more apply, started later than every run on the target. */
  lemma ApplyStacks(l: Launch, mid: World, s: Script, end: World, runs: seq<Launch>, t: Stamp, next: Stamp)
    requires From(l, mid, s) && Noop !in l.modes && ApplyRun(l, false, mid, s) == Config(Finished(Applied), end)
    requires Stacked(mid.host, mid.remote, runs) && AllEarlier(mid.remote, l.profile, t)
    requires InRange(t) && l.runId == RunId(t) && Earlier(t, next)
    ensures Stacked(end.host, end.remote, runs + [l]) && AllEarlier(end.remote, l.profile, next)
  {
    hide RunId, Earlier, AllEarlier, InRange, ApplyRun, NewestRun, Launchable, AllDone, Published;
    LaterRunIsNewest(l, t);
    ApplyPushes(l, false, mid, s, runs);
    assert (runs + [l])[..|runs|] == runs;
    assert TopIs(l, end.host, end.remote);
    var steps :| AllDone(l, steps, end.host) && end.remote == Published(l, steps);
    StillEarlier(l, steps, t, next);
  }

  lemma OneTimeMore(stamps: seq<Stamp>, next: Stamp)
    requires stamps != [] && InTimeOrder(stamps + [next])
    ensures var n := |stamps| - 1;
      InTimeOrder(stamps[..n] + [stamps[n]]) && (stamps[..n] + [stamps[n]])[0] == (stamps + [next])[0] && Earlier(stamps[n], next)
  {
    hide Earlier;
    var n := |stamps| - 1;
    assert stamps[..n] + [stamps[n]] == stamps == (stamps + [next])[..n + 1];
    assert (stamps + [next])[n] == stamps[n] && (stamps + [next])[n + 1] == next;
  }

  lemma {:induction false} AppliesStack(w: World, runs: seq<Launch>, stamps: seq<Stamp>, scripts: seq<Script>, end: World,
                                        profile: string, next: Stamp)
    requires AppliedInTurn(w, runs, scripts, end) && NamedBy(runs, stamps) && InTimeOrder(stamps + [next])
    requires forall l <- runs :: l.profile == profile
    requires AllEarlier(w.remote, profile, (stamps + [next])[0])
    ensures Stacked(end.host, end.remote, runs) && AllEarlier(end.remote, profile, next)
    decreases |runs|
  {
    hide RunId, Earlier, AllEarlier, InRange, ApplyRun, From, TopIs, InTimeOrder;
    if runs != [] {
      var n := |runs| - 1;
      var mid :| AppliedInTurn(w, runs[..n], scripts[..n], mid)
        && From(runs[n], mid, scripts[n]) && Noop !in runs[n].modes
        && ApplyRun(runs[n], false, mid, scripts[n]) == Config(Finished(Applied), end);
      OneTimeMore(stamps, next);
      assert runs[n] in runs;
      AppliesStack(w, runs[..n], stamps[..n], scripts[..n], mid, profile, stamps[n]);
      hide Stacked, AppliedInTurn;
      ApplyStacks(runs[n], mid, scripts[n], end, runs[..n], stamps[n], next);
      assert runs == runs[..n] + [runs[n]];
    }
  }

  /** Rollbacks one after the other, all successful. */
  ghost predicate RolledBackInTurn(w: World, registered: set<string>, profile: string, scripts: seq<Script>, end: World)
    decreases |scripts|
  {
    if scripts == [] then end == w
    else
      exists mid: World :: RollbackRun(registered, profile, false, w, scripts[0]) == Config(Finished(RolledBack), mid)
        && RolledBackInTurn(mid, registered, profile, scripts[1..], end)
  }

  lemma {:induction false} RollbacksPop(w: World, registered: set<string>, profile: string, scripts: seq<Script>, end: World,
                                        runs: seq<Launch>)
    requires Stacked(w.host, w.remote, runs) && |scripts| <= |runs|
    requires forall l <- runs :: l.registered == registered && l.profile == profile
    requires RolledBackInTurn(w, registered, profile, scripts, end)
    ensures Stacked(end.host, end.remote, runs[..|runs| - |scripts|])
    ensures scripts != [] ==> var l := runs[|runs| - |scripts|]; SameHost(end.host, l.host0) && end.remote == l.remote0
    decreases |scripts|
  {
    hide RollbackRun, Stacked, SameHost;
    if scripts == [] {
      assert runs[..|runs|] == runs;
    } else {
      var l, init := runs[|runs| - 1], runs[..|runs| - 1];
      assert l in runs;
      var mid :| RollbackRun(registered, profile, false, w, scripts[0]) == Config(Finished(RolledBack), mid)
        && RolledBackInTurn(mid, registered, profile, scripts[1..], end);
      RollbackPops(false, w, scripts[0], runs);
      RollbacksPop(mid, registered, profile, scripts[1..], end, init);
      assert init[..|init| - |scripts[1..]|] == runs[..|runs| - |scripts|];
      if |scripts| == 1 { assert scripts[1..] == []; assert end == mid; }
    }
  }

  /** After n applies started at increasing times, k rollbacks undo the last k runs in reverse: the host is as run n-k+1
      found it, because the greatest name is that of the latest run. */
  lemma LastInFirstOut(w: World, runs: seq<Launch>, stamps: seq<Stamp>, applies: seq<Script>, top: World,
                       registered: set<string>, profile: string, rollbacks: seq<Script>, end: World)
    requires AppliedInTurn(w, runs, applies, top) && 0 < |rollbacks| <= |runs|
    requires NamedBy(runs, stamps) && InTimeOrder(stamps) && AllEarlier(w.remote, profile, stamps[0])
    requires forall l <- runs :: l.registered == registered && l.profile == profile
    requires RolledBackInTurn(top, registered, profile, rollbacks, end)
    ensures var l := runs[|runs| - |rollbacks|]; SameHost(end.host, l.host0) && end.remote == l.remote0
  {
    var last := stamps[|stamps| - 1];
    var next := last.(year := last.year + 1);
    NextYearIsLater(stamps, next);
    AppliesStack(w, runs, stamps, applies, top, profile, next);
    RollbacksPop(top, registered, profile, rollbacks, end, runs);
  }

  lemma NextYearIsLater(stamps: seq<Stamp>, next: Stamp)
    requires stamps != [] && InTimeOrder(stamps) && next == stamps[|stamps| - 1].(year := stamps[|stamps| - 1].year + 1)
    ensures InTimeOrder(stamps + [next]) && (stamps + [next])[0] == stamps[0]
  {
    var n := |stamps| - 1;
    assert Earlier(stamps[n], next);
    hide Earlier;
    forall i, j | 0 <= i < j < |stamps + [next]| ensures Earlier((stamps + [next])[i], (stamps + [next])[j]) {
      if j == |stamps| && i < n { EarlierIsTransitive(stamps[i], stamps[n], next); }
    }
  }
}
