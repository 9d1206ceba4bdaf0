// A rollback interrupted anywhere, any number of times, can be run again until it finishes.
module CrashResume {
  import opened Wrappers
  import opened Records
  import opened Journals
  import opened Protocol
  import opened RestorePass
  import opened Restoration

  /** One journalled run: where its journal is, its steps, and the host its apply left. */
  datatype Run = Run(registered: set<string>, local: bool, profile: string, runId: string,
                     steps: seq<StepRecord>, pre: Host)

  function FullPlan(r: Run): seq<Attempt> { Plan(r.registered, r.steps) }

  function JournalOf(r: Run, status: Status): Journal { Journal(r.profile, r.runId, status, r.steps) }

  /** Every after-object is one the step captured before, and `pre` holds it at that value. */
  ghost predicate AfterIsLive(s: StepRecord, pre: Host) {
    forall o <- s.after :: Ordinary(o) ==>
      (PayloadPresent(o) && Read(pre, ObjectKey(o)) == o
       && exists b :: b in s.before && Ordinary(b) && ObjectKey(b) == ObjectKey(o))
  }

  /** The steps of a finished run whose objects nobody has changed since. */
  ghost predicate Undrifted(registered: set<string>, steps: seq<StepRecord>, pre: Host) {
    Separate(steps) && AllRegistered(registered, steps) && forall s <- steps :: AfterIsLive(s, pre)
  }

  lemma BeforeOfKey(steps: seq<StepRecord>, i: nat, k: Key, b: ObjectRecord)
    requires Separate(steps) && i < |steps| && b in steps[i].before && Ordinary(b) && ObjectKey(b) == k
    ensures k in ByKey(steps[i].before) && ByKey(steps[i].before)[k] == b
  {
    var before := steps[i].before;
    assert steps[i] in steps;
    ByKeyKeys(before);
    var p :| 0 <= p < |before| && before[p] == b;
    hide ByKey, Applies;
    assert ObjectKey(before[p]) == k;
    var x := ByKey(before)[k];
    var q :| 0 <= q < |before| && before[q] == x;
    assert k.Key? && k.kind != Policy;
    assert Ordinary(x);
    hide ObjectKey, PayloadPresent, Ordinary;
    assert p == q;
  }

  /** Whatever part of the plan has landed, no object is in the way of going on. */
  lemma NothingInTheWay(registered: set<string>, steps: seq<StepRecord>, pre: Host, host: Host, i: nat, o: ObjectRecord)
    requires Undrifted(registered, steps, pre) && Partly(Plan(registered, steps), pre, host)
    requires i < |steps| && o in steps[i].after
    ensures !InTheWay(View(host, {}), steps[i], true, o)
  {
    var k, s, view := ObjectKey(o), steps[i], View(host, {});
    assert s in steps;
    PlanIsDistinct(registered, steps);
    hide Applies, Plan, ByKey, Read, AllRegistered;
    if Ordinary(o) && Read(host, k) != Read(pre, k) {
      var b :| b in s.before && Ordinary(b) && ObjectKey(b) == k;
      BeforeOfKey(steps, i, k, b);
      var a :| a in Plan(registered, steps) && a.Restore? && ObjectKey(a.record) == k && Read(host, k) == a.record;
      var j :| 0 <= j < |steps| && Owns(steps[j], a) && Reverts(steps[j], steps);
      SameOwner(steps, i, b, j, a.record);
    }
  }

  lemma SameOwner(steps: seq<StepRecord>, i: nat, b: ObjectRecord, j: nat, c: ObjectRecord)
    requires Separate(steps) && i < |steps| && j < |steps| && b in steps[i].before && c in steps[j].before
    requires Ordinary(b) && Ordinary(c) && ObjectKey(b) == ObjectKey(c)
    ensures b == c
  {
    hide ObjectKey, PayloadPresent, Ordinary;
    var p :| 0 <= p < |steps[i].before| && steps[i].before[p] == b;
    var q :| 0 <= q < |steps[j].before| && steps[j].before[q] == c;
  }

  lemma AtTheStart(registered: set<string>, steps: seq<StepRecord>, pre: Host, host: Host, i: nat, o: ObjectRecord)
    requires Undrifted(registered, steps, pre) && SameHost(pre, host)
    requires i < |steps| && o in steps[i].after
    ensures !InTheWay(View(host, {}), steps[i], false, o)
  {
    assert steps[i] in steps;
    hide Read, ByKey, ObjectKey, Applies;
  }

  ghost predicate SameHost(a: Host, b: Host) { forall k :: Read(a, k) == Read(b, k) }

  lemma HasAnElement<T>(s: seq<T>)
    ensures s == [] || exists x :: x in s
  {
    if s != [] { assert s[0] in s; }
  }

  /** With the host readable and no third-party change, a fresh or a resuming preflight passes without force. */
  lemma PreflightAlwaysPasses(registered: set<string>, steps: seq<StepRecord>, pre: Host, host: Host, resuming: bool)
    requires Undrifted(registered, steps, pre)
    requires if resuming then Partly(Plan(registered, steps), pre, host) else SameHost(pre, host)
    ensures PreflightPasses(View(host, {}), registered, steps, false, resuming)
  {
    var view := View(host, {});
    forall i | 0 <= i < |steps| && Applies(steps[i], steps) ensures Conflicts(view, registered, steps[i], resuming) == [] {
      ConflictsAre(view, steps[i], resuming, steps[i].after);
      forall o <- steps[i].after ensures !InTheWay(view, steps[i], resuming, o) {
        if resuming { NothingInTheWay(registered, steps, pre, host, i, o); } else { AtTheStart(registered, steps, pre, host, i, o); }
      }
      hide InTheWay, Applies;
      var found := ConflictsAmong(view, steps[i], resuming, steps[i].after);
      HasAnElement(found);
    }
    hide Applies, Conflicts, Plan;
  }

  // ----------------------------------------------------------------- the invariant

  /** The journal is the one a rollback would load. */
  ghost predicate Stored(r: Run, w: World, status: Status) {
    Loaded(w, r.profile, r.local) == Some(JournalOf(r, status))
  }

  ghost predicate Gone(r: Run, w: World) {
    if r.local then r.profile !in w.last else RunKey(r.profile, r.runId) !in w.remote
  }

  /** Resumable: the journal is stored, and unless a rollback has claimed it the host is untouched. */
  ghost predicate Resumable(r: Run, w: World) {
    && (Stored(r, w, Success) || Stored(r, w, RollingBack))
    && (Stored(r, w, Success) ==> SameHost(r.pre, w.host))
    && Partly(FullPlan(r), r.pre, w.host)
  }

  /** The journal is consumed; every restore has landed or was excused. */
  ghost predicate Consumed(r: Run, w: World, failed: seq<ObjectRecord>) {
    Gone(r, w) && Partly(FullPlan(r), r.pre, w.host) && Tried(FullPlan(r), |FullPlan(r)|, w.host, failed)
  }

  ghost predicate Ended(r: Run, w: World, result: Ending) {
    match result
    case RolledBack => Consumed(r, w, [])
    case Degraded(failed) => failed != [] && Consumed(r, w, failed)
    case NotConsumed => Resumable(r, w) || exists failed :: Consumed(r, w, failed)
    case _ => Resumable(r, w)
  }

  ghost predicate Claimed(r: Run, v: Revert) { v == ForCommand(r.local, JournalOf(r, RollingBack)) }

  ghost predicate Going(r: Run, w: World, plan: seq<Attempt>, failed: seq<ObjectRecord>) {
    && Stored(r, w, RollingBack) && |plan| <= |FullPlan(r)|
    && plan == FullPlan(r)[|FullPlan(r)| - |plan|..]
    && Tried(FullPlan(r), |FullPlan(r)| - |plan|, w.host, failed)
    && Partly(FullPlan(r), r.pre, w.host)
  }

  /** What holds at every point of a rollback of this run. */
  ghost predicate Inv(r: Run, c: Config) {
    match c.pc
    case Acquire(q) => q.RollbackRequest? && q.profile == r.profile && q.localJournal == r.local && Resumable(r, c.world)
    case Load(profile, local, _) => profile == r.profile && local == r.local && Resumable(r, c.world)
    case Preflight(v, _, resuming) =>
      && Resumable(r, c.world) && v == ForCommand(r.local, JournalOf(r, if resuming then RollingBack else Success))
      && Stored(r, c.world, if resuming then RollingBack else Success)
    case Claim(local, j) =>
      local == r.local && (j == JournalOf(r, Success) || j == JournalOf(r, RollingBack)) && Resumable(r, c.world)
    case Writing(j, s) => r.local && j == JournalOf(r, RollingBack) && s == ClaimSave(j) && Resumable(r, c.world)
    case Renaming(j, s) =>
      && r.local && j == JournalOf(r, RollingBack) && s == ClaimSave(j) && Resumable(r, c.world)
      && r.profile in c.world.tmp && c.world.tmp[r.profile] == Whole(j)
    case Reverting(v, plan, failed) => Claimed(r, v) && Going(r, c.world, plan, failed)
    case Consume(local, j, failed) =>
      local == r.local && j == JournalOf(r, RollingBack) && Going(r, c.world, [], failed)
    case Release(result) => Ended(r, c.world, result)
    case Finished(result) => Ended(r, c.world, result)
    case _ => false
  }

  ghost predicate Valid(r: Run) {
    Separate(r.steps) && AllRegistered(r.registered, r.steps)
  }

  /** Rewriting the latest run's journal leaves it the latest. */
  lemma ClaimedIsLoaded(r: Run, w: World, status: Status)
    requires !r.local && Stored(r, w, status)
    ensures Stored(r, w.(remote := w.remote[RunKey(r.profile, r.runId) := JournalOf(r, RollingBack)]), RollingBack)
    ensures RunKey(r.profile, r.runId) in w.remote
  {
    var ids := RunIds(w.remote, r.profile);
    var remote := w.remote[RunKey(r.profile, r.runId) := JournalOf(r, RollingBack)];
    assert Latest(ids) == Some(r.runId) && r.runId in ids;
    assert RunIds(remote, r.profile) == ids;
  }

  lemma SameStores(r: Run, w: World, w': World, status: Status)
    requires w.last == w'.last && w.remote == w'.remote
    ensures Stored(r, w, status) == Stored(r, w', status) && Gone(r, w) == Gone(r, w')
  {
  }

  lemma ResumeKeepsGoing(r: Run, w: World, plan: seq<Attempt>, failed: seq<ObjectRecord>)
    requires Valid(r) && Going(r, w, plan, failed)
    ensures Inv(r, Config(Resume(ForCommand(r.local, JournalOf(r, RollingBack)), plan, failed), w))
  {
    hide Going, Valid, Plan, Resumable, Ended, Consumed, Stored, Loaded, Partly, Tried, FullPlan, SameHost;
    NextIsRestore(r, w, plan, failed);
    var v := ForCommand(r.local, JournalOf(r, RollingBack));
    assert Resume(v, plan, failed) == if plan == [] then Consume(r.local, v.journal, failed) else Pc.Reverting(v, plan, failed);
  }

  lemma RevertingIsGoing(r: Run, c: Config)
    requires Inv(r, c) && c.pc.Reverting?
    ensures Going(r, c.world, c.pc.plan, c.pc.degraded) && Claimed(r, c.pc.revert)
  {
    hide Going;
  }

  lemma NextIsRestore(r: Run, w: World, plan: seq<Attempt>, failed: seq<ObjectRecord>)
    requires Valid(r) && Going(r, w, plan, failed)
    ensures plan == [] || plan[0].Restore?
  {
    PlanIsRestores(r.registered, r.steps);
    var full := FullPlan(r);
    hide Plan, Stored, Valid, Partly, Tried, FullPlan;
    assert forall i :: 0 <= i < |full| ==> full[i] in full;
    assert forall i :: 0 <= i < |plan| ==> plan[i] == full[|full| - |plan| + i];
  }

  lemma StartsGoing(r: Run, w: World)
    requires Valid(r) && Stored(r, w, RollingBack) && Partly(FullPlan(r), r.pre, w.host)
    ensures Inv(r, Config(Resume(ForCommand(r.local, JournalOf(r, RollingBack)), FullPlan(r), []), w))
  {
    hide Plan, Stored, Partly, Resume;
    ResumeKeepsGoing(r, w, FullPlan(r), []);
  }

  lemma OnLoadKeeps(r: Run, force: bool, w: World, o: Outcome)
    requires Resumable(r, w)
    ensures Inv(r, Config(OnLoad(r.profile, r.local, force, w, o), w))
  {
    hide Loaded, FullPlan, Partly, SameHost;
  }

  lemma OnPreflightKeeps(r: Run, v: Revert, force: bool, resuming: bool, w: World, o: Outcome)
    requires Inv(r, Config(Preflight(v, force, resuming), w))
    ensures Inv(r, Config(OnPreflight(r.registered, v, force, resuming, w, o), w))
  {
    hide PreflightPasses, Plan, Loaded, Stored, FullPlan, Partly, SameHost;
  }

  lemma OnClaimKeeps(r: Run, j: Journal, w: World, o: Outcome)
    requires Valid(r) && Inv(r, Config(Claim(r.local, j), w))
    ensures Inv(r, OnClaim(r.registered, r.local, j, w, o))
  {
    var claimed := j.(status := RollingBack);
    hide Partly, SameHost;
    if r.local {
      OnWritingKeeps(r, claimed, w, o);
    } else {
      var status := if Stored(r, w, Success) then Success else RollingBack;
      ClaimedIsLoaded(r, w, status);
      var w' := if Landed(o) then w.(remote := w.remote[RemoteKey(claimed) := claimed]) else w;
      hide Loaded, Resume, Plan, Valid;
      if o.ok { StartsGoing(r, w'); }
    }
  }

  lemma OnWritingKeeps(r: Run, j: Journal, w: World, o: Outcome)
    requires Inv(r, Config(Writing(j, ClaimSave(j)), w))
    ensures Inv(r, OnWriting(j, ClaimSave(j), r.registered, w, o))
  {
    hide Partly, SameHost, Loaded, Plan, Stored, Resume, FullPlan;
    var w' := OnWriting(j, ClaimSave(j), r.registered, w, o).world;
    SameStores(r, w, w', Success);
    SameStores(r, w, w', RollingBack);
    assert Resumable(r, w');
    hide Resumable;
  }

  lemma OnRenamingKeeps(r: Run, j: Journal, w: World, o: Outcome)
    requires Valid(r) && Inv(r, Config(Renaming(j, ClaimSave(j)), w))
    ensures Inv(r, OnRenaming(j, ClaimSave(j), r.registered, w, o))
  {
    var w' := OnRenaming(j, ClaimSave(j), r.registered, w, o).world;
    hide Partly, SameHost, Plan, Resume, Valid;
    assert Landed(o) ==> Stored(r, w', RollingBack);
    hide Loaded;
    if o.ok { StartsGoing(r, w'); }
  }

  lemma OneMoreTried(r: Run, plan: seq<Attempt>, failed: seq<ObjectRecord>, w: World, o: Outcome)
    requires Valid(r) && plan != [] && plan[0].Restore? && Going(r, w, plan, failed)
    ensures var w' := if Landed(o) then w.(host := Put(w.host, plan[0].record)) else w;
      && (o.ok ==> Going(r, w', plan[1..], failed))
      && (plan[0].tolerant ==> Going(r, w', plan[1..], failed + [plan[0].record]))
      && Stored(r, w', RollingBack) && Partly(FullPlan(r), r.pre, w'.host)
  {
    var full := FullPlan(r);
    var m := |full| - |plan|;
    PlanIsDistinct(r.registered, r.steps);
    assert plan[0] == full[m] && plan[1..] == full[m + 1..];
    hide Plan, Valid, Applies, Owns;
    OneRestore(full, m, r.pre, w.host, failed, o);
    var w' := if Landed(o) then w.(host := Put(w.host, plan[0].record)) else w;
    SameStores(r, w, w', RollingBack);
    hide Partly, Tried, Put, DistinctRestores, Stored, FullPlan;
  }

  lemma ClaimedIsResumable(r: Run, w: World)
    requires Stored(r, w, RollingBack) && Partly(FullPlan(r), r.pre, w.host)
    ensures Resumable(r, w)
  {
    hide Partly, FullPlan, SameHost, Loaded;
  }

  lemma OnRevertingKeeps(r: Run, plan: seq<Attempt>, failed: seq<ObjectRecord>, w: World, o: Outcome)
    requires Valid(r) && plan != [] && plan[0].Restore? && Going(r, w, plan, failed)
    ensures Inv(r, OnReverting(ForCommand(r.local, JournalOf(r, RollingBack)), plan, failed, w, o))
  {
    OneMoreTried(r, plan, failed, w, o);
    var w' := if Landed(o) then w.(host := Put(w.host, plan[0].record)) else w;
    hide Going, Stored, FullPlan, Partly, Put, Valid, Resume, Resumable;
    if o.ok {
      ResumeKeepsGoing(r, w', plan[1..], failed);
    } else if plan[0].tolerant {
      ResumeKeepsGoing(r, w', plan[1..], failed + [plan[0].record]);
    } else {
      ClaimedIsResumable(r, w');
    }
  }

  lemma OnConsumeKeeps(r: Run, failed: seq<ObjectRecord>, w: World, o: Outcome)
    requires Going(r, w, [], failed)
    ensures Inv(r, OnConsume(r.local, JournalOf(r, RollingBack), failed, w, o))
  {
    var c := OnConsume(r.local, JournalOf(r, RollingBack), failed, w, o);
    hide Plan, FullPlan, Partly, Tried, Loaded, SameHost;
    if Landed(o) {
      assert Consumed(r, c.world, failed);
    } else {
      assert c.world == w;
      assert Resumable(r, w);
    }
  }

  /** Every atomic action of a rollback, whatever the environment answers, keeps the invariant. */
  lemma InvNext(r: Run, c: Config, o: Outcome)
    requires Valid(r) && Sound(c.pc) && Inv(r, c)
    ensures Inv(r, Next(r.registered, c.pc, c.world, o))
  {
    var w := c.world;
    hide Partly, Tried, Going, SameHost, Plan, FullPlan, Valid, OnLoad, OnPreflight, OnClaim, OnWriting, OnRenaming,
         OnReverting, OnConsume, OnCapturingBefore, OnApplyingStep, OnCapturingAfter, OnPublishing, Loaded,
         Resumable, Ended, Stored, JournalOf, Claimed, Failing, NextStep;
    match c.pc
    case Acquire(q) => OnAcquireKeeps(r, q, w, o);
    case Load(_, _, force) => OnLoadKeeps(r, force, w, o);
    case Preflight(v, force, resuming) => OnPreflightKeeps(r, v, force, resuming, w, o);
    case Claim(_, j) => OnClaimKeeps(r, j, w, o);
    case Writing(j, s) => OnWritingKeeps(r, j, w, o);
    case Renaming(j, s) => OnRenamingKeeps(r, j, w, o);
    case Reverting(v, plan, failed) => OnTryingKeeps(r, v, plan, failed, w, o);
    case Consume(_, j, failed) => OnLastKeeps(r, j, failed, w, o);
    case Release(result) => ReleaseKeeps(r, result, w, if Landed(o) then w.(locked := false) else w);
    case Finished(_) =>
  }

  lemma OnAcquireKeeps(r: Run, q: Request, w: World, o: Outcome)
    requires Inv(r, Config(Acquire(q), w))
    ensures Inv(r, Next(r.registered, Acquire(q), w, o))
  {
    var w' := if Landed(o) then w.(locked := true) else w;
    SameStores(r, w, w', Success);
    SameStores(r, w, w', RollingBack);
    hide Partly, SameHost, FullPlan, Loaded, Stored;
    assert Resumable(r, w');
  }

  lemma OnTryingKeeps(r: Run, v: Revert, plan: seq<Attempt>, failed: seq<ObjectRecord>, w: World, o: Outcome)
    requires Valid(r) && plan != [] && plan[0].Restore? && Inv(r, Config(Reverting(v, plan, failed), w))
    ensures Inv(r, OnReverting(v, plan, failed, w, o))
  {
    hide Valid, Going, OnReverting;
    OnRevertingKeeps(r, plan, failed, w, o);
  }

  lemma OnLastKeeps(r: Run, j: Journal, failed: seq<ObjectRecord>, w: World, o: Outcome)
    requires Inv(r, Config(Consume(r.local, j, failed), w))
    ensures Inv(r, OnConsume(r.local, j, failed, w, o))
  {
    hide Going, OnConsume, Ended, Resumable;
    OnConsumeKeeps(r, failed, w, o);
  }

  lemma ReleaseKeeps(r: Run, result: Ending, w: World, w': World)
    requires Ended(r, w, result) && w' == w.(locked := w'.locked)
    ensures Ended(r, w', result)
  {
    SameStores(r, w, w', Success);
    SameStores(r, w, w', RollingBack);
    hide Partly, Tried, SameHost, Plan, FullPlan, Loaded, Stored, Gone;
    if result.NotConsumed? && !Resumable(r, w) {
      var failed :| Consumed(r, w, failed);
      assert Consumed(r, w', failed);
    }
  }

  lemma {:induction false} InvAlways(r: Run, c: Config, s: Script)
    requires Valid(r) && Sound(c.pc) && Inv(r, c)
    ensures Inv(r, Exec(r.registered, c, s))
    decreases |s|
  {
    hide Inv, Valid, Next;
    if s != [] && !c.pc.Finished? {
      InvNext(r, c, s[0]);
      NextIsSound(r.registered, c.pc, c.world, s[0]);
      InvAlways(r, Next(r.registered, c.pc, c.world, s[0]), s[1..]);
    }
  }
}
