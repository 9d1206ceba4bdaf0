// Whole rollbacks: any number of interrupted attempts, and what the one that finishes leaves.
module RollbackRuns {
  import opened Records
  import opened Journals
  import opened Protocol
  import opened RestorePass
  import opened Restoration
  import opened CrashResume

  /** The host with every journalled value of the plan put back. */
  function Restored(plan: seq<Attempt>, host: Host): Host
    requires forall a <- plan :: a.Restore?
  {
    if plan == [] then host else Restored(plan[1..], Put(host, plan[0].record))
  }

  lemma {:induction false} RestoredReads(plan: seq<Attempt>, host: Host, k: Key)
    requires DistinctRestores(plan)
    requires forall a <- plan :: a.Restore?
    ensures (forall a <- plan :: ObjectKey(a.record) != k) ==> Read(Restored(plan, host), k) == Read(host, k)
    ensures forall a <- plan :: ObjectKey(a.record) == k ==> Read(Restored(plan, host), k) == a.record
  {
    if plan != [] {
      assert plan[0] in plan && Own(plan[0].record);
      ReadAfterPut(host, plan[0].record, k);
      hide ObjectKey, Read, Put, Own;
      RestoredReads(plan[1..], Put(host, plan[0].record), k);
      assert plan == [plan[0]] + plan[1..];
      if ObjectKey(plan[0].record) == k {
        assert forall a <- plan[1..] :: ObjectKey(a.record) != k;
      }
    }
  }

  /** A host with every restore landed is the start host with the journalled values put back. */
  lemma FullyTriedIsRestored(plan: seq<Attempt>, start: Host, host: Host)
    requires DistinctRestores(plan) && Partly(plan, start, host) && Tried(plan, |plan|, host, [])
    requires forall a <- plan :: a.Restore?
    ensures SameHost(host, Restored(plan, start))
  {
    forall k ensures Read(host, k) == Read(Restored(plan, start), k) {
      AllTriedRestores(plan, start, host, k);
      RestoredReads(plan, start, k);
      hide ObjectKey, Read, Restored, Partly, Tried, DistinctRestores;
    }
  }

  // ------------------------------------------------------------------ repeated attempts

  function Command(r: Run, force: bool): Request { RollbackRequest(r.profile, r.local, force) }

  /** One attempt, after the operator cleared a stale lock. */
  ghost function OneAttempt(r: Run, force: bool, w: World, s: Script): Config {
    Exec(r.registered, Config(Acquire(Command(r, force)), w.(locked := false)), s)
  }

  /** The world after a series of attempts, each stopped by its script's end or finished. */
  ghost function After(r: Run, force: bool, w: World, scripts: seq<Script>): World {
    if scripts == [] then w
    else OneAttempt(r, force, After(r, force, w, scripts[..|scripts| - 1]), scripts[|scripts| - 1]).world
  }

  lemma AttemptKeeps(r: Run, force: bool, w: World, s: Script)
    requires Valid(r) && Resumable(r, w)
    ensures Inv(r, OneAttempt(r, force, w, s))
  {
    var w' := w.(locked := false);
    SameStores(r, w, w', Success);
    SameStores(r, w, w', RollingBack);
    hide Stored, Partly, SameHost, Loaded, Valid, FullPlan;
    var c := Config(Acquire(Command(r, force)), w');
    assert Inv(r, c);
    InvAlways(r, c, s);
  }

  lemma InvMeans(r: Run, c: Config)
    requires Inv(r, c)
    ensures Resumable(r, c.world) || exists failed :: Consumed(r, c.world, failed)
  {
    hide FullPlan, Partly, Tried, Loaded, SameHost;
  }

  /** Stopped anywhere, the journal is either still there to resume from or consumed after every restore was tried. */
  lemma AttemptStopsSafely(r: Run, force: bool, w: World, s: Script)
    requires Valid(r) && Resumable(r, w)
    ensures var c := OneAttempt(r, force, w, s);
      && (Resumable(r, c.world) || exists failed :: Consumed(r, c.world, failed))
      && (c.pc == Finished(RolledBack) ==> Consumed(r, c.world, []))
      && (c.pc.Finished? && c.pc.result.Degraded? ==> Consumed(r, c.world, c.pc.result.failed))
      && (c.pc.Finished? && c.pc.result in {NotLocked, Refused, Stuck} ==> Resumable(r, c.world))
  {
    AttemptKeeps(r, force, w, s);
    InvMeans(r, OneAttempt(r, force, w, s));
    hide OneAttempt, Resumable, Consumed, Valid;
  }

  /** Interrupted any number of times, a run whose journal is still there stays resumable. */
  lemma {:induction false} StaysResumable(r: Run, force: bool, w: World, scripts: seq<Script>)
    requires Valid(r) && Resumable(r, w)
    requires forall n :: 0 <= n <= |scripts| ==> !Gone(r, After(r, force, w, scripts[..n]))
    ensures Resumable(r, After(r, force, w, scripts))
  {
    hide OneAttempt, Resumable, Gone, Valid;
    if scripts != [] {
      var init := scripts[..|scripts| - 1];
      assert forall n :: 0 <= n <= |init| ==> init[..n] == scripts[..n];
      StaysResumable(r, force, w, init);
      AttemptStopsSafely(r, force, After(r, force, w, init), scripts[|scripts| - 1]);
      assert scripts[..|scripts|] == scripts;
      assert !Gone(r, After(r, force, w, scripts));
    }
  }

  /** The first attempt to finish leaves the host an uninterrupted rollback would, and no journal. */
  lemma CrashResumeRestores(r: Run, force: bool, w: World, scripts: seq<Script>, last: Script)
    requires Valid(r) && Resumable(r, w)
    requires forall n :: 0 <= n <= |scripts| ==> !Gone(r, After(r, force, w, scripts[..n]))
    requires OneAttempt(r, force, After(r, force, w, scripts), last).pc == Finished(RolledBack)
    ensures var c := OneAttempt(r, force, After(r, force, w, scripts), last);
      && Gone(r, c.world)
      && (forall a <- FullPlan(r) :: a.Restore?)
      && SameHost(c.world.host, Restored(FullPlan(r), r.pre))
  {
    StaysResumable(r, force, w, scripts);
    var c := OneAttempt(r, force, After(r, force, w, scripts), last);
    AttemptStopsSafely(r, force, After(r, force, w, scripts), last);
    PlanIsDistinct(r.registered, r.steps);
    PlanIsRestores(r.registered, r.steps);
    hide OneAttempt, Resumable, After, Plan, Tried, Partly, DistinctRestores, Applies, Owns;
    FullyTriedIsRestored(FullPlan(r), r.pre, c.world.host);
  }

  // ------------------------------------------------- what a consumed journal promises

  /** The restore cannot be skipped, or skipping it makes no difference. */
  predicate Assured(r: Run, a: Attempt) {
    a.Restore? && (!a.tolerant || Read(r.pre, ObjectKey(a.record)) == a.record)
  }

  lemma ResumableIsStored(r: Run, w: World)
    requires Resumable(r, w)
    ensures !Gone(r, w)
  {
    hide FullPlan, Partly, SameHost;
    if !r.local { ClaimedIsLoaded(r, w, if Stored(r, w, Success) then Success else RollingBack); }
  }

  /** Once the journal is gone every assured object is back, even if the process then died. */
  lemma ConsumedMeansBack(r: Run, w: World, failed: seq<ObjectRecord>, a: Attempt)
    requires Valid(r) && Consumed(r, w, failed) && a in FullPlan(r) && Assured(r, a)
    ensures Read(w.host, ObjectKey(a.record)) == a.record
  {
    var plan := FullPlan(r);
    PlanIsDistinct(r.registered, r.steps);
    hide Plan, FullPlan, Read, ObjectKey, Valid, Own;
    var i :| 0 <= i < |plan| && plan[i] == a;
    if Read(w.host, ObjectKey(a.record)) != Read(r.pre, ObjectKey(a.record)) {
      var b :| b in plan && b.Restore? && ObjectKey(b.record) == ObjectKey(a.record)
               && Read(w.host, ObjectKey(a.record)) == b.record;
      var j :| 0 <= j < |plan| && plan[j] == b;
      assert i == j;
    }
  }

  // ------------------------------------------------------------------- it does get there

  predicate Friendly(s: Script) { forall i :: 0 <= i < |s| ==> s[i].ok && s[i].blind == {} }

  /** How many actions are left when nothing fails. */
  function Left(r: Run, pc: Pc): nat {
    var n := |FullPlan(r)|;
    match pc
    case Acquire(_) => n + 7
    case Load(_, _, _) => n + 6
    case Preflight(_, _, _) => n + 5
    case Claim(_, _) => n + 4
    case Writing(_, _) => n + 4
    case Renaming(_, _) => n + 3
    case Reverting(_, plan, _) => |plan| + 2
    case Consume(_, _, _) => 2
    case Release(_) => 1
    case _ => 0
  }

  predicate Smooth(pc: Pc) {
    match pc
    case Release(result) => result == RolledBack
    case Finished(result) => result == RolledBack
    case Reverting(_, _, degraded) => degraded == []
    case Consume(_, _, degraded) => degraded == []
    case _ => true
  }

  lemma SmoothResume(r: Run, plan: seq<Attempt>)
    requires forall a <- plan :: a.Restore?
    ensures var pc := Resume(ForCommand(r.local, JournalOf(r, RollingBack)), plan, []);
      Smooth(pc) && Left(r, pc) <= |plan| + 2
  {
    assert plan != [] ==> plan[0] in plan;
    hide FullPlan;
  }

  /** A preflight still to come was told not to look for conflicts. */
  predicate Forced(pc: Pc) {
    match pc
    case Acquire(q) => q.RollbackRequest? && q.force
    case Load(_, _, force) => force
    case Preflight(_, force, _) => force
    case _ => true
  }

  /** Nothing has drifted, or nobody looks. */
  ghost predicate Eased(r: Run, pc: Pc) { Undrifted(r.registered, r.steps, r.pre) || Forced(pc) }

  lemma SmoothNext(r: Run, c: Config, o: Outcome)
    requires Valid(r) && Eased(r, c.pc) && Sound(c.pc) && Inv(r, c) && Smooth(c.pc)
    requires !c.pc.Finished? && o.ok && o.blind == {} && (c.pc.Acquire? ==> !c.world.locked)
    ensures var d := Next(r.registered, c.pc, c.world, o);
      Smooth(d.pc) && Left(r, d.pc) < Left(r, c.pc) && !d.pc.Acquire? && Eased(r, d.pc)
  {
    if c.pc.Preflight? {
      SmoothPreflight(r, c, o);
    } else if c.pc.Claim? || c.pc.Writing? || c.pc.Renaming? {
      SmoothClaim(r, c, o);
    } else if c.pc.Reverting? {
      SmoothReverting(r, c.pc.revert, c.pc.plan, c.world, o);
    } else if c.pc.Load? {
      SmoothLoad(r, c, o);
    }
    hide Undrifted, Valid, Plan, Going, Resumable, Loaded, OnPreflight, OnLoad, OnClaim, OnWriting, OnRenaming, OnReverting, FullPlan;
  }

  lemma SmoothLoad(r: Run, c: Config, o: Outcome)
    requires Inv(r, c) && c.pc.Load? && o.ok
    ensures var d := Next(r.registered, c.pc, c.world, o); d.pc.Preflight? && d.pc.force == c.pc.force
  {
    hide Loaded, Partly, SameHost, FullPlan;
  }

  lemma SmoothPreflight(r: Run, c: Config, o: Outcome)
    requires Valid(r) && Eased(r, c.pc) && Inv(r, c) && c.pc.Preflight? && o.ok && o.blind == {}
    ensures Next(r.registered, c.pc, c.world, o).pc.Claim?
  {
    if !c.pc.force {
      PreflightAlwaysPasses(r.registered, r.steps, r.pre, c.world.host, c.pc.resuming);
    }
    hide Undrifted, Plan, Partly, SameHost, Loaded, AllRegistered, NoConflicts;
  }

  lemma SmoothClaim(r: Run, c: Config, o: Outcome)
    requires Valid(r) && Inv(r, c) && (c.pc.Claim? || c.pc.Writing? || c.pc.Renaming?) && o.ok
    ensures var d := Next(r.registered, c.pc, c.world, o);
      Smooth(d.pc) && Left(r, d.pc) < Left(r, c.pc) && !d.pc.Acquire?
  {
    PlanIsRestores(r.registered, r.steps);
    hide Valid, Plan, Resumable, Loaded, Resume;
    SmoothResume(r, FullPlan(r));
  }

  lemma SmoothReverting(r: Run, v: Revert, plan: seq<Attempt>, w: World, o: Outcome)
    requires Valid(r) && Claimed(r, v) && Going(r, w, plan, []) && plan != [] && plan[0].Restore? && o.ok
    ensures var d := OnReverting(v, plan, [], w, o);
      Smooth(d.pc) && Left(r, d.pc) < |plan| + 2 && !d.pc.Acquire?
  {
    PlanIsRestores(r.registered, r.steps);
    var full := FullPlan(r);
    assert forall i :: 0 <= i < |plan| ==> plan[i] == full[|full| - |plan| + i];
    hide Plan, FullPlan, Valid, Stored, Partly, Tried, Put;
    assert forall a <- plan[1..] :: a in full;
    SmoothResume(r, plan[1..]);
  }

  lemma SomethingLeft(r: Run, c: Config)
    requires Inv(r, c)
    ensures c.pc.Finished? || Left(r, c.pc) > 0
  {
    hide FullPlan, Resumable, Ended, Going, Loaded;
  }

  lemma {:induction false} SmoothRun(r: Run, c: Config, s: Script)
    requires Valid(r) && Eased(r, c.pc) && Sound(c.pc) && Inv(r, c) && Smooth(c.pc)
    requires Friendly(s) && |s| >= Left(r, c.pc) && (c.pc.Acquire? ==> !c.world.locked)
    ensures Exec(r.registered, c, s).pc == Finished(RolledBack)
    decreases |s|
  {
    SomethingLeft(r, c);
    hide Valid, Eased, Inv, Next, Left;
    if !c.pc.Finished? {
      InvNext(r, c, s[0]);
      NextIsSound(r.registered, c.pc, c.world, s[0]);
      SmoothNext(r, c, s[0]);
      SmoothRun(r, Next(r.registered, c.pc, c.world, s[0]), s[1..]);
    }
  }

  /** After any interruptions, an attempt that meets no failure passes its preflight without force and finishes. */
  lemma ResumeFinishes(r: Run, w: World, scripts: seq<Script>, s: Script)
    requires Valid(r) && Resumable(r, w) && Undrifted(r.registered, r.steps, r.pre)
    requires forall n :: 0 <= n <= |scripts| ==> !Gone(r, After(r, false, w, scripts[..n]))
    requires Friendly(s) && |s| >= |FullPlan(r)| + 7
    ensures OneAttempt(r, false, After(r, false, w, scripts), s).pc == Finished(RolledBack)
  {
    StaysResumable(r, false, w, scripts);
    var v := After(r, false, w, scripts);
    var w' := v.(locked := false);
    SameStores(r, v, w', Success);
    SameStores(r, v, w', RollingBack);
    hide Stored, Partly, SameHost, Loaded, Valid, Undrifted, FullPlan, After, Friendly;
    SmoothRun(r, Config(Acquire(Command(r, false)), w'), s);
  }
}
