// When a consumed journal means a restored host, and how a tolerated failure breaks it.
module DegradedEnds {
  import opened Wrappers
  import opened Records
  import opened Journals
  import opened Protocol
  import opened RestorePass
  import opened Restoration
  import opened CrashResume
  import opened RollbackRuns

  const GOOD: Outcome := Outcome(true, true, false, {}, [], map[], OtherMode, [], None)
  const BAD: Outcome := Outcome(false, false, false, {}, [], map[], OtherMode, [], None)

  // --------------------------------------------------- an attempt that loses one restore

  /** The object is still as the run left it. */
  predicate Unrestored(r: Run, a: Attempt, host: Host)
    requires a.Restore?
  {
    Read(host, ObjectKey(a.record)) == Read(r.pre, ObjectKey(a.record))
  }

  /** No failure so far, and the restore is still to come. */
  ghost predicate Before(r: Run, a: Attempt, c: Config)
    requires a.Restore?
  {
    && Sound(c.pc) && Inv(r, c) && Smooth(c.pc) && Eased(r, c.pc) && Unrestored(r, a, c.world.host)
    && (c.pc.Reverting? ==> a in c.pc.plan) && !c.pc.Consume? && !c.pc.Release? && !c.pc.Finished?
    && (c.pc.Acquire? ==> !c.world.locked)
  }

  /** Its failure was tolerated, and nothing else fails. */
  ghost predicate Beyond(r: Run, a: Attempt, c: Config)
    requires a.Restore?
  {
    && Sound(c.pc) && Inv(r, c) && Unrestored(r, a, c.world.host)
    && match c.pc
       case Reverting(_, plan, degraded) => degraded == [a.record] && a !in plan
       case Consume(_, _, degraded) => degraded == [a.record]
       case Release(result) => result == Degraded([a.record])
       case Finished(result) => result == Degraded([a.record])
       case _ => false
  }

  lemma PutElsewhere(r: Run, a: Attempt, b: Attempt, host: Host)
    requires Valid(r) && a in FullPlan(r) && b in FullPlan(r) && a != b && a.Restore? && b.Restore? && Unrestored(r, a, host)
    ensures Unrestored(r, a, Put(host, b.record))
  {
    PlanIsDistinct(r.registered, r.steps);
    var plan := FullPlan(r);
    hide Plan, FullPlan, Valid, Applies, Owns;
    var i :| 0 <= i < |plan| && plan[i] == a;
    var j :| 0 <= j < |plan| && plan[j] == b;
    assert i != j && Own(b.record);
    assert ObjectKey(a.record) != ObjectKey(b.record);
    ReadAfterPut(host, b.record, ObjectKey(a.record));
  }

  lemma TailOf(full: seq<Attempt>, plan: seq<Attempt>)
    requires |plan| <= |full| && plan == full[|full| - |plan|..] && DistinctRestores(full)
    ensures forall b <- plan :: b in full && b.Restore?
    ensures forall i :: 0 < i < |plan| ==> plan[0] != plan[i]
  {
    hide ObjectKey, Own;
    assert forall i :: 0 <= i < |plan| ==> plan[i] == full[|full| - |plan| + i];
  }

  lemma InThePlan(r: Run, w: World, plan: seq<Attempt>, failed: seq<ObjectRecord>)
    requires Valid(r) && Going(r, w, plan, failed)
    ensures forall b <- plan :: b in FullPlan(r) && b.Restore?
    ensures forall i :: 0 < i < |plan| ==> plan[0] != plan[i]
  {
    PlanIsDistinct(r.registered, r.steps);
    hide Plan, Valid, Applies, Owns, Stored, Partly, Tried, DistinctRestores;
    TailOf(FullPlan(r), plan);
  }

  lemma RevertingStaysBefore(r: Run, a: Attempt, c: Config)
    requires Valid(r) && a.Restore? && a in FullPlan(r) && Before(r, a, c)
    requires c.pc.Reverting? && c.pc.plan[0] != a
    ensures var d := Next(r.registered, c.pc, c.world, GOOD);
      d.pc.Reverting? && a in d.pc.plan && Unrestored(r, a, d.world.host)
  {
    var v, plan := c.pc.revert, c.pc.plan;
    InThePlan(r, c.world, plan, []);
    assert plan[0] in plan;
    PutElsewhere(r, a, plan[0], c.world.host);
    assert plan == [plan[0]] + plan[1..];
    assert a in plan[1..];
    PlanGoesOn(r, a, v, plan[1..], []);
    hide Plan, FullPlan, Valid, Partly, Tried, Eased, Stored, Put, Left, Resume, Unrestored;
  }

  /** Where a claim that succeeds leads. */
  predicate StartsPlan(r: Run, pc: Pc) {
    pc == Resume(ForCommand(r.local, JournalOf(r, RollingBack)), FullPlan(r), [])
  }

  lemma ClaimingStarts(r: Run, c: Config)
    requires Inv(r, c) && (c.pc.Claim? || c.pc.Writing? || c.pc.Renaming?)
    ensures var d := Next(r.registered, c.pc, c.world, GOOD);
      d.world.host == c.world.host && (d.pc.Renaming? || StartsPlan(r, d.pc))
  {
    hide Plan, Resumable, Resume;
  }

  lemma ClaimingStaysBefore(r: Run, a: Attempt, c: Config)
    requires Valid(r) && a.Restore? && a in FullPlan(r) && Inv(r, c) && (c.pc.Claim? || c.pc.Writing? || c.pc.Renaming?)
    ensures var d := Next(r.registered, c.pc, c.world, GOOD);
      d.world.host == c.world.host && (d.pc.Renaming? || (d.pc.Reverting? && a in d.pc.plan))
  {
    PlanIsRestores(r.registered, r.steps);
    ClaimingStarts(r, c);
    hide Plan, Inv, Next, Valid, Resume;
    PlanGoesOn(r, a, ForCommand(r.local, JournalOf(r, RollingBack)), FullPlan(r), []);
  }

  lemma StaysBefore(r: Run, a: Attempt, c: Config)
    requires Valid(r) && a.Restore? && a in FullPlan(r) && Before(r, a, c)
    requires c.pc.Reverting? ==> c.pc.plan[0] != a
    ensures var d := Next(r.registered, c.pc, c.world, GOOD); Before(r, a, d) && Left(r, d.pc) < Left(r, c.pc)
  {
    InvNext(r, c, GOOD);
    NextIsSound(r.registered, c.pc, c.world, GOOD);
    SmoothNext(r, c, GOOD);
    hide Inv, Valid, FullPlan, Eased, Unrestored, Left, Smooth, OnLoad, OnPreflight, OnClaim, OnWriting, OnRenaming, OnReverting;
    match c.pc
    case Reverting(_, _, _) => RevertingStaysBefore(r, a, c);
    case Claim(_, _) => ClaimingStaysBefore(r, a, c);
    case Writing(_, _) => ClaimingStaysBefore(r, a, c);
    case Renaming(_, _) => ClaimingStaysBefore(r, a, c);
    case Load(_, _, _) => SmoothLoad(r, c, GOOD);
    case Preflight(_, _, _) => SmoothPreflight(r, c, GOOD);
    case Acquire(_) => LoadsNext(r, c);
    case _ => assert false by { NothingElse(r, c); }
  }

  lemma LoadsNext(r: Run, c: Config)
    requires Inv(r, c) && c.pc.Acquire? && !c.world.locked
    ensures Next(r.registered, c.pc, c.world, GOOD).pc.Load?
  {
    hide Resumable;
  }

  lemma NothingElse(r: Run, c: Config)
    requires Inv(r, c)
    ensures c.pc.Acquire? || c.pc.Load? || c.pc.Preflight? || c.pc.Claim? || c.pc.Writing? || c.pc.Renaming? || c.pc.Reverting?
            || c.pc.Consume? || c.pc.Release? || c.pc.Finished?
  {
    hide Resumable, Going, Ended, Stored;
  }

  lemma PlanGoesOn(r: Run, a: Attempt, v: Revert, plan: seq<Attempt>, failed: seq<ObjectRecord>)
    requires forall b <- plan :: b.Restore?
    ensures plan != [] ==> Resume(v, plan, failed) == Pc.Reverting(v, plan, failed)
  {
    assert plan != [] ==> plan[0] in plan;
  }

  /** The restore fails, its step tolerates that, and the pass goes on without it. */
  lemma Loses(r: Run, a: Attempt, c: Config)
    requires Valid(r) && a.Restore? && a.tolerant && Before(r, a, c) && c.pc.Reverting? && c.pc.plan[0] == a
    ensures Beyond(r, a, Next(r.registered, c.pc, c.world, BAD))
  {
    hide Inv, Valid, FullPlan, Eased, Unrestored, Resume, OnLoad, OnPreflight, OnClaim, OnWriting, OnRenaming, OnConsume;
    InvNext(r, c, BAD);
    NextIsSound(r.registered, c.pc, c.world, BAD);
    var v, plan := c.pc.revert, c.pc.plan;
    RevertingIsGoing(r, c);
    InThePlan(r, c.world, plan, []);
    assert forall b <- plan[1..] :: b in plan;
    PlanGoesOn(r, a, v, plan[1..], [a.record]);
    if plan[1..] == [] { NothingLeft(v, [a.record], r.local, JournalOf(r, RollingBack)); }
    assert [] + [a.record] == [a.record];
  }

  lemma NothingLeft(v: Revert, failed: seq<ObjectRecord>, local: bool, j: Journal)
    requires v == ForCommand(local, j)
    ensures Resume(v, [], failed) == Consume(local, j, failed)
  {
  }


  lemma StaysBeyond(r: Run, a: Attempt, c: Config)
    requires Valid(r) && a.Restore? && a in FullPlan(r) && Beyond(r, a, c) && !c.pc.Finished?
    ensures var d := Next(r.registered, c.pc, c.world, GOOD); Beyond(r, a, d) && Left(r, d.pc) < Left(r, c.pc)
  {
    InvNext(r, c, GOOD);
    NextIsSound(r.registered, c.pc, c.world, GOOD);
    if c.pc.Reverting? {
      var v, plan := c.pc.revert, c.pc.plan;
      InThePlan(r, c.world, plan, [a.record]);
      assert plan[0] in plan;
      PutElsewhere(r, a, plan[0], c.world.host);
      assert forall b <- plan[1..] :: b in plan;
      PlanGoesOn(r, a, v, plan[1..], [a.record]);
    }
    hide Plan, FullPlan, Valid, Partly, Tried, Loaded, Stored, SameHost, Resumable, Put;
  }

  /** A script that loses exactly this restore. */
  lemma {:induction false} Losing(r: Run, a: Attempt, c: Config) returns (s: Script)
    requires Valid(r) && a.Restore? && a.tolerant && a in FullPlan(r) && (Before(r, a, c) || Beyond(r, a, c))
    ensures var d := Exec(r.registered, c, s); d.pc == Finished(Degraded([a.record])) && Beyond(r, a, d)
    decreases Beyond(r, a, c) ==> false, Left(r, c.pc)
  {
    hide Valid, Next, Left, Inv, Eased, Unrestored;
    if c.pc.Finished? { return []; }
    var o := if Before(r, a, c) && c.pc.Reverting? && c.pc.plan[0] == a then BAD else GOOD;
    if o == BAD {
      Loses(r, a, c);
    } else if Before(r, a, c) {
      StaysBefore(r, a, c);
    } else {
      StaysBeyond(r, a, c);
    }
    NextIsSound(r.registered, c.pc, c.world, o);
    s := Losing(r, a, Next(r.registered, c.pc, c.world, o));
    assert ([o] + s)[1..] == s;
    s := [o] + s;
  }

  // --------------------------------------------------------------------- the exact condition

  /** No rollback of this run has started yet. */
  ghost predicate Fresh(r: Run, force: bool, w: World) {
    && Valid(r) && Resumable(r, w) && SameHost(r.pre, w.host)
    && (force || Undrifted(r.registered, r.steps, r.pre))
  }

  /** An object that matters and may be skipped: some attempt ends degraded, consumes the journal and leaves it unrestored. */
  lemma ToleratedLoss(r: Run, force: bool, w: World, a: Attempt) returns (s: Script)
    requires Fresh(r, force, w) && a in FullPlan(r) && a.Restore? && !Assured(r, a)
    ensures var c := OneAttempt(r, force, w, s);
      && c.pc == Finished(Degraded([a.record])) && Gone(r, c.world)
      && Read(c.world.host, ObjectKey(a.record)) != a.record
  {
    var w' := w.(locked := false);
    var c := Config(Acquire(Command(r, force)), w');
    SameStores(r, w, w', Success);
    SameStores(r, w, w', RollingBack);
    hide Stored, Partly, Loaded, Valid, Undrifted, FullPlan, Read, Tried, ObjectKey, Exec;
    assert Inv(r, c);
    s := Losing(r, a, c);
  }

  /** A consumed journal means this object is back, whatever failed, exactly if its restore is assured. */
  lemma ConsumedMeansBackIff(r: Run, force: bool, w: World, a: Attempt)
    requires Fresh(r, force, w) && a in FullPlan(r)
    ensures a.Restore?
    ensures Assured(r, a) <==> forall s :: Gone(r, OneAttempt(r, force, w, s).world) ==>
                                           Read(OneAttempt(r, force, w, s).world.host, ObjectKey(a.record)) == a.record
  {
    PlanIsRestores(r.registered, r.steps);
    hide OneAttempt, FullPlan, Plan, Read, ObjectKey, Gone, Resumable, Valid;
    if Assured(r, a) {
      forall s | Gone(r, OneAttempt(r, force, w, s).world)
        ensures Read(OneAttempt(r, force, w, s).world.host, ObjectKey(a.record)) == a.record
      {
        var v := OneAttempt(r, force, w, s).world;
        AttemptStopsSafely(r, force, w, s);
        if Resumable(r, v) { ResumableIsStored(r, v); }
        var failed :| Consumed(r, v, failed);
        ConsumedMeansBack(r, v, failed, a);
      }
    } else {
      var s := ToleratedLoss(r, force, w, a);
      assert Gone(r, OneAttempt(r, force, w, s).world);
    }
  }

  ghost predicate AllAssured(r: Run) { forall a <- FullPlan(r) :: Assured(r, a) }

  /** Whatever the number of interruptions, a consumed journal then means the host an uninterrupted rollback gives. */
  lemma ConsumedRestores(r: Run, w: World, failed: seq<ObjectRecord>)
    requires Valid(r) && AllAssured(r) && Consumed(r, w, failed)
    ensures SameHost(w.host, Restored(FullPlan(r), r.pre))
  {
    var plan := FullPlan(r);
    PlanIsDistinct(r.registered, r.steps);
    forall a <- plan ensures Read(w.host, ObjectKey(a.record)) == a.record { ConsumedMeansBack(r, w, failed, a); }
    hide Plan, FullPlan, Valid, Applies, Owns;
    assert Tried(plan, |plan|, w.host, []) by { hide Read, ObjectKey; }
    hide Assured, Consumed, Tried, Partly, DistinctRestores;
    FullyTriedIsRestored(plan, r.pre, w.host);
  }

  /** A consumed journal means a restored host exactly if no restore that may be skipped would change its object. */
  lemma ConsumedMeansRestoredIff(r: Run, force: bool, w: World)
    requires Fresh(r, force, w)
    ensures forall a <- FullPlan(r) :: a.Restore?
    ensures AllAssured(r) <==> forall s :: Gone(r, OneAttempt(r, force, w, s).world) ==>
                                           SameHost(OneAttempt(r, force, w, s).world.host, Restored(FullPlan(r), r.pre))
  {
    PlanIsRestores(r.registered, r.steps);
    PlanIsDistinct(r.registered, r.steps);
    hide OneAttempt, FullPlan, Plan, Gone, Resumable, Valid, Assured, Applies, Owns;
    if AllAssured(r) {
      forall s | Gone(r, OneAttempt(r, force, w, s).world)
        ensures SameHost(OneAttempt(r, force, w, s).world.host, Restored(FullPlan(r), r.pre))
      {
        var v := OneAttempt(r, force, w, s).world;
        AttemptStopsSafely(r, force, w, s);
        if Resumable(r, v) { ResumableIsStored(r, v); }
        var failed :| Consumed(r, v, failed);
        ConsumedRestores(r, v, failed);
      }
    } else {
      var a :| a in FullPlan(r) && !Assured(r, a);
      var s := ToleratedLoss(r, force, w, a);
      RestoredReads(FullPlan(r), r.pre, ObjectKey(a.record));
      hide Read, ObjectKey, DistinctRestores;
      assert Gone(r, OneAttempt(r, force, w, s).world);
    }
  }
}
