// What the host looks like while a rollback plan runs and once it is done.
module Restoration {
  import opened Records
  import opened Journals
  import opened Protocol
  import opened RestorePass

  /** An object a rollback restores by itself. */
  predicate Own(o: ObjectRecord) { Ordinary(o) && PayloadPresent(o) }

  /** Every journalled object is there to restore and belongs to one place of one step only. */
  ghost predicate Separate(steps: seq<StepRecord>) {
    && (forall s <- steps :: forall o <- s.before :: Ordinary(o) ==> PayloadPresent(o))
    && (forall i, p, j, q :: 0 <= i < |steps| && 0 <= p < |steps[i].before| && 0 <= j < |steps| && 0 <= q < |steps[j].before|
          && Ordinary(steps[i].before[p]) && Ordinary(steps[j].before[q]) && (i != j || p != q)
          ==> ObjectKey(steps[i].before[p]) != ObjectKey(steps[j].before[q]))
  }

  ghost predicate DistinctRestores(plan: seq<Attempt>) {
    && (forall i :: 0 <= i < |plan| ==> plan[i].Restore? && Own(plan[i].record))
    && (forall i, j :: 0 <= i < j < |plan| ==> ObjectKey(plan[i].record) != ObjectKey(plan[j].record))
  }

  lemma ConcatDistinct(a: seq<Attempt>, b: seq<Attempt>)
    requires DistinctRestores(a) && DistinctRestores(b)
    requires forall x <- a, y <- b :: ObjectKey(x.record) != ObjectKey(y.record)
    ensures DistinctRestores(a + b)
  {
    hide ObjectKey, Own;
    var c := a + b;
    forall i, j | 0 <= i < j < |c| ensures ObjectKey(c[i].record) != ObjectKey(c[j].record) {
      assert i < |a| ==> c[i] == a[i] && a[i] in a;
      assert i >= |a| ==> c[i] == b[i - |a|];
      assert j < |a| ==> c[j] == a[j];
      assert j >= |a| ==> c[j] == b[j - |a|] && b[j - |a|] in b;
    }
  }

  /** Where a restore comes from. */
  predicate Owns(s: StepRecord, a: Attempt) {
    a.Restore? && Ordinary(a.record) && a.record in s.before && a.tolerant == Tolerates(s.mode) && a.step == s.id
  }

  ghost predicate OwnedBySome(steps: seq<StepRecord>, all: seq<StepRecord>, services: bool, a: Attempt) {
    exists i :: 0 <= i < |steps| && Owns(steps[i], a) && Reverts(steps[i], all) && HasService(steps[i]) == services
  }

  lemma {:induction false} HalfPlanIsOwned(registered: set<string>, steps: seq<StepRecord>, all: seq<StepRecord>, services: bool)
    requires StepsRegistered(registered, steps, all)
    ensures forall a :: a in HalfPlan(registered, steps, all, services) <==> OwnedBySome(steps, all, services, a)
  {
    if steps != [] {
      var init, last := steps[..|steps| - 1], steps[|steps| - 1];
      assert steps == init + [last];
      HalfPlanIsOwned(registered, init, all, services);
      HalfPlanSnoc(registered, init, last, all, services);
      RestoresAre(last.before, Tolerates(last.mode), last.id);
      hide Applies, HasService, HalfPlan, Tolerates;
      assert Reverts(last, all) ==> last.typ in registered;
      forall a ensures a in HalfPlan(registered, steps, all, services) <==> OwnedBySome(steps, all, services, a) {
        OwnedSnoc(init, last, all, services, a);
      }
    }
  }

  lemma OwnedSnoc(init: seq<StepRecord>, last: StepRecord, all: seq<StepRecord>, services: bool, a: Attempt)
    ensures OwnedBySome(init + [last], all, services, a) <==>
            OwnedBySome(init, all, services, a) || (Owns(last, a) && Reverts(last, all) && HasService(last) == services)
  {
    hide Applies, HasService, Owns;
    var steps := init + [last];
    assert steps[|init|] == last;
    assert forall i :: 0 <= i < |init| ==> steps[i] == init[i];
  }

  lemma {:induction false} RestoresDistinct(before: seq<ObjectRecord>, tolerant: bool, step: string)
    requires forall o <- before :: Ordinary(o) ==> PayloadPresent(o)
    requires forall p, q :: 0 <= p < q < |before| && Ordinary(before[p]) && Ordinary(before[q])
               ==> ObjectKey(before[p]) != ObjectKey(before[q])
    ensures DistinctRestores(Restores(before, tolerant, step))
  {
    hide ObjectKey, PayloadPresent;
    if before != [] {
      var init, last := before[..|before| - 1], before[|before| - 1];
      RestoresDistinct(init, tolerant, step);
      RestoresAre(init, tolerant, step);
      if Ordinary(last) {
        assert last in before;
        forall y <- Restores(init, tolerant, step) ensures ObjectKey(last) != ObjectKey(y.record) {
          var p :| 0 <= p < |init| && init[p] == y.record;
          assert before[p] == y.record;
        }
        ConcatDistinct([Restore(last, tolerant, step)], Restores(init, tolerant, step));
      } else {
        assert [] + Restores(init, tolerant, step) == Restores(init, tolerant, step);
      }
    }
  }

  lemma SeparatePrefix(steps: seq<StepRecord>, n: nat)
    requires n <= |steps| && Separate(steps)
    ensures Separate(steps[..n])
  {
    hide ObjectKey, Ordinary;
    var t := steps[..n];
    forall i, p, j, q | 0 <= i < |t| && 0 <= p < |t[i].before| && 0 <= j < |t| && 0 <= q < |t[j].before|
          && Ordinary(t[i].before[p]) && Ordinary(t[j].before[q]) && (i != j || p != q)
      ensures ObjectKey(t[i].before[p]) != ObjectKey(t[j].before[q])
    {
      assert t[i] == steps[i] && t[j] == steps[j];
    }
  }

  /** Restores owned by two different steps are of different objects. */
  lemma OwnersApart(steps: seq<StepRecord>, i: nat, j: nat, a: Attempt, b: Attempt)
    requires Separate(steps) && i < |steps| && j < |steps| && i != j && Owns(steps[i], a) && Owns(steps[j], b)
    ensures ObjectKey(a.record) != ObjectKey(b.record)
  {
    hide ObjectKey, PayloadPresent, Tolerates;
    var p :| 0 <= p < |steps[i].before| && steps[i].before[p] == a.record;
    var q :| 0 <= q < |steps[j].before| && steps[j].before[q] == b.record;
  }

  lemma StepRestoresDistinct(registered: set<string>, steps: seq<StepRecord>, i: nat)
    requires Separate(steps) && i < |steps| && (steps[i].mode != Noop ==> steps[i].typ in registered)
    ensures DistinctRestores(Attempts(registered, steps[i]))
    ensures forall a <- Attempts(registered, steps[i]) :: Owns(steps[i], a)
  {
    hide ObjectKey;
    var s := steps[i];
    assert s in steps;
    RestoresDistinct(s.before, Tolerates(s.mode), s.id);
    RestoresAre(s.before, Tolerates(s.mode), s.id);
  }

  lemma {:induction false} HalfPlanDistinct(registered: set<string>, steps: seq<StepRecord>, all: seq<StepRecord>, services: bool)
    requires Separate(steps) && StepsRegistered(registered, steps, all)
    ensures DistinctRestores(HalfPlan(registered, steps, all, services))
  {
    hide Applies, HasService, Attempts, Owns;
    if steps != [] {
      var n := |steps| - 1;
      var init, last := steps[..n], steps[n];
      assert steps == init + [last];
      SeparatePrefix(steps, n);
      HalfPlanDistinct(registered, init, all, services);
      HalfPlanSnoc(registered, init, last, all, services);
      HalfPlanIsOwned(registered, init, all, services);
      var rest := HalfPlan(registered, init, all, services);
      hide HalfPlan, Separate, DistinctRestores;
      if Applies(last, all) && HasService(last) == services {
        StepRestoresDistinct(registered, steps, n);
        forall x <- Attempts(registered, last), y <- rest ensures ObjectKey(x.record) != ObjectKey(y.record) {
          assert OwnedBySome(init, all, services, y);
          var i :| 0 <= i < |init| && Owns(init[i], y);
          OwnersApart(steps, n, i, x, y);
        }
        ConcatDistinct(Attempts(registered, last), rest);
      } else {
        assert [] + rest == rest;
      }
    }
  }

  /** Past the preflight, the plan restores each journalled object of each reverting step, and each once. */
  lemma PlanIsDistinct(registered: set<string>, steps: seq<StepRecord>)
    requires Separate(steps) && AllRegistered(registered, steps)
    ensures DistinctRestores(Plan(registered, steps))
    ensures forall a :: a in Plan(registered, steps) <==>
              exists i :: 0 <= i < |steps| && Owns(steps[i], a) && Reverts(steps[i], steps)
  {
    hide Applies, HasService, Owns;
    var early, late := HalfPlan(registered, steps, steps, false), HalfPlan(registered, steps, steps, true);
    HalfPlanDistinct(registered, steps, steps, false);
    HalfPlanDistinct(registered, steps, steps, true);
    HalfPlanIsOwned(registered, steps, steps, false);
    HalfPlanIsOwned(registered, steps, steps, true);
    assert Plan(registered, steps) == early + late;
    hide HalfPlan, Separate, DistinctRestores, Plan;
    forall x <- early, y <- late ensures ObjectKey(x.record) != ObjectKey(y.record) {
      assert OwnedBySome(steps, steps, false, x) && OwnedBySome(steps, steps, true, y);
      var i :| 0 <= i < |steps| && Owns(steps[i], x) && !HasService(steps[i]);
      var j :| 0 <= j < |steps| && Owns(steps[j], y) && HasService(steps[j]);
      OwnersApart(steps, i, j, x, y);
    }
    ConcatDistinct(early, late);
    forall a ensures a in early + late <==> exists i :: 0 <= i < |steps| && Owns(steps[i], a) && Reverts(steps[i], steps) {
      assert a in early + late <==> OwnedBySome(steps, steps, false, a) || OwnedBySome(steps, steps, true, a);
      if i :| 0 <= i < |steps| && Owns(steps[i], a) && Reverts(steps[i], steps) {
        assert OwnedBySome(steps, steps, HasService(steps[i]), a);
      }
    }
  }

  // ------------------------------------------------------------------- partial reverts

  /** Some restores have landed, nothing else has changed. */
  ghost predicate Partly(plan: seq<Attempt>, start: Host, host: Host) {
    forall k :: Read(host, k) != Read(start, k) ==>
      exists a :: a in plan && a.Restore? && ObjectKey(a.record) == k && Read(host, k) == a.record
  }

  predicate Back(host: Host, a: Attempt)
    requires a.Restore?
  {
    Read(host, ObjectKey(a.record)) == a.record
  }

  predicate Excused(a: Attempt, failed: seq<ObjectRecord>)
    requires a.Restore?
  {
    a.tolerant && a.record in failed
  }

  /** The first `m` restores have been tried: each has landed or is listed as failed. */
  ghost predicate Tried(plan: seq<Attempt>, m: nat, host: Host, failed: seq<ObjectRecord>) {
    m <= |plan| && forall i :: 0 <= i < m ==> plan[i].Restore? && (Back(host, plan[i]) || Excused(plan[i], failed))
  }

  lemma OneRestore(plan: seq<Attempt>, m: nat, start: Host, host: Host, failed: seq<ObjectRecord>, o: Outcome)
    requires DistinctRestores(plan) && m < |plan| && Partly(plan, start, host) && Tried(plan, m, host, failed)
    ensures var obj := plan[m].record;
      var host' := if Landed(o) then Put(host, obj) else host;
      && Partly(plan, start, host')
      && (o.ok ==> Tried(plan, m + 1, host', failed))
      && (plan[m].tolerant ==> Tried(plan, m + 1, host', failed + [obj]))
      && Tried(plan, m, host', failed)
  {
    var obj := plan[m].record;
    var host' := if Landed(o) then Put(host, obj) else host;
    assert plan[m] in plan && Own(obj);
    forall k ensures Read(host', k) == if Landed(o) && k == ObjectKey(obj) then obj else Read(host, k) {
      ReadAfterPut(host, obj, k);
    }
    hide ObjectKey, Read, Put;
  }

  /** Every restore has been tried and none is listed: the host is the start with the journalled values put back. */
  lemma AllTriedRestores(plan: seq<Attempt>, start: Host, host: Host, k: Key)
    requires DistinctRestores(plan) && Partly(plan, start, host) && Tried(plan, |plan|, host, [])
    ensures (forall a <- plan :: ObjectKey(a.record) != k) ==> Read(host, k) == Read(start, k)
    ensures forall a <- plan :: ObjectKey(a.record) == k ==> Read(host, k) == a.record
  {
    hide ObjectKey, Read, Own;
  }
}
