// An apply run: what it has journalled and changed at every point, and what its automatic rollback restores.
module ApplyRuns {
  import opened Records
  import opened Sorting
  import opened Journals
  import opened Protocol
  import opened RestorePass
  import opened Restoration
  import opened CrashResume

  /** One apply, the rollback modes its plugins report, the host it found and the journals already on the target. */
  datatype Launch = Launch(registered: set<string>, profile: string, runId: string, plans: seq<StepPlan>,
                           modes: set<Mode>, host0: Host, remote0: map<RunKey, Journal>)

  /** No object belongs to two places of the profile. */
  ghost predicate PlansApart(plans: seq<StepPlan>) {
    forall i, p, j, q ::
      (0 <= i < |plans| && 0 <= p < |plans[i].keys| && 0 <= j < |plans| && 0 <= q < |plans[j].keys| && (i != j || p != q))
      ==> plans[i].keys[p] != plans[j].keys[q]
  }

  ghost predicate Launchable(l: Launch) {
    PlansApart(l.plans) && forall p <- l.plans :: p.typ in l.registered
  }

  // -------------------------------------------------------------------------- captures

  /** The records are exactly what these objects hold on this host, each once, besides runtime policies. */
  ghost predicate CaptureOf(keys: seq<ObjectId>, host: Host, objects: seq<ObjectRecord>) {
    && (forall o <- objects :: Ordinary(o) ==> ObjectKey(o) in keys && o == Read(host, ObjectKey(o)))
    && (forall k <- keys :: Read(host, k) in objects)
    && (forall p, q :: 0 <= p < q < |objects| && Ordinary(objects[p]) && Ordinary(objects[q])
          ==> ObjectKey(objects[p]) != ObjectKey(objects[q]))
  }

  lemma CaptureOrderIs(keys: seq<ObjectId>, o: Outcome)
    requires forall i, j :: 0 <= i < j < |keys| ==> keys[i] != keys[j]
    ensures var order := CaptureOrder(keys, o);
      && (forall i, j :: 0 <= i < j < |order| ==> order[i] != order[j])
      && (forall k :: k in order <==> k in keys)
  {
    var order := CaptureOrder(keys, o);
    DistinctAlike(keys, order);
    assert forall k :: k in order <==> k in multiset(order);
    assert forall k :: k in keys <==> k in multiset(keys);
  }

  lemma ReadsAreOwn(host: Host, order: seq<ObjectId>)
    ensures forall i :: 0 <= i < |order| ==> ObjectKey(Reads(host, order)[i]) == order[i] && Ordinary(Reads(host, order)[i])
  {
  }

  lemma CapturedIsCapture(host: Host, keys: seq<ObjectId>, o: Outcome)
    requires forall i, j :: 0 <= i < j < |keys| ==> keys[i] != keys[j]
    ensures CaptureOf(keys, host, Captured(host, keys, o))
  {
    var order := CaptureOrder(keys, o);
    CaptureOrderIs(keys, o);
    ReadsAreOwn(host, order);
    hide CaptureOrder;
    assert Captured(host, keys, o) == Reads(host, order) + o.policies;
    hide Captured;
    ReadsAreCapture(host, keys, order, o.policies);
  }

  lemma ReadsAreCapture(host: Host, keys: seq<ObjectId>, order: seq<ObjectId>, policies: seq<PolicyRecord>)
    requires forall i, j :: 0 <= i < j < |order| ==> order[i] != order[j]
    requires forall k :: k in order <==> k in keys
    requires forall i :: 0 <= i < |order| ==> ObjectKey(Reads(host, order)[i]) == order[i] && Ordinary(Reads(host, order)[i])
    ensures CaptureOf(keys, host, Reads(host, order) + policies)
  {
    var mine := Reads(host, order);
    var objects := mine + policies;
    assert forall i :: |mine| <= i < |objects| ==> objects[i] == policies[i - |mine|] && !Ordinary(objects[i]);
    assert forall i :: 0 <= i < |mine| ==> objects[i] == mine[i] == Read(host, order[i]);
    hide ObjectKey, Read, Reads, Ordinary;
    forall x <- objects | Ordinary(x) ensures ObjectKey(x) in keys && x == Read(host, ObjectKey(x)) {
      var i :| 0 <= i < |objects| && objects[i] == x;
      assert i < |mine| && order[i] in order;
    }
    forall k <- keys ensures Read(host, k) in objects {
      assert k in order;
      var i :| 0 <= i < |order| && order[i] == k;
      assert objects[i] == Read(host, k);
    }
  }

  /** A capture stays right while its own objects keep their values. */
  lemma CaptureKept(keys: seq<ObjectId>, host: Host, host': Host, objects: seq<ObjectRecord>)
    requires CaptureOf(keys, host, objects) && forall k <- keys :: Read(host, k) == Read(host', k)
    ensures CaptureOf(keys, host', objects)
  {
    hide ObjectKey, Read;
  }

  // ------------------------------------------------------------------ what is recorded

  /** The object belongs to one of the first `n` steps. */
  ghost predicate Touched(l: Launch, n: nat, k: Key)
    requires n <= |l.plans|
  {
    exists i :: 0 <= i < n && k in l.plans[i].keys
  }

  ghost predicate Untouched(l: Launch, n: nat, host: Host)
    requires n <= |l.plans|
  {
    forall k :: !Touched(l, n, k) ==> Read(host, k) == Read(l.host0, k)
  }

  predicate Names(s: StepRecord, p: StepPlan) { s.id == p.id && s.typ == p.typ }

  /** Every journalled step has its objects' pre-run values, and its after-capture if any is still right. */
  ghost predicate Recorded(l: Launch, steps: seq<StepRecord>, host: Host) {
    |steps| <= |l.plans| && forall i :: 0 <= i < |steps| ==>
      Names(steps[i], l.plans[i]) && steps[i].mode in l.modes && CaptureOf(l.plans[i].keys, l.host0, steps[i].before)
      && (steps[i].after == [] || CaptureOf(l.plans[i].keys, host, steps[i].after))
  }

  /** What an automatic rollback needs. */
  ghost predicate Revertible(l: Launch, steps: seq<StepRecord>, host: Host) {
    Recorded(l, steps, host) && Untouched(l, |steps|, host)
  }

  /** The first `n` steps are done: their after-captures are what the host holds. */
  ghost predicate Completed(l: Launch, n: nat, steps: seq<StepRecord>, host: Host) {
    n <= |steps| <= |l.plans| && forall i :: 0 <= i < n ==> CaptureOf(l.plans[i].keys, host, steps[i].after)
  }

  function DoneSteps(l: Launch, job: Job): int { |l.plans| - |job.todo| }

  predicate MyJob(l: Launch, job: Job) {
    && |job.todo| <= |l.plans| && job.todo == l.plans[DoneSteps(l, job)..]
    && job.journal.profile == l.profile && job.journal.runId == l.runId
  }

  /** Between steps. */
  ghost predicate AtRest(l: Launch, job: Job, host: Host) {
    && MyJob(l, job) && |job.journal.steps| == DoneSteps(l, job)
    && Revertible(l, job.journal.steps, host) && Completed(l, DoneSteps(l, job), job.journal.steps, host)
  }

  /** Inside a step: its before-capture is in the journal, its after-capture is not. */
  ghost predicate Midstep(l: Launch, job: Job, host: Host) {
    && MyJob(l, job) && job.todo != [] && |job.journal.steps| == DoneSteps(l, job) + 1
    && Revertible(l, job.journal.steps, host) && Completed(l, DoneSteps(l, job), job.journal.steps, host)
    && job.journal.steps[DoneSteps(l, job)].after == []
  }

  lemma KeyOfOnePlan(l: Launch, i: nat, j: nat, k: Key)
    requires Launchable(l) && i < |l.plans| && j < |l.plans| && i != j && k in l.plans[i].keys
    ensures k !in l.plans[j].keys
  {
    var p :| 0 <= p < |l.plans[i].keys| && l.plans[i].keys[p] == k;
  }

  lemma PlanKeysDistinct(l: Launch, i: nat)
    requires Launchable(l) && i < |l.plans|
    ensures forall p, q :: 0 <= p < q < |l.plans[i].keys| ==> l.plans[i].keys[p] != l.plans[i].keys[q]
  {
  }

  /** Capturing the next step's objects adds their pre-run values to the journal. */
  lemma BeforeIsPreRun(l: Launch, job: Job, w: World, o: Outcome)
    requires Launchable(l) && AtRest(l, job, w.host) && job.todo != [] && o.ok && o.mode in l.modes
    ensures var pc := OnCapturingBefore(job, w, o);
      && pc.Writing? && pc.saving.BeforeSave? && pc.journal == pc.saving.job.journal
      && Midstep(l, pc.saving.job, w.host) && Untouched(l, DoneSteps(l, job), w.host)
  {
    hide Captured, CaptureOf, PlansApart, Untouched, Launchable;
    var n := DoneSteps(l, job);
    assert job.todo[0] == l.plans[n];
    NextCaptureIsPreRun(l, n, w.host, o);
    UntouchedMore(l, n, w.host);
    var steps := OnCapturingBefore(job, w, o).saving.job.journal.steps;
    assert forall i :: 0 <= i < n ==> steps[i] == job.journal.steps[i];
  }

  lemma NextCaptureIsPreRun(l: Launch, n: nat, host: Host, o: Outcome)
    requires Launchable(l) && n < |l.plans| && Untouched(l, n, host)
    ensures CaptureOf(l.plans[n].keys, l.host0, Captured(host, l.plans[n].keys, o))
  {
    var keys := l.plans[n].keys;
    PlanKeysDistinct(l, n);
    CapturedIsCapture(host, keys, o);
    hide Captured, CaptureOf, PlansApart, Read;
    forall k <- keys ensures Read(host, k) == Read(l.host0, k) {
      forall i | 0 <= i < n ensures k !in l.plans[i].keys { KeyOfOnePlan(l, n, i, k); }
      assert !Touched(l, n, k);
    }
    CaptureKept(keys, host, l.host0, Captured(host, keys, o));
  }

  lemma UntouchedMore(l: Launch, n: nat, host: Host)
    requires n < |l.plans| && Untouched(l, n, host)
    ensures Untouched(l, n + 1, host)
  {
    hide Read;
    forall k | !Touched(l, n + 1, k) ensures Read(host, k) == Read(l.host0, k) {
      assert !Touched(l, n, k);
    }
  }

  /** A plugin's apply changes its own objects only, so every other capture stays right. */
  lemma EffectIsOwn(l: Launch, job: Job, host: Host, values: Host)
    requires Launchable(l) && Midstep(l, job, host)
    ensures Midstep(l, job, Effect(host, job.todo[0].keys, values))
  {
    var n := DoneSteps(l, job);
    assert job.todo[0] == l.plans[n];
    var host' := Effect(host, job.todo[0].keys, values);
    forall k | k !in l.plans[n].keys ensures Read(host', k) == Read(host, k) {}
    hide Read, CaptureOf, Effect, Touched, PlansApart;
    OthersKept(l, n, host, host', job.journal.steps);
    UntouchedKept(l, n, host, host');
    hide Launchable, Untouched;
    StillMidstep(l, job, host, host');
  }

  lemma StillMidstep(l: Launch, job: Job, host: Host, host': Host)
    requires Midstep(l, job, host)
    requires Completed(l, DoneSteps(l, job), job.journal.steps, host') && Untouched(l, DoneSteps(l, job) + 1, host')
    ensures Midstep(l, job, host')
  {
    hide CaptureOf, Untouched, Names;
  }

  lemma OthersKept(l: Launch, n: nat, host: Host, host': Host, steps: seq<StepRecord>)
    requires Launchable(l) && n < |l.plans| && Completed(l, n, steps, host)
    requires forall k :: k !in l.plans[n].keys ==> Read(host', k) == Read(host, k)
    ensures Completed(l, n, steps, host')
  {
    hide Read, CaptureOf, PlansApart;
    forall i | 0 <= i < n ensures CaptureOf(l.plans[i].keys, host', steps[i].after) {
      forall k <- l.plans[i].keys ensures Read(host', k) == Read(host, k) { KeyOfOnePlan(l, i, n, k); }
      CaptureKept(l.plans[i].keys, host, host', steps[i].after);
    }
  }

  lemma UntouchedKept(l: Launch, n: nat, host: Host, host': Host)
    requires n < |l.plans| && Untouched(l, n + 1, host)
    requires forall k :: k !in l.plans[n].keys ==> Read(host', k) == Read(host, k)
    ensures Untouched(l, n + 1, host')
  {
    hide Read;
  }

  /** Capturing afterwards completes the step. */
  lemma AfterCompletes(l: Launch, job: Job, w: World, o: Outcome)
    requires Launchable(l) && Midstep(l, job, w.host) && o.ok
    ensures var pc := OnCapturingAfter(job, w, o);
      && pc.Writing? && pc.saving.AfterSave? && pc.journal == pc.saving.job.journal && AtRest(l, pc.saving.job, w.host)
      && |pc.journal.steps| == |job.journal.steps|
      && forall i :: 0 <= i < |pc.journal.steps| ==> pc.journal.steps[i].before == job.journal.steps[i].before
  {
    var n := DoneSteps(l, job);
    var step := job.todo[0];
    assert step == l.plans[n];
    PlanKeysDistinct(l, n);
    CapturedIsCapture(w.host, step.keys, o);
    hide Captured, CaptureOf, PlansApart, Read, Differ, Launchable, Untouched;
    var pc := OnCapturingAfter(job, w, o);
    assert pc.saving.job.todo == l.plans[n + 1..];
    hide OnCapturingAfter;
    NowAtRest(l, job, pc.saving.job, w.host, Captured(w.host, step.keys, o));
  }

  lemma NowAtRest(l: Launch, job: Job, job': Job, host: Host, after: seq<ObjectRecord>)
    requires Midstep(l, job, host) && CaptureOf(l.plans[DoneSteps(l, job)].keys, host, after)
    requires MyJob(l, job') && DoneSteps(l, job') == DoneSteps(l, job) + 1
    requires job'.journal.steps ==
             job.journal.steps[DoneSteps(l, job) := job.journal.steps[DoneSteps(l, job)].(after := after)]
    ensures AtRest(l, job', host)
  {
    hide CaptureOf, Untouched;
  }

  // ---------------------------------------------------------- the journal of a partial run

  lemma {:induction false} RecordedIsSeparate(l: Launch, steps: seq<StepRecord>, host: Host)
    requires Launchable(l) && Recorded(l, steps, host)
    ensures Separate(steps)
  {
    forall i, p, j, q | 0 <= i < |steps| && 0 <= p < |steps[i].before| && 0 <= j < |steps| && 0 <= q < |steps[j].before|
        && Ordinary(steps[i].before[p]) && Ordinary(steps[j].before[q]) && (i != j || p != q)
      ensures ObjectKey(steps[i].before[p]) != ObjectKey(steps[j].before[q])
    {
      BeforesApart(l, steps, host, i, p, j, q);
    }
    hide Read, ObjectKey;
    forall s <- steps, o <- s.before | Ordinary(o) ensures PayloadPresent(o) {
      var i :| 0 <= i < |steps| && steps[i] == s;
      assert ObjectKey(o) in l.plans[i].keys;
    }
  }

  lemma BeforesApart(l: Launch, steps: seq<StepRecord>, host: Host, i: nat, p: nat, j: nat, q: nat)
    requires Launchable(l) && Recorded(l, steps, host)
    requires i < |steps| && p < |steps[i].before| && j < |steps| && q < |steps[j].before| && (i != j || p != q)
    requires Ordinary(steps[i].before[p]) && Ordinary(steps[j].before[q])
    ensures ObjectKey(steps[i].before[p]) != ObjectKey(steps[j].before[q])
  {
    var x, y := steps[i].before[p], steps[j].before[q];
    assert CaptureOf(l.plans[i].keys, l.host0, steps[i].before) && CaptureOf(l.plans[j].keys, l.host0, steps[j].before);
    hide Read, ObjectKey, PlansApart, Recorded;
    assert x in steps[i].before && y in steps[j].before;
    assert ObjectKey(x) in l.plans[i].keys;
    if i != j { KeyOfOnePlan(l, i, j, ObjectKey(x)); }
  }

  lemma RecordedIsRegistered(l: Launch, steps: seq<StepRecord>, host: Host)
    requires Launchable(l) && Recorded(l, steps, host)
    ensures AllRegistered(l.registered, steps)
  {
    hide CaptureOf, Applies, PlansApart;
    forall i | 0 <= i < |steps| ensures steps[i].typ in l.registered { assert l.plans[i] in l.plans; }
  }

  /** Objects only a noop step covers: the one thing an automatic rollback leaves alone. */
  ghost predicate NoopKey(l: Launch, steps: seq<StepRecord>, k: Key) {
    exists i :: 0 <= i < |steps| && i < |l.plans| && steps[i].mode == Noop && k in l.plans[i].keys
  }

  /** Every object that is not at its pre-run value has that value waiting in the plan. */
  ghost predicate Covered(l: Launch, steps: seq<StepRecord>, host: Host) {
    forall k :: Read(host, k) != Read(l.host0, k) && !NoopKey(l, steps, k) ==>
      exists a :: a in Plan(l.registered, steps) && a.Restore? && ObjectKey(a.record) == k
  }

  ghost predicate PreRunValues(l: Launch, steps: seq<StepRecord>) {
    forall a <- Plan(l.registered, steps) :: a.Restore? && a.record == Read(l.host0, ObjectKey(a.record))
  }

  lemma PlanHoldsPreRunValues(l: Launch, steps: seq<StepRecord>, host: Host)
    requires Launchable(l) && Recorded(l, steps, host)
    ensures PreRunValues(l, steps) && DistinctRestores(Plan(l.registered, steps))
  {
    RecordedIsSeparate(l, steps, host);
    RecordedIsRegistered(l, steps, host);
    PlanIsDistinct(l.registered, steps);
    hide Plan, Applies, Read, ObjectKey;
    forall a <- Plan(l.registered, steps) ensures a.Restore? && a.record == Read(l.host0, ObjectKey(a.record)) {
      var i :| 0 <= i < |steps| && Owns(steps[i], a);
      assert CaptureOf(l.plans[i].keys, l.host0, steps[i].before);
    }
  }

  /** One record list captures one value per object. */
  lemma OneCaptureOneValue(keys: seq<ObjectId>, host0: Host, host: Host, objects: seq<ObjectRecord>, k: Key)
    requires k in keys && CaptureOf(keys, host0, objects) && CaptureOf(keys, host, objects)
    ensures Read(host, k) == Read(host0, k)
  {
    var x := Read(host0, k);
    assert x in objects && ObjectKey(x) == k && Ordinary(x);
    hide Read, ObjectKey;
  }

  /** A step whose object moved is a step with a delta. */
  lemma MovedMeansChanged(keys: seq<ObjectId>, host0: Host, host: Host, s: StepRecord, k: Key)
    requires k in keys && CaptureOf(keys, host0, s.before)
    requires s.after == [] || CaptureOf(keys, host, s.after)
    requires Read(host, k) != Read(host0, k)
    ensures Changed(s) && Read(host0, k) in s.before && Ordinary(Read(host0, k)) && ObjectKey(Read(host0, k)) == k
  {
    assert Read(host0, k) in s.before && ObjectKey(Read(host0, k)) == k;
    hide Read, ObjectKey;
    var same := CaptureOf(keys, host, s.before);
    if same { OneCaptureOneValue(keys, host0, host, s.before, k); }
    hide CaptureOf;
  }

  /** A step captured twice in the same order has a delta exactly when one of its objects moved between the captures, or a
      runtime policy differs. */
  lemma ChangedIffMoved(host0: Host, host: Host, keys: seq<ObjectId>, o: Outcome, p: Outcome, s: StepRecord)
    requires s.before == Captured(host0, keys, o) && s.after == Captured(host, keys, p)
    requires CaptureOrder(keys, o) == CaptureOrder(keys, p)
    ensures Changed(s) <==> (exists k <- keys :: Read(host, k) != Read(host0, k)) || o.policies != p.policies
  {
    hide Read, Reads;
    var order := CaptureOrder(keys, o);
    SameReadsIff(host0, host, order);
    assert forall k :: k in order <==> k in multiset(order);
    assert forall k :: k in keys <==> k in multiset(keys);
    var x, y := Reads(host0, order), Reads(host, order);
    assert s.before == x + o.policies && s.after == y + p.policies;
    if s.before == s.after {
      assert x == s.before[..|order|] == y;
      assert o.policies == s.before[|order|..] == p.policies;
    }
  }

  lemma SameReadsIff(host0: Host, host: Host, order: seq<ObjectId>)
    ensures |Reads(host0, order)| == |Reads(host, order)| == |order|
    ensures Reads(host0, order) == Reads(host, order) <==> forall k <- order :: Read(host, k) == Read(host0, k)
  {
    hide Read;
    var x, y := Reads(host0, order), Reads(host, order);
    if x == y {
      forall k <- order ensures Read(host, k) == Read(host0, k) {
        var i :| 0 <= i < |order| && order[i] == k;
        assert x[i] == y[i];
      }
    } else {
      var i :| 0 <= i < |order| && x[i] != y[i];
      assert order[i] in order;
    }
  }

  lemma RevertibleIsCovered(l: Launch, steps: seq<StepRecord>, host: Host)
    requires Launchable(l) && Revertible(l, steps, host)
    ensures Covered(l, steps, host)
  {
    RecordedIsSeparate(l, steps, host);
    RecordedIsRegistered(l, steps, host);
    PlanIsDistinct(l.registered, steps);
    hide Plan, Read, ObjectKey, PlansApart, AllRegistered, Separate, DistinctRestores, ReloadTriggered;
    forall k | Read(host, k) != Read(l.host0, k) && !NoopKey(l, steps, k)
      ensures exists a :: a in Plan(l.registered, steps) && a.Restore? && ObjectKey(a.record) == k
    {
      assert Touched(l, |steps|, k);
      var i :| 0 <= i < |steps| && k in l.plans[i].keys;
      MovedMeansChanged(l.plans[i].keys, l.host0, host, steps[i], k);
      var a := Restore(Read(l.host0, k), Tolerates(steps[i].mode), steps[i].id);
      assert Owns(steps[i], a) && Reverts(steps[i], steps);
      assert a in Plan(l.registered, steps);
    }
  }

  /** The preflight of an automatic rollback finds nothing changed but by the failed step itself. */
  lemma AutoPreflightPasses(l: Launch, steps: seq<StepRecord>, host: Host)
    requires Launchable(l) && Recorded(l, steps, host)
    ensures PreflightPasses(View(host, {}), l.registered, steps, false, false)
  {
    RecordedIsRegistered(l, steps, host);
    var view := View(host, {});
    forall i | 0 <= i < |steps| ensures Conflicts(view, l.registered, steps[i], false) == [] {
      ConflictsAre(view, steps[i], false, steps[i].after);
      hide ObjectKey, Read, Reverted;
      HasAnElement(ConflictsAmong(view, steps[i], false, steps[i].after));
    }
    hide Conflicts, Applies;
  }
}
