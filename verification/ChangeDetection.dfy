// What counts as a change, record by record, and what it says about the host over a run.
module ChangeDetection {
  import opened Records
  import opened Journals
  import opened Protocol
  import opened RestorePass
  import opened ApplyRuns
  import opened ApplySafety
  import opened WriteAhead
  import opened StepGraph
  import opened Restarts

  // --------------------------------------------------------------------- record by record

  /** Two payloads of one kind, but for whether a service was known and what was requested of a package. */
  predicate SamePayload(a: ObjectRecord, b: ObjectRecord)
    requires PayloadPresent(a) && PayloadPresent(b) && a.kind == b.kind
  {
    match a.kind
    case File => a.file == b.file
    case FileMeta => a.meta == b.meta
    case Service => a.service.value.(known := true) == b.service.value.(known := true)
    case Package =>
      a.package.value.(requestedInstall := false, requestedPurge := false)
        == b.package.value.(requestedInstall := false, requestedPurge := false)
    case Policy => a.policy == b.policy
  }

  /** Two records say the same of one object, whatever their messages; records without a payload say nothing. */
  predicate SayTheSame(a: ObjectRecord, b: ObjectRecord) {
    if PayloadPresent(a) && PayloadPresent(b) then a.kind == b.kind && SamePayload(a, b)
    else !PayloadPresent(a) && !PayloadPresent(b)
  }

  lemma SayTheSameIs(a: ObjectRecord, b: ObjectRecord)
    ensures SayTheSame(a, b) <==> ObjectKey(a) == ObjectKey(b) && SameFacts(a, b)
  {
  }

  /** Every record of one capture has one in the other that says the same. */
  ghost predicate Covers(a: seq<ObjectRecord>, b: seq<ObjectRecord>) {
    forall y <- b :: exists x :: x in a && SayTheSame(x, y)
  }

  lemma FoundInCapture(c: seq<ObjectRecord>, o: ObjectRecord)
    requires DistinctObjects(c) && o in c
    ensures ObjectKey(o) in ByKey(c) && ByKey(c)[ObjectKey(o)] == o
  {
    var i :| 0 <= i < |c| && c[i] == o;
    ByKeyFinds(c, i);
  }

  lemma PairedIffCovered(before: seq<ObjectRecord>, after: seq<ObjectRecord>)
    requires DistinctObjects(before)
    ensures AllPaired(before, after) <==> Covers(before, after)
  {
    ByKeyHolds(before);
    hide ByKey, SameFacts, ObjectKey, SayTheSame, DistinctObjects;
    if AllPaired(before, after) {
      forall y <- after ensures exists x :: x in before && SayTheSame(x, y) {
        var i :| 0 <= i < |after| && after[i] == y;
        SayTheSameIs(ByKey(before)[ObjectKey(y)], y);
      }
    }
    if Covers(before, after) {
      forall i | 0 <= i < |after|
        ensures ObjectKey(after[i]) in ByKey(before) && SameFacts(ByKey(before)[ObjectKey(after[i])], after[i])
      {
        var y := after[i];
        assert y in after;
        var x :| x in before && SayTheSame(x, y);
        SayTheSameIs(x, y);
        FoundInCapture(before, x);
      }
    }
  }

  lemma CoveredKeys(a: seq<ObjectRecord>, b: seq<ObjectRecord>)
    requires Covers(a, b)
    ensures ByKey(b).Keys <= ByKey(a).Keys
  {
    ByKeyHolds(a);
    ByKeyHolds(b);
    hide ByKey, SayTheSame, ObjectKey;
    forall k <- ByKey(b) ensures k in ByKey(a) {
      var y := ByKey(b)[k];
      var x :| x in a && SayTheSame(x, y);
      SayTheSameIs(x, y);
      var i :| 0 <= i < |a| && a[i] == x;
    }
  }

  lemma CaptureSize(c: seq<ObjectRecord>)
    requires DistinctObjects(c)
    ensures |ByKey(c).Keys| == |c|
  {
    ByKeyHolds(c);
    hide ByKey, DistinctObjects;
    assert |ByKey(c).Keys| == |ByKey(c)|;
  }

  lemma SameKeysCover(before: seq<ObjectRecord>, after: seq<ObjectRecord>)
    requires DistinctObjects(before) && Covers(before, after) && ByKey(before).Keys == ByKey(after).Keys
    ensures Covers(after, before)
  {
    hide ByKey, SayTheSame, ObjectKey, DistinctObjects;
    ByKeyHolds(after);
    forall x <- before ensures exists y :: y in after && SayTheSame(y, x) {
      FoundInCapture(before, x);
      var y := ByKey(after)[ObjectKey(x)];
      var z :| z in before && SayTheSame(z, y);
      SayTheSameIs(z, y);
      FoundInCapture(before, z);
      SameEitherWay(x, y);
    }
  }

  lemma SameEitherWay(a: ObjectRecord, b: ObjectRecord)
    ensures SayTheSame(a, b) <==> SayTheSame(b, a)
  {
  }

  lemma SameLengthCovers(before: seq<ObjectRecord>, after: seq<ObjectRecord>)
    requires DistinctObjects(before) && DistinctObjects(after) && Covers(before, after)
    ensures |before| == |after| <==> Covers(after, before)
  {
    hide ByKey, Covers, DistinctObjects;
    CaptureSize(before);
    CaptureSize(after);
    CoveredKeys(before, after);
    if Covers(after, before) {
      CoveredKeys(after, before);
      assert ByKey(before).Keys == ByKey(after).Keys;
    }
    if |before| == |after| {
      SameSizeCovers(ByKey(after).Keys, ByKey(before).Keys);
      SameKeysCover(before, after);
    }
  }

  /** Two captures that name no object twice count as unchanged exactly when each has, for every record of the other, one that says
      the same, whatever the order and the messages. */
  lemma DifferMeans(before: seq<ObjectRecord>, after: seq<ObjectRecord>)
    requires DistinctObjects(before) && DistinctObjects(after)
    ensures !Differ(before, after) <==> Covers(before, after) && Covers(after, before)
  {
    PairedIffCovered(before, after);
    hide AllPaired, Covers, DistinctObjects;
    if Covers(before, after) { SameLengthCovers(before, after); }
  }

  // ---------------------------------------------------------------------- over a run

  /** The runtime policies one capture lists are those the other lists. */
  ghost predicate CoversPolicies(a: seq<ObjectRecord>, b: seq<ObjectRecord>) {
    forall y <- b | !Ordinary(y) :: exists x :: x in a && SayTheSame(x, y)
  }

  /** Some object of these holds something else than on the other host. */
  ghost predicate SomeMoved(keys: seq<ObjectId>, host0: Host, host: Host) {
    exists k :: k in keys && !SayTheSame(Read(host0, k), Read(host, k))
  }

  lemma CaptureCovers(keys: seq<ObjectId>, host0: Host, host: Host, before: seq<ObjectRecord>, after: seq<ObjectRecord>)
    requires CaptureOf(keys, host0, before) && CaptureOf(keys, host, after)
    ensures Covers(before, after) <==> !SomeMoved(keys, host0, host) && CoversPolicies(before, after)
  {
    hide SayTheSame, Read, ObjectKey, Ordinary;
    if Covers(before, after) {
      forall k <- keys ensures SayTheSame(Read(host0, k), Read(host, k)) {
        var y := Read(host, k);
        var x :| x in before && SayTheSame(x, y);
        SayTheSameIs(x, y);
        assert ObjectKey(y) == k by { KeyOfRead(host, k); }
        KeyedIsOrdinary(x, k);
      }
    }
    if !SomeMoved(keys, host0, host) && CoversPolicies(before, after) {
      forall y <- after ensures exists x :: x in before && SayTheSame(x, y) {
        if Ordinary(y) {
          var k := ObjectKey(y);
          assert k in keys && SayTheSame(Read(host0, k), y);
        }
      }
    }
  }

  lemma KeyOfRead(host: Host, k: ObjectId)
    ensures ObjectKey(Read(host, k)) == k
  {
  }

  lemma KeyedIsOrdinary(o: ObjectRecord, k: ObjectId)
    requires ObjectKey(o) == k
    ensures Ordinary(o)
  {
  }

  lemma MovedEitherWay(keys: seq<ObjectId>, host0: Host, host: Host)
    ensures SomeMoved(keys, host0, host) <==> SomeMoved(keys, host, host0)
  {
    hide SayTheSame, Read;
    forall a, b ensures SayTheSame(a, b) <==> SayTheSame(b, a) { SameEitherWay(a, b); }
  }

  /** Over every run of a validated profile: when a step is about to be applied, an earlier step counts as changed exactly when one
      of its objects holds something else than before the run, or the runtime policies listed before and after it differ. */
  lemma ChangedMeansMoved(l: Launch, keepLocal: bool, w: World, s: Script, graph: seq<GraphStep>, i: nat)
    requires From(l, w, s) && RunsGraph(l, graph) && PoliciesOnce(s) && ApplyRun(l, keepLocal, w, s).pc.ApplyingStep?
    requires i < DoneSteps(l, ApplyRun(l, keepLocal, w, s).pc.job)
    ensures var c := ApplyRun(l, keepLocal, w, s);
      var job := c.pc.job;
      && i < |job.journal.steps| && i < |l.plans| && l.plans[i].id in job.changes
      && (job.changes[l.plans[i].id] <==>
            || SomeMoved(l.plans[i].keys, w.host, c.world.host)
            || !CoversPolicies(job.journal.steps[i].before, job.journal.steps[i].after)
            || !CoversPolicies(job.journal.steps[i].after, job.journal.steps[i].before))
  {
    var c := ApplyRun(l, keepLocal, w, s);
    FlagIsDiffer(l, keepLocal, w, s, graph, i);
    hide From, RunsGraph, ApplyRun, PoliciesOnce, SomeMoved, CoversPolicies, CaptureOf, Differ, Covers, DistinctObjects;
    var keys, before, after := l.plans[i].keys, c.pc.job.journal.steps[i].before, c.pc.job.journal.steps[i].after;
    DifferMeans(before, after);
    CaptureCovers(keys, w.host, c.world.host, before, after);
    CaptureCovers(keys, c.world.host, w.host, after, before);
    MovedEitherWay(keys, w.host, c.world.host);
  }

  lemma FlagIsDiffer(l: Launch, keepLocal: bool, w: World, s: Script, graph: seq<GraphStep>, i: nat)
    requires From(l, w, s) && RunsGraph(l, graph) && PoliciesOnce(s) && ApplyRun(l, keepLocal, w, s).pc.ApplyingStep?
    requires i < DoneSteps(l, ApplyRun(l, keepLocal, w, s).pc.job)
    ensures var c := ApplyRun(l, keepLocal, w, s);
      var job := c.pc.job;
      && i < |job.journal.steps| && i < |l.plans| && l.plans[i].id in job.changes
      && var r := job.journal.steps[i];
      && job.changes[l.plans[i].id] == Differ(r.before, r.after) && DistinctObjects(r.before) && DistinctObjects(r.after)
      && CaptureOf(l.plans[i].keys, w.host, r.before) && CaptureOf(l.plans[i].keys, c.world.host, r.after)
  {
    var c := ApplyRun(l, keepLocal, w, s);
    FromMeans(l, w, s);
    GraphIdsDistinct(l, graph);
    DecidedRun(l, keepLocal, w, s);
    ListedRun(l, keepLocal, w, s);
    ApplyRunKeepsAInv(l, keepLocal, w, s);
    hide From, RunsGraph, ApplyRun, PoliciesOnce, Differ, DistinctObjects, DistinctPlanIds;
    FinishedRecord(l, c, i);
  }

  lemma FromMeans(l: Launch, w: World, s: Script)
    requires From(l, w, s)
    ensures w.host == l.host0
  {
  }

  lemma FinishedRecord(l: Launch, c: Config, i: nat)
    requires AInv(l, c) && DecidedAt(l, c.pc) && c.pc.ApplyingStep? && ListedOnce(RecordsAt(c.pc)) && i < DoneSteps(l, c.pc.job)
    ensures var job := c.pc.job;
      && i < |job.journal.steps| && i < |l.plans| && l.plans[i].id in job.changes
      && var r := job.journal.steps[i];
      && job.changes[l.plans[i].id] == Differ(r.before, r.after) && DistinctObjects(r.before) && DistinctObjects(r.after)
      && CaptureOf(l.plans[i].keys, l.host0, r.before) && CaptureOf(l.plans[i].keys, c.world.host, r.after)
  {
    hide Differ, DistinctObjects, CaptureOf, Untouched;
    assert Names(c.pc.job.journal.steps[i], l.plans[i]);
  }

  /** In particular, a file whose content reads differently makes its step count as changed. */
  lemma RewrittenFileIsAChange(l: Launch, keepLocal: bool, w: World, s: Script, graph: seq<GraphStep>, i: nat, k: ObjectId)
    requires From(l, w, s) && RunsGraph(l, graph) && PoliciesOnce(s) && ApplyRun(l, keepLocal, w, s).pc.ApplyingStep?
    requires i < DoneSteps(l, ApplyRun(l, keepLocal, w, s).pc.job) && i < |l.plans| && k in l.plans[i].keys && k.kind == File
    requires var now := ApplyRun(l, keepLocal, w, s).world.host;
      Read(w.host, k).file.value.content != Read(now, k).file.value.content
    ensures var changes := ApplyRun(l, keepLocal, w, s).pc.job.changes;
      l.plans[i].id in changes && changes[l.plans[i].id]
  {
    ChangedMeansMoved(l, keepLocal, w, s, graph, i);
    var now := ApplyRun(l, keepLocal, w, s).world.host;
    hide From, RunsGraph, ApplyRun, PoliciesOnce, CoversPolicies;
    assert !SayTheSame(Read(w.host, k), Read(now, k));
  }
}
