// What one pass over a rollback plan attempts, restores and reports.
module RestorePass {
  import opened Records
  import opened Journals
  import opened Protocol

  // ------------------------------------------------------------- what a rollback owes

  predicate Ordinary(o: ObjectRecord) { o.kind != Policy }

  /** Every object of one step a rollback has to put back. */
  function OwedBy(before: seq<ObjectRecord>, tolerant: bool, step: string): multiset<Attempt> {
    if before == [] then multiset{}
    else
      OwedBy(before[1..], tolerant, step)
      + if Ordinary(before[0]) then multiset{Restore(before[0], tolerant, step)} else multiset{}
  }

  predicate Reverts(s: StepRecord, all: seq<StepRecord>) { Applies(s, all) && s.mode != Noop }

  /** Every object a rollback has to put back, in no order. */
  function Owed(steps: seq<StepRecord>, all: seq<StepRecord>): multiset<Attempt> {
    if steps == [] then multiset{}
    else
      Owed(steps[1..], all)
      + if Reverts(steps[0], all) then OwedBy(steps[0].before, Tolerates(steps[0].mode), steps[0].id) else multiset{}
  }

  lemma {:induction false} OwedBySnoc(before: seq<ObjectRecord>, o: ObjectRecord, tolerant: bool, step: string)
    ensures OwedBy(before + [o], tolerant, step) ==
            OwedBy(before, tolerant, step) + if Ordinary(o) then multiset{Restore(o, tolerant, step)} else multiset{}
  {
    if before == [] {
      assert (before + [o])[1..] == [];
    } else {
      assert (before + [o])[1..] == before[1..] + [o];
      OwedBySnoc(before[1..], o, tolerant, step);
    }
  }

  lemma {:induction false} RestoresAreOwed(before: seq<ObjectRecord>, tolerant: bool, step: string)
    ensures multiset(Restores(before, tolerant, step)) == OwedBy(before, tolerant, step)
  {
    if before != [] {
      var init, last := before[..|before| - 1], before[|before| - 1];
      RestoresAreOwed(init, tolerant, step);
      OwedBySnoc(init, last, tolerant, step);
      assert before == init + [last];
    }
  }

  lemma {:induction false} OwedSnoc(steps: seq<StepRecord>, s: StepRecord, all: seq<StepRecord>)
    ensures Owed(steps + [s], all) ==
            Owed(steps, all) + if Reverts(s, all) then OwedBy(s.before, Tolerates(s.mode), s.id) else multiset{}
  {
    hide Applies;
    if steps == [] {
      assert (steps + [s])[1..] == [];
    } else {
      assert (steps + [s])[1..] == steps[1..] + [s];
      OwedSnoc(steps[1..], s, all);
    }
  }

  predicate StepsRegistered(registered: set<string>, steps: seq<StepRecord>, all: seq<StepRecord>) {
    forall i :: 0 <= i < |steps| && Reverts(steps[i], all) ==> steps[i].typ in registered
  }

  /** The restores of the applying steps with (or without) service objects. */
  function HalfPlan(registered: set<string>, steps: seq<StepRecord>, all: seq<StepRecord>, services: bool): seq<Attempt> {
    AttemptsOf(registered, Backwards(steps, all, services))
  }

  lemma HalfPlanSnoc(registered: set<string>, init: seq<StepRecord>, last: StepRecord, all: seq<StepRecord>, services: bool)
    ensures HalfPlan(registered, init + [last], all, services) ==
            (if Applies(last, all) && HasService(last) == services then Attempts(registered, last) else [])
            + HalfPlan(registered, init, all, services)
  {
    hide Applies, HasService, Attempts;
    var steps := init + [last];
    var rest := Backwards(init, all, services);
    assert steps[..|steps| - 1] == init && steps[|steps| - 1] == last;
    if Applies(last, all) && HasService(last) == services {
      assert Backwards(steps, all, services)[1..] == rest;
    } else {
      assert Backwards(steps, all, services) == [] + rest == rest;
      assert [] + AttemptsOf(registered, rest) == AttemptsOf(registered, rest);
    }
  }

  lemma {:induction false} BackwardsIsOwed(registered: set<string>, steps: seq<StepRecord>, all: seq<StepRecord>)
    requires StepsRegistered(registered, steps, all)
    ensures multiset(HalfPlan(registered, steps, all, false)) + multiset(HalfPlan(registered, steps, all, true))
            == Owed(steps, all)
  {
    hide Applies, HasService, OwedBy, Attempts;
    if steps != [] {
      var init, last := steps[..|steps| - 1], steps[|steps| - 1];
      assert steps == init + [last];
      BackwardsIsOwed(registered, init, all);
      OwedSnoc(init, last, all);
      HalfPlanSnoc(registered, init, last, all, false);
      HalfPlanSnoc(registered, init, last, all, true);
      hide HalfPlan, Owed;
      if Applies(last, all) { OneStepIsOwed(registered, last, all); }
    }
  }

  lemma OneStepIsOwed(registered: set<string>, s: StepRecord, all: seq<StepRecord>)
    requires Applies(s, all) && (Reverts(s, all) ==> s.typ in registered)
    ensures multiset(Attempts(registered, s)) ==
            if Reverts(s, all) then OwedBy(s.before, Tolerates(s.mode), s.id) else multiset{}
  {
    hide Applies;
    RestoresAreOwed(s.before, Tolerates(s.mode), s.id);
  }

  /** Past the preflight, reversing, deferring and skipping neither lose nor repeat a restore. */
  lemma PlanIsOwed(registered: set<string>, steps: seq<StepRecord>)
    requires AllRegistered(registered, steps)
    ensures multiset(Plan(registered, steps)) == Owed(steps, steps)
  {
    hide Applies, HasService;
    BackwardsIsOwed(registered, steps, steps);
  }

  // ------------------------------------------------------------------- services come last

  lemma {:induction false} BackwardsHasOnly(steps: seq<StepRecord>, all: seq<StepRecord>, services: bool)
    ensures forall s <- Backwards(steps, all, services) :: HasService(s) == services && Applies(s, all) && s in steps
  {
    hide Applies, HasService;
    if steps != [] { BackwardsHasOnly(steps[..|steps| - 1], all, services); }
  }

  lemma {:induction false} RestoresAre(before: seq<ObjectRecord>, tolerant: bool, step: string)
    ensures forall a :: a in Restores(before, tolerant, step) <==>
              a.Restore? && a.tolerant == tolerant && a.step == step && Ordinary(a.record) && a.record in before
  {
    if before != [] {
      var init, last := before[..|before| - 1], before[|before| - 1];
      RestoresAre(init, tolerant, step);
      assert before == init + [last];
    }
  }

  /** Steps hold service objects alone or not at all. */
  predicate ServicesApart(steps: seq<StepRecord>) {
    forall s <- steps :: HasService(s) ==> forall o <- s.before :: Ordinary(o) ==> o.kind == Service
  }

  lemma StepAttemptsOfKind(registered: set<string>, s: StepRecord)
    requires HasService(s) ==> forall o <- s.before :: Ordinary(o) ==> o.kind == Service
    ensures forall a <- Attempts(registered, s) :: a.Restore? ==> (a.record.kind == Service) == HasService(s)
  {
    RestoresAre(s.before, Tolerates(s.mode), s.id);
    hide Restores;
    forall a <- Attempts(registered, s) ensures a.Restore? ==> (a.record.kind == Service) == HasService(s) {
      if a.Restore? && a.record.kind == Service {
        var i :| 0 <= i < |s.before| && s.before[i] == a.record;
        assert HasService(s);
      }
    }
  }

  lemma {:induction false} AttemptsOfKind(registered: set<string>, order: seq<StepRecord>, services: bool)
    requires ServicesApart(order) && forall s <- order :: HasService(s) == services
    ensures forall a <- AttemptsOf(registered, order) :: a.Restore? ==> (a.record.kind == Service) == services
  {
    if order != [] {
      var first, rest := order[0], order[1..];
      assert first in order && forall s <- rest :: s in order;
      AttemptsOfKind(registered, rest, services);
      StepAttemptsOfKind(registered, first);
      hide HasService, Attempts;
    }
  }

  /** Every service is restored after every file and package. */
  lemma ServicesComeLast(registered: set<string>, steps: seq<StepRecord>, i: nat, j: nat)
    requires ServicesApart(steps)
    requires i < |Plan(registered, steps)| && j < |Plan(registered, steps)|
    requires Plan(registered, steps)[i].Restore? && Plan(registered, steps)[j].Restore?
    requires Plan(registered, steps)[i].record.kind == Service && Plan(registered, steps)[j].record.kind != Service
    ensures j < i
  {
    BackwardsHasOnly(steps, steps, false);
    BackwardsHasOnly(steps, steps, true);
    hide HasService, Applies, Backwards, AttemptsOf;
    AttemptsOfKind(registered, Backwards(steps, steps, false), false);
    AttemptsOfKind(registered, Backwards(steps, steps, true), true);
    var early, late := AttemptsOf(registered, Backwards(steps, steps, false)), AttemptsOf(registered, Backwards(steps, steps, true));
    var plan := early + late;
    assert forall k :: 0 <= k < |early| ==> plan[k] == early[k] && early[k] in early;
    assert forall k :: |early| <= k < |plan| ==> plan[k] == late[k - |early|] && late[k - |early|] in late;
  }

  // ------------------------------------------------------------------------ one pass

  datatype Pass = Pass(host: Host, tried: seq<Attempt>, failed: seq<Attempt>, complete: bool, stopped: bool)

  /** The restores one pass makes under a script, the ones that failed, and how it ends. */
  function RunPlan(plan: seq<Attempt>, host: Host, s: Script): (p: Pass)
    decreases |plan|
  {
    if plan == [] then Pass(host, [], [], true, false)
    else if plan[0].NoPlugin? then Pass(host, [], [], false, false)
    else if s == [] then Pass(host, [], [], false, true)
    else
      var host' := if Landed(s[0]) then Put(host, plan[0].record) else host;
      if s[0].ok then
        var p := RunPlan(plan[1..], host', s[1..]);
        p.(tried := [plan[0]] + p.tried)
      else if plan[0].tolerant then
        var p := RunPlan(plan[1..], host', s[1..]);
        p.(tried := [plan[0]] + p.tried, failed := [plan[0]] + p.failed)
      else Pass(host', [plan[0]], [plan[0]], false, false)
  }

  /** The attempts whose restore was reported as failed. */
  function FailedOf(tried: seq<Attempt>, s: Script): seq<Attempt>
    requires |tried| <= |s|
  {
    if tried == [] then []
    else (if s[0].ok then [] else [tried[0]]) + FailedOf(tried[1..], s[1..])
  }

  /** A pass tries the plan in order, each restore once, and reports exactly the failures. */
  lemma {:induction false} PassTriesInOrder(plan: seq<Attempt>, host: Host, s: Script)
    ensures var p := RunPlan(plan, host, s);
      p.tried <= plan && |p.tried| <= |s| && p.failed == FailedOf(p.tried, s) && (p.complete ==> p.tried == plan)
    decreases |plan|
  {
    if plan != [] && plan[0].Restore? && s != [] {
      var host' := if Landed(s[0]) then Put(host, plan[0].record) else host;
      hide Put, Landed;
      assert plan == [plan[0]] + plan[1..];
      if s[0].ok || plan[0].tolerant {
        var q := RunPlan(plan[1..], host', s[1..]);
        PassTriesInOrder(plan[1..], host', s[1..]);
        hide RunPlan;
        assert [plan[0]] + q.tried <= plan;
        assert ([plan[0]] + q.tried)[1..] == q.tried;
      } else {
        assert [plan[0]][1..] == [];
      }
    }
  }

  predicate Tolerated(failed: seq<Attempt>) { forall a <- failed :: a.Restore? && a.tolerant }

  /** The pass ended at the failure of a restore whose step does not tolerate one. */
  predicate StrictFailure(p: Pass) {
    && p.tried != [] && p.failed != []
    && var last := p.tried[|p.tried| - 1];
    && last.Restore? && !last.tolerant && p.failed[|p.failed| - 1] == last && Tolerated(p.failed[..|p.failed| - 1])
  }

  /** A pass ends with tolerated failures only, or at the first strict one, which is its last attempt. */
  lemma {:induction false} PassEndsAtFirstStrictFailure(plan: seq<Attempt>, host: Host, s: Script)
    requires forall a <- plan :: a.Restore?
    ensures var p := RunPlan(plan, host, s);
      if p.complete || p.stopped then Tolerated(p.failed) else StrictFailure(p)
    decreases |plan|
  {
    assert plan != [] ==> plan[0] in plan;
    if plan != [] && s != [] {
      var host' := if Landed(s[0]) then Put(host, plan[0].record) else host;
      if s[0].ok || plan[0].tolerant {
        var p, q := RunPlan(plan, host, s), RunPlan(plan[1..], host', s[1..]);
        PassEndsAtFirstStrictFailure(plan[1..], host', s[1..]);
        EarlierTries(plan[0], q, !s[0].ok);
        assert p == q.(tried := [plan[0]] + q.tried, failed := (if s[0].ok then [] else [plan[0]]) + q.failed);
      }
    }
  }

  lemma EarlierTries(first: Attempt, q: Pass, fails: bool)
    requires first.Restore? && (fails ==> first.tolerant)
    ensures var p := q.(tried := [first] + q.tried, failed := (if fails then [first] else []) + q.failed);
      (Tolerated(q.failed) ==> Tolerated(p.failed)) && (StrictFailure(q) ==> StrictFailure(p))
  {
    var more := if fails then [first] else [];
    var p := q.(tried := [first] + q.tried, failed := more + q.failed);
    if StrictFailure(q) {
      assert p.tried[|p.tried| - 1] == q.tried[|q.tried| - 1] && p.failed[|p.failed| - 1] == q.failed[|q.failed| - 1];
      assert p.failed[..|p.failed| - 1] == more + q.failed[..|q.failed| - 1];
    }
  }

  /** A rollback that reports no error tried every owed object exactly once. */
  lemma NilErrorMeansAllTried(registered: set<string>, steps: seq<StepRecord>, host: Host, s: Script)
    requires AllRegistered(registered, steps) && RunPlan(Plan(registered, steps), host, s).complete
    ensures multiset(RunPlan(Plan(registered, steps), host, s).tried) == Owed(steps, steps)
  {
    PassTriesInOrder(Plan(registered, steps), host, s);
    PlanIsOwed(registered, steps);
    hide Plan, RunPlan, Owed;
  }

  lemma {:induction false} AttemptsAreRestores(registered: set<string>, order: seq<StepRecord>)
    requires forall s <- order :: s.mode != Noop ==> s.typ in registered
    ensures forall a <- AttemptsOf(registered, order) :: a.Restore?
  {
    if order != [] {
      RestoresAre(order[0].before, Tolerates(order[0].mode), order[0].id);
      assert order[0] in order;
      AttemptsAreRestores(registered, order[1..]);
    }
  }

  /** Past the preflight no restore is missing its plugin. */
  lemma PlanIsRestores(registered: set<string>, steps: seq<StepRecord>)
    requires AllRegistered(registered, steps)
    ensures forall a <- Plan(registered, steps) :: a.Restore?
  {
    BackwardsHasOnly(steps, steps, false);
    BackwardsHasOnly(steps, steps, true);
    hide Applies, HasService, Backwards, AttemptsOf;
    AttemptsAreRestores(registered, Backwards(steps, steps, false));
    AttemptsAreRestores(registered, Backwards(steps, steps, true));
  }

  function RecordsOf(failed: seq<Attempt>): seq<ObjectRecord>
    requires forall a <- failed :: a.Restore?
  {
    seq(|failed|, i requires 0 <= i < |failed| => failed[i].record)
  }

  /** Where the state machine stands after a pass. */
  function AfterPass(r: Revert, plan: seq<Attempt>, failed: seq<ObjectRecord>, p: Pass): Pc
    requires forall a <- p.failed :: a.Restore?
    requires |p.tried| <= |plan|
  {
    if p.complete then RevertDone(r, failed + RecordsOf(p.failed))
    else if p.stopped then Resume(r, plan[|p.tried|..], failed + RecordsOf(p.failed))
    else RevertFailed(r, false)
  }

  lemma ResumesSoundly(r: Revert, plan: seq<Attempt>, failed: seq<ObjectRecord>)
    ensures Sound(Resume(r, plan, failed)) && Sound(RevertDone(r, failed)) && Sound(RevertFailed(r, false))
  {
  }

  lemma FirstRestore(registered: set<string>, r: Revert, plan: seq<Attempt>, failed: seq<ObjectRecord>, w: World, s: Script)
    requires plan != [] && plan[0].Restore? && s != []
    ensures var obj := plan[0].record;
      var w' := if Landed(s[0]) then w.(host := Put(w.host, obj)) else w;
      var next := if s[0].ok then Resume(r, plan[1..], failed)
                  else if plan[0].tolerant then Resume(r, plan[1..], failed + [obj]) else RevertFailed(r, false);
      && Sound(Resume(r, plan, failed)) && Sound(next)
      && Exec(registered, Config(Resume(r, plan, failed), w), s) == Exec(registered, Config(next, w'), s[1..])
  {
    ResumesSoundly(r, plan[1..], failed);
    ResumesSoundly(r, plan[1..], failed + [plan[0].record]);
    assert Resume(r, plan, failed) == Pc.Reverting(r, plan, failed);
    hide Put, RevertDone, RevertFailed, Resume;
  }

  /** The Exec of a pass that has reached this point. */
  ghost predicate IsExecOf(registered: set<string>, r: Revert, plan: seq<Attempt>, failed: seq<ObjectRecord>, w: World, s: Script, p: Pass) {
    && |p.tried| <= |plan| && |p.tried| <= |s| && (forall a <- p.failed :: a.Restore?)
    && Sound(Resume(r, plan, failed)) && Sound(AfterPass(r, plan, failed, p))
    && Exec(registered, Config(Resume(r, plan, failed), w), s) ==
       Exec(registered, Config(AfterPass(r, plan, failed, p), w.(host := p.host)), s[|p.tried|..])
  }

  lemma PassGoesOn(registered: set<string>, r: Revert, plan: seq<Attempt>, failed: seq<ObjectRecord>, w: World, s: Script, w': World,
                   more: seq<Attempt>, q: Pass, p: Pass)
    requires plan != [] && plan[0].Restore? && s != [] && (s[0].ok || plan[0].tolerant)
    requires more == if s[0].ok then [] else [plan[0]]
    requires w' == if Landed(s[0]) then w.(host := Put(w.host, plan[0].record)) else w
    requires p == q.(tried := [plan[0]] + q.tried, failed := more + q.failed)
    requires IsExecOf(registered, r, plan[1..], failed + RecordsOf(more), w', s[1..], q)
    ensures IsExecOf(registered, r, plan, failed, w, s, p)
  {
    FirstRestore(registered, r, plan, failed, w, s);
    hide Put, Landed, RevertDone, RevertFailed, Resume, Exec, Sound, AfterPass;
    assert failed + RecordsOf(more) == if s[0].ok then failed else failed + [plan[0].record];
    PassStep(r, plan, failed, more, q, p, s);
    assert w'.(host := q.host) == w.(host := p.host);
  }

  lemma PassEndsHere(registered: set<string>, r: Revert, plan: seq<Attempt>, failed: seq<ObjectRecord>, w: World, s: Script)
    requires plan == [] || plan[0].NoPlugin? || s == [] || (!s[0].ok && !plan[0].tolerant)
    ensures IsExecOf(registered, r, plan, failed, w, s, RunPlan(plan, w.host, s))
  {
    ResumesSoundly(r, plan, failed);
    assert failed + [] == failed && s[0..] == s && RecordsOf([]) == [] && plan[0..] == plan;
    if plan != [] && plan[0].Restore? && s != [] { FirstRestore(registered, r, plan, failed, w, s); }
    hide Put, Landed, RevertDone, RevertFailed, Exec, Sound;
  }

  /** The commands' restore loop is exactly such a pass. */
  lemma {:induction false} PassIsExec(registered: set<string>, r: Revert, plan: seq<Attempt>, failed: seq<ObjectRecord>, w: World, s: Script)
    ensures IsExecOf(registered, r, plan, failed, w, s, RunPlan(plan, w.host, s))
    decreases |plan|
  {
    hide Put, Landed, RevertDone, RevertFailed, Resume, Exec, Sound, IsExecOf, AfterPass;
    if plan != [] && plan[0].Restore? && s != [] && (s[0].ok || plan[0].tolerant) {
      var w' := if Landed(s[0]) then w.(host := Put(w.host, plan[0].record)) else w;
      var more := if s[0].ok then [] else [plan[0]];
      PassIsExec(registered, r, plan[1..], failed + RecordsOf(more), w', s[1..]);
      var q := RunPlan(plan[1..], w'.host, s[1..]);
      assert more + q.failed == if s[0].ok then q.failed else [plan[0]] + q.failed;
      PassGoesOn(registered, r, plan, failed, w, s, w', more, q, RunPlan(plan, w.host, s));
    } else {
      PassEndsHere(registered, r, plan, failed, w, s);
    }
  }

  lemma PassStep(r: Revert, plan: seq<Attempt>, failed: seq<ObjectRecord>, more: seq<Attempt>, q: Pass, p: Pass, s: Script)
    requires plan != [] && s != [] && (forall a <- more :: a.Restore?) && (forall a <- q.failed :: a.Restore?)
    requires p == q.(tried := [plan[0]] + q.tried, failed := more + q.failed) && |p.tried| <= |plan| && |p.tried| <= |s|
    ensures forall a <- p.failed :: a.Restore?
    ensures AfterPass(r, plan[1..], failed + RecordsOf(more), q) == AfterPass(r, plan, failed, p)
    ensures s[1..][|q.tried|..] == s[|p.tried|..]
  {
    hide Resume, RevertDone, RevertFailed;
    assert failed + RecordsOf(more) + RecordsOf(q.failed) == failed + RecordsOf(p.failed);
    assert plan[1..][|q.tried|..] == plan[|p.tried|..];
  }
}
