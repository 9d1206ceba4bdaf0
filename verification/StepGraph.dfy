// Which steps a service step may watch.
module StepGraph {
  import opened Text

  // ------------------------------------------------------------------ the profile's graph

  datatype GraphStep = GraphStep(id: string, plugin: string, watches: seq<string>)

  datatype ActionFile = ActionFile(path: string, steps: seq<GraphStep>)

  function AllSteps(files: seq<ActionFile>): seq<GraphStep> {
    if files == [] then [] else AllSteps(files[..|files| - 1]) + files[|files| - 1].steps
  }

  predicate Trimmed(s: string) { TrimSpace(s) == s && s != "" }

  /** Only service steps watch others. */
  function Watched(s: GraphStep): seq<string> { if s.plugin == "service" then s.watches else [] }

  predicate WatchesEarlier(steps: seq<GraphStep>, i: nat)
    requires i < |steps|
  {
    forall k :: 0 <= k < |Watched(steps[i])| ==>
      Trimmed(Watched(steps[i])[k]) && NamedBefore(steps, i, Watched(steps[i])[k])
  }

  predicate NamedOnce(steps: seq<GraphStep>) {
    && (forall i :: 0 <= i < |steps| ==> Trimmed(steps[i].id))
    && (forall i, j :: 0 <= i < j < |steps| ==> steps[i].id != steps[j].id)
  }

  /** Every step has a name of its own, and every watched step runs before its watcher. */
  predicate Accepted(steps: seq<GraphStep>) {
    NamedOnce(steps) && forall i :: 0 <= i < |steps| ==> WatchesEarlier(steps, i)
  }

  /** Where each named step runs. */
  ghost predicate Positions(position: map<string, int>, steps: seq<GraphStep>) {
    && (forall i :: 0 <= i < |steps| ==> steps[i].id in position && position[steps[i].id] == i)
    && (forall id <- position :: 0 <= position[id] < |steps| && steps[position[id]].id == id)
  }

  method PlaceStep(step: GraphStep, before: map<string, int>, order: nat, ghost placed: seq<GraphStep>)
    returns (ok: bool, position: map<string, int>)
    requires Positions(before, placed) && NamedOnce(placed) && order == |placed|
    ensures ok <==> NamedOnce(placed + [step])
    ensures ok ==> Positions(position, placed + [step])
  {
    hide TrimSpace;
    position := before;
    ghost var all := placed + [step];
    assert all[order] == step && forall k :: 0 <= k < |placed| ==> all[k] == placed[k];
    var id := TrimSpace(step.id);
    if id == "" { return false, position; }
    if id != step.id { return false, position; }
    if id in position {
      assert all[position[id]].id == all[order].id;
      return false, position;
    }
    position := position[id := order];
    ok := true;
  }

  method PlaceSteps(file: ActionFile, before: map<string, int>, ghost done: seq<GraphStep>) returns (ok: bool, position: map<string, int>)
    requires Positions(before, done) && NamedOnce(done)
    ensures ok <==> NamedOnce(done + file.steps)
    ensures ok ==> Positions(position, done + file.steps)
  {
    hide TrimSpace, Positions, NamedOnce;
    position := before;
    PositionsCount(before, done);
    var order := |before|;
    assert done + file.steps[..0] == done;
    for i := 0 to |file.steps|
      invariant order == |done| + i
      invariant Positions(position, done + file.steps[..i]) && NamedOnce(done + file.steps[..i])
    {
      ghost var placed := done + file.steps[..i];
      assert done + file.steps[..i + 1] == placed + [file.steps[i]];
      ok, position := PlaceStep(file.steps[i], position, order, placed);
      if !ok {
        NamedOncePrefix(placed + [file.steps[i]], done + file.steps);
        return;
      }
      order := order + 1;
    }
    assert file.steps[..|file.steps|] == file.steps;
    ok := true;
  }

  lemma NamedOncePrefix(a: seq<GraphStep>, b: seq<GraphStep>)
    requires a <= b
    ensures NamedOnce(b) ==> NamedOnce(a)
  {
    hide TrimSpace;
    assert forall i :: 0 <= i < |a| ==> a[i] == b[i];
  }

  lemma PositionsCount(position: map<string, int>, steps: seq<GraphStep>)
    requires Positions(position, steps) && NamedOnce(steps)
    ensures |position| == |steps|
  {
    hide TrimSpace;
    IdsCount(steps);
    forall id | id in position ensures id in Ids(steps) { assert steps[position[id]].id == id; }
    assert position.Keys == Ids(steps);
    assert |position.Keys| == |position|;
  }

  function Ids(steps: seq<GraphStep>): set<string> { set i | 0 <= i < |steps| :: steps[i].id }

  lemma {:induction false} IdsCount(steps: seq<GraphStep>)
    requires forall i, j :: 0 <= i < j < |steps| ==> steps[i].id != steps[j].id
    ensures |Ids(steps)| == |steps|
  {
    if steps != [] {
      var n := |steps| - 1;
      var init, last := steps[..n], steps[n].id;
      IdsCount(init);
      assert forall i :: 0 <= i < n ==> init[i] == steps[i];
      assert last !in Ids(init);
      assert Ids(steps) == Ids(init) + {last};
      assert |Ids(init) + {last}| == |Ids(init)| + |{last}|;
    }
  }

  /** Some earlier step has the name. */
  predicate NamedBefore(steps: seq<GraphStep>, i: nat, id: string)
    requires i <= |steps|
  {
    exists j :: 0 <= j < i && steps[j].id == id
  }

  lemma NamedBeforeIff(position: map<string, int>, steps: seq<GraphStep>, i: nat, id: string)
    requires Positions(position, steps) && i <= |steps|
    ensures NamedBefore(steps, i, id) <==> id in position && position[id] < i
  {
    if id in position && position[id] < i { assert steps[position[id]].id == id; }
  }

  method CheckWatches(step: GraphStep, order: nat, position: map<string, int>, ghost steps: seq<GraphStep>) returns (ok: bool)
    requires Positions(position, steps) && order < |steps| && steps[order] == step
    ensures ok <==> WatchesEarlier(steps, order)
  {
    hide TrimSpace, NamedBefore;
    var deps := Watched(step);
    assert position[step.id] == order;
    for k := 0 to |deps|
      invariant forall m :: 0 <= m < k ==> Trimmed(deps[m]) && NamedBefore(steps, order, deps[m])
    {
      var dep := deps[k];
      NamedBeforeIff(position, steps, order, dep);
      if TrimSpace(dep) == "" || TrimSpace(dep) != dep { return false; }
      if dep == step.id { return false; }
      if dep !in position { return false; }
      if position[dep] > order { return false; }
      assert position[dep] != order by { SamePlace(position, steps, order, dep); }
    }
    ok := true;
  }

  lemma SamePlace(position: map<string, int>, steps: seq<GraphStep>, order: nat, dep: string)
    requires Positions(position, steps) && order < |steps| && dep in position && dep != steps[order].id
    ensures position[dep] != order
  {
    assert steps[position[dep]].id == dep;
  }

  method PlaceAll(files: seq<ActionFile>) returns (ok: bool, position: map<string, int>)
    ensures ok <==> NamedOnce(AllSteps(files))
    ensures ok ==> Positions(position, AllSteps(files))
  {
    hide NamedOnce, Positions;
    position := map[];
    NothingPlaced();
    for f := 0 to |files|
      invariant Positions(position, AllSteps(files[..f])) && NamedOnce(AllSteps(files[..f]))
    {
      FileSteps(files, f);
      ok, position := PlaceSteps(files[f], position, AllSteps(files[..f]));
      if !ok {
        NamedOncePrefix(AllSteps(files[..f + 1]), AllSteps(files));
        return;
      }
    }
    assert files[..|files|] == files;
    ok := true;
  }

  lemma NothingPlaced()
    ensures Positions(map[], []) && NamedOnce([])
  {
  }

  method CheckAll(files: seq<ActionFile>, position: map<string, int>) returns (ok: bool)
    requires Positions(position, AllSteps(files)) && NamedOnce(AllSteps(files))
    ensures ok <==> forall i :: 0 <= i < |AllSteps(files)| ==> WatchesEarlier(AllSteps(files), i)
  {
    hide WatchesEarlier, NamedOnce, Positions;
    ghost var all := AllSteps(files);
    var order := 0;
    for f := 0 to |files|
      invariant order == |AllSteps(files[..f])| <= |all|
      invariant forall i :: 0 <= i < order ==> WatchesEarlier(all, i)
    {
      FileSteps(files, f);
      ghost var start := order;
      for i := 0 to |files[f].steps|
        invariant order == start + i
        invariant forall k :: 0 <= k < order ==> WatchesEarlier(all, k)
      {
        assert all[start + i] == files[f].steps[i];
        ok := CheckWatches(files[f].steps[i], order, position, all);
        if !ok { return; }
        order := order + 1;
      }
    }
    assert files[..|files|] == files;
    ok := true;
  }

  method ValidateStepGraph(files: seq<ActionFile>) returns (ok: bool)
    ensures ok <==> Accepted(AllSteps(files))
  {
    hide WatchesEarlier, NamedOnce, Positions;
    var position;
    ok, position := PlaceAll(files);
    if !ok { return; }
    ok := CheckAll(files, position);
  }

  lemma WatchesAre(steps: seq<GraphStep>, i: nat)
    requires i < |steps|
    ensures WatchesEarlier(steps, i) <==>
            (steps[i].plugin == "service" ==> forall w <- steps[i].watches ::
               w != "" && TrimSpace(w) == w && exists j :: 0 <= j < i && steps[j].id == w)
  {
    hide TrimSpace;
    var watches := steps[i].watches;
    if steps[i].plugin == "service" {
      assert Watched(steps[i]) == watches && forall k :: 0 <= k < |watches| ==> watches[k] in watches;
    }
  }

  /** What the check accepts, step by step: names that are neither blank nor padded and no two alike, and for each service step
      such names of earlier steps only. */
  lemma AcceptedIs(steps: seq<GraphStep>)
    ensures Accepted(steps) <==>
      && (forall i :: 0 <= i < |steps| ==> steps[i].id != "" && TrimSpace(steps[i].id) == steps[i].id)
      && (forall i, j :: 0 <= i < j < |steps| ==> steps[i].id != steps[j].id)
      && (forall i :: 0 <= i < |steps| && steps[i].plugin == "service" ==> forall w <- steps[i].watches ::
            w != "" && TrimSpace(w) == w && exists j :: 0 <= j < i && steps[j].id == w)
  {
    hide TrimSpace, WatchesEarlier;
    forall i | 0 <= i < |steps|
      ensures WatchesEarlier(steps, i) <==>
              (steps[i].plugin == "service" ==> forall w <- steps[i].watches ::
                 w != "" && TrimSpace(w) == w && exists j :: 0 <= j < i && steps[j].id == w)
    {
      WatchesAre(steps, i);
    }
  }

  /** The f-th file's steps follow those of the files before it. */
  lemma {:induction false} FileSteps(files: seq<ActionFile>, f: nat)
    requires f < |files|
    ensures AllSteps(files[..f + 1]) == AllSteps(files[..f]) + files[f].steps
    ensures AllSteps(files[..f + 1]) <= AllSteps(files)
  {
    assert files[..f + 1][..f] == files[..f];
    StepsPrefix(files, f + 1);
  }

  lemma {:induction false} StepsPrefix(files: seq<ActionFile>, f: nat)
    requires f <= |files|
    ensures AllSteps(files[..f]) <= AllSteps(files)
  {
    if f == |files| {
      assert files[..f] == files;
    } else {
      StepsPrefix(files[..|files| - 1], f);
      assert files[..|files| - 1][..f] == files[..f];
    }
  }
}
