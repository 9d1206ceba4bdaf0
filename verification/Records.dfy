// What a capture records about the host, and when two captures differ.
module Records {
  import opened Wrappers

  datatype FileSnapshot = FileSnapshot(path: string, existed: bool, mode: string, owner: string, group: string, content: string)
  datatype MetaSnapshot = MetaSnapshot(path: string, existed: bool, mode: string, owner: string, group: string, attrs: string)
  datatype ServiceState = ServiceState(unit: string, enabled: bool, active: bool, enabledState: string, activeState: string, known: bool)
  datatype PackageState = PackageState(name: string, wasInstalled: bool, version: string, pinSpec: string,
                                       requestedInstall: bool, requestedPurge: bool)
  datatype RuntimePolicy = RuntimePolicy(name: string, state: string)

  datatype Kind = File | FileMeta | Service | Package | Policy | Other

  datatype ObjectRecord = ObjectRecord(kind: Kind, file: Option<FileSnapshot>, meta: Option<MetaSnapshot>,
                                       service: Option<ServiceState>, package: Option<PackageState>,
                                       policy: Option<RuntimePolicy>, message: string)

  /** What a record is about; a record without its payload is about nothing in particular. */
  datatype Key = NoKey | Key(kind: Kind, name: string)

  function ObjectKey(o: ObjectRecord): Key {
    match o.kind
    case File => if o.file.Some? then Key(File, o.file.value.path) else NoKey
    case FileMeta => if o.meta.Some? then Key(FileMeta, o.meta.value.path) else NoKey
    case Service => if o.service.Some? then Key(Service, o.service.value.unit) else NoKey
    case Package => if o.package.Some? then Key(Package, o.package.value.name) else NoKey
    case Policy => if o.policy.Some? then Key(Policy, o.policy.value.name) else NoKey
    case Other => NoKey
  }

  predicate PayloadPresent(o: ObjectRecord) { ObjectKey(o) != NoKey }

  // ---------------------------------------------------------- the key as it is written

  function KindText(k: Kind): string {
    match k
    case File => "file"
    case FileMeta => "file_meta"
    case Service => "service"
    case Package => "package"
    case Policy => "runtime_policy"
    case Other => ""
  }

  /** The key's text: the kind, a NUL and the name; empty without a payload. */
  function KeyText(o: ObjectRecord): string {
    match ObjectKey(o)
    case NoKey => ""
    case Key(kind, name) => KindText(kind) + ['\0'] + name
  }

  lemma KindTextIsPlain(k: Kind)
    ensures '\0' !in KindText(k)
  {
  }

  lemma KindTextsDiffer(j: Kind, k: Kind)
    requires KindText(j) == KindText(k)
    ensures j == k
  {
    assert |KindText(File)| == 4 && |KindText(FileMeta)| == 9 && |KindText(Policy)| == 14;
    assert KindText(Service)[0] == 's' && KindText(Package)[0] == 'p';
  }

  /** No path, unit or package name can make one object's key text another's. */
  lemma KeyTextIdentifies(a: ObjectRecord, b: ObjectRecord)
    ensures KeyText(a) == KeyText(b) <==> ObjectKey(a) == ObjectKey(b)
  {
    hide KindText;
    if KeyText(a) == KeyText(b) {
      var x, y := KeyText(a), KeyText(b);
      assert |x| == 0 <==> ObjectKey(a) == NoKey;
      assert |y| == 0 <==> ObjectKey(b) == NoKey;
      if ObjectKey(a) != NoKey { WrittenKeyIdentifies(ObjectKey(a), ObjectKey(b)); }
    }
  }

  lemma WrittenKeyIdentifies(a: Key, b: Key)
    requires a.Key? && b.Key? && KindText(a.kind) + ['\0'] + a.name == KindText(b.kind) + ['\0'] + b.name
    ensures a == b
  {
    KindTextIsPlain(a.kind);
    KindTextIsPlain(b.kind);
    hide KindText;
    var p, q := KindText(a.kind), KindText(b.kind);
    var x, y := p + ['\0'] + a.name, q + ['\0'] + b.name;
    assert x[|p|] == '\0' && y[|q|] == '\0';
    assert forall i :: 0 <= i < |p| ==> x[i] == p[i] && p[i] in p;
    assert forall i :: 0 <= i < |q| ==> y[i] == q[i] && q[i] in q;
    assert |p| == |q|;
    assert p == x[..|p|] && q == y[..|q|];
    assert a.name == x[|p| + 1..] && b.name == y[|q| + 1..];
    KindTextsDiffer(a.kind, b.kind);
  }

  // ------------------------------------------------------------------ change detection

  /** The part of a record the comparison of two captures looks at. */
  datatype Facts =
    | FileFacts(existed: bool, content: string, mode: string, owner: string, group: string)
    | MetaFacts(existed: bool, mode: string, owner: string, group: string, attrs: string)
    | ServiceFacts(active: bool, enabled: bool, enabledState: string, activeState: string)
    | PackageFacts(installed: bool, version: string, pinSpec: string)
    | PolicyFacts(name: string, state: string)

  function FactsOf(o: ObjectRecord): Facts
    requires PayloadPresent(o)
  {
    match o.kind
    case File => var f := o.file.value; FileFacts(f.existed, f.content, f.mode, f.owner, f.group)
    case FileMeta => var f := o.meta.value; MetaFacts(f.existed, f.mode, f.owner, f.group, f.attrs)
    case Service => var s := o.service.value; ServiceFacts(s.active, s.enabled, s.enabledState, s.activeState)
    case Package => var p := o.package.value; PackageFacts(p.wasInstalled, p.version, p.pinSpec)
    case Policy => var p := o.policy.value; PolicyFacts(p.name, p.state)
  }

  predicate SameFacts(a: ObjectRecord, b: ObjectRecord) {
    PayloadPresent(a) == PayloadPresent(b) && (PayloadPresent(a) ==> FactsOf(a) == FactsOf(b))
  }

  predicate DistinctObjects(objects: seq<ObjectRecord>) {
    forall i, j :: 0 <= i < j < |objects| ==> ObjectKey(objects[i]) != ObjectKey(objects[j])
  }

  predicate AllPresent(objects: seq<ObjectRecord>) {
    forall i :: 0 <= i < |objects| ==> PayloadPresent(objects[i])
  }

  /** The captured objects by key; of several with one key the last. */
  function ByKey(objects: seq<ObjectRecord>): map<Key, ObjectRecord> {
    if objects == [] then map[]
    else ByKey(objects[..|objects| - 1])[ObjectKey(objects[|objects| - 1]) := objects[|objects| - 1]]
  }

  lemma {:induction false} ByKeyKeys(objects: seq<ObjectRecord>)
    ensures forall k :: k in ByKey(objects) <==> exists i :: 0 <= i < |objects| && ObjectKey(objects[i]) == k
    ensures forall k <- ByKey(objects) :: ObjectKey(ByKey(objects)[k]) == k && ByKey(objects)[k] in objects
  {
    if objects != [] {
      var init, last := objects[..|objects| - 1], objects[|objects| - 1];
      ByKeyKeys(init);
      hide ObjectKey;
      assert objects == init + [last];
      forall k ensures k in ByKey(objects) <==> exists i :: 0 <= i < |objects| && ObjectKey(objects[i]) == k {
        if k in ByKey(init) {
          var i :| 0 <= i < |init| && ObjectKey(init[i]) == k;
          assert ObjectKey(objects[i]) == k;
        } else {
          assert forall i :: 0 <= i < |init| ==> objects[i] == init[i];
          assert ObjectKey(objects[|objects| - 1]) == ObjectKey(last);
        }
      }
    }
  }

  lemma SizeOfUpdate<K, V>(m: map<K, V>, k: K, v: V)
    ensures |m[k := v]| == if k in m then |m| else |m| + 1
  {
    assert m[k := v].Keys == m.Keys + {k};
    assert |m[k := v].Keys| == |m[k := v]| && |m.Keys| == |m|;
  }

  lemma ByKeySnoc(init: seq<ObjectRecord>, last: ObjectRecord)
    ensures ByKey(init + [last]) == ByKey(init)[ObjectKey(last) := last]
  {
    hide ObjectKey;
    assert (init + [last])[..|init|] == init;
  }

  lemma NothingByKey()
    ensures ByKey([]) == map[] && DistinctObjects([])
  {
  }

  lemma {:induction false} ByKeySize(objects: seq<ObjectRecord>)
    ensures |ByKey(objects)| <= |objects|
    ensures |ByKey(objects)| == |objects| <==> DistinctObjects(objects)
  {
    hide ObjectKey, ByKey, DistinctObjects;
    if objects == [] {
      NothingByKey();
    } else {
      var init, last := objects[..|objects| - 1], objects[|objects| - 1];
      assert objects == init + [last];
      ByKeySize(init);
      ByKeySnoc(init, last);
      DistinctSnoc(init, last);
      KeyIsListed(init, ObjectKey(last));
      SizeOfUpdate(ByKey(init), ObjectKey(last), last);
    }
  }

  lemma KeyIsListed(objects: seq<ObjectRecord>, k: Key)
    ensures k in ByKey(objects) <==> exists i :: 0 <= i < |objects| && ObjectKey(objects[i]) == k
  {
    hide ObjectKey, ByKey;
    ByKeyKeys(objects);
  }

  lemma DistinctSnoc(init: seq<ObjectRecord>, last: ObjectRecord)
    ensures DistinctObjects(init + [last]) <==>
            DistinctObjects(init) && !exists i :: 0 <= i < |init| && ObjectKey(init[i]) == ObjectKey(last)
  {
    hide ObjectKey;
    var all := init + [last];
    assert forall i :: 0 <= i < |init| ==> all[i] == init[i];
    assert all[|init|] == last;
    if DistinctObjects(all) {
      forall i, j | 0 <= i < j < |init| ensures ObjectKey(init[i]) != ObjectKey(init[j]) {
        assert all[i] == init[i] && all[j] == init[j];
      }
    }
  }

  lemma ByKeyHolds(objects: seq<ObjectRecord>)
    ensures forall k :: k in ByKey(objects) <==> exists i :: 0 <= i < |objects| && ObjectKey(objects[i]) == k
    ensures forall k <- ByKey(objects) :: ObjectKey(ByKey(objects)[k]) == k && ByKey(objects)[k] in objects
    ensures |ByKey(objects)| <= |objects|
    ensures |ByKey(objects)| == |objects| <==> DistinctObjects(objects)
  {
    ByKeyKeys(objects);
    ByKeySize(objects);
  }

  lemma ByKeyFinds(objects: seq<ObjectRecord>, i: nat)
    requires i < |objects| && DistinctObjects(objects)
    ensures ObjectKey(objects[i]) in ByKey(objects) && ByKey(objects)[ObjectKey(objects[i])] == objects[i]
  {
    ByKeyHolds(objects);
    var o := ByKey(objects)[ObjectKey(objects[i])];
    assert o in objects;
  }

  /** Every object of the second capture is one of the first's with the same facts. */
  predicate AllPaired(before: seq<ObjectRecord>, after: seq<ObjectRecord>) {
    forall i :: 0 <= i < |after| ==>
      ObjectKey(after[i]) in ByKey(before) && SameFacts(ByKey(before)[ObjectKey(after[i])], after[i])
  }

  predicate Differ(before: seq<ObjectRecord>, after: seq<ObjectRecord>) {
    !(|before| == |after| && DistinctObjects(before) && AllPaired(before, after))
  }

  method IndexByKey(objects: seq<ObjectRecord>) returns (m: map<Key, ObjectRecord>)
    ensures m == ByKey(objects)
  {
    m := map[];
    for i := 0 to |objects|
      invariant m == ByKey(objects[..i])
    {
      assert objects[..i + 1][..i] == objects[..i];
      m := m[ObjectKey(objects[i]) := objects[i]];
    }
    assert objects[..|objects|] == objects;
  }

  method FactsChanged(b: ObjectRecord, a: ObjectRecord) returns (changed: bool)
    requires ObjectKey(b) == ObjectKey(a)
    ensures changed == !SameFacts(b, a)
  {
    if PayloadPresent(b) != PayloadPresent(a) { return true; }
    if !PayloadPresent(b) { return false; }
    match b.kind
    case File =>
      var x, y := b.file.value, a.file.value;
      changed := x.existed != y.existed || x.content != y.content || x.mode != y.mode || x.owner != y.owner || x.group != y.group;
    case FileMeta =>
      var x, y := b.meta.value, a.meta.value;
      changed := x.existed != y.existed || x.mode != y.mode || x.owner != y.owner || x.group != y.group || x.attrs != y.attrs;
    case Service =>
      var x, y := b.service.value, a.service.value;
      changed := x.active != y.active || x.enabled != y.enabled || x.enabledState != y.enabledState || x.activeState != y.activeState;
    case Package =>
      var x, y := b.package.value, a.package.value;
      changed := x.wasInstalled != y.wasInstalled || x.version != y.version || x.pinSpec != y.pinSpec;
    case Policy =>
      var x, y := b.policy.value, a.policy.value;
      changed := x.name != y.name || x.state != y.state;
  }

  method CapturesDiffer(before: seq<ObjectRecord>, after: seq<ObjectRecord>) returns (differ: bool)
    ensures differ == Differ(before, after)
  {
    if |before| != |after| { return true; }
    var beforeByKey := IndexByKey(before);
    ByKeyHolds(before);
    if |beforeByKey| != |before| { return true; }
    for i := 0 to |after|
      invariant forall k :: 0 <= k < i ==>
                  ObjectKey(after[k]) in ByKey(before) && SameFacts(ByKey(before)[ObjectKey(after[k])], after[k])
    {
      var a := after[i];
      if ObjectKey(a) !in beforeByKey { return true; }
      var changed := FactsChanged(beforeByKey[ObjectKey(a)], a);
      if changed { return true; }
    }
    return false;
  }

  /** A capture as a map from object to compared facts. */
  function Snapshot(objects: seq<ObjectRecord>): map<Key, Facts>
    requires AllPresent(objects)
  {
    ByKeyHolds(objects);
    var m := ByKey(objects);
    map k | k in m :: FactsOf(m[k])
  }

  lemma {:induction false} SameSizeCovers(a: set<Key>, b: set<Key>)
    requires a <= b && |a| >= |b|
    ensures a == b
  {
    if a != b {
      var x :| x in b && x !in a;
      SubsetIsSmaller(a, b - {x});
    }
  }

  lemma {:induction false} SubsetIsSmaller(a: set<Key>, b: set<Key>)
    requires a <= b
    ensures |a| <= |b|
  {
    if a != {} {
      var x :| x in a;
      SubsetIsSmaller(a - {x}, b - {x});
    }
  }

  lemma SnapshotFinds(objects: seq<ObjectRecord>, i: nat)
    requires AllPresent(objects) && DistinctObjects(objects) && i < |objects|
    ensures ObjectKey(objects[i]) in Snapshot(objects) && Snapshot(objects)[ObjectKey(objects[i])] == FactsOf(objects[i])
  {
    ByKeyFinds(objects, i);
    hide ByKey, FactsOf, ObjectKey;
  }

  /** With each object once and every payload present, the comparison is equality of the two maps. */
  lemma CapturesDifferAsMaps(before: seq<ObjectRecord>, after: seq<ObjectRecord>)
    requires DistinctObjects(before) && DistinctObjects(after) && AllPresent(before) && AllPresent(after)
    ensures Differ(before, after) <==> Snapshot(before) != Snapshot(after)
    ensures Differ(before, after) <==> Differ(after, before)
  {
    SnapshotEqualMeansPaired(before, after);
    SnapshotEqualMeansPaired(after, before);
    hide ByKey, FactsOf, ObjectKey, AllPaired, Snapshot;
  }

  lemma SnapshotEqualMeansPaired(before: seq<ObjectRecord>, after: seq<ObjectRecord>)
    requires DistinctObjects(before) && DistinctObjects(after) && AllPresent(before) && AllPresent(after)
    ensures |before| == |after| && AllPaired(before, after) <==> Snapshot(before) == Snapshot(after)
  {
    SnapshotSize(before);
    SnapshotSize(after);
    if Snapshot(before) == Snapshot(after) { EqualSnapshotsPair(before, after); }
    if |before| == |after| && AllPaired(before, after) { PairedSnapshotsAreEqual(before, after); }
  }

  lemma SnapshotSize(objects: seq<ObjectRecord>)
    requires DistinctObjects(objects) && AllPresent(objects)
    ensures |Snapshot(objects)| == |objects|
  {
    ByKeyHolds(objects);
    hide FactsOf, ObjectKey, ByKey;
    assert Snapshot(objects).Keys == ByKey(objects).Keys;
    assert |Snapshot(objects).Keys| == |ByKey(objects).Keys|;
  }

  lemma EqualSnapshotsPair(before: seq<ObjectRecord>, after: seq<ObjectRecord>)
    requires DistinctObjects(before) && DistinctObjects(after) && AllPresent(before) && AllPresent(after)
    requires Snapshot(before) == Snapshot(after)
    ensures AllPaired(before, after)
  {
    ByKeyHolds(before);
    forall i | 0 <= i < |after|
      ensures ObjectKey(after[i]) in ByKey(before) && SameFacts(ByKey(before)[ObjectKey(after[i])], after[i])
    {
      SnapshotFinds(after, i);
      hide FactsOf, ByKey;
      assert ObjectKey(after[i]) in Snapshot(before);
    }
  }

  lemma PairedSnapshotsAreEqual(before: seq<ObjectRecord>, after: seq<ObjectRecord>)
    requires DistinctObjects(before) && DistinctObjects(after) && AllPresent(before) && AllPresent(after)
    requires |before| == |after| && AllPaired(before, after)
    ensures Snapshot(before) == Snapshot(after)
  {
    var s, t := Snapshot(before), Snapshot(after);
    SnapshotSize(before);
    SnapshotSize(after);
    forall k | k in t ensures k in s && t[k] == s[k] { PairedEntry(before, after, k); }
    hide Snapshot, AllPaired, AllPresent, DistinctObjects;
    assert |t.Keys| == |t| && |s.Keys| == |s|;
    SameSizeCovers(t.Keys, s.Keys);
  }

  lemma PairedEntry(before: seq<ObjectRecord>, after: seq<ObjectRecord>, k: Key)
    requires DistinctObjects(after) && AllPresent(before) && AllPresent(after) && AllPaired(before, after)
    requires k in Snapshot(after)
    ensures k in Snapshot(before) && Snapshot(after)[k] == Snapshot(before)[k]
  {
    ByKeyKeys(after);
    hide FactsOf, ByKey;
    var i :| 0 <= i < |after| && ObjectKey(after[i]) == k;
    SnapshotFinds(after, i);
  }

  /** Exactly which captures are reported as different from themselves. */
  lemma DiffersFromItself(c: seq<ObjectRecord>)
    ensures Differ(c, c) <==> !DistinctObjects(c)
  {
    ByKeyHolds(c);
    hide FactsOf;
    if DistinctObjects(c) {
      forall i | 0 <= i < |c| ensures ObjectKey(c[i]) in ByKey(c) && SameFacts(ByKey(c)[ObjectKey(c[i])], c[i]) {
        ByKeyFinds(c, i);
      }
    }
  }

  ghost predicate ComparedRightly(a: seq<ObjectRecord>, b: seq<ObjectRecord>)
    requires AllPresent(a) && AllPresent(b)
  {
    Differ(a, b) == (Snapshot(a) != Snapshot(b))
  }

  /** A capture is compared rightly with itself and, either way round, with every capture that repeats no object
      exactly when it repeats none itself. */
  lemma ComparedRightlyIff(c: seq<ObjectRecord>)
    requires AllPresent(c)
    ensures DistinctObjects(c) <==>
            ComparedRightly(c, c)
            && forall d :: DistinctObjects(d) && AllPresent(d) ==> ComparedRightly(c, d) && ComparedRightly(d, c)
  {
    DiffersFromItself(c);
    hide Differ, Snapshot, DistinctObjects, AllPresent;
    if DistinctObjects(c) {
      forall d | DistinctObjects(d) && AllPresent(d) ensures ComparedRightly(c, d) && ComparedRightly(d, c) {
        CapturesDifferAsMaps(c, d);
      }
    }
  }

  /** Why distinct keys are needed on both sides: {x, y} against {x, x} is reported as equal. */
  lemma RepeatedObjectHidesAnother(x: ObjectRecord, y: ObjectRecord)
    requires ObjectKey(x) != ObjectKey(y)
    ensures !Differ([x, y], [x, x]) && Differ([x, x], [x, y])
  {
    var both := [x, y];
    assert DistinctObjects(both);
    ByKeyFinds(both, 0);
    hide ObjectKey, FactsOf, ByKey;
    assert !DistinctObjects([x, x]) by { assert ObjectKey([x, x][0]) == ObjectKey([x, x][1]); }
  }
}
