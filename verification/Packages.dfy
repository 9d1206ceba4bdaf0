// The packages step: nothing is removed that its capture did not record.
module Packages {
  import opened Wrappers
  import opened Text
  import opened Sorting
  import opened Records
  import opened Journals

  /** The lists of one packages step. */
  datatype Spec = Spec(install: seq<string>, purge: seq<string>, alsoRemoves: seq<string>, upgrade: string, autoremove: string)

  // -------------------------------------------------------------------------- name sets

  function Names(list: seq<string>): set<string> { set i | 0 <= i < |list| && TrimSpace(list[i]) != "" :: TrimSpace(list[i]) }

  lemma NamesSnoc(list: seq<string>, i: nat)
    requires i < |list|
    ensures Names(list[..i + 1]) == Names(list[..i]) + if TrimSpace(list[i]) == "" then {} else {TrimSpace(list[i])}
  {
    hide TrimSpace;
    var a, b := list[..i], list[..i + 1];
    assert forall k :: 0 <= k < i ==> a[k] == b[k];
    assert b[i] == list[i];
  }

  method CollectNames(list: seq<string>) returns (names: set<string>)
    ensures names == Names(list)
  {
    hide Names, TrimSpace;
    names := {};
    NoNames();
    for i := 0 to |list|
      invariant names == Names(list[..i])
    {
      NamesSnoc(list, i);
      var name := TrimSpace(list[i]);
      if name == "" { continue; }
      names := names + {name};
    }
    assert list[..|list|] == list;
  }

  lemma NoNames()
    ensures forall list: seq<string> :: Names(list[..0]) == {}
  {
  }

  /** Every name once and sorted, and which of the two lists asks for it. */
  method Targets(installList: seq<string>, purgeList: seq<string>)
    returns (names: seq<string>, install: set<string>, purge: set<string>)
    ensures install == Names(installList) && purge == Names(purgeList)
    ensures Lists(names, install + purge)
  {
    install := CollectNames(installList);
    purge := CollectNames(purgeList);
    names := SortedListing(install + purge);
  }

  // ------------------------------------------------------------------------- validation

  /** Entries are not blank and differ once trimmed. */
  predicate NamedOnce(list: seq<string>) {
    && (forall i :: 0 <= i < |list| ==> TrimSpace(list[i]) != "")
    && (forall i, j :: 0 <= i < j < |list| ==> TrimSpace(list[i]) != TrimSpace(list[j]))
  }

  method CollectOnce(list: seq<string>, apart: set<string>) returns (ok: bool, names: set<string>)
    ensures ok <==> NamedOnce(list) && Names(list) !! apart
    ensures ok ==> names == Names(list)
  {
    hide TrimSpace, Names;
    names := {};
    NoNames();
    for i := 0 to |list|
      invariant names == Names(list[..i]) && names !! apart
      invariant forall k :: 0 <= k < i ==> TrimSpace(list[k]) != "" && TrimSpace(list[k]) in names
      invariant forall name <- names :: exists k :: 0 <= k < i && TrimSpace(list[k]) == name
      invariant forall j, k :: 0 <= j < k < i ==> TrimSpace(list[j]) != TrimSpace(list[k])
    {
      NamesSnoc(list, i);
      var name := TrimSpace(list[i]);
      if name == "" { return false, names; }
      if name in names { return false, names; }
      if name in apart {
        NameIsNamed(list, i);
        return false, names;
      }
      names := names + {name};
    }
    assert list[..|list|] == list;
    ok := true;
  }

  lemma NameIsNamed(list: seq<string>, i: nat)
    requires i < |list| && TrimSpace(list[i]) != ""
    ensures TrimSpace(list[i]) in Names(list)
  {
    hide TrimSpace;
  }

  /** No name twice, none both installed and purged. */
  predicate ListsValid(install: seq<string>, purge: seq<string>) {
    NamedOnce(install) && NamedOnce(purge) && Names(install) !! Names(purge)
  }

  method ValidateLists(valid: string -> bool, install: seq<string>, purge: seq<string>) returns (ok: bool)
    ensures ok <==> ListsValid(install, purge) && (forall n <- install :: valid(n)) && (forall n <- purge :: valid(n))
  {
    hide NamedOnce, Names;
    var installs: set<string>, purges: set<string>;
    ok, installs := CollectOnce(install, {});
    if !ok { return; }
    ok, purges := CollectOnce(purge, installs);
    if !ok { return; }
    ok := ValidateNames(valid, install);
    if !ok { return; }
    ok := ValidateNames(valid, purge);
  }

  method ValidateNames(valid: string -> bool, names: seq<string>) returns (ok: bool)
    ensures ok <==> forall n <- names :: valid(n)
  {
    for i := 0 to |names|
      invariant forall k :: 0 <= k < i ==> valid(names[k])
    {
      if !valid(names[i]) { return false; }
    }
    ok := true;
  }

  predicate CollateralValid(s: Spec) {
    NamedOnce(s.alsoRemoves) && Names(s.alsoRemoves) !! Names(s.install) + Names(s.purge)
  }

  method ValidatePurgeCollateral(s: Spec) returns (ok: bool)
    ensures ok <==> CollateralValid(s)
  {
    hide NamedOnce, Names;
    var installs := CollectNames(s.install);
    var purges := CollectNames(s.purge);
    var collateral: set<string>;
    ok, collateral := CollectOnce(s.alsoRemoves, installs + purges);
  }

  predicate Validated(s: Spec) { ListsValid(s.install, s.purge) && CollateralValid(s) }

  // ------------------------------------------------------------------------ rpm arches

  const ARCHES: seq<string> := ["x86_64", "noarch", "aarch64", "i686", "i386", "armv7hl", "ppc64le", "s390x", "src"]

  predicate HasSuffix(s: string, suffix: string) { |suffix| <= |s| && s[|s| - |suffix|..] == suffix }

  function TrimSuffix(token: string, arches: seq<string>): Option<string> {
    if arches == [] then None
    else
      var suffix := "." + arches[0];
      if HasSuffix(token, suffix) && |token| > |suffix| then Some(token[..|token| - |suffix|]) else TrimSuffix(token, arches[1..])
  }

  function TrimmedArch(token: string): Option<string> { TrimSuffix(token, ARCHES) }

  method TrimRPMArch(token: string, arches: seq<string>) returns (name: Option<string>)
    ensures name == TrimSuffix(token, arches)
  {
    assert arches[0..] == arches;
    for i := 0 to |arches|
      invariant TrimSuffix(token, arches) == TrimSuffix(token, arches[i..])
    {
      assert arches[i..][1..] == arches[i + 1..];
      var suffix := "." + arches[i];
      if HasSuffix(token, suffix) && |token| > |suffix| { return Some(token[..|token| - |suffix|]); }
    }
    name := None;
  }

  /** The name a preview would print for a declared one. */
  function Bare(name: string): string {
    match TrimmedArch(name) case Some(bare) => bare case None => name
  }

  lemma SameSuffix(token: string, a: string, b: string)
    requires HasSuffix(token, "." + a) && HasSuffix(token, "." + b) && '.' !in b && |a| <= |b|
    ensures a == b
  {
    var x, y := "." + a, "." + b;
    var at := |token| - |x|;
    assert token[at] == x[0] && x[1..] == a && y[1..] == b;
    assert token[at] == y[at - (|token| - |y|)];
  }

  lemma {:induction false} SuffixIsTrimmed(token: string, arches: seq<string>, arch: string)
    requires (forall a <- arches :: '.' !in a) && arch in arches && HasSuffix(token, "." + arch) && |token| > |arch| + 1
    ensures TrimSuffix(token, arches) == Some(token[..|token| - |arch| - 1])
  {
    if HasSuffix(token, "." + arches[0]) {
      if |arch| <= |arches[0]| { SameSuffix(token, arch, arches[0]); } else { SameSuffix(token, arches[0], arch); }
    } else {
      assert arch in arches[1..] && forall a <- arches[1..] :: a in arches;
      SuffixIsTrimmed(token, arches[1..], arch);
    }
  }

  lemma {:induction false} NoSuffixStays(token: string, arches: seq<string>)
    requires forall a <- arches :: !HasSuffix(token, "." + a) || |token| <= |a| + 1
    ensures TrimSuffix(token, arches) == None
  {
    hide HasSuffix;
    if arches != [] {
      assert arches[0] in arches && forall a <- arches[1..] :: a in arches;
      NoSuffixStays(token, arches[1..]);
    }
  }

  lemma ArchesAre()
    ensures (forall a <- ARCHES :: '.' !in a) && forall a :: a in ARCHES <==>
              a in {"x86_64", "noarch", "aarch64", "i686", "i386", "armv7hl", "ppc64le", "s390x", "src"}
  {
    var s := ARCHES;
    assert s == [s[0]] + [s[1]] + [s[2]] + [s[3]] + [s[4]] + [s[5]] + [s[6]] + [s[7]] + [s[8]];
  }

  lemma SuffixedIsTrimmed(base: string, arch: string)
    requires base != "" && arch in ARCHES && forall a <- ARCHES :: '.' !in a
    ensures TrimmedArch(base + "." + arch) == Some(base)
  {
    hide TrimSuffix, ARCHES;
    var token := base + "." + arch;
    assert token[|token| - |arch| - 1..] == "." + arch;
    SuffixIsTrimmed(token, ARCHES, arch);
    assert token[..|token| - |arch| - 1] == base;
  }

  /** A declared name loses the arch it ends with, if something is left, and no other name changes. */
  lemma BareIs(base: string, arch: string, name: string)
    requires base != "" && arch in {"x86_64", "noarch", "aarch64", "i686", "i386", "armv7hl", "ppc64le", "s390x", "src"}
    requires forall a :: a in {"x86_64", "noarch", "aarch64", "i686", "i386", "armv7hl", "ppc64le", "s390x", "src"} ==>
               |name| <= |a| + 1 || name[|name| - |a| - 1..] != "." + a
    ensures Bare(base + "." + arch) == base && Bare(name) == name
  {
    hide TrimSuffix, ARCHES, TrimmedArch;
    ArchesAre();
    SuffixedIsTrimmed(base, arch);
    NoArchStays(name);
  }

  lemma NoArchStays(name: string)
    requires forall a <- ARCHES :: |name| <= |a| + 1 || name[|name| - |a| - 1..] != "." + a
    ensures TrimmedArch(name) == None
  {
    hide TrimSuffix, ARCHES;
    NoSuffixStays(name, ARCHES);
  }

  function DeclaredNames(list: seq<string>): set<string> { set n <- Names(list) :: Bare(n) }

  method DeclaredNameSet(list: seq<string>) returns (declared: set<string>)
    ensures declared == DeclaredNames(list)
  {
    hide TrimSpace, Names, TrimSuffix;
    declared := {};
    NoNames();
    for i := 0 to |list|
      invariant declared == DeclaredNames(list[..i])
    {
      NamesSnoc(list, i);
      var name := TrimSpace(list[i]);
      if name == "" { continue; }
      var trimmed := TrimRPMArch(name, ARCHES);
      declared := declared + {if trimmed.Some? then trimmed.value else name};
      DeclaredSnoc(Names(list[..i]), name);
    }
    assert list[..|list|] == list;
  }

  lemma DeclaredSnoc(names: set<string>, name: string)
    ensures (set n <- names + {name} :: Bare(n)) == (set n <- names :: Bare(n)) + {Bare(name)}
  {
    hide Bare;
  }

  // ----------------------------------------------------------------------------- guards

  function Outside(allowed: set<string>, preview: seq<string>): seq<string> {
    if preview == [] then []
    else
      Outside(allowed, preview[..|preview| - 1]) + if preview[|preview| - 1] in allowed then [] else [preview[|preview| - 1]]
  }

  method UnexpectedRemovals(want: seq<string>, preview: seq<string>) returns (extra: seq<string>)
    ensures extra == Outside(DeclaredNames(want), preview)
  {
    var allowed := DeclaredNameSet(want);
    extra := [];
    for i := 0 to |preview|
      invariant extra == Outside(allowed, preview[..i])
    {
      assert preview[..i + 1][..i] == preview[..i];
      if preview[i] !in allowed { extra := extra + [preview[i]]; }
    }
    assert preview[..|preview|] == preview;
  }

  lemma {:induction false} NothingOutsideIff(allowed: set<string>, preview: seq<string>)
    ensures Outside(allowed, preview) == [] <==> forall p <- preview :: p in allowed
  {
    if preview != [] {
      NothingOutsideIff(allowed, preview[..|preview| - 1]);
      assert preview == preview[..|preview| - 1] + [preview[|preview| - 1]];
    }
  }

  /** A transaction is let through only if every package it removes was declared. */
  method GuardPurgeTransaction(purge: seq<string>, alsoRemoves: seq<string>, preview: seq<string>) returns (ok: bool)
    ensures ok <==> forall p <- preview :: p in DeclaredNames(purge + alsoRemoves)
  {
    hide DeclaredNames;
    var want: seq<string> := [];
    want := want + purge;
    want := want + alsoRemoves;
    assert want == purge + alsoRemoves;
    var extra := UnexpectedRemovals(want, preview);
    NothingOutsideIff(DeclaredNames(want), preview);
    ok := |extra| == 0;
  }

  // ---------------------------------------------------------------------------- capture

  datatype Queried = Queried(installed: bool, version: string, pin: string)

  /** What the package manager answers; none when the query fails. */
  type Query = string -> Option<Queried>

  function RecordOf(name: string, install: set<string>, purge: set<string>, q: Queried): PackageState {
    PackageState(name, q.installed, q.version, q.pin, name in install, name in purge)
  }

  predicate AllAnswered(names: seq<string>, query: Query) { forall n <- names :: query(n).Some? }

  function RecordsOf(names: seq<string>, install: set<string>, purge: set<string>, query: Query): seq<PackageState>
    requires AllAnswered(names, query)
  {
    seq(|names|, i requires 0 <= i < |names| => RecordOf(names[i], install, purge, query(names[i]).value))
  }

  function CapturedMode(s: Spec, purgesInstalled: bool): Mode {
    if purgesInstalled then Irreversible
    else if s.install != [] || s.upgrade !in {"", "never"} || s.autoremove !in {"", "never"} then BestEffort
    else Deterministic
  }

  /** The records a capture of this step makes. */
  ghost predicate CapturedRecords(s: Spec, query: Query, records: seq<PackageState>) {
    exists names :: Lists(names, Names(s.install) + Names(s.purge + s.alsoRemoves)) && AllAnswered(names, query)
      && records == RecordsOf(names, Names(s.install), Names(s.purge + s.alsoRemoves), query)
  }

  /** The capture has one record of each named package, with what the query answered and which list asks for it, and no other. */
  lemma CapturedAre(s: Spec, query: Query, records: seq<PackageState>)
    requires CapturedRecords(s, query, records)
    ensures var install, purge := Names(s.install), Names(s.purge + s.alsoRemoves);
      && (forall r <- records ::
            && r.name in install + purge && query(r.name).Some?
            && r.wasInstalled == query(r.name).value.installed && r.version == query(r.name).value.version
            && r.pinSpec == query(r.name).value.pin
            && r.requestedInstall == (r.name in install) && r.requestedPurge == (r.name in purge))
      && (forall n <- install + purge :: exists r :: r in records && r.name == n)
      && (forall i, j :: 0 <= i < j < |records| ==> records[i].name != records[j].name)
  {
    hide Names;
    var install, purge := Names(s.install), Names(s.purge + s.alsoRemoves);
    var names :| Lists(names, install + purge) && AllAnswered(names, query) && records == RecordsOf(names, install, purge, query);
    forall n <- install + purge ensures exists r :: r in records && r.name == n {
      var k :| 0 <= k < |names| && names[k] == n;
      assert records[k] in records && records[k].name == n;
    }
  }

  /** The step takes away a package that was there. */
  ghost predicate TakesAway(s: Spec, query: Query) {
    exists n <- Names(s.purge) :: query(n).Some? && query(n).value.installed
  }

  method Capture(s: Spec, query: Query) returns (r: Result<(Mode, seq<PackageState>), string>)
    ensures r.Ok? ==> CapturedRecords(s, query, r.value.1)
    ensures r.Ok? ==> (r.value.0 == Irreversible <==> TakesAway(s, query))
    ensures r.Ok? && !TakesAway(s, query) ==>
              (r.value.0 == BestEffort <==> s.install != [] || s.upgrade !in {"", "never"} || s.autoremove !in {"", "never"})
    ensures r.Ok? ==> r.value.0 in {Irreversible, BestEffort, Deterministic}
    ensures r.Err? <==> exists n <- Names(s.install) + Names(s.purge + s.alsoRemoves) :: query(n).None?
  {
    hide Names, TakesAway, RecordsOf, RecordOf, AllAnswered, SomeInstalled;
    var names, install, purge := Targets(s.install, s.purge + s.alsoRemoves);
    var none, nothing, declared := Targets([], s.purge);
    PurgeIsTarget(s);
    NothingRecorded(declared, query, install, purge);
    var records: seq<PackageState> := [];
    var purgesInstalled := false;
    for i := 0 to |names|
      invariant AllAnswered(names[..i], query)
      invariant records == RecordsOf(names[..i], install, purge, query)
      invariant purgesInstalled <==> SomeInstalled(names[..i], declared, query)
    {
      var name := names[i];
      assert names[..i + 1] == names[..i] + [name];
      var answer := query(name);
      if answer.None? {
        assert name in names;
        return Err(name);
      }
      OneMoreRecord(names[..i], name, declared, query, install, purge);
      if name in declared && answer.value.installed { purgesInstalled := true; }
      records := records + [RecordOf(name, install, purge, answer.value)];
    }
    assert names[..|names|] == names;
    Answered(names, query);
    TakesAwayIff(s, query, names, declared);
    r := Ok((CapturedMode(s, purgesInstalled), records));
  }

  /** One of the listed packages is declared and installed. */
  predicate SomeInstalled(names: seq<string>, declared: set<string>, query: Query)
    requires AllAnswered(names, query)
  {
    exists k :: 0 <= k < |names| && names[k] in declared && query(names[k]).value.installed
  }

  lemma NothingRecorded(declared: set<string>, query: Query, install: set<string>, purge: set<string>)
    ensures AllAnswered([], query) && !SomeInstalled([], declared, query) && RecordsOf([], install, purge, query) == []
  {
  }

  lemma Answered(names: seq<string>, query: Query)
    requires AllAnswered(names, query)
    ensures forall n <- names :: query(n).Some?
  {
  }

  lemma OneMoreRecord(names: seq<string>, name: string, declared: set<string>, query: Query, install: set<string>, purge: set<string>)
    requires AllAnswered(names, query) && query(name).Some?
    ensures AllAnswered(names + [name], query)
    ensures RecordsOf(names + [name], install, purge, query)
            == RecordsOf(names, install, purge, query) + [RecordOf(name, install, purge, query(name).value)]
    ensures SomeInstalled(names + [name], declared, query) <==>
            SomeInstalled(names, declared, query) || (name in declared && query(name).value.installed)
  {
    hide RecordOf;
    var all := names + [name];
    assert forall i :: 0 <= i < |names| ==> all[i] == names[i];
    assert all[|names|] == name;
    if k :| 0 <= k < |names| && names[k] in declared && query(names[k]).value.installed { assert all[k] == names[k]; }
  }

  lemma PurgeIsTarget(s: Spec)
    ensures Names(s.purge) <= Names(s.purge + s.alsoRemoves)
  {
    hide TrimSpace;
    var all := s.purge + s.alsoRemoves;
    assert forall i :: 0 <= i < |s.purge| ==> all[i] == s.purge[i];
  }

  lemma TakesAwayIff(s: Spec, query: Query, names: seq<string>, declared: set<string>)
    requires declared == Names(s.purge) && AllAnswered(names, query) && forall n <- declared :: n in names
    ensures TakesAway(s, query) <==> SomeInstalled(names, declared, query)
  {
    hide Names;
    if TakesAway(s, query) {
      var n :| n in declared && query(n).Some? && query(n).value.installed;
      var k :| 0 <= k < |names| && names[k] == n;
    }
  }

  // ------------------------------------------------------------------------ main results

  lemma {:induction false} NamesConcat(a: seq<string>, b: seq<string>)
    ensures Names(a + b) == Names(a) + Names(b)
  {
    hide TrimSpace;
    var c := a + b;
    assert forall i :: 0 <= i < |a| ==> c[i] == a[i];
    assert forall i :: 0 <= i < |b| ==> c[|a| + i] == b[i];
    forall n | n in Names(c) ensures n in Names(a) + Names(b) {
      var i :| 0 <= i < |c| && TrimSpace(c[i]) != "" && TrimSpace(c[i]) == n;
      if i < |a| { assert TrimSpace(a[i]) == n; } else { assert TrimSpace(b[i - |a|]) == n; }
    }
    forall n | n in Names(b) ensures n in Names(c) {
      var i :| 0 <= i < |b| && TrimSpace(b[i]) != "" && TrimSpace(b[i]) == n;
      assert TrimSpace(c[|a| + i]) == n;
    }
  }

  /** Every package a guarded transaction removes is journalled for reinstall, up to an arch suffix. */
  lemma RemovalsAreJournalled(s: Spec, query: Query, records: seq<PackageState>, preview: seq<string>)
    requires CapturedRecords(s, query, records) && forall p <- preview :: p in DeclaredNames(s.purge + s.alsoRemoves)
    ensures forall p <- preview :: exists r <- records :: r.requestedPurge && (r.name == p || TrimmedArch(r.name) == Some(p))
  {
    hide Names, TrimSuffix;
    var names :| Lists(names, Names(s.install) + Names(s.purge + s.alsoRemoves)) && AllAnswered(names, query)
      && records == RecordsOf(names, Names(s.install), Names(s.purge + s.alsoRemoves), query);
    forall p <- preview ensures exists r <- records :: r.requestedPurge && (r.name == p || TrimmedArch(r.name) == Some(p)) {
      var n :| n in Names(s.purge + s.alsoRemoves) && Bare(n) == p;
      var k :| 0 <= k < |names| && names[k] == n;
      assert records[k] in records && records[k].name == n && records[k].requestedPurge;
    }
  }

  /** No record asks for both removal and reinstall exactly when no name is on both sides. */
  lemma NoRecordAsksBothIff(s: Spec, query: Query, records: seq<PackageState>)
    requires CapturedRecords(s, query, records)
    ensures (forall r <- records :: !(r.requestedInstall && r.requestedPurge)) <==>
            Names(s.install) !! Names(s.purge + s.alsoRemoves)
  {
    hide Names;
    var install, purge := Names(s.install), Names(s.purge + s.alsoRemoves);
    var names :| Lists(names, install + purge) && AllAnswered(names, query) && records == RecordsOf(names, install, purge, query);
    if n :| n in install && n in purge {
      var k :| 0 <= k < |names| && names[k] == n;
      assert records[k] in records && records[k].requestedInstall && records[k].requestedPurge;
    }
  }

  /** A validated step's records never ask for both. */
  lemma ValidatedNeverAsksBoth(s: Spec, query: Query, records: seq<PackageState>)
    requires Validated(s) && CapturedRecords(s, query, records)
    ensures forall r <- records :: !(r.requestedInstall && r.requestedPurge)
  {
    NamesConcat(s.purge, s.alsoRemoves);
    NoRecordAsksBothIff(s, query, records);
    hide Names, CapturedRecords, NamedOnce;
  }

  // ------------------------------------------------------------------------- the step

  /** One answer of the package manager: its report, whether the command landed, and what a preview or install names. */
  datatype Answer = Answer(ok: bool, took: bool, run: bool, names: seq<string>)

  predicate Landed(a: Answer) { a.ok || a.took }

  function SetOf(names: seq<string>): set<string> { set n <- names }

  /** What is left of the answers after asking whether an operation is due and, if so, running it. */
  function AfterOperation(answers: seq<Answer>): seq<Answer> {
    if answers == [] then [] else if answers[0].run && |answers| > 1 then answers[2..] else answers[1..]
  }

  /** The answers from the purge's preview on: those before it are about update, upgrade and install. */
  function FromPurge(s: Spec, answers: seq<Answer>): seq<Answer> {
    var rest := AfterOperation(AfterOperation(answers));
    if |s.install| > 0 && rest != [] then rest[1..] else rest
  }

  /** The answers from the question whether autoremove is due on. */
  function FromAutoremove(s: Spec, answers: seq<Answer>): seq<Answer> {
    var rest := FromPurge(s, answers);
    if |s.purge| > 0 && |rest| > 1 then rest[2..] else rest
  }

  /** What a step that succeeds has previewed for removal. */
  function Previewed(s: Spec, answers: seq<Answer>): set<string> {
    var purge, more := FromPurge(s, answers), FromAutoremove(s, answers);
    (if |s.purge| > 0 && purge != [] then SetOf(purge[0].names) else {})
      + (if |more| > 1 && more[0].run then SetOf(more[1].names) else {})
  }

  class Manager {
    var installed: set<string>
    var answers: seq<Answer>

    constructor (installed: set<string>, answers: seq<Answer>)
      ensures this.installed == installed && this.answers == answers
    {
      this.installed, this.answers := installed, answers;
    }

    /** The next answer; when there is none any more, the command fails. */
    method Ask() returns (a: Answer)
      modifies this`answers
      ensures if old(answers) == [] then a == Answer(false, false, false, []) && answers == []
              else a == old(answers)[0] && answers == old(answers)[1..]
    {
      if answers == [] { return Answer(false, false, false, []); }
      a := answers[0];
      answers := answers[1..];
    }

    /** Updates, upgrades and installs add packages, those named and what they need, and take none away. */
    method Add(names: set<string>) returns (ok: bool)
      modifies this
      ensures old(installed) <= installed
      ensures ok ==> names <= installed && old(answers) != [] && answers == old(answers)[1..]
    {
      var a := Ask();
      if Landed(a) { installed := installed + names + SetOf(a.names); }
      ok := a.ok;
    }

    /** Previews a removal, refuses it if it goes beyond what was declared, and then runs it. */
    method RemoveGuarded(s: Spec) returns (ok: bool)
      modifies this
      ensures installed <= old(installed)
      ensures forall p <- old(installed) - installed :: p in DeclaredNames(s.purge + s.alsoRemoves)
      ensures ok ==> |old(answers)| > 1 && answers == old(answers)[2..] && installed == old(installed) - SetOf(old(answers)[0].names)
    {
      hide DeclaredNames;
      var preview := Ask();
      if !preview.ok { return false; }
      ok := GuardPurgeTransaction(s.purge, s.alsoRemoves, preview.names);
      if !ok { return; }
      var command := Ask();
      if Landed(command) { installed := installed - SetOf(preview.names); }
      ok := command.ok;
    }

    /** Update, upgrade, install, purge, autoremove; whatever fails or stops it, only declared packages are gone, and success means
        that just the previewed ones are. */
    method Apply(s: Spec) returns (ok: bool)
      modifies this
      ensures forall p <- old(installed) - installed :: p in DeclaredNames(s.purge + s.alsoRemoves)
      ensures ok ==> forall p <- Names(s.install) - installed :: p in DeclaredNames(s.purge + s.alsoRemoves)
      ensures ok && |s.purge| > 0 ==> |FromPurge(s, old(answers))| > 1
      ensures ok ==> Previewed(s, old(answers)) !! installed && old(installed) - installed <= Previewed(s, old(answers))
    {
      hide DeclaredNames, Names, SetOf;
      ghost var asked := answers;
      for i := 0 to 2
        invariant old(installed) <= installed
        invariant answers == if i == 0 then asked else if i == 1 then AfterOperation(asked) else AfterOperation(AfterOperation(asked))
      {
        var due := Ask();
        if !due.ok { return false; }
        if !due.run { continue; }
        ok := Add({});
        if !ok { return; }
      }
      if |s.install| > 0 {
        var names := CollectNames(s.install);
        ok := Add(names);
        if !ok { return; }
      } else {
        NoNames();
        assert s.install == s.install[..0];
      }
      assert answers == FromPurge(s, asked);
      if |s.purge| > 0 {
        ok := RemoveGuarded(s);
        if !ok { return; }
      }
      assert answers == FromAutoremove(s, asked);
      var due := Ask();
      if !due.ok { return false; }
      ok := true;
      if due.run { ok := RemoveGuarded(s); }
    }
  }
}
