// Printing an audit rule and parsing it again.
module AuditRoundTrip {
  import opened Wrappers
  import opened Text
  import opened Sorting
  import opened Audit
  import opened AuditRules

  // ------------------------------------------------------------- what parsing guarantees

  predicate GoodSyscall(s: string) { Spaceless(s) && ',' !in s }

  predicate GoodField(f: string) { IsWord(f) && NormalizedField(f) == f && !(KEY_PREFIX <= f) }

  predicate GoodPerms(p: string) { p == "" || (IsWord(p) && SortedLetters(p) == p) }

  predicate GoodWatch(w: string) { w == "" || (IsWord(w) && NormalizeWatchPath(w) == w) }

  predicate GoodList(l: string) { l == "" || (IsWord(l) && NormalizeRuleList(l) == Ok(l)) }

  /** Every part is one word in normal form, but for syscall names, which may be empty. */
  predicate Good(r: Rule) {
    && GoodWatch(r.watch) && GoodPerms(r.perms) && GoodList(r.list) && Spaceless(r.key)
    && (forall s <- r.syscalls :: GoodSyscall(s)) && (forall f <- r.fields :: GoodField(f))
  }

  lemma PartSpaceless(s: string, i: nat, j: nat)
    requires i <= j <= |s| && Spaceless(s)
    ensures Spaceless(s[i..j])
  {
  }

  lemma WatchIsGood(value: string)
    requires IsWord(value)
    ensures GoodWatch(NormalizeWatchPath(value)) && NormalizeWatchPath(value) != ""
  {
    WatchPathStays(value);
    var w := NormalizeWatchPath(value);
    PartSpaceless(value, 0, |w|);
    assert value[0..|w|] == w;
    hide NormalizeWatchPath;
  }

  lemma PermsAreGood(value: string)
    requires Spaceless(value)
    ensures GoodPerms(SortedLetters(value)) && (value != "" ==> SortedLetters(value) != "")
  {
    SortedLettersStay(value);
    hide SortedLetters;
  }

  lemma FieldIsGood(value: string)
    requires IsWord(value) && !(KEY_PREFIX <= value)
    ensures GoodField(NormalizedField(value))
  {
    FieldStays(value);
    NormalizedIsWord(value, 0);
    assert FIELD_OPS[0..] == FIELD_OPS;
    hide FIELD_OPS, NormalizeBy;
  }

  lemma {:induction false} PartsSpaceless(s: string)
    requires Spaceless(s)
    ensures forall p <- Split(s, ',') :: GoodSyscall(p)
  {
    SplitPartsAreClean(s, ',');
    PartsOfSpaceless(s);
  }

  lemma {:induction false} PartsOfSpaceless(s: string)
    requires Spaceless(s)
    ensures forall p <- Split(s, ',') :: Spaceless(p)
  {
    if s != "" {
      PartSpaceless(s, 1, |s|);
      PartsOfSpaceless(s[1..]);
      var rest := Split(s[1..], ',');
      assert rest[0] in rest;
      forall p <- Split(s, ',') ensures Spaceless(p) {
        if p !in rest {
          assert p == "" || p == [s[0]] + rest[0];
        }
      }
    }
  }

  lemma StepKeepsGood(q: Rule, option: string, value: string)
    requires Good(q) && IsWord(value) && Step(q, option, value).Ok?
    ensures Good(Step(q, option, value).value)
  {
    hide NormalizeWatchPath, SortedLetters, NormalizedField, NormalizeRuleList, GoodField, GoodSyscall, GoodPerms, GoodWatch;
    if option == "-w" {
      WatchIsGood(value);
    } else if option == "-p" {
      PermsAreGood(value);
    } else if option == "-S" {
      PartsSpaceless(value);
    } else if option == "-F" {
      if KEY_PREFIX <= value {
        PartSpaceless(value, |KEY_PREFIX|, |value|);
        assert value[|KEY_PREFIX|..] == value[|KEY_PREFIX|..|value|];
      } else {
        FieldIsGood(value);
      }
    } else if option != "-k" {
      RuleListStays(value);
    }
  }

  lemma {:induction false} ReadKeepsGood(q: Rule, tokens: seq<string>)
    requires Good(q) && (forall t <- tokens :: IsWord(t)) && ReadOptions(q, tokens).Ok?
    ensures Good(ReadOptions(q, tokens).value)
    decreases |tokens|
  {
    hide Good, Step, IsWord;
    if |tokens| > 1 {
      assert tokens[1] in tokens;
      StepKeepsGood(q, tokens[0], tokens[1]);
      ReadKeepsGood(Step(q, tokens[0], tokens[1]).value, tokens[2..]);
    } else if |tokens| == 1 {
      LoneOptionFails(q, tokens[0]);
    }
  }

  lemma LoneOptionFails(q: Rule, option: string)
    ensures Step(q, option, "").Err?
  {
  }

  /** Options and values come in pairs, so an odd number of tokens never parses. */
  lemma {:induction false} OddFails(q: Rule, tokens: seq<string>)
    requires |tokens| % 2 == 1
    ensures ReadOptions(q, tokens).Err?
    decreases |tokens|
  {
    hide Step;
    if |tokens| == 1 {
      LoneOptionFails(q, tokens[0]);
    } else if Step(q, tokens[0], tokens[1]).Ok? {
      OddFails(Step(q, tokens[0], tokens[1]).value, tokens[2..]);
    }
  }

  lemma {:induction false} FoldIsGood(fields: seq<string>)
    requires forall f <- fields :: GoodField(f)
    ensures Spaceless(FoldFields(fields).watch) && GoodPerms(FoldFields(fields).perms)
  {
    hide GoodField, SortedLetters, GoodPerms;
    if fields == [] {
      EmptyPermsAreGood();
    } else {
      var field := fields[|fields| - 1];
      FoldIsGood(fields[..|fields| - 1]);
      assert field in fields;
      GoodFieldSpaceless(field);
      if PATH <= field { PartSpaceless(field, |PATH|, |field|); assert field[|PATH|..] == field[|PATH|..|field|]; }
      else if DIR <= field { PartSpaceless(field, |DIR|, |field|); assert field[|DIR|..] == field[|DIR|..|field|]; }
      else if PERM <= field {
        PartSpaceless(field, |PERM|, |field|);
        assert field[|PERM|..] == field[|PERM|..|field|];
        PermsAreGood(field[|PERM|..]);
      }
    }
  }

  lemma EmptyPermsAreGood()
    ensures GoodPerms("")
  {
  }

  lemma GoodFieldSpaceless(f: string)
    requires GoodField(f)
    ensures Spaceless(f)
  {
  }

  lemma SortedIsGood(q: Rule)
    requires Good(q)
    ensures Good(SortedLists(q)) && Sorted(StringLe, SortedLists(q).syscalls) && Sorted(StringLe, SortedLists(q).fields)
  {
    OrdersAreTotal();
    SortSorts(StringLe, q.syscalls);
    SortSorts(StringLe, q.fields);
    SameElements(StringLe, q.syscalls);
    SameElements(StringLe, q.fields);
    hide GoodField, GoodSyscall, GoodPerms, GoodWatch, GoodList, StringLe, Sort;
  }

  /** What every parsed rule looks like. */
  ghost predicate ParsedRule(r: Rule) {
    && Good(r)
    && (r.watch != "" ==> r.perms != "")
    && (r.watch == "" ==> r.list != "" && Sorted(StringLe, r.syscalls) && Sorted(StringLe, r.fields) && FoldWatchFields(r) == r)
  }

  lemma FoldKeepsGood(q: Rule)
    requires Good(q)
    ensures Good(FoldWatchFields(q)) && (q.watch == "" && q.list != "" && FoldWatchFields(q).watch == "" ==> FoldWatchFields(q) == q)
  {
    if MayFold(q) {
      FoldIsGood(q.fields);
      var f := FoldFields(q.fields);
      if f.watch != "" && f.rest == [] { WatchIsGood(f.watch); }
    }
    hide NormalizeWatchPath, FoldFields, GoodField, GoodSyscall, GoodPerms, NormalizeRuleList;
  }

  lemma AllPermsAreGood()
    ensures GoodPerms(SortedLetters(ALL_PERMS)) && SortedLetters(ALL_PERMS) != ""
  {
    PermsAreGood(ALL_PERMS);
    hide SortedLetters;
  }

  lemma FinishedIsParsed(q: Rule)
    requires Good(q) && Finished(q).Ok?
    ensures ParsedRule(Finished(q).value)
  {
    SortedIsGood(q);
    var s := SortedLists(q);
    FoldKeepsGood(s);
    AllPermsAreGood();
    hide SortedLetters, FoldWatchFields, GoodField, GoodSyscall, GoodPerms, GoodWatch, GoodList, Sort, StringLe;
    var t := FoldWatchFields(s);
    if t.watch == "" { assert s.watch == "" by { FoldClearsNoWatch(s); } }
  }

  lemma FoldClearsNoWatch(q: Rule)
    ensures q.watch != "" ==> FoldWatchFields(q) == q
  {
  }

  lemma ParsedIsParsed(tokens: seq<string>)
    requires (forall t <- tokens :: IsWord(t)) && Parsed(tokens).Ok?
    ensures ParsedRule(Parsed(tokens).value)
  {
    assert Good(BLANK);
    hide Good, IsWord, Finished, ReadOptions;
    ReadKeepsGood(BLANK, tokens);
    FinishedIsParsed(ReadOptions(BLANK, tokens).value);
  }

  // ----------------------------------------------------------------- reading a printing

  lemma {:induction false} ReadConcat(q: Rule, a: seq<string>, b: seq<string>)
    requires |a| % 2 == 0
    ensures ReadOptions(q, a + b) ==
            match ReadOptions(q, a) case Err(e) => Err(e) case Ok(p) => ReadOptions(p, b)
    decreases |a|
  {
    hide Step;
    if a == [] {
      assert a + b == b;
    } else {
      assert (a + b)[2..] == a[2..] + b;
      if Step(q, a[0], a[1]).Ok? { ReadConcat(Step(q, a[0], a[1]).value, a[2..], b); }
    }
  }

  lemma ReadPair(q: Rule, option: string, value: string)
    ensures ReadOptions(q, [option, value]) == Step(q, option, value)
  {
    hide Step;
    assert [option, value][2..] == [];
  }

  lemma {:induction false} FlagsAreEven(option: string, values: seq<string>)
    ensures |Flags(option, values)| == 2 * |values|
  {
    if values != [] { FlagsAreEven(option, values[..|values| - 1]); }
  }

  lemma {:induction false} ReadFields(q: Rule, fields: seq<string>)
    requires forall f <- fields :: GoodField(f)
    ensures ReadOptions(q, Flags("-F", fields)) == Ok(q.(fields := q.fields + fields))
  {
    hide Step, GoodField;
    if fields == [] {
      assert q.fields + [] == q.fields;
    } else {
      var init, last := fields[..|fields| - 1], fields[|fields| - 1];
      ReadFields(q, init);
      FlagsAreEven("-F", init);
      assert last in fields;
      var p := q.(fields := q.fields + init);
      FieldStep(p, last);
      ReadPair(p, "-F", last);
      ReadConcat(q, Flags("-F", init), ["-F", last]);
      assert q.fields + init + [last] == q.fields + fields;
    }
  }

  lemma FieldStep(q: Rule, f: string)
    requires GoodField(f)
    ensures Step(q, "-F", f) == Ok(q.(fields := q.fields + [f]))
  {
    hide NormalizedField;
  }

  lemma SyscallStep(q: Rule, s: string)
    requires GoodSyscall(s) && s != ""
    ensures Step(q, "-S", s) == Ok(q.(syscalls := q.syscalls + [s]))
  {
    SplitOfClean(s, ',');
    hide Split;
  }

  lemma {:induction false} ReadSyscalls(q: Rule, syscalls: seq<string>)
    requires forall s <- syscalls :: GoodSyscall(s) && s != ""
    ensures ReadOptions(q, Flags("-S", syscalls)) == Ok(q.(syscalls := q.syscalls + syscalls))
  {
    hide Step, GoodSyscall;
    if syscalls == [] {
      assert q.syscalls + [] == q.syscalls;
    } else {
      var init, last := syscalls[..|syscalls| - 1], syscalls[|syscalls| - 1];
      ReadSyscalls(q, init);
      FlagsAreEven("-S", init);
      assert last in syscalls;
      var p := q.(syscalls := q.syscalls + init);
      SyscallStep(p, last);
      ReadPair(p, "-S", last);
      ReadConcat(q, Flags("-S", init), ["-S", last]);
      assert q.syscalls + init + [last] == q.syscalls + syscalls;
    }
  }

  lemma ReadKey(q: Rule, r: Rule)
    requires q.key == ""
    ensures ReadOptions(q, KeyTokens(r)) == Ok(q.(key := r.key))
  {
    ReadPair(q, "-k", r.key);
    hide ReadOptions;
    assert ReadOptions(q, []) == Ok(q) by { NothingToRead(q); }
  }

  lemma NothingToRead(q: Rule)
    ensures ReadOptions(q, []) == Ok(q)
  {
  }
}
