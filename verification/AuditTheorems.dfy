// When an audit rule survives printing, what reordering changes, and which rules count as missing.
module AuditTheorems {
  import opened Wrappers
  import opened Text
  import opened Sorting
  import opened Audit
  import opened AuditRules
  import opened AuditRoundTrip

  // --------------------------------------------------------------- words of a printing

  function NonEmpty(parts: seq<string>): seq<string> {
    if parts == [] then [] else (if parts[0] == "" then [] else [parts[0]]) + NonEmpty(parts[1..])
  }

  /** Empty parts vanish when a joined line is split into fields. */
  lemma {:induction false} FieldsOfParts(parts: seq<string>)
    requires forall p <- parts :: Spaceless(p)
    ensures Fields(Join(parts, " ")) == NonEmpty(parts)
  {
    if parts != [] {
      var first, rest := parts[0], parts[1..];
      FieldsOfParts(rest);
      assert first in parts;
      if rest == [] {
        if first != "" {
          FieldsOfWord(first, "");
          assert first + "" == first;
        }
      } else {
        var tail := " " + Join(rest, " ");
        assert Join(parts, " ") == first + tail && tail[1..] == Join(rest, " ");
        if first == "" { assert first + tail == tail; } else { FieldsOfWord(first, tail); }
      }
    }
  }

  lemma {:induction false} NonEmptyConcat(a: seq<string>, b: seq<string>)
    ensures NonEmpty(a + b) == NonEmpty(a) + NonEmpty(b)
  {
    if a == [] {
      assert a + b == b;
    } else {
      assert (a + b)[1..] == a[1..] + b;
      NonEmptyConcat(a[1..], b);
    }
  }

  lemma {:induction false} NonEmptyOfWords(a: seq<string>)
    requires forall s <- a :: s != ""
    ensures NonEmpty(a) == a
  {
    if a != [] {
      assert a[0] in a && forall s <- a[1..] :: s in a;
      NonEmptyOfWords(a[1..]);
      assert a == [a[0]] + a[1..];
    }
  }

  lemma {:induction false} FlagsAre(option: string, values: seq<string>)
    ensures forall t <- Flags(option, values) :: t == option || t in values
  {
    if values != [] { FlagsAre(option, values[..|values| - 1]); }
  }

  lemma OptionsAreWords()
    ensures IsWord("-w") && IsWord("-p") && IsWord("-a") && IsWord("-F") && IsWord("-S") && IsWord("-k")
  {
  }

  lemma TokensSpaceless(r: Rule)
    requires ParsedRule(r)
    ensures forall t <- Tokens(r) :: Spaceless(t)
  {
    OptionsAreWords();
    FlagsAre("-F", r.fields);
    FlagsAre("-S", r.syscalls);
    hide Flags, NormalizedField, SortedLetters, NormalizeRuleList, NormalizeWatchPath, FoldWatchFields;
  }

  /** The parse of a rule's printed line. */
  function Reread(r: Rule): Result<Rule, RuleError> { Parsed(Fields(Printed(r))) }

  lemma RereadIsParsedTokens(r: Rule)
    requires ParsedRule(r)
    ensures Reread(r) == Parsed(NonEmpty(Tokens(r)))
  {
    TokensSpaceless(r);
    FieldsOfParts(Tokens(r));
    hide Parsed, Tokens, ParsedRule, Fields, Join;
  }

  predicate RoundTrips(r: Rule) { Reread(r).Ok? && Canonical(Reread(r).value) == Canonical(r) }

  /** What is read back is the rule that was printed. */
  predicate Restores(r: Rule) { Reread(r).Ok? && Agree(Reread(r).value, r) }

  lemma RestoredRoundTrips(r: Rule)
    requires Restores(r)
    ensures RoundTrips(r)
  {
    hide Reread;
  }

  // ------------------------------------------------------------------------ watch rules

  lemma WatchTokensRead(r: Rule)
    requires ParsedRule(r) && r.watch != ""
    ensures ReadOptions(BLANK, Tokens(r)) == Ok(Rule(r.watch, r.perms, "", [], [], r.key))
  {
    var q1 := BLANK.(watch := r.watch);
    var q2 := q1.(perms := r.perms);
    WatchSteps(r);
    ReadPair(BLANK, "-w", r.watch);
    ReadPair(q1, "-p", r.perms);
    ReadKey(q2, r);
    ReadConcat(BLANK, ["-w", r.watch], ["-p", r.perms]);
    ReadConcat(BLANK, ["-w", r.watch] + ["-p", r.perms], KeyTokens(r));
    hide ReadOptions, Step, Good, FoldWatchFields;
  }

  lemma WatchSteps(r: Rule)
    requires ParsedRule(r) && r.watch != ""
    ensures Step(BLANK, "-w", r.watch) == Ok(BLANK.(watch := r.watch))
    ensures Step(BLANK.(watch := r.watch), "-p", r.perms) == Ok(BLANK.(watch := r.watch, perms := r.perms))
  {
    hide NormalizeWatchPath, SortedLetters, FoldWatchFields, GoodField, GoodSyscall, GoodList;
  }

  lemma WatchFinishes(watch: string, perms: string, key: string)
    requires watch != "" && perms != ""
    ensures Finished(Rule(watch, perms, "", [], [], key)) == Ok(Rule(watch, perms, "", [], [], key))
  {
    hide SortedLetters, FoldFields;
  }

  lemma WatchRestores(r: Rule)
    requires ParsedRule(r) && r.watch != ""
    ensures Reread(r) == Ok(Rule(r.watch, r.perms, "", [], [], r.key)) && Restores(r)
  {
    RereadIsParsedTokens(r);
    WatchTokensRead(r);
    WatchFinishes(r.watch, r.perms, r.key);
    WatchTokensNamed(r);
    NonEmptyOfWords(Tokens(r));
    hide Tokens, ReadOptions, Finished, NonEmpty, Reread, ParsedRule;
  }

  lemma WatchTokensNamed(r: Rule)
    requires ParsedRule(r) && r.watch != ""
    ensures forall t <- Tokens(r) :: t != ""
  {
    hide Good, FoldWatchFields;
  }

  // ---------------------------------------------------------------------- syscall rules

  function Plain(r: Rule): Rule { r.(perms := "") }

  function Head(r: Rule): seq<string> { ["-a", r.list] + Flags("-F", r.fields) }

  lemma HeadReads(r: Rule)
    requires ParsedRule(r) && r.watch == ""
    ensures ReadOptions(BLANK, Head(r)) == Ok(BLANK.(list := r.list, fields := r.fields))
    ensures |Head(r)| % 2 == 0 && NonEmpty(Head(r)) == Head(r)
  {
    hide ReadOptions, Step, Flags, NonEmpty, FoldWatchFields, GoodField, GoodSyscall, GoodPerms, NormalizeRuleList;
    var q := BLANK.(list := r.list);
    ListStep(r.list);
    ReadPair(BLANK, "-a", r.list);
    ReadFields(q, r.fields);
    assert q.fields + r.fields == r.fields;
    FlagsAreEven("-F", r.fields);
    ReadConcat(BLANK, ["-a", r.list], Flags("-F", r.fields));
    HeadNamed(r);
  }

  lemma HeadNamed(r: Rule)
    requires r.list != "" && forall f <- r.fields :: GoodField(f)
    ensures NonEmpty(Head(r)) == Head(r)
  {
    FlagsAre("-F", r.fields);
    hide Flags, NonEmpty, GoodField;
    forall t <- Head(r) ensures t != "" {
      if t in r.fields { FieldNamed(t); }
    }
    NonEmptyOfWords(Head(r));
  }

  lemma FieldNamed(f: string)
    requires GoodField(f)
    ensures f != ""
  {
  }

  lemma ListStep(list: string)
    requires GoodList(list) && list != ""
    ensures Step(BLANK, "-a", list) == Ok(BLANK.(list := list))
  {
    hide NormalizeRuleList;
  }

  lemma TailReads(r: Rule, syscalls: seq<string>)
    requires ParsedRule(r) && r.watch == "" && forall s <- syscalls :: GoodSyscall(s) && s != ""
    ensures ReadOptions(BLANK, Head(r) + (Flags("-S", syscalls) + KeyTokens(r))) ==
            Ok(Rule("", "", r.list, syscalls, r.fields, r.key))
  {
    hide ReadOptions, Head, Flags, KeyTokens, ParsedRule, GoodSyscall;
    HeadReads(r);
    var q := BLANK.(list := r.list, fields := r.fields);
    ReadSyscalls(q, syscalls);
    FlagsAreEven("-S", syscalls);
    var p := q.(syscalls := q.syscalls + syscalls);
    assert q.syscalls + syscalls == syscalls;
    ReadKey(p, r);
    ReadConcat(q, Flags("-S", syscalls), KeyTokens(r));
    ReadConcat(BLANK, Head(r), Flags("-S", syscalls) + KeyTokens(r));
  }

  lemma TokensAre(r: Rule)
    requires r.watch == ""
    ensures Tokens(r) == Head(r) + (Flags("-S", r.syscalls) + KeyTokens(r))
  {
    hide Flags, KeyTokens;
  }

  lemma FoldIgnoresPerms(r: Rule)
    requires r.watch == "" && FoldWatchFields(r) == r
    ensures FoldWatchFields(Plain(r)) == Plain(r)
  {
    hide FoldFields, NormalizeWatchPath;
  }

  lemma SyscallFinishes(r: Rule)
    requires ParsedRule(r) && r.watch == ""
    ensures Finished(Rule("", "", r.list, r.syscalls, r.fields, r.key)) == Ok(Plain(r))
  {
    OrdersAreTotal();
    SortOfSorted(StringLe, r.syscalls);
    SortOfSorted(StringLe, r.fields);
    FoldIgnoresPerms(r);
    hide FoldWatchFields, Good, Sort, StringLe;
    assert Rule("", "", r.list, r.syscalls, r.fields, r.key) == Plain(r);
  }

  lemma SyscallRestores(r: Rule)
    requires ParsedRule(r) && r.watch == "" && "" !in r.syscalls
    ensures Reread(r) == Ok(Plain(r)) && Restores(r)
  {
    RereadIsParsedTokens(r);
    TokensAre(r);
    forall s <- r.syscalls ensures GoodSyscall(s) && s != "" { hide GoodSyscall; }
    TailReads(r, r.syscalls);
    SyscallFinishes(r);
    HeadReads(r);
    FlagsAre("-S", r.syscalls);
    NonEmptyOfWords(Flags("-S", r.syscalls));
    KeyTokensNamed(r);
    NonEmptyConcat(Head(r), Flags("-S", r.syscalls) + KeyTokens(r));
    NonEmptyConcat(Flags("-S", r.syscalls), KeyTokens(r));
    hide Head, Flags, KeyTokens, NonEmpty, ReadOptions, Finished, ParsedRule, GoodSyscall, Tokens, Reread;
    assert Reread(r) == Ok(Plain(r));
  }

  lemma KeyTokensNamed(r: Rule)
    ensures NonEmpty(KeyTokens(r)) == KeyTokens(r)
  {
    NonEmptyOfWords(KeyTokens(r));
  }

  // --------------------------------------------------------------- empty syscall names

  function Copies(s: string, n: nat): seq<string> { seq(n, _ => s) }

  /** Sorted names put the empty ones first. */
  lemma {:induction false} EmptiesFirst(s: seq<string>) returns (n: nat)
    requires Sorted(StringLe, s) && "" in s
    ensures 0 < n <= |s| && s[..n] == Copies("", n) && "" !in s[n..]
  {
    n := 0;
    var i :| 0 <= i < |s| && s[i] == "";
    while n < |s| && s[n] == ""
      invariant n <= |s| && forall k :: 0 <= k < n ==> s[k] == ""
    {
      n := n + 1;
    }
    EmptyIsLeast(s, n);
    assert i < n;
  }

  lemma EmptyIsLeast(s: seq<string>, n: nat)
    requires Sorted(StringLe, s) && n <= |s| && (n == |s| || s[n] != "")
    ensures forall k :: n <= k < |s| ==> s[k] != ""
    ensures forall k :: 0 <= k < |s| && s[k] == "" ==> k < n
  {
    StringLeTotal(if n < |s| then s[n] else "", "");
    forall k | n <= k < |s| ensures s[k] != "" {
      assert k == n || StringLe(s[n], s[k]);
    }
  }

  lemma {:induction false} FlagsOfCopies(option: string, n: nat)
    requires option != ""
    ensures NonEmpty(Flags(option, Copies("", n))) == Copies(option, n)
  {
    if n > 0 {
      var c := Copies("", n);
      assert c[..n - 1] == Copies("", n - 1);
      FlagsOfCopies(option, n - 1);
      NonEmptyConcat(Flags(option, c[..n - 1]), [option, ""]);
      assert [option, ""][1..] == [""] && [""][1..] == [];
      assert NonEmpty([option, ""]) == [option];
      assert Copies(option, n - 1) + [option] == Copies(option, n);
    }
  }

  lemma {:induction false} FlagsConcat(option: string, a: seq<string>, b: seq<string>)
    ensures Flags(option, a + b) == Flags(option, a) + Flags(option, b)
  {
    if b == [] {
      assert a + b == a;
    } else {
      assert (a + b)[..|a + b| - 1] == a + b[..|b| - 1];
      FlagsConcat(option, a, b[..|b| - 1]);
    }
  }

  /** An even run of options reads as half as many options with the option's own text as value. */
  lemma {:induction false} CopiesAreFlags(option: string, n: nat)
    requires n % 2 == 0
    ensures Copies(option, n) == Flags(option, Copies(option, n / 2))
  {
    if n > 0 {
      CopiesAreFlags(option, n - 2);
      var c := Copies(option, n / 2);
      assert c[..n / 2 - 1] == Copies(option, (n - 2) / 2);
      assert Copies(option, n) == Copies(option, n - 2) + [option, option];
    }
  }

  lemma EmptyTokens(r: Rule, n: nat)
    requires ParsedRule(r) && r.watch == "" && 0 < n <= |r.syscalls|
    requires r.syscalls[..n] == Copies("", n) && "" !in r.syscalls[n..]
    ensures NonEmpty(Tokens(r)) == Head(r) + (Copies("-S", n) + (Flags("-S", r.syscalls[n..]) + KeyTokens(r)))
  {
    hide Head, Flags, KeyTokens, NonEmpty, Copies, ParsedRule, Tokens, ReadOptions;
    TokensAre(r);
    HeadReads(r);
    EmptyFlags(r.syscalls, n);
    KeyTokensNamed(r);
    var head, flags, key := Head(r), Flags("-S", r.syscalls), KeyTokens(r);
    var named := Copies("-S", n) + Flags("-S", r.syscalls[n..]);
    NonEmptyConcat(head, flags + key);
    NonEmptyConcat(flags, key);
    assert NonEmpty(flags) == named;
    assert named + key == Copies("-S", n) + (Flags("-S", r.syscalls[n..]) + key);
  }

  lemma EmptyFlags(syscalls: seq<string>, n: nat)
    requires n <= |syscalls| && syscalls[..n] == Copies("", n) && "" !in syscalls[n..]
    ensures NonEmpty(Flags("-S", syscalls)) == Copies("-S", n) + Flags("-S", syscalls[n..])
  {
    hide Flags, NonEmpty, Copies, IsWord;
    var rest := syscalls[n..];
    assert syscalls == Copies("", n) + rest;
    FlagsConcat("-S", Copies("", n), rest);
    FlagsOfCopies("-S", n);
    FlagsAre("-S", rest);
    NonEmptyOfWords(Flags("-S", rest));
    NonEmptyConcat(Flags("-S", Copies("", n)), Flags("-S", rest));
  }

  lemma DashSIsGood()
    ensures GoodSyscall("-S")
  {
  }

  /** What the printing of an even number of empty names is read as. */
  function ReadNames(syscalls: seq<string>, n: nat): seq<string>
    requires n <= |syscalls|
  {
    Copies("-S", n / 2) + syscalls[n..]
  }

  lemma ReadNamesAreGood(syscalls: seq<string>, n: nat)
    requires 0 < n <= |syscalls| && n % 2 == 0 && "" !in syscalls[n..] && forall s <- syscalls :: GoodSyscall(s)
    ensures (forall s <- ReadNames(syscalls, n) :: GoodSyscall(s) && s != "")
    ensures 0 < |ReadNames(syscalls, n)| < |syscalls|
  {
    DashSIsGood();
    hide GoodSyscall;
    forall s <- ReadNames(syscalls, n) ensures GoodSyscall(s) && s != "" {
      if s in syscalls[n..] { assert s in syscalls; } else { assert s in Copies("-S", n / 2); }
    }
  }

  lemma ParsedSyscallsAreGood(r: Rule)
    requires ParsedRule(r)
    ensures forall s <- r.syscalls :: GoodSyscall(s)
  {
    hide GoodSyscall, GoodField, GoodPerms, FoldWatchFields;
  }

  lemma EvenTokensRead(r: Rule, n: nat)
    requires ParsedRule(r) && r.watch == "" && 0 < n <= |r.syscalls| && n % 2 == 0
    requires r.syscalls[..n] == Copies("", n) && "" !in r.syscalls[n..]
    ensures ReadOptions(BLANK, NonEmpty(Tokens(r))) == Ok(Rule("", "", r.list, ReadNames(r.syscalls, n), r.fields, r.key))
  {
    hide Head, Flags, KeyTokens, NonEmpty, Copies, ParsedRule, Tokens, ReadOptions, GoodSyscall;
    var rest := r.syscalls[n..];
    var half := Copies("-S", n / 2);
    ParsedSyscallsAreGood(r);
    ReadNamesAreGood(r.syscalls, n);
    EmptyTokens(r, n);
    CopiesAreFlags("-S", n);
    FlagsConcat("-S", half, rest);
    TailReads(r, half + rest);
    assert Copies("-S", n) + (Flags("-S", rest) + KeyTokens(r)) == Flags("-S", half + rest) + KeyTokens(r);
  }

  lemma NamedSyscallsFinish(list: string, syscalls: seq<string>, fields: seq<string>, key: string)
    requires list != "" && syscalls != []
    ensures |Sort(StringLe, syscalls)| == |syscalls| && forall s <- Sort(StringLe, syscalls) :: s in syscalls
    ensures Finished(Rule("", "", list, syscalls, fields, key)) ==
            Ok(Rule("", "", list, Sort(StringLe, syscalls), Sort(StringLe, fields), key))
  {
    OrdersAreTotal();
    SortSorts(StringLe, syscalls);
    SameElements(StringLe, syscalls);
    var sorted := Sort(StringLe, syscalls);
    assert |multiset(sorted)| == |sorted| && |multiset(syscalls)| == |syscalls|;
    hide Sort, StringLe, FoldFields;
  }

  /** With an even number of empty names the printing parses, to a rule with fewer names. */
  lemma EvenEmptiesShrink(r: Rule, n: nat) returns (syscalls: seq<string>)
    requires ParsedRule(r) && r.watch == "" && 0 < n <= |r.syscalls| && n % 2 == 0
    requires r.syscalls[..n] == Copies("", n) && "" !in r.syscalls[n..]
    ensures |syscalls| < |r.syscalls| && syscalls != [] && forall s <- syscalls :: GoodSyscall(s)
    ensures Reread(r) == Ok(Rule("", "", r.list, syscalls, Sort(StringLe, r.fields), r.key))
  {
    assert r.list != "" && forall s <- r.syscalls :: GoodSyscall(s) by { hide GoodSyscall, GoodField, GoodPerms, FoldWatchFields; }
    hide ParsedRule, Tokens, ReadOptions, Sort, StringLe, Reread, GoodSyscall, ReadNames, Finished;
    RereadIsParsedTokens(r);
    EvenTokensRead(r, n);
    var read := ReadNames(r.syscalls, n);
    ReadNamesAreGood(r.syscalls, n);
    NamedSyscallsFinish(r.list, read, r.fields, r.key);
    syscalls := Sort(StringLe, read);
  }

  /** Two syscall rules alike but for the number of names have different canonical forms. */
  lemma FewerNamesDiffer(a: Rule, b: Rule)
    requires a.watch == "" && b.watch == "" && a.list == b.list && a.fields == b.fields && a.key == b.key
    requires a.syscalls != [] && b.syscalls != [] && |a.syscalls| != |b.syscalls|
    requires (forall s <- a.syscalls :: GoodSyscall(s)) && (forall s <- b.syscalls :: GoodSyscall(s))
    ensures Canonical(a) != Canonical(b)
  {
    SplitJoin(a.syscalls, ',');
    SplitJoin(b.syscalls, ',');
    var x, y := Join(a.syscalls, ","), Join(b.syscalls, ",");
    var tail := "|" + Join([Join(a.fields, ","), a.key], "|");
    CanonicalParts(a);
    CanonicalParts(b);
    hide Join, Canonical, Split;
    var head := "a|" + a.list + "|";
    MiddlesDiffer(head, x, y, tail);
  }

  lemma MiddlesDiffer(head: string, x: string, y: string, tail: string)
    requires x != y
    ensures head + x + tail != head + y + tail
  {
    var s, t := head + x + tail, head + y + tail;
    assert x == s[|head|..|s| - |tail|] && y == t[|head|..|t| - |tail|];
  }

  lemma CanonicalParts(r: Rule)
    requires r.watch == ""
    ensures Canonical(r) == "a|" + r.list + "|" + Join(r.syscalls, ",") + ("|" + Join([Join(r.fields, ","), r.key], "|"))
  {
    var parts := ["a", r.list, Join(r.syscalls, ","), Join(r.fields, ","), r.key];
    var p1, p2, p3 := parts[1..], parts[2..], parts[3..];
    assert parts[1..] == p1 && p1[1..] == p2 && p2[1..] == p3;
    assert p3 == [Join(r.fields, ","), r.key];
    var tail := Join(p3, "|");
    assert Join(p2, "|") == Join(r.syscalls, ",") + "|" + tail;
    assert Join(p1, "|") == r.list + "|" + Join(p2, "|");
  }

  lemma EmptyNamesDoNotRoundTrip(r: Rule)
    requires ParsedRule(r) && r.watch == "" && "" in r.syscalls
    ensures !RoundTrips(r)
  {
    assert Sorted(StringLe, r.syscalls) by { hide Good, FoldWatchFields; }
    var n := EmptiesFirst(r.syscalls);
    hide Canonical, Reread, ParsedRule, Parsed, ReadOptions, Tokens;
    if n % 2 == 0 {
      EvenEmptiesDiffer(r, n);
    } else {
      RereadIsParsedTokens(r);
      OddTokens(r, n);
      OddFails(BLANK, NonEmpty(Tokens(r)));
      NoOptionsNoRule(NonEmpty(Tokens(r)));
    }
  }

  lemma NoOptionsNoRule(tokens: seq<string>)
    requires ReadOptions(BLANK, tokens).Err?
    ensures Parsed(tokens).Err?
  {
  }

  lemma OddTokens(r: Rule, n: nat)
    requires ParsedRule(r) && r.watch == "" && 0 < n <= |r.syscalls| && n % 2 == 1
    requires r.syscalls[..n] == Copies("", n) && "" !in r.syscalls[n..]
    ensures |NonEmpty(Tokens(r))| % 2 == 1
  {
    hide Head, Flags, KeyTokens, ParsedRule, Tokens, NonEmpty, Copies, ReadOptions;
    EmptyTokens(r, n);
    HeadReads(r);
    var rest := r.syscalls[n..];
    FlagsAreEven("-S", rest);
    KeyTokensEven(r);
    CopiesLength("-S", n);
    OddSum(|Head(r)|, n, |rest|, |KeyTokens(r)|);
    assert |NonEmpty(Tokens(r))| == |Head(r)| + (|Copies("-S", n)| + (|Flags("-S", rest)| + |KeyTokens(r)|));
  }

  lemma KeyTokensEven(r: Rule)
    ensures |KeyTokens(r)| % 2 == 0
  {
  }

  lemma CopiesLength(s: string, n: nat)
    ensures |Copies(s, n)| == n
  {
  }

  lemma OddSum(a: nat, n: nat, b: nat, c: nat)
    requires a % 2 == 0 && n % 2 == 1 && c % 2 == 0
    ensures (a + (n + (2 * b + c))) % 2 == 1
  {
  }

  lemma EvenEmptiesDiffer(r: Rule, n: nat)
    requires ParsedRule(r) && r.watch == "" && 0 < n <= |r.syscalls| && n % 2 == 0
    requires r.syscalls[..n] == Copies("", n) && "" !in r.syscalls[n..]
    ensures !RoundTrips(r)
  {
    assert Sorted(StringLe, r.fields) && forall s <- r.syscalls :: GoodSyscall(s) by {
      hide GoodSyscall, GoodField, GoodPerms, FoldWatchFields, StringLe;
    }
    hide Canonical, Reread, StringLe, Sort, ParsedRule, GoodSyscall, Copies;
    var syscalls := EvenEmptiesShrink(r, n);
    OrdersAreTotal();
    SortOfSorted(StringLe, r.fields);
    FewerNamesDiffer(Rule("", "", r.list, syscalls, r.fields, r.key), r);
  }

  /** Parsing undoes printing, to the same rule or just to the same canonical form, exactly for watch rules and for syscall rules
      without an empty name. */
  lemma RoundTripIff(tokens: seq<string>)
    requires (forall t <- tokens :: IsWord(t)) && Parsed(tokens).Ok?
    ensures var r := Parsed(tokens).value;
      && (Restores(r) <==> r.watch != "" || "" !in r.syscalls)
      && (RoundTrips(r) <==> r.watch != "" || "" !in r.syscalls)
  {
    ParsedIsParsed(tokens);
    var r := Parsed(tokens).value;
    hide Parsed, ParsedRule, RoundTrips, Restores;
    if r.watch != "" { WatchRestores(r); }
    else if "" in r.syscalls { EmptyNamesDoNotRoundTrip(r); }
    else { SyscallRestores(r); }
    if Restores(r) { RestoredRoundTrips(r); }
  }

  lemma PairIsList(action: string, list: string)
    requires action in ACTIONS && list in LISTS
    ensures NormalizeRuleList(action + "," + list) == Ok(action + "," + list) && IsWord(action + "," + list)
  {
    ListsAreNoActions(list);
    ActionsArePlain(action);
    hide ACTIONS, LISTS;
    var pair := [action, list];
    assert pair[1..] == [list];
    SplitJoin(pair, ',');
    assert Join(pair, ",") == action + "," + list;
  }

  /** A doubled comma splits into an empty name. */
  lemma DoubledComma(x: string, y: string)
    requires IsWord(x) && IsWord(y) && ',' !in x && ',' !in y
    ensures IsWord(x + ",," + y) && Split(x + ",," + y, ',') == [x, "", y]
  {
    var names := x + ",," + y;
    SplitAtSeparator(x, ',', "," + y);
    SplitAtSeparator("", ',', y);
    SplitOfClean(y, ',');
    assert x + "," + ("," + y) == names && "" + "," + y == "," + y;
    assert [x] + ([""] + [y]) == [x, "", y];
  }

  /** A list with a doubled comma is accepted and does not survive printing. */
  lemma DoubledCommaBreaks(action: string, list: string, x: string, y: string)
    requires action in ACTIONS && list in LISTS && IsWord(x) && IsWord(y) && ',' !in x && ',' !in y
    ensures var tokens := ["-a", action + "," + list, "-S", x + ",," + y];
      Parsed(tokens).Ok? && !RoundTrips(Parsed(tokens).value)
  {
    PairIsList(action, list);
    DoubledComma(x, y);
    OptionsAreWords();
    hide ACTIONS, LISTS, IsWord, Split, NormalizeRuleList;
    EmptyNameBreaks(action + "," + list, x + ",," + y);
  }

  lemma EmptyNameBreaks(pair: string, names: string)
    requires NormalizeRuleList(pair) == Ok(pair) && IsWord(pair) && IsWord(names) && "" in Split(names, ',')
    ensures Parsed(["-a", pair, "-S", names]).Ok? && !RoundTrips(Parsed(["-a", pair, "-S", names]).value)
  {
    hide Split, NormalizeRuleList, IsWord, Sort, RoundTrips, Parsed;
    var tokens, parts := ["-a", pair, "-S", names], Split(names, ',');
    EmptyNameParses(pair, names);
    OptionsAreWords();
    NamesKept(parts);
    RoundTripIff(tokens);
  }

  lemma EmptyNameParses(pair: string, names: string)
    requires NormalizeRuleList(pair) == Ok(pair) && IsWord(pair) && IsWord(names)
    ensures Parsed(["-a", pair, "-S", names]) ==
            Ok(Rule("", "", pair, Sort(StringLe, Split(names, ',')), Sort(StringLe, []), ""))
  {
    hide Split, NormalizeRuleList, Step, Finished, Sort, ReadOptions;
    ListAndNames(pair, names);
    var q := BLANK.(list := pair);
    ReadPair(BLANK, "-a", pair);
    ReadPair(q, "-S", names);
    ReadConcat(BLANK, ["-a", pair], ["-S", names]);
    assert ["-a", pair] + ["-S", names] == ["-a", pair, "-S", names];
    NamedSyscallsFinish(pair, Split(names, ','), [], "");
  }

  lemma ListAndNames(pair: string, names: string)
    requires NormalizeRuleList(pair) == Ok(pair) && pair != "" && names != ""
    ensures Step(BLANK, "-a", pair) == Ok(BLANK.(list := pair))
    ensures Step(BLANK.(list := pair), "-S", names) == Ok(Rule("", "", pair, Split(names, ','), [], ""))
  {
    hide NormalizeRuleList, Split;
    assert BLANK.(list := pair).syscalls + Split(names, ',') == Split(names, ',');
  }

  lemma NamesKept(parts: seq<string>)
    ensures forall s <- parts :: s in Sort(StringLe, parts)
  {
    OrdersAreTotal();
    SameElements(StringLe, parts);
  }

  // -------------------------------------------------------------------------- reordering

  datatype OptionPair = OptionPair(name: string, value: string)

  /** Options whose order among themselves and others does not matter. */
  predicate IsSyscall(o: OptionPair) { o.name == "-S" }

  predicate IsComparison(o: OptionPair) { o.name == "-F" && !(KEY_PREFIX <= o.value) }

  function TokensOf(options: seq<OptionPair>): seq<string> {
    if options == [] then [] else [options[0].name, options[0].value] + TokensOf(options[1..])
  }

  function Fixed(options: seq<OptionPair>): seq<OptionPair> {
    if options == [] then []
    else (if IsSyscall(options[0]) || IsComparison(options[0]) then [] else [options[0]]) + Fixed(options[1..])
  }

  function SyscallsOf(options: seq<OptionPair>): seq<string> {
    if options == [] then []
    else (if IsSyscall(options[0]) then Split(options[0].value, ',') else []) + SyscallsOf(options[1..])
  }

  function ComparisonsOf(options: seq<OptionPair>): seq<string> {
    if options == [] then []
    else (if IsComparison(options[0]) then [NormalizedField(options[0].value)] else []) + ComparisonsOf(options[1..])
  }

  function Adding(q: Rule, syscalls: seq<string>, fields: seq<string>): Rule {
    q.(syscalls := q.syscalls + syscalls, fields := q.fields + fields)
  }

  /** Fixed options act on the rule in order; the others only add to its two lists. */
  lemma StepSeparates(q: Rule, o: OptionPair, syscalls: seq<string>, fields: seq<string>)
    requires o.value != ""
    ensures IsSyscall(o) ==> Step(q, o.name, o.value) == Ok(q.(syscalls := q.syscalls + Split(o.value, ',')))
    ensures IsComparison(o) ==> Step(q, o.name, o.value) == Ok(q.(fields := q.fields + [NormalizedField(o.value)]))
    ensures !IsSyscall(o) && !IsComparison(o) ==>
              Step(Adding(q, syscalls, fields), o.name, o.value) ==
              match Step(q, o.name, o.value) case Err(e) => Err(e) case Ok(p) => Ok(Adding(p, syscalls, fields))
  {
    hide NormalizedField, NormalizeRuleList, SortedLetters, NormalizeWatchPath, Split;
  }

  lemma {:induction false} OptionsSeparate(q: Rule, options: seq<OptionPair>, syscalls: seq<string>, fields: seq<string>)
    requires forall o <- options :: o.value != ""
    ensures ReadOptions(Adding(q, syscalls, fields), TokensOf(options)) ==
            match ReadOptions(q, TokensOf(Fixed(options)))
            case Err(e) => Err(e)
            case Ok(p) => Ok(Adding(p, syscalls + SyscallsOf(options), fields + ComparisonsOf(options)))
    decreases |options|
  {
    hide Step, IsSyscall, IsComparison, Split, NormalizedField;
    if options == [] {
      assert syscalls + [] == syscalls && fields + [] == fields;
    } else {
      var o, rest := options[0], options[1..];
      assert o in options && TokensOf(options)[2..] == TokensOf(rest);
      if IsSyscall(o) {
        SyscallFirst(q, o, rest, syscalls, fields);
      } else if IsComparison(o) {
        ComparisonFirst(q, o, rest, syscalls, fields);
      } else {
        FixedFirst(q, o, rest, syscalls, fields);
      }
    }
  }

  lemma SyscallsFirst(o: OptionPair, rest: seq<OptionPair>)
    requires IsSyscall(o)
    ensures SyscallsOf([o] + rest) == Split(o.value, ',') + SyscallsOf(rest)
    ensures ComparisonsOf([o] + rest) == ComparisonsOf(rest) && Fixed([o] + rest) == Fixed(rest)
  {
    hide Split, NormalizedField;
    assert ([o] + rest)[1..] == rest;
    assert [] + ComparisonsOf(rest) == ComparisonsOf(rest) && [] + Fixed(rest) == Fixed(rest);
  }

  lemma SyscallFirst(q: Rule, o: OptionPair, rest: seq<OptionPair>, syscalls: seq<string>, fields: seq<string>)
    requires IsSyscall(o) && o.value != "" && forall x <- rest :: x.value != ""
    ensures var options := [o] + rest;
      ReadOptions(Adding(q, syscalls, fields), TokensOf(options)) ==
      match ReadOptions(q, TokensOf(Fixed(options)))
      case Err(e) => Err(e)
      case Ok(p) => Ok(Adding(p, syscalls + SyscallsOf(options), fields + ComparisonsOf(options)))
    decreases |rest| + 1, 0
  {
    hide Step, Split, NormalizedField, Fixed, SyscallsOf, ComparisonsOf;
    var options, more := [o] + rest, Split(o.value, ',');
    assert options[1..] == rest && TokensOf(options)[2..] == TokensOf(rest);
    StepSeparates(Adding(q, syscalls, fields), o, [], []);
    OptionsSeparate(q, rest, syscalls + more, fields);
    assert Adding(q, syscalls, fields).syscalls + more == q.syscalls + (syscalls + more);
    SyscallsFirst(o, rest);
    assert syscalls + more + SyscallsOf(rest) == syscalls + (more + SyscallsOf(rest));
  }

  lemma ComparisonFirst(q: Rule, o: OptionPair, rest: seq<OptionPair>, syscalls: seq<string>, fields: seq<string>)
    requires IsComparison(o) && o.value != "" && forall x <- rest :: x.value != ""
    ensures var options := [o] + rest;
      ReadOptions(Adding(q, syscalls, fields), TokensOf(options)) ==
      match ReadOptions(q, TokensOf(Fixed(options)))
      case Err(e) => Err(e)
      case Ok(p) => Ok(Adding(p, syscalls + SyscallsOf(options), fields + ComparisonsOf(options)))
    decreases |rest| + 1, 0
  {
    var options, more := [o] + rest, [NormalizedField(o.value)];
    assert options[1..] == rest && TokensOf(options)[2..] == TokensOf(rest);
    StepSeparates(Adding(q, syscalls, fields), o, [], []);
    assert !IsSyscall(o);
    hide Step, IsSyscall, IsComparison, Split, NormalizedField;
    OptionsSeparate(q, rest, syscalls, fields + more);
    assert Adding(q, syscalls, fields).fields + more == q.fields + (fields + more);
    assert fields + more + ComparisonsOf(rest) == fields + (more + ComparisonsOf(rest));
    assert [] + SyscallsOf(rest) == SyscallsOf(rest) && [] + Fixed(rest) == Fixed(rest);
  }

  lemma FixedFirst(q: Rule, o: OptionPair, rest: seq<OptionPair>, syscalls: seq<string>, fields: seq<string>)
    requires !IsSyscall(o) && !IsComparison(o) && o.value != "" && forall x <- rest :: x.value != ""
    ensures var options := [o] + rest;
      ReadOptions(Adding(q, syscalls, fields), TokensOf(options)) ==
      match ReadOptions(q, TokensOf(Fixed(options)))
      case Err(e) => Err(e)
      case Ok(p) => Ok(Adding(p, syscalls + SyscallsOf(options), fields + ComparisonsOf(options)))
    decreases |rest| + 1, 0
  {
    var options := [o] + rest;
    assert options[1..] == rest && TokensOf(options)[2..] == TokensOf(rest);
    StepSeparates(q, o, syscalls, fields);
    hide Step, IsSyscall, IsComparison, Split, NormalizedField;
    assert Fixed(options) == [o] + Fixed(rest) && Fixed(options)[1..] == Fixed(rest);
    assert TokensOf(Fixed(options))[2..] == TokensOf(Fixed(rest));
    assert [] + SyscallsOf(rest) == SyscallsOf(rest) && [] + ComparisonsOf(rest) == ComparisonsOf(rest);
    if Step(q, o.name, o.value).Ok? { OptionsSeparate(Step(q, o.name, o.value).value, rest, syscalls, fields); }
  }

  /** The same options with the `-S` and plain `-F` ones moved about. */
  ghost predicate Rearranged(a: seq<OptionPair>, b: seq<OptionPair>) {
    && Fixed(a) == Fixed(b)
    && multiset(SyscallsOf(a)) == multiset(SyscallsOf(b)) && multiset(ComparisonsOf(a)) == multiset(ComparisonsOf(b))
  }

  lemma SeparateRead(options: seq<OptionPair>)
    requires forall o <- options :: o.value != ""
    ensures ReadOptions(BLANK, TokensOf(options)) ==
            match ReadOptions(BLANK, TokensOf(Fixed(options)))
            case Err(e) => Err(e)
            case Ok(p) => Ok(Adding(p, SyscallsOf(options), ComparisonsOf(options)))
  {
    OptionsSeparate(BLANK, options, [], []);
    hide ReadOptions, TokensOf, Fixed, SyscallsOf, ComparisonsOf;
    assert Adding(BLANK, [], []) == BLANK;
    assert [] + SyscallsOf(options) == SyscallsOf(options) && [] + ComparisonsOf(options) == ComparisonsOf(options);
  }

  /** Moving `-S` and plain `-F` options about changes nothing of what is parsed. */
  lemma OrderDoesNotMatter(a: seq<OptionPair>, b: seq<OptionPair>)
    requires (forall o <- a :: o.value != "") && (forall o <- b :: o.value != "") && Rearranged(a, b)
    ensures Parsed(TokensOf(a)) == Parsed(TokensOf(b))
  {
    SeparateRead(a);
    SeparateRead(b);
    hide ReadOptions, TokensOf, Fixed, SyscallsOf, ComparisonsOf, FoldWatchFields, WithPerms;
    var fixed := ReadOptions(BLANK, TokensOf(Fixed(a)));
    if fixed.Ok? {
      var p := fixed.value;
      OrdersAreTotal();
      SortIsStable(StringLe, p.syscalls + SyscallsOf(a), p.syscalls + SyscallsOf(b));
      SortIsStable(StringLe, p.fields + ComparisonsOf(a), p.fields + ComparisonsOf(b));
    }
  }

  // ----------------------------------------------------------------------- missing rules

  function MissingFrom(loaded: set<string>, want: seq<Rule>): seq<Rule> {
    if want == [] then []
    else
      MissingFrom(loaded, want[..|want| - 1])
      + if Canonical(want[|want| - 1]) in loaded then [] else [want[|want| - 1]]
  }

  function CanonicalSet(rules: seq<Rule>): set<string> { set r <- rules :: Canonical(r) }

  method MissingRules(loaded: seq<Rule>, want: seq<Rule>) returns (missing: seq<Rule>)
    ensures missing == MissingFrom(CanonicalSet(loaded), want)
  {
    hide Canonical;
    var have: set<string> := {};
    for i := 0 to |loaded|
      invariant have == CanonicalSet(loaded[..i])
    {
      assert loaded[..i + 1] == loaded[..i] + [loaded[i]];
      have := have + {Canonical(loaded[i])};
    }
    assert loaded[..|loaded|] == loaded;
    missing := [];
    for i := 0 to |want|
      invariant missing == MissingFrom(have, want[..i])
    {
      assert want[..i + 1][..i] == want[..i];
      if Canonical(want[i]) !in have { missing := missing + [want[i]]; }
    }
    assert want[..|want|] == want;
  }

  lemma {:induction false} NothingMissingIff(loaded: set<string>, want: seq<Rule>)
    ensures MissingFrom(loaded, want) == [] <==> forall r <- want :: Canonical(r) in loaded
  {
    hide Canonical;
    if want != [] {
      NothingMissingIff(loaded, want[..|want| - 1]);
      assert want == want[..|want| - 1] + [want[|want| - 1]];
    }
  }

  function RereadAll(rules: seq<Rule>): seq<Rule> {
    if rules == [] then []
    else RereadAll(rules[..|rules| - 1]) + match Reread(rules[|rules| - 1]) case Ok(r) => [r] case Err(_) => []
  }

  lemma {:induction false} RereadAllHolds(rules: seq<Rule>)
    requires forall r <- rules :: RoundTrips(r)
    ensures forall r <- rules :: Canonical(r) in CanonicalSet(RereadAll(rules))
  {
    hide Canonical, Reread;
    if rules != [] {
      var init, last := rules[..|rules| - 1], rules[|rules| - 1];
      RereadAllHolds(init);
      assert last in rules;
      assert rules == init + [last];
      assert RereadAll(rules) == RereadAll(init) + [Reread(last).value];
      assert Reread(last).value in RereadAll(rules);
    }
  }

  /** Rules that are loaded and printed back are not reported as missing. */
  lemma LoadedRulesAreNotMissing(rules: seq<Rule>)
    requires forall r <- rules :: RoundTrips(r)
    ensures MissingFrom(CanonicalSet(RereadAll(rules)), rules) == []
  {
    RereadAllHolds(rules);
    NothingMissingIff(CanonicalSet(RereadAll(rules)), rules);
  }
}
