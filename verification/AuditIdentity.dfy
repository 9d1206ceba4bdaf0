// Which audit rules the comparison tells apart, and which spellings of a rule are the same rule.
module AuditIdentity {
  import opened Wrappers
  import opened Text
  import opened Sorting
  import opened Audit
  import opened AuditRules
  import opened AuditRoundTrip
  import opened AuditTheorems

  // ----------------------------------------------------------------- parts and pieces

  /** The pieces of these parts between bars. */
  function Pieces(parts: seq<string>): seq<string> {
    if parts == [] then [] else Split(parts[0], '|') + Pieces(parts[1..])
  }

  lemma SplitHead(c: char, s: string, sep: char)
    ensures Split([c] + s, sep) == if c == sep then [""] + Split(s, sep) else [[c] + Split(s, sep)[0]] + Split(s, sep)[1..]
  {
    assert ([c] + s)[1..] == s;
  }

  lemma {:induction false} SplitOfSeparated(a: string, b: string, sep: char)
    ensures Split(a + [sep] + b, sep) == Split(a, sep) + Split(b, sep)
  {
    hide Split;
    if a == "" {
      SplitHead(sep, b, sep);
      SplitOfClean("", sep);
      assert a + [sep] + b == [sep] + b;
    } else {
      var rest := a[1..] + [sep] + b;
      assert a + [sep] + b == [a[0]] + rest && a == [a[0]] + a[1..];
      SplitOfSeparated(a[1..], b, sep);
      SplitHead(a[0], rest, sep);
      SplitHead(a[0], a[1..], sep);
      var x, y := Split(a[1..], sep), Split(b, sep);
      assert (x + y)[0] == x[0] && (x + y)[1..] == x[1..] + y;
    }
  }

  lemma {:induction false} PiecesOfJoin(parts: seq<string>)
    requires parts != []
    ensures Split(Join(parts, "|"), '|') == Pieces(parts)
  {
    if |parts| == 1 {
      assert Pieces(parts) == Split(parts[0], '|') + [];
    } else {
      PiecesOfJoin(parts[1..]);
      SplitOfSeparated(parts[0], Join(parts[1..], "|"), '|');
    }
  }

  lemma SamePiecesSameJoin(a: seq<string>, b: seq<string>)
    requires a != [] && b != []
    ensures Join(a, "|") == Join(b, "|") <==> Pieces(a) == Pieces(b)
  {
    PiecesOfJoin(a);
    PiecesOfJoin(b);
    JoinSplit(Join(a, "|"), '|');
    JoinSplit(Join(b, "|"), '|');
  }

  function WatchParts(r: Rule): seq<string> { [r.watch, r.perms, r.key] }

  function SyscallParts(r: Rule): seq<string> { [r.list, Join(r.syscalls, ","), Join(r.fields, ","), r.key] }

  /** Rules of one kind whose parts, in order, fall into the same pieces between bars. */
  predicate Blend(r: Rule, s: Rule) {
    if r.watch != "" then s.watch != "" && Pieces(WatchParts(r)) == Pieces(WatchParts(s))
    else s.watch == "" && Pieces(SyscallParts(r)) == Pieces(SyscallParts(s))
  }

  lemma CanonicalIs(r: Rule)
    ensures r.watch != "" ==> Canonical(r) == "w|" + Join(WatchParts(r), "|")
    ensures r.watch == "" ==> Canonical(r) == "a|" + Join(SyscallParts(r), "|")
  {
    var w, a := ["w", r.watch, r.perms, r.key], ["a", r.list, Join(r.syscalls, ","), Join(r.fields, ","), r.key];
    assert w[1..] == WatchParts(r) && a[1..] == SyscallParts(r);
  }

  lemma SameTail(head: string, a: string, b: string)
    ensures head + a == head + b <==> a == b
  {
    assert (head + a)[|head|..] == a && (head + b)[|head|..] == b;
  }

  /** For every two rules: the comparison takes them for one exactly when they blend. */
  lemma CanonicalTells(r: Rule, s: Rule)
    ensures Canonical(r) == Canonical(s) <==> Blend(r, s)
  {
    CanonicalIs(r);
    CanonicalIs(s);
    hide Join, Canonical, Pieces;
    if (r.watch == "") == (s.watch == "") {
      SamePiecesSameJoin(WatchParts(r), WatchParts(s));
      SamePiecesSameJoin(SyscallParts(r), SyscallParts(s));
      SameTail("w|", Join(WatchParts(r), "|"), Join(WatchParts(s), "|"));
      SameTail("a|", Join(SyscallParts(r), "|"), Join(SyscallParts(s), "|"));
    } else {
      assert Canonical(r)[0] != Canonical(s)[0];
    }
  }

  // -------------------------------------------------------------------- when they blur

  lemma FirstOf(a: string, b: string, sep: char)
    ensures a != "" ==> (a + [sep] + b)[0] == a[0] && a[0] in a
    ensures a == "" ==> (a + [sep] + b)[1..] == b
  {
  }

  lemma StartsAtSeparator(a: string, b: string, sep: char)
    requires sep !in a && (a + [sep] + b)[0] == sep
    ensures a == "" && (a + [sep] + b)[1..] == b
  {
    FirstOf(a, b, sep);
  }

  /** Texts with as many separators each are cut apart at the same place. */
  lemma {:induction false} CutAt(a: string, b: string, c: string, d: string, sep: char)
    requires a + [sep] + b == c + [sep] + d && CountChar(a, sep) == CountChar(c, sep)
    ensures a == c && b == d
  {
    var s, t := a + [sep] + b, c + [sep] + d;
    CountZero(a, sep);
    CountZero(c, sep);
    if a == "" {
      StartsAtSeparator(a, b, sep);
      StartsAtSeparator(c, d, sep);
    } else if c == "" {
      StartsAtSeparator(a, b, sep);
    } else {
      assert s[0] == a[0] && t[0] == c[0];
      assert s[1..] == a[1..] + [sep] + b && t[1..] == c[1..] + [sep] + d;
      CutAt(a[1..], b, c[1..], d, sep);
      assert a == [a[0]] + a[1..] && c == [c[0]] + c[1..];
    }
  }

  lemma {:induction false} SameCountsSameParts(a: seq<string>, b: seq<string>, sep: char)
    requires |a| == |b| && Join(a, [sep]) == Join(b, [sep])
    requires forall i :: 0 <= i < |a| - 1 ==> CountChar(a[i], sep) == CountChar(b[i], sep)
    ensures a == b
  {
    if |a| > 1 {
      CutAt(a[0], Join(a[1..], [sep]), b[0], Join(b[1..], [sep]), sep);
      SameCountsSameParts(a[1..], b[1..], sep);
      assert a == [a[0]] + a[1..] && b == [b[0]] + b[1..];
    }
  }

  function Bars(parts: seq<string>): nat { if parts == [] then 0 else CountChar(parts[0], '|') + Bars(parts[1..]) }

  lemma {:induction false} BarsOfJoin(parts: seq<string>)
    ensures CountChar(Join(parts, ","), '|') == Bars(parts)
  {
    if |parts| > 1 {
      BarsOfJoin(parts[1..]);
      CountSplits(parts[0] + ",", Join(parts[1..], ","), '|');
      CountSplits(parts[0], ",", '|');
      assert CountChar(",", '|') == CountChar(""[..0], '|') by { assert ","[1..] == ""; }
    } else if |parts| == 1 {
      assert Bars(parts[1..]) == 0;
    }
  }

  function Commas(fields: seq<string>): seq<nat> { seq(|fields|, i requires 0 <= i < |fields| => CountChar(fields[i], ',')) }

  /** As many bars in each part, and as many commas in each comparison. */
  predicate SameMarks(r: Rule, s: Rule) {
    if r.watch != "" then CountChar(r.watch, '|') == CountChar(s.watch, '|') && CountChar(r.perms, '|') == CountChar(s.perms, '|')
    else Bars(r.syscalls) == Bars(s.syscalls) && Bars(r.fields) == Bars(s.fields) && Commas(r.fields) == Commas(s.fields)
  }

  /** No bar in any part and no comma in a comparison. */
  predicate Unmarked(r: Rule) {
    && '|' !in r.watch && '|' !in r.perms && '|' !in r.key
    && (forall n <- r.syscalls :: '|' !in n) && (forall f <- r.fields :: '|' !in f && ',' !in f)
  }

  /** The rule is read from some line of words. */
  ghost predicate Parses(r: Rule) { exists tokens: seq<string> :: (forall t <- tokens :: IsWord(t)) && Parsed(tokens) == Ok(r) }

  lemma JoinOfNames(names: seq<string>)
    requires names != [""]
    ensures Join(names, ",") == "" <==> names == []
  {
    if |names| == 1 { assert names == [names[0]]; }
  }

  lemma SameNames(a: seq<string>, b: seq<string>)
    requires (forall n <- a :: ',' !in n) && (forall n <- b :: ',' !in n) && a != [""] && b != [""]
    requires Join(a, ",") == Join(b, ",")
    ensures a == b
  {
    JoinOfNames(a);
    JoinOfNames(b);
    if a != [] && b != [] {
      SplitJoin(a, ',');
      SplitJoin(b, ',');
    }
  }

  // ------------------------------------------------------------- names that were parsed

  lemma SplitIsNotLone(value: string)
    requires value != ""
    ensures Split(value, ',') != [""]
  {
    JoinSplit(value, ',');
  }

  lemma StepKeepsNames(q: Rule, option: string, value: string)
    requires q.syscalls != [""] && Step(q, option, value).Ok?
    ensures Step(q, option, value).value.syscalls != [""]
  {
    hide NormalizeWatchPath, SortedLetters, NormalizedField, NormalizeRuleList, Split;
    if option == "-S" {
      SplitIsNotLone(value);
      var names := Split(value, ',');
      if q.syscalls == [] { assert q.syscalls + names == names; } else { assert |q.syscalls + names| > 1; }
    }
  }

  lemma {:induction false} ReadKeepsNames(q: Rule, tokens: seq<string>)
    requires q.syscalls != [""] && ReadOptions(q, tokens).Ok?
    ensures ReadOptions(q, tokens).value.syscalls != [""]
    decreases |tokens|
  {
    hide Step;
    if tokens != [] {
      var value := if |tokens| > 1 then tokens[1] else "";
      StepKeepsNames(q, tokens[0], value);
      ReadKeepsNames(Step(q, tokens[0], value).value, if |tokens| > 1 then tokens[2..] else []);
    }
  }

  lemma LoneName(names: seq<string>)
    requires multiset(names) == multiset([""])
    ensures names == [""]
  {
    assert |multiset(names)| == |names|;
    assert names[0] in multiset(names);
  }

  lemma FinishedKeepsNames(q: Rule)
    requires q.syscalls != [""] && Finished(q).Ok?
    ensures Finished(q).value.syscalls != [""]
  {
    hide FoldFields, SortedLetters, NormalizeWatchPath, StringLe, Sort;
    OrdersAreTotal();
    SortSorts(StringLe, q.syscalls);
    if Sort(StringLe, q.syscalls) == [""] { LoneName(q.syscalls); }
  }

  lemma ParsesMeans(r: Rule)
    requires Parses(r)
    ensures r.syscalls != [""] && (forall n <- r.syscalls :: ',' !in n) && '|' !in r.list
    ensures forall f <- r.fields :: f != ""
  {
    var tokens: seq<string> :| (forall t <- tokens :: IsWord(t)) && Parsed(tokens) == Ok(r);
    ReadKeepsNames(BLANK, tokens);
    FinishedKeepsNames(ReadOptions(BLANK, tokens).value);
    ParsedIsParsed(tokens);
    hide Parsed, ReadOptions, Finished, FoldWatchFields, NormalizeWatchPath, SortedLetters, NormalizedField, GoodWatch, GoodPerms,
         NormalizeRuleList;
    ListHasNoBar(r.list);
  }

  lemma ListHasNoBar(list: string)
    requires GoodList(list)
    ensures '|' !in list
  {
    if list != "" {
      var parts := Split(list, ',');
      assert forall a <- ACTIONS :: '|' !in a;
      assert forall l <- LISTS :: '|' !in l;
      hide Split, ACTIONS, LISTS, IsWord;
    }
  }

  // ------------------------------------------------------------------- the exact condition

  lemma BlendedWatches(r: Rule, s: Rule)
    requires Blend(r, s) && SameMarks(r, s) && r.watch != ""
    ensures Agree(r, s)
  {
    SamePiecesSameJoin(WatchParts(r), WatchParts(s));
    hide Join, Pieces;
    var a, b := WatchParts(r), WatchParts(s);
    SameCountsSameParts(a, b, '|');
    assert a[0] == b[0] && a[1] == b[1] && a[2] == b[2];
  }

  lemma SameSyscallParts(r: Rule, s: Rule)
    requires Blend(r, s) && SameMarks(r, s) && r.watch == "" && '|' !in r.list && '|' !in s.list
    ensures r.list == s.list && Join(r.syscalls, ",") == Join(s.syscalls, ",") && Join(r.fields, ",") == Join(s.fields, ",")
    ensures r.key == s.key
  {
    hide Join, Pieces, Bars, CountChar;
    SamePiecesSameJoin(SyscallParts(r), SyscallParts(s));
    BarsOfJoin(r.syscalls);
    BarsOfJoin(s.syscalls);
    BarsOfJoin(r.fields);
    BarsOfJoin(s.fields);
    CountZero(r.list, '|');
    CountZero(s.list, '|');
    var a, b := SyscallParts(r), SyscallParts(s);
    SameCountsSameParts(a, b, '|');
    assert a[0] == b[0] && a[1] == b[1] && a[2] == b[2] && a[3] == b[3];
  }

  lemma SameComparisons(a: seq<string>, b: seq<string>)
    requires Join(a, ",") == Join(b, ",") && Commas(a) == Commas(b)
    ensures a == b
  {
    hide Join, CountChar;
    assert |Commas(a)| == |a| && |Commas(b)| == |b|;
    forall i | 0 <= i < |a| - 1 ensures CountChar(a[i], ',') == CountChar(b[i], ',') { assert Commas(a)[i] == Commas(b)[i]; }
    SameCountsSameParts(a, b, ',');
  }

  lemma BlendedSyscalls(r: Rule, s: Rule)
    requires Blend(r, s) && SameMarks(r, s) && r.watch == "" && Parses(r) && Parses(s)
    ensures Agree(r, s)
  {
    assert s.watch == "" && Commas(r.fields) == Commas(s.fields);
    hide Join, Blend, Parses, Bars, Commas, SameMarks;
    ParsesMeans(r);
    ParsesMeans(s);
    SameSyscallParts(r, s);
    SameNames(r.syscalls, s.syscalls);
    SameComparisons(r.fields, s.fields);
  }

  /** Two parsed rules that the comparison takes for one are one exactly when each part has as many bars, and each comparison as
      many commas, in both. */
  lemma SameCanonicalIff(r: Rule, s: Rule)
    requires Parses(r) && Parses(s)
    ensures Agree(r, s) <==> Canonical(r) == Canonical(s) && SameMarks(r, s)
  {
    CanonicalTells(r, s);
    hide Parses, Pieces, Join, Canonical, Bars, Commas;
    if Blend(r, s) && SameMarks(r, s) {
      if r.watch != "" { BlendedWatches(r, s); } else { BlendedSyscalls(r, s); }
    }
  }

  lemma {:induction false} PiecesOfPlain(parts: seq<string>)
    requires forall p <- parts :: '|' !in p
    ensures Pieces(parts) == parts
  {
    if parts != [] {
      SplitOfClean(parts[0], '|');
      PiecesOfPlain(parts[1..]);
      assert parts == [parts[0]] + parts[1..];
    }
  }

  lemma UnmarkedParts(r: Rule)
    requires Unmarked(r) && '|' !in r.list
    ensures Pieces(WatchParts(r)) == WatchParts(r) && Pieces(SyscallParts(r)) == SyscallParts(r)
  {
    JoinHasOnly(r.syscalls, ",", '|');
    JoinHasOnly(r.fields, ",", '|');
    PiecesOfPlain(WatchParts(r));
    PiecesOfPlain(SyscallParts(r));
    hide Pieces, Join;
  }

  /** So rules without bars and commas are told apart. */
  lemma UnmarkedAreTold(r: Rule, s: Rule)
    requires Parses(r) && Parses(s) && Unmarked(r) && Unmarked(s)
    ensures Canonical(r) == Canonical(s) <==> Agree(r, s)
  {
    hide Parses, Canonical, Pieces, Join;
    CanonicalTells(r, s);
    ParsesMeans(r);
    ParsesMeans(s);
    UnmarkedParts(r);
    UnmarkedParts(s);
    if Blend(r, s) && r.watch != "" {
      var a, b := WatchParts(r), WatchParts(s);
      assert a[0] == b[0] && a[1] == b[1] && a[2] == b[2];
    } else if Blend(r, s) {
      var a, b := SyscallParts(r), SyscallParts(s);
      assert a[0] == b[0] && a[1] == b[1] && a[2] == b[2] && a[3] == b[3];
      SameNames(r.syscalls, s.syscalls);
      assert "" !in r.fields && "" !in s.fields && "" in [""];
      SameNames(r.fields, s.fields);
    }
  }

  // ------------------------------------------------------------------------ they do blur

  lemma ParsedWatchParses(r: Rule)
    requires ParsedRule(r) && r.watch != "" && r.list == "" && r.syscalls == [] && r.fields == []
    ensures Parses(r)
  {
    hide ParsedRule, Parsed, IsWord, Tokens;
    WatchRestores(r);
    RereadIsParsedTokens(r);
    TokensSpaceless(r);
    WatchTokensNamed(r);
    NonEmptyOfWords(Tokens(r));
    WordsOf(Tokens(r));
    hide NonEmpty, Reread;
    assert Parsed(Tokens(r)) == Ok(r);
  }

  lemma WordsOf(tokens: seq<string>)
    requires forall t <- tokens :: Spaceless(t) && t != ""
    ensures forall t <- tokens :: IsWord(t)
  {
  }

  lemma JoinThree(a: string, b: string, c: string)
    ensures Join([a, b, c], "|") == a + "|" + b + "|" + c
  {
    assert [a, b, c][1..] == [b, c] && [b, c][1..] == [c];
    assert Join([c], "|") == c && Join([b, c], "|") == b + "|" + c;
    assert a + "|" + (b + "|" + c) == a + "|" + b + "|" + c;
  }

  /** A bar in a path reads as the end of the path: all watches of `a|b` for p under the key k are taken for watches of `a` for b
      under the key `p|k`. */
  lemma BarsBlur(a: string, b: string, p: string, k: string)
    requires GoodWatch(a) && a != "" && GoodPerms(b) && b != "" && GoodWatch(a + "|" + b) && GoodPerms(p) && p != "" && Spaceless(k)
    ensures var r, s := Rule(a + "|" + b, p, "", [], [], k), Rule(a, b, "", [], [], p + "|" + k);
      Parses(r) && Parses(s) && Canonical(r) == Canonical(s) && !Agree(r, s)
  {
    var r, s := Rule(a + "|" + b, p, "", [], [], k), Rule(a, b, "", [], [], p + "|" + k);
    JoinThree(a + "|" + b, p, k);
    JoinThree(a, b, p + "|" + k);
    assert a + "|" + b + "|" + p + "|" + k == a + "|" + b + "|" + (p + "|" + k);
    hide GoodWatch, GoodPerms, Parses, Join;
    assert ParsedRule(r) && ParsedRule(s);
    ParsedWatchParses(r);
    ParsedWatchParses(s);
    CanonicalIs(r);
    CanonicalIs(s);
  }

  /** A comma in a comparison reads as the end of the comparison. */
  lemma CommasBlur(list: string, f: string, g: string, key: string)
    ensures var r, s := Rule("", "", list, [], [f, g], key), Rule("", "", list, [], [f + "," + g], key);
      Canonical(r) == Canonical(s) && !Agree(r, s)
  {
    assert [f, g][1..] == [g];
    assert Join([f, g], ",") == f + "," + g == Join([f + "," + g], ",");
  }

  // ---------------------------------------------------------------------- missing rules

  lemma {:induction false} MissingAre(loaded: set<string>, want: seq<Rule>)
    ensures forall r :: r in MissingFrom(loaded, want) <==> r in want && Canonical(r) !in loaded
  {
    hide Canonical;
    if want != [] {
      MissingAre(loaded, want[..|want| - 1]);
      assert want == want[..|want| - 1] + [want[|want| - 1]];
    }
  }

  /** A wanted rule is reported exactly when no loaded rule blends with it; among rules without bars and commas, exactly when none
      has the same parts. */
  lemma ReportedIff(loaded: seq<Rule>, want: seq<Rule>, r: Rule)
    ensures r in MissingFrom(CanonicalSet(loaded), want) <==> r in want && forall s <- loaded :: !Blend(s, r)
    ensures Parses(r) && Unmarked(r) && (forall s <- loaded :: Parses(s) && Unmarked(s)) ==>
              (r in MissingFrom(CanonicalSet(loaded), want) <==> r in want && forall s <- loaded :: !Agree(s, r))
  {
    hide Canonical, Blend, Agree, Parses, Unmarked;
    MissingAre(CanonicalSet(loaded), want);
    forall s <- loaded ensures Canonical(s) == Canonical(r) <==> Blend(s, r) { CanonicalTells(s, r); }
    if Parses(r) && Unmarked(r) && (forall s <- loaded :: Parses(s) && Unmarked(s)) {
      forall s <- loaded ensures Canonical(s) == Canonical(r) <==> Agree(s, r) { UnmarkedAreTold(s, r); }
    }
  }

  // ------------------------------------------------------------------- other spellings

  /** Options that do the same to every rule can stand for each other anywhere in a line. */
  lemma SameStepSameParse(before: seq<string>, a: seq<string>, b: seq<string>, after: seq<string>)
    requires |before| % 2 == 0 && |a| == 2 && |b| == 2 && forall q :: Step(q, a[0], a[1]) == Step(q, b[0], b[1])
    ensures Parsed(before + (a + after)) == Parsed(before + (b + after))
  {
    hide Step;
    ReadConcat(BLANK, before, a + after);
    ReadConcat(BLANK, before, b + after);
    if ReadOptions(BLANK, before).Ok? {
      var q := ReadOptions(BLANK, before).value;
      ReadConcat(q, a, after);
      ReadConcat(q, b, after);
      ReadPair(q, a[0], a[1]);
      ReadPair(q, b[0], b[1]);
      assert a == [a[0], a[1]] && b == [b[0], b[1]];
    }
    hide ReadOptions, Finished;
  }

  lemma EitherPairIsList(action: string, list: string)
    requires action in {"always", "never"} && list in {"task", "exit", "user", "exclude", "filesystem"}
    ensures NormalizeRuleList(list + "," + action) == Ok(action + "," + list)
    ensures NormalizeRuleList(action + "," + list) == Ok(action + "," + list)
  {
    PairIsList(action, list);
    ListsAreNoActions(list);
    ActionsArePlain(action);
    hide ACTIONS, LISTS;
    var pair := [list, action];
    assert pair[1..] == [action];
    SplitJoin(pair, ',');
    assert Join(pair, ",") == list + "," + action;
  }

  /** `-a list,action`, `-a action,list` and both with `-A` are one option. */
  lemma ListFirstIsTheSame(before: seq<string>, action: string, list: string, after: seq<string>)
    requires |before| % 2 == 0
    requires action in {"always", "never"} && list in {"task", "exit", "user", "exclude", "filesystem"}
    ensures var parsed := Parsed(before + (["-a", action + "," + list] + after));
      && Parsed(before + (["-a", list + "," + action] + after)) == parsed
      && Parsed(before + (["-A", action + "," + list] + after)) == parsed
      && Parsed(before + (["-A", list + "," + action] + after)) == parsed
  {
    EitherPairIsList(action, list);
    hide Parsed, NormalizeRuleList;
    SameStepSameParse(before, ["-a", list + "," + action], ["-a", action + "," + list], after);
    SameStepSameParse(before, ["-A", action + "," + list], ["-a", action + "," + list], after);
    SameStepSameParse(before, ["-A", list + "," + action], ["-a", action + "," + list], after);
  }

  /** `-F key=k` is `-k k`. */
  lemma KeyFieldIsKey(before: seq<string>, key: string, after: seq<string>)
    requires |before| % 2 == 0 && key != ""
    ensures Parsed(before + (["-F", "key=" + key] + after)) == Parsed(before + (["-k", key] + after))
  {
    hide Parsed;
    assert ("key=" + key)[4..] == key;
    SameStepSameParse(before, ["-F", "key=" + key], ["-k", key], after);
  }

  lemma {:induction false} NotAnId(field: string, ops: seq<string>)
    requires field != "" && field[0] in {'p', 'd'}
    ensures NormalizeBy(field, ops) == field
  {
    hide IndexOf, NormalizeValue;
    if ops != [] {
      NotAnId(field, ops[1..]);
      var i := IndexOf(field, ops[0]);
      if i > 0 {
        IndexWithin(field, ops[0]);
        assert field[..i][0] == field[0];
        IdsBeginOtherwise(field[..i]);
      }
    }
  }

  lemma IndexWithin(field: string, op: string)
    ensures IndexOf(field, op) <= |field|
  {
  }

  lemma IdsBeginOtherwise(name: string)
    requires name != "" && name[0] in {'p', 'd'}
    ensures name !in ID_FIELDS
  {
  }

  /** A path field and a permission field, in either order. */
  lemma FoldedPair(place: string, perm: string)
    requires (PATH <= place || DIR <= place) && PERM <= perm
    ensures var watch := if PATH <= place then place[|PATH|..] else place[|DIR|..];
      && FoldFields([place, perm]) == Folded(watch, SortedLetters(perm[|PERM|..]), [])
      && FoldFields([perm, place]) == Folded(watch, SortedLetters(perm[|PERM|..]), [])
  {
    hide SortedLetters;
    assert [place, perm][..1] == [place] && [perm, place][..1] == [perm] && [place][..0] == [] && [perm][..0] == [];
    assert place[0] == 'p' ==> place[1] == 'a';
    assert perm[1] == 'e';
    var none := Folded("", "", []);
    assert FoldFields([]) == none;
    assert FoldFields([place]) == none.(watch := if PATH <= place then place[|PATH|..] else place[|DIR|..]);
    assert FoldFields([perm]) == none.(perms := SortedLetters(perm[|PERM|..]));
  }

  lemma TwoSorted(a: string, b: string)
    ensures Sort(StringLe, [a, b]) == [a, b] || Sort(StringLe, [a, b]) == [b, a]
  {
    OrdersAreTotal();
    SortSorts(StringLe, [a, b]);
    var s := Sort(StringLe, [a, b]);
    hide Sort, StringLe;
    TwoElements(a, b, s);
  }

  lemma TwoElements(a: string, b: string, s: seq<string>)
    requires multiset(s) == multiset([a, b])
    ensures s == [a, b] || s == [b, a]
  {
    assert |multiset(s)| == |s| && |multiset([a, b])| == 2;
    assert s[0] in multiset(s) && s[1] in multiset(s) && s == [s[0], s[1]];
    assert multiset(s) == multiset{s[0], s[1]};
  }

  lemma PairFinishes(place: string, perm: string, key: string)
    requires (PATH <= place || DIR <= place) && PERM <= perm
    requires SortedLetters(perm[|PERM|..]) != "" && (if PATH <= place then place[|PATH|..] else place[|DIR|..]) != ""
    ensures var watch := if PATH <= place then place[|PATH|..] else place[|DIR|..];
      Finished(Rule("", "", "always,exit", [], [place, perm], key)) ==
      Ok(Rule(NormalizeWatchPath(watch), SortedLetters(perm[|PERM|..]), "", [], [], key))
  {
    hide Sort, StringLe, FoldFields, SortedLetters, NormalizeWatchPath, PATH, DIR, PERM;
    var watch := if PATH <= place then place[|PATH|..] else place[|DIR|..];
    TwoSorted(place, perm);
    FoldedPair(place, perm);
    WatchPathStays(watch);
    NothingSorted();
    var q := SortedLists(Rule("", "", "always,exit", [], [place, perm], key));
    assert q.fields == [place, perm] || q.fields == [perm, place];
    assert FoldWatchFields(q) == Rule(NormalizeWatchPath(watch), SortedLetters(perm[|PERM|..]), "", [], [], key);
  }

  lemma NothingSorted()
    ensures Sort(StringLe, []) == []
  {
  }

  lemma FieldOption(q: Rule, field: string)
    requires field != "" && field[0] in {'p', 'd'}
    ensures Step(q, "-F", field) == Ok(q.(fields := q.fields + [field]))
  {
    NotAnId(field, FIELD_OPS);
    assert !(KEY_PREFIX <= field) by { assert KEY_PREFIX[0] == 'k'; }
    hide NormalizeBy;
  }

  lemma ExitOption()
    ensures Step(BLANK, "-a", "always,exit") == Ok(BLANK.(list := "always,exit"))
  {
    PairIsList("always", "exit");
    hide Step, NormalizeRuleList, IsWord;
    var list := "always" + "," + "exit";
    assert list == "always,exit";
    ListStep(list);
  }

  lemma FieldLineRead(place: string, perm: string, k: seq<string>)
    requires place != "" && perm != "" && place[0] in {'p', 'd'} && perm[0] == 'p'
    ensures ReadOptions(BLANK, ["-a", "always,exit", "-F", place, "-F", perm] + k) ==
            ReadOptions(Rule("", "", "always,exit", [], [place, perm], ""), k)
  {
    hide ReadOptions, Step;
    var q := BLANK.(list := "always,exit");
    var q1 := q.(fields := q.fields + [place]);
    ExitOption();
    FieldOption(q, place);
    FieldOption(q1, perm);
    ReadFirst(BLANK, "-a", "always,exit", ["-F", place, "-F", perm] + k);
    ReadFirst(q, "-F", place, ["-F", perm] + k);
    ReadFirst(q1, "-F", perm, k);
    assert q1.fields + [perm] == [place, perm];
    assert ["-a", "always,exit", "-F", place, "-F", perm] + k == ["-a", "always,exit"] + (["-F", place, "-F", perm] + k);
    assert ["-F", place, "-F", perm] + k == ["-F", place] + (["-F", perm] + k);
  }

  lemma WatchLineRead(path: string, perms: string, k: seq<string>)
    requires path != "" && perms != ""
    ensures ReadOptions(BLANK, ["-w", path, "-p", perms] + k) ==
            ReadOptions(Rule(NormalizeWatchPath(path), SortedLetters(perms), "", [], [], ""), k)
  {
    hide NormalizeRuleList, NormalizeWatchPath, SortedLetters, ReadOptions;
    ReadFirst(BLANK, "-w", path, ["-p", perms] + k);
    ReadFirst(BLANK.(watch := NormalizeWatchPath(path)), "-p", perms, k);
    assert ["-w", path, "-p", perms] + k == ["-w", path] + (["-p", perms] + k);
  }

  lemma ReadFirst(q: Rule, option: string, value: string, rest: seq<string>)
    ensures Step(q, option, value).Ok? ==> ReadOptions(q, [option, value] + rest) == ReadOptions(Step(q, option, value).value, rest)
  {
    hide Step;
    assert ([option, value] + rest)[2..] == rest;
  }

  /** The key option, or none. */
  predicate IsKeyOption(k: seq<string>) { k == [] || (|k| == 2 && k[0] == "-k" && k[1] != "") }

  lemma KeyOptionRead(q: Rule, k: seq<string>)
    requires IsKeyOption(k)
    ensures ReadOptions(q, k) == Ok(if k == [] then q else q.(key := k[1]))
  {
    if k != [] {
      ReadPair(q, k[0], k[1]);
      assert k == [k[0], k[1]];
    }
  }

  lemma WatchLineFinishes(path: string, perms: string, key: string)
    requires path != "" && SortedLetters(perms) != ""
    ensures Finished(Rule(NormalizeWatchPath(path), SortedLetters(perms), "", [], [], key)) ==
            Ok(Rule(NormalizeWatchPath(path), SortedLetters(perms), "", [], [], key))
  {
    WatchPathStays(path);
    NothingSorted();
    hide SortedLetters, NormalizeWatchPath, Sort, StringLe;
  }

  /** `-a always,exit -F path=p -F perm=x` is `-w p -p x`, as is the one with `dir=`. */
  lemma PathFieldsAreAWatch(path: string, perms: string, k: seq<string>)
    requires IsWord(path) && IsWord(perms) && IsKeyOption(k)
    ensures var watch := Parsed(["-w", path, "-p", perms] + k);
      && watch.Ok? && watch.value.watch == NormalizeWatchPath(path) && watch.value.perms == SortedLetters(perms)
      && Parsed(["-a", "always,exit", "-F", "path=" + path, "-F", "perm=" + perms] + k) == watch
      && Parsed(["-a", "always,exit", "-F", "dir=" + path, "-F", "perm=" + perms] + k) == watch
  {
    SortedLettersStay(perms);
    hide SortedLetters, NormalizeWatchPath, ReadOptions, Finished, IsKeyOption, IsWord;
    assert path != "" && perms != "" by { WordsAreNamed(path, perms); }
    var key := if k == [] then "" else k[1];
    var perm := "perm=" + perms;
    assert perm[|PERM|..] == perms;
    KeyOptionRead(Rule(NormalizeWatchPath(path), SortedLetters(perms), "", [], [], ""), k);
    WatchLineRead(path, perms, k);
    WatchLineFinishes(path, perms, key);
    forall place | place in {"path=" + path, "dir=" + path}
      ensures Parsed(["-a", "always,exit", "-F", place, "-F", perm] + k) == Parsed(["-w", path, "-p", perms] + k)
    {
      PlaceNames(place, path);
      FieldLineRead(place, perm, k);
      KeyOptionRead(Rule("", "", "always,exit", [], [place, perm], ""), k);
      PairFinishes(place, perm, key);
    }
  }

  lemma WordsAreNamed(a: string, b: string)
    requires IsWord(a) && IsWord(b)
    ensures a != "" && b != ""
  {
  }

  lemma PlaceNames(place: string, path: string)
    requires place == "path=" + path || place == "dir=" + path
    ensures (PATH <= place || DIR <= place) && (if PATH <= place then place[|PATH|..] else place[|DIR|..]) == path
    ensures place[0] in {'p', 'd'}
  {
    if place == "dir=" + path { assert place[0] == 'd'; }
  }

  /** A watch without permissions is one for all four. */
  lemma NoPermissionsAreAll(path: string, k: seq<string>)
    requires IsWord(path) && IsKeyOption(k)
    ensures Parsed(["-w", path] + k) == Parsed(["-w", path, "-p", "rwxa"] + k)
  {
    SortedLettersStay("rwxa");
    hide SortedLetters, NormalizeWatchPath, ReadOptions, Finished, IsKeyOption, IsWord;
    assert path != "" by { WordsAreNamed(path, path); }
    var key := if k == [] then "" else k[1];
    var q := BLANK.(watch := NormalizeWatchPath(path));
    ReadFirst(BLANK, "-w", path, k);
    KeyOptionRead(q, k);
    WatchLineRead(path, "rwxa", k);
    KeyOptionRead(q.(perms := SortedLetters("rwxa")), k);
    WatchLineFinishes(path, "rwxa", key);
    BareWatchFinishes(path, key);
  }

  lemma BareWatchFinishes(path: string, key: string)
    requires path != ""
    ensures Finished(Rule(NormalizeWatchPath(path), "", "", [], [], key)) ==
            Ok(Rule(NormalizeWatchPath(path), SortedLetters("rwxa"), "", [], [], key))
  {
    WatchPathStays(path);
    NothingSorted();
    hide SortedLetters, NormalizeWatchPath, Sort, StringLe;
  }
}
