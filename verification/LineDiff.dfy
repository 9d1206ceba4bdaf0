// The line diff that the firewall and template plugins print before they change a file.
module LineDiff {
  import opened Text

  const MAX_LINES: nat := 2000
  const PREVIEW_LIMIT: nat := 40

  datatype Edit = Edit(kind: char, line: string)

  type Lines = seq<string>

  // --------------------------------------------- what a script says, and its cost

  predicate ValidScript(edits: seq<Edit>) {
    forall e <- edits :: e.kind in {' ', '-', '+'}
  }

  function OldOf(e: Edit): Lines { if e.kind in {' ', '-'} then [e.line] else [] }

  function NewOf(e: Edit): Lines { if e.kind in {' ', '+'} then [e.line] else [] }

  /** The lines a script leaves in place or deletes: the text it starts from. */
  function OldSide(edits: seq<Edit>): Lines {
    if edits == [] then [] else OldOf(edits[0]) + OldSide(edits[1..])
  }

  /** The lines a script leaves in place or adds: the text it ends at. */
  function NewSide(edits: seq<Edit>): Lines {
    if edits == [] then [] else NewOf(edits[0]) + NewSide(edits[1..])
  }

  function Kept(edits: seq<Edit>): Lines {
    if edits == [] then []
    else (if edits[0].kind == ' ' then [edits[0].line] else []) + Kept(edits[1..])
  }

  function ChangeOf(e: Edit): seq<Edit> { if e.kind != ' ' then [e] else [] }

  function Changed(edits: seq<Edit>): seq<Edit> {
    if edits == [] then [] else ChangeOf(edits[0]) + Changed(edits[1..])
  }

  predicate Transforms(edits: seq<Edit>, a: Lines, b: Lines) {
    ValidScript(edits) && OldSide(edits) == a && NewSide(edits) == b
  }

  // ------------------------------------------------------ longest common subsequence

  predicate Subsequence(s: Lines, a: Lines) {
    s == [] || (a != [] && ((s[0] == a[0] && Subsequence(s[1..], a[1..])) || Subsequence(s, a[1..])))
  }

  predicate CommonSubsequence(s: Lines, a: Lines, b: Lines) {
    Subsequence(s, a) && Subsequence(s, b)
  }

  /** The length of a longest common subsequence; LcsIsAttained and LcsIsMaximal say so. */
  function Lcs(a: Lines, b: Lines): nat
    decreases |a| + |b|
  {
    if a == [] || b == [] then 0
    else if a[0] == b[0] then 1 + Lcs(a[1..], b[1..])
    else if Lcs(a[1..], b) >= Lcs(a, b[1..]) then Lcs(a[1..], b)
    else Lcs(a, b[1..])
  }

  lemma {:induction false} LcsIsAttained(a: Lines, b: Lines) returns (s: Lines)
    ensures CommonSubsequence(s, a, b) && |s| == Lcs(a, b)
    decreases |a| + |b|
  {
    if a == [] || b == [] {
      s := [];
    } else if a[0] == b[0] {
      var t := LcsIsAttained(a[1..], b[1..]);
      s := [a[0]] + t;
      assert s[1..] == t;
    } else if Lcs(a[1..], b) >= Lcs(a, b[1..]) {
      s := LcsIsAttained(a[1..], b);
    } else {
      s := LcsIsAttained(a, b[1..]);
    }
  }

  lemma {:induction false} SubsequenceTail(s: Lines, a: Lines)
    requires s != [] && Subsequence(s, a)
    ensures Subsequence(s[1..], a)
    ensures a != [] && Subsequence(s[1..], a[1..])
  {
    if s[0] == a[0] && Subsequence(s[1..], a[1..]) {
    } else {
      SubsequenceTail(s, a[1..]);
    }
  }

  lemma {:induction false} LcsIsMaximal(s: Lines, a: Lines, b: Lines)
    requires CommonSubsequence(s, a, b)
    ensures |s| <= Lcs(a, b)
    decreases |a| + |b|
  {
    if s != [] {
      if a[0] == b[0] {
        SubsequenceTail(s, a);
        SubsequenceTail(s, b);
        LcsIsMaximal(s[1..], a[1..], b[1..]);
      } else if s[0] == a[0] {
        LcsIsMaximal(s, a, b[1..]);
      } else {
        LcsIsMaximal(s, a[1..], b);
      }
    }
  }

  // ---------------------------------------------------------------- scripts and LCS

  lemma {:induction false} SubsequenceGrows(s: Lines, x: string, a: Lines)
    requires Subsequence(s, a)
    ensures Subsequence(s, [x] + a)
  {
    assert ([x] + a)[1..] == a;
  }

  lemma {:induction false} ScriptCost(edits: seq<Edit>)
    requires ValidScript(edits)
    ensures CommonSubsequence(Kept(edits), OldSide(edits), NewSide(edits))
    ensures |Changed(edits)| + 2 * |Kept(edits)| == |OldSide(edits)| + |NewSide(edits)|
  {
    if edits != [] {
      var e, rest := edits[0], edits[1..];
      ScriptCost(rest);
      assert OldSide(rest) == [] + OldSide(rest) && NewSide(rest) == [] + NewSide(rest) && Kept(rest) == [] + Kept(rest);
      if e.kind == ' ' {
        assert ([e.line] + Kept(rest))[1..] == Kept(rest);
        assert ([e.line] + OldSide(rest))[1..] == OldSide(rest);
        assert ([e.line] + NewSide(rest))[1..] == NewSide(rest);
      } else if e.kind == '-' {
        SubsequenceGrows(Kept(rest), e.line, OldSide(rest));
      } else {
        SubsequenceGrows(Kept(rest), e.line, NewSide(rest));
      }
    }
  }

  /** No script between two texts changes fewer lines than the LCS leaves over. */
  lemma NoShorterScript(edits: seq<Edit>, a: Lines, b: Lines)
    requires Transforms(edits, a, b)
    ensures |Changed(edits)| >= |a| + |b| - 2 * Lcs(a, b)
  {
    ScriptCost(edits);
    LcsIsMaximal(Kept(edits), a, b);
  }

  // -------------------------------------------------------------------- the algorithm

  lemma LcsOfNothing(a: Lines, b: Lines)
    ensures forall i :: 0 <= i <= |a| ==> Lcs(a[i..], b[|b|..]) == 0
    ensures forall j :: 0 <= j <= |b| ==> Lcs(a[|a|..], b[j..]) == 0
  {
  }

  /** How a cell follows from its neighbours. */
  lemma LcsStep(a: Lines, b: Lines, i: nat, j: nat)
    requires i < |a| && j < |b|
    ensures Lcs(a[i..], b[j..]) ==
            if a[i] == b[j] then Lcs(a[i + 1..], b[j + 1..]) + 1
            else if Lcs(a[i + 1..], b[j..]) >= Lcs(a[i..], b[j + 1..]) then Lcs(a[i + 1..], b[j..])
            else Lcs(a[i..], b[j + 1..])
  {
    assert a[i..][1..] == a[i + 1..] && b[j..][1..] == b[j + 1..];
  }

  /** dp[i, j] is the LCS length of the suffixes from i and j. */
  method LcsTable(a: Lines, b: Lines) returns (dp: array2<nat>)
    ensures fresh(dp) && dp.Length0 == |a| + 1 && dp.Length1 == |b| + 1
    ensures forall i, j :: 0 <= i <= |a| && 0 <= j <= |b| ==> dp[i, j] == Lcs(a[i..], b[j..])
  {
    hide Lcs;
    LcsOfNothing(a, b);
    dp := new nat[|a| + 1, |b| + 1]((i, j) => 0);
    var i := |a| - 1;
    while i >= 0
      invariant -1 <= i < |a|
      invariant forall k, j :: 0 <= k <= i && 0 <= j <= |b| ==> dp[k, j] == 0
      invariant forall k, l :: i < k <= |a| && 0 <= l <= |b| ==> dp[k, l] == Lcs(a[k..], b[l..])
    {
      var j := |b| - 1;
      while j >= 0
        invariant -1 <= j < |b|
        invariant forall k, l :: 0 <= k < i && 0 <= l <= |b| ==> dp[k, l] == 0
        invariant forall k, l :: i < k <= |a| && 0 <= l <= |b| ==> dp[k, l] == Lcs(a[k..], b[l..])
        invariant forall l :: 0 <= l <= j ==> dp[i, l] == 0
        invariant forall l :: j < l <= |b| ==> dp[i, l] == Lcs(a[i..], b[l..])
      {
        LcsStep(a, b, i, j);
        if a[i] == b[j] {
          dp[i, j] := dp[i + 1, j + 1] + 1;
        } else if dp[i + 1, j] >= dp[i, j + 1] {
          dp[i, j] := dp[i + 1, j];
        } else {
          dp[i, j] := dp[i, j + 1];
        }
        j := j - 1;
      }
      i := i - 1;
    }
  }

  lemma {:induction false} OldSideSnoc(edits: seq<Edit>, e: Edit)
    ensures OldSide(edits + [e]) == OldSide(edits) + OldOf(e)
  {
    hide OldOf;
    if edits == [] {
      assert edits + [e] == [e] && [e][1..] == [];
    } else {
      assert (edits + [e])[1..] == edits[1..] + [e];
      OldSideSnoc(edits[1..], e);
      Regroup(OldOf(edits[0]), OldSide(edits[1..]), OldOf(e));
    }
  }

  lemma {:induction false} NewSideSnoc(edits: seq<Edit>, e: Edit)
    ensures NewSide(edits + [e]) == NewSide(edits) + NewOf(e)
  {
    hide NewOf;
    if edits == [] {
      assert edits + [e] == [e] && [e][1..] == [];
    } else {
      assert (edits + [e])[1..] == edits[1..] + [e];
      NewSideSnoc(edits[1..], e);
      Regroup(NewOf(edits[0]), NewSide(edits[1..]), NewOf(e));
    }
  }

  lemma {:induction false} ChangedSnoc(edits: seq<Edit>, e: Edit)
    ensures Changed(edits + [e]) == Changed(edits) + ChangeOf(e)
  {
    hide ChangeOf;
    if edits == [] {
      assert edits + [e] == [e] && [e][1..] == [];
    } else {
      assert (edits + [e])[1..] == edits[1..] + [e];
      ChangedSnoc(edits[1..], e);
      Regroup(ChangeOf(edits[0]), Changed(edits[1..]), ChangeOf(e));
    }
  }

  lemma Regroup<T>(a: seq<T>, b: seq<T>, c: seq<T>)
    ensures a + (b + c) == a + b + c
  {
  }

  lemma ScriptSnoc(edits: seq<Edit>, e: Edit)
    ensures OldSide(edits + [e]) == OldSide(edits) + OldOf(e)
    ensures NewSide(edits + [e]) == NewSide(edits) + NewOf(e)
    ensures Changed(edits + [e]) == Changed(edits) + ChangeOf(e)
  {
    OldSideSnoc(edits, e);
    NewSideSnoc(edits, e);
    ChangedSnoc(edits, e);
  }


  /** The script so far has dealt with the first i lines of a and the first j lines of b. */
  ghost predicate DiffedUpTo(edits: seq<Edit>, a: Lines, b: Lines, i: nat, j: nat)
    requires i <= |a| && j <= |b|
  {
    Transforms(edits, a[..i], b[..j])
  }

  lemma OneMoreDelete(edits: seq<Edit>, a: Lines, b: Lines, k: nat, j: nat)
    requires k < |a| && j <= |b| && DiffedUpTo(edits, a, b, k, j)
    ensures DiffedUpTo(edits + [Edit('-', a[k])], a, b, k + 1, j)
    ensures |Changed(edits + [Edit('-', a[k])])| == |Changed(edits)| + 1
  {
    ScriptSnoc(edits, Edit('-', a[k]));
    assert a[..k] + [a[k]] == a[..k + 1] && b[..j] + [] == b[..j];
    hide OldSide, NewSide, Changed;
  }

  lemma OneMoreInsert(edits: seq<Edit>, a: Lines, b: Lines, i: nat, k: nat)
    requires i <= |a| && k < |b| && DiffedUpTo(edits, a, b, i, k)
    ensures DiffedUpTo(edits + [Edit('+', b[k])], a, b, i, k + 1)
    ensures |Changed(edits + [Edit('+', b[k])])| == |Changed(edits)| + 1
  {
    ScriptSnoc(edits, Edit('+', b[k]));
    assert b[..k] + [b[k]] == b[..k + 1] && a[..i] + [] == a[..i];
    hide OldSide, NewSide, Changed;
  }

  method DeleteRest(edits: seq<Edit>, a: Lines, ghost b: Lines, i: nat, ghost j: nat) returns (all: seq<Edit>)
    requires i <= |a| && j <= |b| && DiffedUpTo(edits, a, b, i, j)
    ensures DiffedUpTo(all, a, b, |a|, j)
    ensures |Changed(all)| == |Changed(edits)| + |a| - i
  {
    hide DiffedUpTo, Changed;
    all := edits;
    for k := i to |a|
      invariant DiffedUpTo(all, a, b, k, j)
      invariant |Changed(all)| == |Changed(edits)| + k - i
    {
      OneMoreDelete(all, a, b, k, j);
      all := all + [Edit('-', a[k])];
    }
  }

  method InsertRest(edits: seq<Edit>, ghost a: Lines, b: Lines, ghost i: nat, j: nat) returns (all: seq<Edit>)
    requires i <= |a| && j <= |b| && DiffedUpTo(edits, a, b, i, j)
    ensures DiffedUpTo(all, a, b, i, |b|)
    ensures |Changed(all)| == |Changed(edits)| + |b| - j
  {
    hide DiffedUpTo, Changed;
    all := edits;
    for k := j to |b|
      invariant DiffedUpTo(all, a, b, i, k)
      invariant |Changed(all)| == |Changed(edits)| + k - j
    {
      OneMoreInsert(all, a, b, i, k);
      all := all + [Edit('+', b[k])];
    }
  }

  /** What the greedy walk keeps: the changes made and those still due add up to the least cost. */
  ghost predicate OnCourse(edits: seq<Edit>, a: Lines, b: Lines, i: nat, j: nat) {
    && i <= |a| && j <= |b|
    && DiffedUpTo(edits, a, b, i, j)
    && |Changed(edits)| + |a| - i + |b| - j - 2 * Lcs(a[i..], b[j..]) == |a| + |b| - 2 * Lcs(a, b)
  }

  lemma StepOnCourse(edits: seq<Edit>, a: Lines, b: Lines, i: nat, j: nat)
    requires i < |a| && j < |b| && OnCourse(edits, a, b, i, j)
    ensures a[i] == b[j] ==> OnCourse(edits + [Edit(' ', a[i])], a, b, i + 1, j + 1)
    ensures a[i] != b[j] ==>
              if Lcs(a[i + 1..], b[j..]) >= Lcs(a[i..], b[j + 1..])
              then OnCourse(edits + [Edit('-', a[i])], a, b, i + 1, j)
              else OnCourse(edits + [Edit('+', b[j])], a, b, i, j + 1)
  {
    assert a[i..][1..] == a[i + 1..] && b[j..][1..] == b[j + 1..];
    assert a[..i] + [a[i]] == a[..i + 1] && b[..j] + [b[j]] == b[..j + 1];
    assert a[..i] + [] == a[..i] && b[..j] + [] == b[..j];
    if a[i] == b[j] {
      ScriptSnoc(edits, Edit(' ', a[i]));
    } else if Lcs(a[i + 1..], b[j..]) >= Lcs(a[i..], b[j + 1..]) {
      ScriptSnoc(edits, Edit('-', a[i]));
    } else {
      ScriptSnoc(edits, Edit('+', b[j]));
    }
  }

  /** The walk through the table until one text is used up. */
  method WalkTable(a: Lines, b: Lines, dp: array2<nat>) returns (edits: seq<Edit>, i: nat, j: nat)
    requires dp.Length0 == |a| + 1 && dp.Length1 == |b| + 1
    requires forall k, l :: 0 <= k <= |a| && 0 <= l <= |b| ==> dp[k, l] == Lcs(a[k..], b[l..])
    ensures OnCourse(edits, a, b, i, j) && (i == |a| || j == |b|)
  {
    edits, i, j := [], 0, 0;
    assert a[0..] == a && b[0..] == b;
    while i < |a| && j < |b|
      invariant OnCourse(edits, a, b, i, j)
      decreases |a| - i + |b| - j
    {
      StepOnCourse(edits, a, b, i, j);
      if a[i] == b[j] {
        edits := edits + [Edit(' ', a[i])];
        i, j := i + 1, j + 1;
      } else if dp[i + 1, j] >= dp[i, j + 1] {
        edits := edits + [Edit('-', a[i])];
        i := i + 1;
      } else {
        edits := edits + [Edit('+', b[j])];
        j := j + 1;
      }
    }
  }

  /** The text a is turned into b with as few changed lines as any script needs. */
  method DiffLines(a: Lines, b: Lines) returns (edits: seq<Edit>)
    ensures |a| > MAX_LINES || |b| > MAX_LINES ==> |edits| == 1 && edits[0].kind == '!'
    ensures |a| <= MAX_LINES && |b| <= MAX_LINES ==>
              Transforms(edits, a, b) && |Changed(edits)| == |a| + |b| - 2 * Lcs(a, b)
  {
    if |a| > MAX_LINES || |b| > MAX_LINES {
      return [Edit('!', "content too large to diff")];
    }
    var dp := LcsTable(a, b);
    var i, j;
    edits, i, j := WalkTable(a, b, dp);
    edits := DeleteRest(edits, a, b, i, j);
    edits := InsertRest(edits, a, b, |a|, j);
    assert a[..|a|] == a && b[..|b|] == b;
  }

  /** A script that changes nothing starts and ends at the same text, and one exists only then. */
  lemma {:induction false} NothingChanged(edits: seq<Edit>)
    requires ValidScript(edits) && Changed(edits) == []
    ensures OldSide(edits) == NewSide(edits)
  {
    if edits != [] { NothingChanged(edits[1..]); }
  }

  lemma {:induction false} LcsOfItself(a: Lines)
    ensures Lcs(a, a) == |a|
  {
    if a != [] { LcsOfItself(a[1..]); }
  }

  // ---------------------------------------------------------------------- the preview

  /** The texts differ by more than the spelling of line ends and a missing last newline. */
  predicate ContentDiffers(current: string, desired: string) {
    Terminated(UnixText(current)) != Terminated(UnixText(desired))
  }

  method CountChanged(edits: seq<Edit>) returns (changed: nat)
    ensures changed == |Changed(edits)|
  {
    changed := 0;
    for i := 0 to |edits|
      invariant changed == |Changed(edits[..i])|
    {
      ScriptSnoc(edits[..i], edits[i]);
      assert edits[..i] + [edits[i]] == edits[..i + 1];
      if edits[i].kind != ' ' { changed := changed + 1; }
    }
    assert edits[..|edits|] == edits;
  }

  function PreviewOf(changes: seq<Edit>): seq<string> {
    seq(|changes|, k requires 0 <= k < |changes| => [changes[k].kind] + changes[k].line)
  }

  lemma OneMorePreviewed(changes: seq<Edit>, e: Edit)
    ensures PreviewOf(changes + ChangeOf(e)) == PreviewOf(changes) + if e.kind != ' ' then [[e.kind] + e.line] else []
    ensures |changes + ChangeOf(e)| <= |changes| + 1
  {
  }

  lemma NothingToPreview()
    ensures Changed([]) == []
  {
  }

  /** The first PREVIEW_LIMIT changes of a script, in order. */
  method PreviewLines(edits: seq<Edit>) returns (lines: seq<string>)
    ensures var all := Changed(edits);
            lines == PreviewOf(if |all| <= PREVIEW_LIMIT then all else all[..PREVIEW_LIMIT])
  {
    hide Changed, ChangeOf;
    lines := [];
    var i := 0;
    NothingToPreview();
    while i < |edits| && |lines| < PREVIEW_LIMIT
      invariant 0 <= i <= |edits| && |lines| <= PREVIEW_LIMIT
      invariant lines == PreviewOf(Changed(edits[..i]))
    {
      ChangedSnoc(edits[..i], edits[i]);
      OneMorePreviewed(Changed(edits[..i]), edits[i]);
      assert edits[..i] + [edits[i]] == edits[..i + 1];
      if edits[i].kind != ' ' {
        lines := lines + [[edits[i].kind] + edits[i].line];
      }
      i := i + 1;
    }
    assert edits == edits[..i] + edits[i..];
    ChangedConcat(edits[..i], edits[i..]);
    if i == |edits| { assert edits[i..] == []; }
    assert |lines| == |Changed(edits[..i])|;
  }

  lemma {:induction false} ChangedConcat(x: seq<Edit>, y: seq<Edit>)
    ensures Changed(x + y) == Changed(x) + Changed(y)
  {
    if x == [] {
      assert x + y == y;
    } else {
      assert (x + y)[1..] == x[1..] + y;
      ChangedConcat(x[1..], y);
      assert ChangeOf(x[0]) + (Changed(x[1..]) + Changed(y)) == ChangeOf(x[0]) + Changed(x[1..]) + Changed(y);
    }
  }

  /** The changed lines under a header, and a count of those not shown; nothing when the lines agree. */
  method RenderContentDiff(dest: string, current: string, desired: string, existed: bool) returns (lines: seq<string>)
    ensures |SplitLines(current)| <= MAX_LINES && |SplitLines(desired)| <= MAX_LINES ==>
              (lines == [] <==> !ContentDiffers(current, desired))
    ensures |SplitLines(current)| > MAX_LINES || |SplitLines(desired)| > MAX_LINES ==> lines != []
    ensures |lines| <= PREVIEW_LIMIT + 3
  {
    SameLinesIff(current, desired);
    var a, b := SplitLines(current), SplitLines(desired);
    hide SplitLines, UnixText, Terminated;
    var edits := DiffLines(a, b);
    var changed := CountChanged(edits);
    if a == b { LcsOfItself(a); }
    if changed == 0 {
      if |a| <= MAX_LINES && |b| <= MAX_LINES { NothingChanged(edits); }
      return [];
    }
    var shown := PreviewLines(edits);
    lines := ["--- current " + dest + (if existed then "" else " (absent)"), "+++ desired " + dest] + shown;
    if |shown| < changed {
      lines := lines + ["... more content diff line(s) omitted"];
    }
  }
}
