// Strings as the Go library splits and orders them.
module Text {
  /** strings.Split with a one-character separator: always at least one part. */
  function Split(s: string, sep: char): (parts: seq<string>)
    ensures parts != []
  {
    if s == "" then [""]
    else
      var rest := Split(s[1..], sep);
      if s[0] == sep then [""] + rest
      else [[s[0]] + rest[0]] + rest[1..]
  }

  /** strings.Join. */
  function Join(parts: seq<string>, sep: string): string {
    if parts == [] then ""
    else if |parts| == 1 then parts[0]
    else parts[0] + sep + Join(parts[1..], sep)
  }

  lemma {:induction false} JoinSplit(s: string, sep: char)
    ensures Join(Split(s, sep), [sep]) == s
  {
    if s != "" {
      JoinSplit(s[1..], sep);
      var rest := Split(s[1..], sep);
      var parts := Split(s, sep);
      if s[0] == sep {
        assert parts[1..] == rest;
      } else {
        assert parts[1..] == rest[1..];
        if |rest| == 1 { assert rest == [rest[0]]; }
      }
    }
  }

  /** No part holds the separator. */
  lemma {:induction false} SplitPartsAreClean(s: string, sep: char)
    ensures forall p <- Split(s, sep) :: sep !in p
  {
    if s != "" {
      SplitPartsAreClean(s[1..], sep);
      var rest := Split(s[1..], sep);
      assert rest[0] in rest;
      forall p | p in Split(s, sep) ensures sep !in p {
        if p !in rest { assert p == "" || p == [s[0]] + rest[0]; }
      }
    }
  }

  lemma {:induction false} SplitOfClean(s: string, sep: char)
    requires sep !in s
    ensures Split(s, sep) == [s]
  {
    if s != "" {
      SplitOfClean(s[1..], sep);
      assert [s[0]] + s[1..] == s && [s[1..]][1..] == [];
    }
  }

  lemma {:induction false} SplitAtSeparator(a: string, sep: char, b: string)
    requires sep !in a
    ensures Split(a + [sep] + b, sep) == [a] + Split(b, sep)
  {
    var s := a + [sep] + b;
    if a == "" {
      assert s[1..] == b;
    } else {
      assert s[1..] == a[1..] + [sep] + b;
      SplitAtSeparator(a[1..], sep, b);
      assert ([a[1..]] + Split(b, sep))[1..] == Split(b, sep);
      assert [a[0]] + a[1..] == a && s[0] == a[0] && a[0] in a;
    }
  }

  /** Splitting undoes joining when no part holds the separator. */
  lemma {:induction false} SplitJoin(parts: seq<string>, sep: char)
    requires parts != [] && forall p <- parts :: sep !in p
    ensures Split(Join(parts, [sep]), sep) == parts
  {
    var first, rest := parts[0], parts[1..];
    assert first in parts;
    if rest == [] {
      SplitOfClean(first, sep);
    } else {
      var tail := Join(rest, [sep]);
      SplitJoin(rest, sep);
      SplitAtSeparator(first, sep, tail);
      assert Join(parts, [sep]) == first + [sep] + tail;
      assert parts == [first] + rest;
    }
  }

  lemma {:induction false} JoinHasOnly(parts: seq<string>, sep: string, c: char)
    requires c !in sep && forall p <- parts :: c !in p
    ensures c !in Join(parts, sep)
  {
    if |parts| > 1 { JoinHasOnly(parts[1..], sep, c); }
  }

  // ------------------------------------------------------------------ counting separators

  function CountChar(s: string, c: char): nat {
    if s == "" then 0 else (if s[0] == c then 1 else 0) + CountChar(s[1..], c)
  }

  lemma {:induction false} CountSplits(a: string, b: string, c: char)
    ensures CountChar(a + b, c) == CountChar(a, c) + CountChar(b, c)
  {
    if a == "" { assert a + b == b; } else { assert (a + b)[1..] == a[1..] + b; CountSplits(a[1..], b, c); }
  }

  lemma {:induction false} CountZero(s: string, c: char)
    ensures CountChar(s, c) == 0 <==> c !in s
  {
    if s != "" { CountZero(s[1..], c); assert s == [s[0]] + s[1..]; }
  }

  lemma {:induction false} CountJoin(parts: seq<string>, c: char)
    requires parts != []
    ensures CountChar(Join(parts, [c]), c) >= |parts| - 1
    ensures CountChar(Join(parts, [c]), c) == |parts| - 1 <==> forall p <- parts :: c !in p
  {
    CountZero(parts[0], c);
    if |parts| > 1 {
      CountJoin(parts[1..], c);
      CountSplits(parts[0] + [c], Join(parts[1..], [c]), c);
      CountSplits(parts[0], [c], c);
      assert CountChar([c], c) == 1 + CountChar([c][1..], c);
      assert parts == [parts[0]] + parts[1..];
    } else {
      assert parts == [parts[0]];
    }
  }

  // --------------------------------------------------------------- trimming and fields

  /** White space up to Latin-1, as Go's unicode.IsSpace. */
  predicate IsSpace(c: char) {
    c == ' ' || ('\t' <= c <= '\r') || c == '\U{0085}' || c == '\U{00A0}'
  }

  function TrimLeft(s: string): string {
    if s != "" && IsSpace(s[0]) then TrimLeft(s[1..]) else s
  }

  function TrimRight(s: string): string {
    if s != "" && IsSpace(s[|s| - 1]) then TrimRight(s[..|s| - 1]) else s
  }

  function TrimSpace(s: string): string { TrimRight(TrimLeft(s)) }

  function LowerChar(c: char): char {
    if 'A' <= c <= 'Z' then c - 'A' + 'a' else c
  }

  function ToLower(s: string): string {
    if s == "" then "" else [LowerChar(s[0])] + ToLower(s[1..])
  }

  /** strings.ToLower(strings.TrimSpace(s)), the cleaning most profile fields get. */
  function Clean(s: string): string { ToLower(TrimSpace(s)) }

  predicate Spaceless(s: string) { forall c <- s :: !IsSpace(c) }

  predicate LowerCase(s: string) { forall i :: 0 <= i < |s| ==> !('A' <= s[i] <= 'Z') }

  lemma TrimOfSpaceless(s: string)
    requires Spaceless(s)
    ensures TrimSpace(s) == s
  {
  }

  lemma {:induction false} LowerOfLower(s: string)
    requires LowerCase(s)
    ensures ToLower(s) == s
  {
    if s != "" {
      LowerOfLower(s[1..]);
      assert [s[0]] + s[1..] == s;
    }
  }

  lemma CleanOfClean(s: string)
    requires Spaceless(s) && LowerCase(s)
    ensures Clean(s) == s
  {
    TrimOfSpaceless(s);
    LowerOfLower(s);
  }

  predicate AllSpace(s: string) { forall i :: 0 <= i < |s| ==> IsSpace(s[i]) }

  lemma {:induction false} LeftSpaceGoes(pad: string, s: string)
    requires AllSpace(pad) && (s == "" || !IsSpace(s[0]))
    ensures TrimLeft(pad + s) == s
  {
    if pad == "" { assert pad + s == s; } else { LeftSpaceGoes(pad[1..], s); assert (pad + s)[1..] == pad[1..] + s; }
  }

  lemma {:induction false} RightSpaceGoes(s: string, pad: string)
    requires AllSpace(pad) && (s == "" || !IsSpace(s[|s| - 1]))
    ensures TrimRight(s + pad) == s
  {
    if pad == "" {
      assert s + pad == s;
    } else {
      RightSpaceGoes(s, pad[..|pad| - 1]);
      assert (s + pad)[..|s + pad| - 1] == s + pad[..|pad| - 1];
    }
  }

  /** Trimming cuts off the white space on both sides and nothing else. */
  lemma TrimCuts(left: string, s: string, right: string)
    requires AllSpace(left) && AllSpace(right) && (s != "" ==> !IsSpace(s[0]) && !IsSpace(s[|s| - 1]))
    ensures TrimSpace(left + s + right) == s
  {
    if s == "" {
      LeftSpaceGoes(left + right, "");
      assert left + s + right == left + right + "";
    } else {
      LeftSpaceGoes(left, s + right);
      RightSpaceGoes(s, right);
      assert left + s + right == left + (s + right);
    }
  }

  lemma {:induction false} LowerEach(s: string)
    ensures |ToLower(s)| == |s|
    ensures forall i :: 0 <= i < |s| ==> ToLower(s)[i] == if 'A' <= s[i] <= 'Z' then s[i] - 'A' + 'a' else s[i]
  {
    if s != "" {
      LowerEach(s[1..]);
      assert forall i :: 0 < i < |s| ==> s[i] == s[1..][i - 1];
    }
  }

  /** A cleaned text is the text inside its white space, its capital letters made small and every other character kept. */
  lemma CleanIs(left: string, s: string, right: string)
    requires AllSpace(left) && AllSpace(right) && (s != "" ==> !IsSpace(s[0]) && !IsSpace(s[|s| - 1]))
    ensures var c := Clean(left + s + right);
      |c| == |s| && forall i :: 0 <= i < |s| ==> c[i] == if 'A' <= s[i] <= 'Z' then s[i] - 'A' + 'a' else s[i]
  {
    TrimCuts(left, s, right);
    LowerEach(s);
    hide TrimSpace, ToLower;
  }

  /** strings.Fields: the maximal runs without white space. */
  function Fields(s: string): seq<string> {
    if s == "" then []
    else if IsSpace(s[0]) then Fields(s[1..])
    else
      var rest := Fields(s[1..]);
      if |s| > 1 && !IsSpace(s[1]) && rest != [] then [[s[0]] + rest[0]] + rest[1..]
      else [[s[0]]] + rest
  }

  lemma {:induction false} FieldsOfWord(w: string, tail: string)
    requires w != "" && Spaceless(w)
    requires tail == "" || IsSpace(tail[0])
    ensures Fields(w + tail) == [w] + Fields(tail)
  {
    var s := w + tail;
    assert s[1..] == w[1..] + tail;
    if |w| == 1 {
      assert w[1..] + tail == tail;
      assert [s[0]] == w;
    } else {
      FieldsOfWord(w[1..], tail);
      assert ([w[1..]] + Fields(tail))[1..] == Fields(tail);
      assert [w[0]] + w[1..] == w;
    }
  }

  predicate IsWord(w: string) { w != "" && Spaceless(w) }

  /** Fields undoes joining words with single spaces. */
  lemma {:induction false} FieldsOfJoin(words: seq<string>)
    requires forall w <- words :: IsWord(w)
    ensures Fields(Join(words, " ")) == words
  {
    if words != [] {
      FieldsOfJoin(words[1..]);
      assert words[0] in words;
      if |words| == 1 {
        FieldsOfWord(words[0], "");
        assert words[0] + "" == words[0];
      } else {
        var tail := " " + Join(words[1..], " ");
        FieldsOfWord(words[0], tail);
        assert words[0] + " " + Join(words[1..], " ") == words[0] + tail;
        assert tail[1..] == Join(words[1..], " ");
      }
    }
  }

  // -------------------------------------------------------------------------- numbers

  function Digit(d: nat): char
    requires d < 10
  {
    '0' + (d as char)
  }

  predicate IsDigit(c: char) { '0' <= c <= '9' }

  /** strconv.Itoa. */
  function Itoa(n: int): (s: string)
    ensures s != "" && forall c <- s :: IsDigit(c) || c == '-'
    decreases n < 0, if n < 0 then -n else n
  {
    if n < 0 then "-" + Itoa(-n)
    else if n < 10 then [Digit(n)]
    else Itoa(n / 10) + [Digit(n % 10)]
  }

  lemma {:induction false} ItoaOfNat(n: nat)
    ensures forall c <- Itoa(n) :: IsDigit(c)
  {
    if n >= 10 { ItoaOfNat(n / 10); }
  }

  lemma {:induction false} ItoaInjective(m: nat, n: nat)
    requires Itoa(m) == Itoa(n)
    ensures m == n
  {
    var a, b := Itoa(m), Itoa(n);
    assert a[|a| - 1] == b[|b| - 1];
    if m < 10 && n < 10 {
    } else if m >= 10 && n >= 10 {
      assert a[..|a| - 1] == Itoa(m / 10) && b[..|b| - 1] == Itoa(n / 10);
      ItoaInjective(m / 10, n / 10);
    }
  }

  // ---------------------------------------------------------------------------- lines

  function ReplaceCrLf(s: string): string {
    if s == "" then ""
    else if s[0] == '\r' && |s| > 1 && s[1] == '\n' then "\n" + ReplaceCrLf(s[2..])
    else [s[0]] + ReplaceCrLf(s[1..])
  }

  function ReplaceCr(s: string): string {
    if s == "" then "" else [if s[0] == '\r' then '\n' else s[0]] + ReplaceCr(s[1..])
  }

  function UnixText(s: string): string {
    ReplaceCr(ReplaceCrLf(s))
  }

  /** The lines of a text whatever its line ends; a last newline ends a line and does not open one. */
  function SplitLines(text: string): seq<string> {
    var t := UnixText(text);
    if t == "" then []
    else
      var lines := Split(t, '\n');
      if lines[|lines| - 1] == "" then lines[..|lines| - 1] else lines
  }

  function Terminated(t: string): string {
    if t == "" || t[|t| - 1] == '\n' then t else t + "\n"
  }

  function Unlines(lines: seq<string>): string {
    if lines == [] then "" else lines[0] + "\n" + Unlines(lines[1..])
  }

  lemma {:induction false} UnlinesOfParts(parts: seq<string>)
    requires parts != []
    ensures Unlines(parts) == Join(parts, "\n") + "\n"
  {
    if |parts| == 1 {
      assert parts[1..] == [];
    } else {
      UnlinesOfParts(parts[1..]);
      assert parts[0] + "\n" + (Join(parts[1..], "\n") + "\n") == parts[0] + "\n" + Join(parts[1..], "\n") + "\n";
    }
  }

  lemma {:induction false} UnlinesSnoc(lines: seq<string>, last: string)
    ensures Unlines(lines + [last]) == Unlines(lines) + last + "\n"
  {
    if lines == [] {
      assert lines + [last] == [last] && [last][1..] == [];
    } else {
      assert (lines + [last])[1..] == lines[1..] + [last];
      UnlinesSnoc(lines[1..], last);
    }
  }

  lemma {:induction false} LastPart(t: string)
    ensures var p := Split(t, '\n'); p[|p| - 1] == "" <==> (t == "" || t[|t| - 1] == '\n')
  {
    if t != "" {
      LastPart(t[1..]);
      var rest := Split(t[1..], '\n');
      var p := Split(t, '\n');
      if |rest| > 1 { assert p[|p| - 1] == rest[|rest| - 1]; }
    }
  }

  /** Ending every line again gives the text back, up to its line ends and a missing last newline. */
  lemma UnlinesOfSplitLines(text: string)
    ensures Unlines(SplitLines(text)) == Terminated(UnixText(text))
  {
    var t := UnixText(text);
    if t != "" {
      var parts := Split(t, '\n');
      JoinSplit(t, '\n');
      UnlinesOfParts(parts);
      LastPart(t);
      if parts[|parts| - 1] == "" {
        assert parts == parts[..|parts| - 1] + [""];
        UnlinesSnoc(parts[..|parts| - 1], "");
        assert Unlines(SplitLines(text)) + "\n" == t + "\n";
        assert (Unlines(SplitLines(text)) + "\n")[..|t|] == (t + "\n")[..|t|];
      }
    }
  }

  lemma {:induction false} NoCrLeft(s: string)
    ensures '\r' !in ReplaceCr(s)
  {
    if s != "" { NoCrLeft(s[1..]); }
  }

  /** Two texts have the same lines exactly when they agree up to line ends and a missing last newline. */
  lemma SameLinesIff(x: string, y: string)
    ensures SplitLines(x) == SplitLines(y) <==> Terminated(UnixText(x)) == Terminated(UnixText(y))
  {
    UnlinesOfSplitLines(x);
    UnlinesOfSplitLines(y);
    if Terminated(UnixText(x)) == Terminated(UnixText(y)) {
      LinesOfTerminated(UnixText(x));
      LinesOfTerminated(UnixText(y));
    }
  }

  function LinesOf(t: string): seq<string> {
    if t == "" then []
    else
      var lines := Split(t, '\n');
      if lines[|lines| - 1] == "" then lines[..|lines| - 1] else lines
  }

  lemma {:induction false} SplitSnocNewline(t: string)
    ensures Split(t + "\n", '\n') == Split(t, '\n') + [""]
  {
    if t == "" {
      assert t + "\n" == "\n" && "\n"[1..] == "";
    } else {
      assert (t + "\n")[1..] == t[1..] + "\n";
      SplitSnocNewline(t[1..]);
    }
  }

  lemma LinesOfTerminated(t: string)
    ensures LinesOf(Terminated(t)) == LinesOf(t)
  {
    hide Split;
    LastPart(t);
    if t != "" && t[|t| - 1] != '\n' {
      var p := Split(t, '\n');
      SplitSnocNewline(t);
      assert Terminated(t) == t + "\n" && (p + [""])[..|p|] == p;
    }
  }

  lemma UnlinesIsJoin(lines: seq<string>)
    ensures Unlines(lines) == Join(lines + [""], "\n")
  {
    if lines != [] {
      UnlinesIsJoin(lines[1..]);
      assert (lines + [""])[1..] == lines[1..] + [""];
    }
  }

  /** Lines without line ends are read back from their text. */
  lemma UnlinesInjective(a: seq<string>, b: seq<string>)
    requires (forall l <- a :: '\n' !in l) && (forall l <- b :: '\n' !in l)
    requires Unlines(a) == Unlines(b)
    ensures a == b
  {
    UnlinesIsJoin(a);
    UnlinesIsJoin(b);
    SplitJoin(a + [""], '\n');
    SplitJoin(b + [""], '\n');
    assert a == (a + [""])[..|a + [""]| - 1];
    assert b == (b + [""])[..|b + [""]| - 1];
  }
}
