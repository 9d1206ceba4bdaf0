// Run names: fixed-width UTC timestamps, so the greatest file name is the latest run.
module RunNames {
  import opened Text
  import opened Sorting

  // ------------------------------------------------------------------------ timestamps

  datatype Stamp = Stamp(year: nat, month: nat, day: nat, hour: nat, minute: nat, second: nat, nanos: nat)

  predicate InRange(t: Stamp) {
    t.year < 10000 && t.month < 100 && t.day < 100 && t.hour < 100 && t.minute < 100 && t.second < 100 && t.nanos < 1000000000
  }

  /** Order in time. */
  predicate Before(a: Stamp, b: Stamp) {
    a.year < b.year || (a.year == b.year && (
    a.month < b.month || (a.month == b.month && (
    a.day < b.day || (a.day == b.day && (
    a.hour < b.hour || (a.hour == b.hour && (
    a.minute < b.minute || (a.minute == b.minute && (
    a.second < b.second || (a.second == b.second && a.nanos <= b.nanos)))))))))))
  }

  function Pow10(w: nat): nat { if w == 0 then 1 else 10 * Pow10(w - 1) }

  /** The number in exactly `w` digits. */
  function Pad(n: nat, w: nat): (s: string)
    ensures |s| == w && forall c <- s :: IsDigit(c)
  {
    if w == 0 then "" else Pad(n / 10, w - 1) + [Digit(n % 10)]
  }

  function SecondText(t: Stamp): string { Pad(t.second, 2) + "." + Pad(t.nanos, 9) + "Z" }

  function TimeText(t: Stamp): string { Pad(t.hour, 2) + (Pad(t.minute, 2) + SecondText(t)) }

  function DateText(t: Stamp): string { Pad(t.month, 2) + (Pad(t.day, 2) + ("T" + TimeText(t))) }

  function RunId(t: Stamp): string { Pad(t.year, 4) + DateText(t) }

  lemma {:induction false} ConcatOrder(p: string, q: string, x: string, y: string)
    requires |p| == |q|
    ensures StringLe(p + x, q + y) <==> (p != q && StringLe(p, q)) || (p == q && StringLe(x, y))
  {
    if p == "" {
      assert p + x == x && q + y == y;
    } else {
      assert (p + x)[1..] == p[1..] + x && (q + y)[1..] == q[1..] + y;
      assert p == [p[0]] + p[1..] && q == [q[0]] + q[1..];
      ConcatOrder(p[1..], q[1..], x, y);
      StringLeTotal(p[1..], q[1..]);
    }
  }

  lemma {:induction false} PadOrder(m: nat, n: nat, w: nat)
    requires m < Pow10(w) && n < Pow10(w)
    ensures StringLe(Pad(m, w), Pad(n, w)) <==> m <= n
    ensures Pad(m, w) == Pad(n, w) <==> m == n
  {
    if w > 0 {
      PadOrder(m / 10, n / 10, w - 1);
      var p, q := Pad(m / 10, w - 1), Pad(n / 10, w - 1);
      var x, y := [Digit(m % 10)], [Digit(n % 10)];
      ConcatOrder(p, q, x, y);
      assert StringLe(x, y) <==> m % 10 <= n % 10;
      assert p + x == q + y <==> p == q && x == y by {
        assert (p + x)[..w - 1] == p && (q + y)[..w - 1] == q && (p + x)[w - 1] == x[0] && (q + y)[w - 1] == y[0];
      }
    }
  }

  lemma FieldOrder(m: nat, n: nat, w: nat, x: string, y: string)
    requires m < Pow10(w) && n < Pow10(w)
    ensures StringLe(Pad(m, w) + x, Pad(n, w) + y) <==> m < n || (m == n && StringLe(x, y))
  {
    PadOrder(m, n, w);
    ConcatOrder(Pad(m, w), Pad(n, w), x, y);
  }

  lemma Powers()
    ensures Pow10(2) == 100 && Pow10(4) == 10000 && Pow10(9) == 1000000000
  {
    assert Pow10(5) == 100000;
    assert Pow10(7) == 10000000;
  }

  lemma SecondOrder(a: Stamp, b: Stamp)
    requires InRange(a) && InRange(b)
    ensures StringLe(SecondText(a), SecondText(b)) <==> a.second < b.second || (a.second == b.second && a.nanos <= b.nanos)
  {
    Powers();
    var x, y := Pad(a.nanos, 9) + "Z", Pad(b.nanos, 9) + "Z";
    assert SecondText(a) == Pad(a.second, 2) + ("." + x) && SecondText(b) == Pad(b.second, 2) + ("." + y);
    FieldOrder(a.second, b.second, 2, "." + x, "." + y);
    ConcatOrder(".", ".", x, y);
    FieldOrder(a.nanos, b.nanos, 9, "Z", "Z");
    assert StringLe("Z", "Z");
  }

  lemma TimeOrder(a: Stamp, b: Stamp)
    requires InRange(a) && InRange(b)
    ensures StringLe(TimeText(a), TimeText(b)) <==>
      a.hour < b.hour || (a.hour == b.hour && (
      a.minute < b.minute || (a.minute == b.minute && (
      a.second < b.second || (a.second == b.second && a.nanos <= b.nanos)))))
  {
    Powers();
    SecondOrder(a, b);
    hide SecondText, StringLe, Pow10;
    FieldOrder(a.hour, b.hour, 2, Pad(a.minute, 2) + SecondText(a), Pad(b.minute, 2) + SecondText(b));
    FieldOrder(a.minute, b.minute, 2, SecondText(a), SecondText(b));
  }

  /** Comparing run names compares the times they name. */
  lemma NameOrderIsTimeOrder(a: Stamp, b: Stamp)
    requires InRange(a) && InRange(b)
    ensures StringLe(RunId(a), RunId(b)) <==> Before(a, b)
  {
    Powers();
    TimeOrder(a, b);
    ConcatOrder("T", "T", TimeText(a), TimeText(b));
    hide TimeText, StringLe, Pow10;
    FieldOrder(a.year, b.year, 4, DateText(a), DateText(b));
    FieldOrder(a.month, b.month, 2, Pad(a.day, 2) + ("T" + TimeText(a)), Pad(b.day, 2) + ("T" + TimeText(b)));
    FieldOrder(a.day, b.day, 2, "T" + TimeText(a), "T" + TimeText(b));
  }

  // --------------------------------------------------------------------- file listings

  const SUFFIX: string := ".json"

  predicate IsRunId(s: string) {
    && |s| == 26 && s[8] == 'T' && s[15] == '.' && s[25] == 'Z'
    && forall i :: 0 <= i < 26 && i != 8 && i != 15 && i != 25 ==> IsDigit(s[i])
  }

  lemma RunIdIsOne(t: Stamp)
    ensures IsRunId(RunId(t))
  {
    var s := RunId(t);
    assert |s| == 26;
    assert forall i :: 0 <= i < 4 ==> s[i] == Pad(t.year, 4)[i] && s[i] in Pad(t.year, 4);
    assert forall i :: 4 <= i < 6 ==> s[i] == Pad(t.month, 2)[i - 4] && s[i] in Pad(t.month, 2);
    assert forall i :: 6 <= i < 8 ==> s[i] == Pad(t.day, 2)[i - 6] && s[i] in Pad(t.day, 2);
    assert forall i :: 9 <= i < 11 ==> s[i] == Pad(t.hour, 2)[i - 9] && s[i] in Pad(t.hour, 2);
    assert forall i :: 11 <= i < 13 ==> s[i] == Pad(t.minute, 2)[i - 11] && s[i] in Pad(t.minute, 2);
    assert forall i :: 13 <= i < 15 ==> s[i] == Pad(t.second, 2)[i - 13] && s[i] in Pad(t.second, 2);
    assert forall i :: 16 <= i < 25 ==> s[i] == Pad(t.nanos, 9)[i - 16] && s[i] in Pad(t.nanos, 9);
  }

  function FileName(id: string): string { id + SUFFIX }

  predicate IsJournalFile(name: string) { |name| == 31 && IsRunId(name[..26]) && name[26..] == SUFFIX }

  lemma FileNames(id: string)
    requires IsRunId(id)
    ensures IsJournalFile(FileName(id)) && FileName(id)[..26] == id
  {
  }

  lemma FileNameSpaceless(id: string)
    requires IsRunId(id)
    ensures TrimSpace(FileName(id)) == FileName(id)
  {
    var name := FileName(id);
    forall c <- name ensures !IsSpace(c) {
      var i :| 0 <= i < |name| && name[i] == c;
      assert i < 26 ==> name[i] == id[i];
      assert i >= 26 ==> name[i] == SUFFIX[i - 26];
    }
    TrimOfSpaceless(name);
  }

  lemma FileOrder(a: string, b: string)
    requires IsRunId(a) && IsRunId(b)
    ensures StringLe(FileName(a), FileName(b)) <==> StringLe(a, b)
  {
    ConcatOrder(a, b, SUFFIX, SUFFIX);
    StringLeTotal(SUFFIX, SUFFIX);
    StringLeTotal(a, b);
  }

  /** Scans a listing for the greatest journal file name, ignoring every other file. */
  method LatestFile(lines: seq<string>) returns (filename: string)
    ensures filename == "" ==> forall i :: 0 <= i < |lines| ==> !IsJournalFile(TrimSpace(lines[i]))
    ensures filename != "" ==> IsJournalFile(filename) && exists i :: 0 <= i < |lines| && TrimSpace(lines[i]) == filename
    ensures forall i :: 0 <= i < |lines| && IsJournalFile(TrimSpace(lines[i])) ==> StringLe(TrimSpace(lines[i]), filename)
  {
    hide IsJournalFile, TrimSpace;
    filename := "";
    for i := 0 to |lines|
      invariant filename == "" ==> forall k :: 0 <= k < i ==> !IsJournalFile(TrimSpace(lines[k]))
      invariant filename != "" ==> IsJournalFile(filename) && exists k :: 0 <= k < i && TrimSpace(lines[k]) == filename
      invariant forall k :: 0 <= k < i && IsJournalFile(TrimSpace(lines[k])) ==> StringLe(TrimSpace(lines[k]), filename)
    {
      var name := TrimSpace(lines[i]);
      if !IsJournalFile(name) { continue; }
      JournalFileHasName(name);
      if !StringLe(name, filename) {
        KeepsGreatest(filename, name);
        filename := name;
        assert TrimSpace(lines[i]) == filename;
      }
    }
  }

  lemma JournalFileHasName(name: string)
    requires IsJournalFile(name)
    ensures !StringLe(name, "")
  {
  }

  lemma KeepsGreatest(best: string, name: string)
    requires !StringLe(name, best)
    ensures name != "" && StringLe(name, name) && forall x :: StringLe(x, best) ==> StringLe(x, name)
  {
    StringLeTotal(name, best);
    StringLeTotal(name, name);
    forall x | StringLe(x, best) ensures StringLe(x, name) { StringLeTransitive(x, best, name); }
  }
}
