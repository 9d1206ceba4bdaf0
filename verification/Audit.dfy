// Audit rules: parsing option tokens, printing a rule, and when printing and parsing undo each other.
module Audit {
  import opened Wrappers
  import opened Text
  import opened Sorting

  datatype Rule = Rule(watch: string, perms: string, list: string, syscalls: seq<string>, fields: seq<string>, key: string)

  const BLANK: Rule := Rule("", "", "", [], [], "")

  datatype RuleError = NeedsValue(option: string) | BadList(text: string) | Unsupported(token: string) | NoKind

  // ------------------------------------------------------------------- single values

  function TrimSlashes(s: string): string {
    if s != "" && s[|s| - 1] == '/' then TrimSlashes(s[..|s| - 1]) else s
  }

  function NormalizeWatchPath(watch: string): string {
    if TrimSlashes(watch) != "" then TrimSlashes(watch) else watch
  }

  lemma {:induction false} TrimSlashesStays(s: string)
    ensures TrimSlashes(TrimSlashes(s)) == TrimSlashes(s) && TrimSlashes(s) <= s
  {
    if s != "" && s[|s| - 1] == '/' { TrimSlashesStays(s[..|s| - 1]); }
  }

  /** A normalised watch path stays as it is. */
  lemma WatchPathStays(s: string)
    ensures NormalizeWatchPath(NormalizeWatchPath(s)) == NormalizeWatchPath(s)
    ensures s != "" ==> NormalizeWatchPath(s) != ""
    ensures NormalizeWatchPath(s) <= s
  {
    TrimSlashesStays(s);
    hide TrimSlashes;
  }

  lemma {:induction false} SlashesTrimmed(s: string, slashes: string)
    requires s == "" || s[|s| - 1] != '/'
    requires forall c <- slashes :: c == '/'
    ensures TrimSlashes(s + slashes) == s
  {
    if slashes == "" {
      assert s + slashes == s;
    } else {
      var init, last := slashes[..|slashes| - 1], slashes[|slashes| - 1];
      assert slashes == init + [last] && last in slashes && forall c <- init :: c in slashes;
      SlashesTrimmed(s, init);
      assert (s + slashes)[..|s + slashes| - 1] == s + init;
    }
  }

  /** Slashes at the end of a path do not count, but a path of slashes stays. */
  lemma TrailingSlashes(s: string, slashes: string)
    requires (s == "" || s[|s| - 1] != '/') && forall c <- slashes :: c == '/'
    ensures NormalizeWatchPath(s + slashes) == if s == "" then slashes else s
  {
    SlashesTrimmed(s, slashes);
    assert s == "" ==> s + slashes == slashes;
    hide TrimSlashes;
  }

  function SortedLetters(s: string): string { Sort(CharLe, TrimSpace(s)) }

  /** Permissions are the same exactly when they have the same letters as often. */
  lemma SameLettersIff(a: string, b: string)
    requires Spaceless(a) && Spaceless(b)
    ensures SortedLetters(a) == SortedLetters(b) <==> multiset(a) == multiset(b)
  {
    TrimOfSpaceless(a);
    TrimOfSpaceless(b);
    OrdersAreTotal();
    SortSorts(CharLe, a);
    SortSorts(CharLe, b);
    hide Sort, CharLe, TrimSpace;
    if multiset(a) == multiset(b) { SortIsStable(CharLe, a, b); }
  }

  lemma SortedLettersStay(s: string)
    requires Spaceless(s)
    ensures SortedLetters(SortedLetters(s)) == SortedLetters(s) && Spaceless(SortedLetters(s))
    ensures s != "" ==> SortedLetters(s) != ""
  {
    TrimOfSpaceless(s);
    OrdersAreTotal();
    SortSorts(CharLe, s);
    SameElements(CharLe, s);
    var t := Sort(CharLe, s);
    assert |multiset(t)| == |t| && |multiset(s)| == |s|;
    assert Spaceless(t);
    TrimOfSpaceless(t);
    SortOfSorted(CharLe, t);
  }

  const ACTIONS: set<string> := {"always", "never"}
  const LISTS: set<string> := {"task", "exit", "user", "exclude", "filesystem"}

  /** Either order of list and action; exactly one comma. */
  function NormalizeRuleList(value: string): Result<string, RuleError> {
    var parts := Split(value, ',');
    if |parts| != 2 then Err(BadList(value))
    else if (parts[0] in ACTIONS) == (parts[1] in ACTIONS) then Err(BadList(value))
    else
      var action := if parts[1] in ACTIONS then parts[1] else parts[0];
      var list := if parts[1] in ACTIONS then parts[0] else parts[1];
      if list in LISTS then Ok(action + "," + list) else Err(BadList(value))
  }

  lemma ListsAreNoActions(list: string)
    requires list in LISTS
    ensures list !in ACTIONS && ',' !in list && Spaceless(list) && list != ""
  {
  }

  lemma ActionsArePlain(action: string)
    requires action in ACTIONS
    ensures ',' !in action && Spaceless(action) && action != ""
  {
  }

  /** The normalised form is accepted and stays as it is. */
  lemma RuleListStays(value: string)
    requires NormalizeRuleList(value).Ok?
    ensures NormalizeRuleList(NormalizeRuleList(value).value) == NormalizeRuleList(value)
    ensures IsWord(NormalizeRuleList(value).value)
  {
    var parts := Split(value, ',');
    var action := if parts[1] in ACTIONS then parts[1] else parts[0];
    var list := if parts[1] in ACTIONS then parts[0] else parts[1];
    ListsAreNoActions(list);
    ActionsArePlain(action);
    var pair := [action, list];
    assert pair[1..] == [list];
    SplitJoin(pair, ',');
    assert Join(pair, ",") == action + "," + list;
  }

  const ID_FIELDS: set<string> :=
    {"auid", "uid", "euid", "suid", "fsuid", "gid", "egid", "sgid", "fsgid", "obj_uid", "obj_gid"}

  const FIELD_OPS: seq<string> := ["!=", ">=", "<=", "&=", "=", ">", "<", "&"]

  const UNSET: string := "unset"

  /** Where the text first occurs, or -1. */
  function IndexOf(s: string, t: string): (i: int)
    ensures i >= 0 ==> i + |t| <= |s| && s[i..i + |t|] == t
    ensures -1 <= i
  {
    if |s| < |t| then -1
    else if s[..|t|] == t then 0
    else if s == "" then -1
    else
      var i := IndexOf(s[1..], t);
      if i < 0 then -1 else i + 1
  }

  function NormalizeValue(v: string): string { if v in {"4294967295", "-1", "unset"} then UNSET else v }

  /** The first operator found past the start decides. */
  function NormalizeBy(field: string, ops: seq<string>): string {
    if ops == [] then field
    else
      var i := IndexOf(field, ops[0]);
      if i <= 0 then NormalizeBy(field, ops[1..])
      else if field[..i] !in ID_FIELDS then field
      else field[..i] + ops[0] + NormalizeValue(field[i + |ops[0]|..])
  }

  function NormalizedField(field: string): string { NormalizeBy(field, FIELD_OPS) }

  method NormalizeField(field: string, ops: seq<string>) returns (r: string)
    ensures r == NormalizeBy(field, ops)
  {
    hide IndexOf, ID_FIELDS, NormalizeBy, NormalizeValue;
    assert ops[0..] == ops;
    for k := 0 to |ops|
      invariant NormalizeBy(field, ops) == NormalizeBy(field, ops[k..])
    {
      NormalizeFrom(field, ops, k);
      var op := ops[k];
      var i := IndexOf(field, op);
      if i <= 0 { continue; }
      var name, value := field[..i], field[i + |op|..];
      if name !in ID_FIELDS { return field; }
      return name + op + NormalizeValue(value);
    }
    NoOpsLeft(field, ops);
    return field;
  }

  lemma NormalizeFrom(field: string, ops: seq<string>, k: nat)
    requires k < |ops|
    ensures var i := IndexOf(field, ops[k]);
      NormalizeBy(field, ops[k..]) ==
      if i <= 0 then NormalizeBy(field, ops[k + 1..])
      else if field[..i] !in ID_FIELDS then field
      else field[..i] + ops[k] + NormalizeValue(field[i + |ops[k]|..])
  {
    hide IndexOf, ID_FIELDS, NormalizeValue;
    assert ops[k..][1..] == ops[k + 1..] && ops[k..][0] == ops[k];
  }

  lemma NoOpsLeft(field: string, ops: seq<string>)
    ensures NormalizeBy(field, ops[|ops|..]) == field
  {
  }

  /** No operator begins inside such a text. */
  predicate NameLike(s: string) { forall i :: 0 <= i < |s| ==> s[i] !in {'!', '>', '<', '&', '='} }

  lemma IdFieldsAreNames(name: string)
    requires name in ID_FIELDS
    ensures NameLike(name) && name != ""
  {
  }

  predicate OpLike(op: string) { op != "" && forall i :: 0 <= i < |op| ==> op[i] in {'!', '>', '<', '&', '='} }

  lemma {:induction false} IndexPastName(name: string, op: string, rest: string)
    requires NameLike(name) && OpLike(op)
    ensures var i := IndexOf(rest, op); IndexOf(name + rest, op) == if i < 0 then -1 else |name| + i
  {
    var s := name + rest;
    if name == "" {
      assert s == rest;
    } else {
      assert s[1..] == name[1..] + rest;
      assert s[0] == name[0];
      IndexPastName(name[1..], op, rest);
      if |s| >= |op| { assert s[..|op|][0] == s[0] && op[0] != s[0]; } else { IndexNeedsRoom(rest, op); }
    }
  }

  lemma IndexNeedsRoom(s: string, op: string)
    requires |s| < |op|
    ensures IndexOf(s, op) == -1
  {
  }

  lemma {:induction false} NoOpInName(name: string, op: string)
    requires NameLike(name) && OpLike(op)
    ensures IndexOf(name, op) == -1
  {
    IndexPastName(name, op, "");
    assert name + "" == name;
    IndexNeedsRoom("", op);
  }

  lemma AfterOneChar(c: char, o: string, v: string)
    requires OpLike(o) && |o| <= 2 && (|o| == 1 ==> o[0] != c) && NameLike(v)
    ensures IndexOf([c] + v, o) == -1
  {
    hide IndexOf;
    NoOpInName(v, o);
    var s := [c] + v;
    assert |o| == 2 && v != "" ==> s[..2][1] == v[0] && o[1] != v[0];
    assert |o| == 1 ==> s[..1][0] == c;
    NotAtHead(c, v, o);
  }

  lemma NotAtHead(c: char, v: string, o: string)
    requires IndexOf(v, o) == -1 && o != "" && (|o| <= |v| + 1 ==> ([c] + v)[..|o|] != o)
    ensures IndexOf([c] + v, o) == -1
  {
    assert ([c] + v)[1..] == v;
  }

  lemma AfterTwoChars(a: char, b: char, o: string, v: string)
    requires OpLike(o) && |o| <= 2 && o != [a, b] && (|o| == 1 ==> o[0] != a && o[0] != b) && NameLike(v)
    ensures IndexOf([a, b] + v, o) == -1
  {
    hide IndexOf;
    AfterOneChar(b, o, v);
    var s := [a, b] + v;
    assert s == [a] + ([b] + v);
    assert |o| == 2 ==> s[..2] == [a, b];
    assert |o| == 1 ==> s[..1][0] == a;
    NotAtHead(a, [b] + v, o);
  }

  /** An operator earlier in the list does not occur in a later one followed by a value without operators. */
  lemma OpsDoNotNest(j: nat, k: nat, v: string)
    requires j < k < |FIELD_OPS| && NameLike(v)
    ensures OpLike(FIELD_OPS[j]) && IndexOf(FIELD_OPS[k] + v, FIELD_OPS[j]) == -1
  {
    var o, op := FIELD_OPS[j], FIELD_OPS[k];
    if k < 4 {
      assert op == [op[0], '='] && |o| == 2 && o[1] == '=' && o[0] != op[0];
      AfterTwoChars(op[0], op[1], o, v);
    } else {
      assert op == [op[0]];
      assert |o| == 1 ==> o[0] != op[0];
      AfterOneChar(op[0], o, v);
    }
  }

  lemma OpsAreOps(k: nat)
    requires k < |FIELD_OPS|
    ensures OpLike(FIELD_OPS[k])
  {
  }

  /** Reading `name op value` from the j-th operator on finds the k-th one, if neither side holds an operator. */
  lemma {:induction false} FieldReads(name: string, j: nat, k: nat, v: string)
    requires NameLike(name) && name != "" && NameLike(v) && j <= k < |FIELD_OPS|
    ensures NormalizeBy(name + FIELD_OPS[k] + v, FIELD_OPS[j..]) ==
            name + FIELD_OPS[k] + if name in ID_FIELDS then NormalizeValue(v) else v
    decreases k - j
  {
    var op := FIELD_OPS[k];
    var field := name + op + v;
    assert field == name + (op + v);
    OpsAreOps(j);
    IndexPastName(name, FIELD_OPS[j], op + v);
    hide ID_FIELDS, IndexOf, NameLike, OpLike, NormalizeValue;
    assert FIELD_OPS[j..][0] == FIELD_OPS[j] && FIELD_OPS[j..][1..] == FIELD_OPS[j + 1..];
    if j < k {
      OpsDoNotNest(j, k, v);
      FieldReads(name, j + 1, k, v);
    } else {
      StartsHere(op, v);
      assert field[..|name|] == name && field[|name| + |op|..] == v;
    }
  }

  /** A comparison without further operators stays, but for an id field, where the two numbers for no user read as `unset`. */
  lemma ComparisonReads(name: string, op: string, v: string)
    requires NameLike(name) && name != "" && NameLike(v) && op in FIELD_OPS
    ensures NormalizedField(name + op + v) ==
            if v in {"-1", "4294967295"}
               && name in {"auid", "uid", "euid", "suid", "fsuid", "gid", "egid", "sgid", "fsgid", "obj_uid", "obj_gid"}
            then name + op + "unset" else name + op + v
  {
    var k :| 0 <= k < |FIELD_OPS| && FIELD_OPS[k] == op;
    FieldReads(name, 0, k, v);
    assert FIELD_OPS[0..] == FIELD_OPS;
    hide ID_FIELDS, NormalizeBy, FIELD_OPS, NameLike;
  }

  lemma UnsetIsPlain()
    ensures NameLike(UNSET)
  {
  }

  lemma StartsHere(op: string, rest: string)
    ensures IndexOf(op + rest, op) == 0
  {
    assert (op + rest)[..|op|] == op;
  }

  /** The text is an id field, an operator from `j` on and the unset value. */
  ghost predicate UnsetFrom(r: string, j: nat) {
    exists name: string, k: nat :: name in ID_FIELDS && j <= k < |FIELD_OPS| && r == name + FIELD_OPS[k] + UNSET
  }

  lemma FirstOpDecides(field: string, j: nat)
    requires j < |FIELD_OPS|
    ensures var i := IndexOf(field, FIELD_OPS[j]);
      NormalizeBy(field, FIELD_OPS[j..]) ==
      if i <= 0 then NormalizeBy(field, FIELD_OPS[j + 1..])
      else if field[..i] !in ID_FIELDS then field
      else field[..i] + FIELD_OPS[j] + NormalizeValue(field[i + |FIELD_OPS[j]|..])
  {
    hide ID_FIELDS, FIELD_OPS, IndexOf, NormalizeValue;
    assert FIELD_OPS[j..][0] == FIELD_OPS[j] && FIELD_OPS[j..][1..] == FIELD_OPS[j + 1..];
  }

  lemma {:induction false} NormalizedByStays(field: string, j: nat)
    requires j <= |FIELD_OPS|
    ensures var r := NormalizeBy(field, FIELD_OPS[j..]); r == field || UnsetFrom(r, j)
    decreases |FIELD_OPS| - j
  {
    hide ID_FIELDS, FIELD_OPS, IndexOf, NormalizeBy, NormalizeValue, UnsetFrom;
    if j == |FIELD_OPS| {
      NoOpAtEnd(field);
    } else {
      FirstOpDecides(field, j);
      var op := FIELD_OPS[j];
      var i := IndexOf(field, op);
      if i <= 0 {
        NormalizedByStays(field, j + 1);
        if UnsetFrom(NormalizeBy(field, FIELD_OPS[j..]), j + 1) { UnsetEarlier(NormalizeBy(field, FIELD_OPS[j..]), j); }
      } else if field[..i] in ID_FIELDS {
        ValueDecides(field[..i], op, field[i + |op|..]);
        UnsetHere(field[..i], j);
        assert field == field[..i] + op + field[i + |op|..];
      }
    }
  }

  lemma NoOpAtEnd(field: string)
    ensures NormalizeBy(field, FIELD_OPS[|FIELD_OPS|..]) == field
  {
  }

  lemma UnsetEarlier(r: string, j: nat)
    requires UnsetFrom(r, j + 1)
    ensures UnsetFrom(r, j)
  {
    hide ID_FIELDS, FIELD_OPS;
  }

  lemma UnsetHere(name: string, j: nat)
    requires name in ID_FIELDS && j < |FIELD_OPS|
    ensures UnsetFrom(name + FIELD_OPS[j] + UNSET, j)
  {
    hide ID_FIELDS, FIELD_OPS;
  }

  lemma ValueDecides(name: string, op: string, v: string)
    ensures name + op + NormalizeValue(v) == name + op + v || name + op + NormalizeValue(v) == name + op + UNSET
  {
  }

  /** A normalised comparison stays as it is. */
  lemma FieldStays(field: string)
    ensures NormalizedField(NormalizedField(field)) == NormalizedField(field)
  {
    NormalizedByStays(field, 0);
    assert FIELD_OPS[0..] == FIELD_OPS;
    var r := NormalizedField(field);
    hide ID_FIELDS, NormalizeBy, IndexOf;
    if r != field {
      var name: string, k: nat :| name in ID_FIELDS && k < |FIELD_OPS| && r == name + FIELD_OPS[k] + UNSET;
      IdFieldsAreNames(name);
      UnsetIsPlain();
      FieldReads(name, 0, k, UNSET);
      assert FIELD_OPS[0..] == FIELD_OPS && NormalizeValue(UNSET) == UNSET;
    }
  }

  const KEY_PREFIX: string := "key="

  /** A normalised comparison is a word, and names the key only if it did before. */
  lemma NormalizedIsWord(field: string, j: nat)
    requires IsWord(field) && j <= |FIELD_OPS|
    ensures IsWord(NormalizeBy(field, FIELD_OPS[j..]))
    ensures !(KEY_PREFIX <= field) ==> !(KEY_PREFIX <= NormalizeBy(field, FIELD_OPS[j..]))
  {
    NormalizedByStays(field, j);
    var r := NormalizeBy(field, FIELD_OPS[j..]);
    hide NormalizeBy, ID_FIELDS, IsWord, FIELD_OPS;
    if r != field {
      var name: string, k: nat :| name in ID_FIELDS && k < |FIELD_OPS| && r == name + FIELD_OPS[k] + UNSET;
      UnsetIsWord(name, k);
    }
  }

  lemma UnsetIsWord(name: string, k: nat)
    requires name in ID_FIELDS && k < |FIELD_OPS|
    ensures IsWord(name + FIELD_OPS[k] + UNSET) && !(KEY_PREFIX <= name + FIELD_OPS[k] + UNSET)
  {
    OpsAreOps(k);
    var op := FIELD_OPS[k];
    hide ID_FIELDS, IsWord, FIELD_OPS, OpLike;
    IdFieldIsNotKey(name, op + UNSET);
    WordOfParts(name, op);
    assert name + op + UNSET == name + (op + UNSET);
  }

  lemma WordOfParts(name: string, op: string)
    requires name in ID_FIELDS && OpLike(op)
    ensures IsWord(name + op + UNSET)
  {
    IdFieldsAreNames(name);
    hide ID_FIELDS;
    var r := name + op + UNSET;
    forall c <- r ensures !IsSpace(c) {
      var i :| 0 <= i < |r| && r[i] == c;
      assert i < |name| ==> c == name[i];
      assert |name| <= i < |name| + |op| ==> c == op[i - |name|];
      assert i >= |name| + |op| ==> c == UNSET[i - |name| - |op|];
    }
  }

  lemma IdFieldIsNotKey(name: string, rest: string)
    requires name in ID_FIELDS
    ensures !(KEY_PREFIX <= name + rest)
  {
    assert name[0] != 'k' && KEY_PREFIX[0] == 'k';
    assert (name + rest)[0] == name[0];
  }
}
