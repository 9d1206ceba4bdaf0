// Whole audit rules: the option parser, the printer, the round trip and the check for missing rules.
module AuditRules {
  import opened Wrappers
  import opened Text
  import opened Sorting
  import opened Audit

  // -------------------------------------------------------------------------- parsing

  const OPTIONS: set<string> := {"-w", "-p", "-a", "-A", "-S", "-k", "-F"}

  /** What one option with its value does to the rule read so far. */
  function Step(rule: Rule, option: string, value: string): Result<Rule, RuleError> {
    if option !in OPTIONS then Err(Unsupported(option))
    else if value == "" then Err(NeedsValue(option))
    else if option == "-w" then Ok(rule.(watch := NormalizeWatchPath(value)))
    else if option == "-p" then Ok(rule.(perms := SortedLetters(value)))
    else if option == "-S" then Ok(rule.(syscalls := rule.syscalls + Split(value, ',')))
    else if option == "-k" then Ok(rule.(key := value))
    else if option == "-F" then
      (if KEY_PREFIX <= value then Ok(rule.(key := value[|KEY_PREFIX|..]))
       else Ok(rule.(fields := rule.fields + [NormalizedField(value)])))
    else
      match NormalizeRuleList(value) case Err(e) => Err(e) case Ok(list) => Ok(rule.(list := list))
  }

  /** Options come in pairs; a last one without a value is refused. */
  function ReadOptions(rule: Rule, tokens: seq<string>): Result<Rule, RuleError>
    decreases |tokens|
  {
    if tokens == [] then Ok(rule)
    else
      var value := if |tokens| > 1 then tokens[1] else "";
      match Step(rule, tokens[0], value)
      case Err(e) => Err(e)
      case Ok(next) => ReadOptions(next, if |tokens| > 1 then tokens[2..] else [])
  }

  /** The last watch, and the permissions, that the fields of a folded rule name. */
  datatype Folded = Folded(watch: string, perms: string, rest: seq<string>)

  const PATH: string := "path="
  const DIR: string := "dir="
  const PERM: string := "perm="

  function FoldFields(fields: seq<string>): Folded {
    if fields == [] then Folded("", "", [])
    else
      var f, field := FoldFields(fields[..|fields| - 1]), fields[|fields| - 1];
      if PATH <= field then f.(watch := field[|PATH|..])
      else if DIR <= field then f.(watch := field[|DIR|..])
      else if PERM <= field then f.(perms := SortedLetters(field[|PERM|..]))
      else f.(rest := f.rest + [field])
  }

  predicate MayFold(rule: Rule) { rule.watch == "" && rule.syscalls == [] && rule.list == "always,exit" }

  /** A plain exit rule over one path is the watch rule auditctl makes of it. */
  function FoldWatchFields(rule: Rule): Rule {
    if !MayFold(rule) then rule
    else
      var f := FoldFields(rule.fields);
      if f.watch == "" || f.rest != [] then rule
      else rule.(watch := NormalizeWatchPath(f.watch), perms := f.perms, list := "", fields := [])
  }

  method FoldWatch(rule: Rule) returns (r: Rule)
    ensures r == FoldWatchFields(rule)
  {
    hide SortedLetters, NormalizeWatchPath;
    if rule.watch != "" || |rule.syscalls| > 0 || rule.list != "always,exit" { return rule; }
    var f := Folded("", "", []);
    for i := 0 to |rule.fields|
      invariant f == FoldFields(rule.fields[..i])
    {
      assert rule.fields[..i + 1][..i] == rule.fields[..i];
      var field := rule.fields[i];
      if PATH <= field {
        f := f.(watch := field[|PATH|..]);
      } else if DIR <= field {
        f := f.(watch := field[|DIR|..]);
      } else if PERM <= field {
        f := f.(perms := SortedLetters(field[|PERM|..]));
      } else {
        f := f.(rest := f.rest + [field]);
      }
    }
    assert rule.fields[..|rule.fields|] == rule.fields;
    if f.watch == "" || |f.rest| > 0 { return rule; }
    return rule.(watch := NormalizeWatchPath(f.watch), perms := f.perms, list := "", fields := []);
  }

  const ALL_PERMS: string := "rwxa"

  function WithPerms(rule: Rule): Rule {
    if rule.watch != "" && rule.perms == "" then rule.(perms := SortedLetters(ALL_PERMS)) else rule
  }

  function SortedLists(rule: Rule): Rule { rule.(syscalls := Sort(StringLe, rule.syscalls), fields := Sort(StringLe, rule.fields)) }

  function Finished(rule: Rule): Result<Rule, RuleError> {
    if rule.watch == "" && rule.list == "" then Err(NoKind) else Ok(WithPerms(FoldWatchFields(SortedLists(rule))))
  }

  function Parsed(tokens: seq<string>): Result<Rule, RuleError> {
    match ReadOptions(BLANK, tokens) case Err(e) => Err(e) case Ok(rule) => Finished(rule)
  }

  method ReadOption(rule: Rule, token: string, value: string) returns (r: Result<Rule, RuleError>)
    ensures r == Step(rule, token, value)
  {
    hide NormalizeWatchPath, SortedLetters, NormalizeBy, NormalizeRuleList;
    if token == "-w" {
      if value == "" { return Err(NeedsValue(token)); }
      return Ok(rule.(watch := NormalizeWatchPath(value)));
    } else if token == "-p" {
      if value == "" { return Err(NeedsValue(token)); }
      return Ok(rule.(perms := SortedLetters(value)));
    } else if token == "-a" || token == "-A" {
      if value == "" { return Err(NeedsValue(token)); }
      var list := NormalizeRuleList(value);
      if list.Err? { return Err(list.error); }
      return Ok(rule.(list := list.value));
    } else if token == "-S" {
      if value == "" { return Err(NeedsValue(token)); }
      return Ok(rule.(syscalls := rule.syscalls + Split(value, ',')));
    } else if token == "-k" {
      if value == "" { return Err(NeedsValue(token)); }
      return Ok(rule.(key := value));
    } else if token == "-F" {
      if value == "" { return Err(NeedsValue(token)); }
      if KEY_PREFIX <= value { return Ok(rule.(key := value[|KEY_PREFIX|..])); }
      var field := NormalizeField(value, FIELD_OPS);
      return Ok(rule.(fields := rule.fields + [field]));
    }
    return Err(Unsupported(token));
  }

  method ParseRuleTokens(tokens: seq<string>) returns (r: Result<Rule, RuleError>)
    ensures r == Parsed(tokens)
  {
    hide Step, FoldWatchFields, SortedLetters, Sort;
    var rule := BLANK;
    assert tokens[0..] == tokens;
    var i := 0;
    while i < |tokens|
      invariant 0 <= i
      invariant ReadOptions(BLANK, tokens) == ReadOptions(rule, if i <= |tokens| then tokens[i..] else [])
      decreases |tokens| - i
    {
      ghost var rest := tokens[i..];
      assert |rest| > 1 ==> rest[1] == tokens[i + 1] && rest[2..] == tokens[i + 2..];
      var value := if i + 1 < |tokens| then tokens[i + 1] else "";
      var next := ReadOption(rule, tokens[i], value);
      if next.Err? { return Err(next.error); }
      rule := next.value;
      i := i + 2;
    }
    if rule.watch == "" && rule.list == "" { return Err(NoKind); }
    rule := rule.(syscalls := Sort(StringLe, rule.syscalls));
    rule := rule.(fields := Sort(StringLe, rule.fields));
    rule := FoldWatch(rule);
    if rule.watch != "" && rule.perms == "" { rule := rule.(perms := SortedLetters(ALL_PERMS)); }
    return Ok(rule);
  }

  // ------------------------------------------------------------------------- printing

  function Canonical(r: Rule): string {
    if r.watch != "" then Join(["w", r.watch, r.perms, r.key], "|")
    else Join(["a", r.list, Join(r.syscalls, ","), Join(r.fields, ","), r.key], "|")
  }

  /** The same rule: of one kind and, for watches, the same path, permissions and key, else the same list, names, comparisons and
      key. */
  predicate Agree(r: Rule, s: Rule) {
    if r.watch != "" then s.watch == r.watch && s.perms == r.perms && s.key == r.key
    else s.watch == "" && s.list == r.list && s.syscalls == r.syscalls && s.fields == r.fields && s.key == r.key
  }

  function Flags(option: string, values: seq<string>): seq<string> {
    if values == [] then [] else Flags(option, values[..|values| - 1]) + [option, values[|values| - 1]]
  }

  function KeyTokens(r: Rule): seq<string> { if r.key != "" then ["-k", r.key] else [] }

  function Tokens(r: Rule): seq<string> {
    if r.watch != "" then ["-w", r.watch] + (if r.perms != "" then ["-p", r.perms] else []) + KeyTokens(r)
    else ["-a", r.list] + (Flags("-F", r.fields) + (Flags("-S", r.syscalls) + KeyTokens(r)))
  }

  function Printed(r: Rule): string { Join(Tokens(r), " ") }

  method WatchString(r: Rule) returns (text: string)
    requires r.watch != ""
    ensures text == Printed(r)
  {
    text := "-w " + r.watch;
    ghost var tokens := ["-w", r.watch];
    TwoTokens("-w", r.watch);
    hide Join;
    if r.perms != "" {
      JoinOption(tokens, "-p", r.perms);
      text := text + " -p " + r.perms;
      tokens := tokens + ["-p", r.perms];
    }
    if r.key != "" {
      JoinOption(tokens, "-k", r.key);
      text := text + " -k " + r.key;
      tokens := tokens + ["-k", r.key];
    }
    assert tokens == Tokens(r);
  }

  /** A rule as auditctl prints it. */
  method RuleString(r: Rule) returns (text: string)
    ensures text == Printed(r)
  {
    hide Flags, Join;
    if r.watch != "" {
      text := WatchString(r);
      return;
    }
    var parts := ["-a", r.list];
    parts := AppendFlags(parts, "-F", r.fields);
    parts := AppendFlags(parts, "-S", r.syscalls);
    if r.key != "" { parts := parts + ["-k", r.key]; }
    assert parts == Tokens(r);
    text := Join(parts, " ");
  }

  method AppendFlags(parts: seq<string>, option: string, values: seq<string>) returns (all: seq<string>)
    ensures all == parts + Flags(option, values)
  {
    all := parts;
    for i := 0 to |values|
      invariant all == parts + Flags(option, values[..i])
    {
      assert values[..i + 1][..i] == values[..i];
      all := all + [option, values[i]];
    }
    assert values[..|values|] == values;
  }

  lemma TwoTokens(a: string, b: string)
    ensures Join([a, b], " ") == a + " " + b
  {
    assert [a, b][1..] == [b];
  }

  lemma Regroup(a: string, b: string, c: string, d: string)
    ensures a + (b + c + d) == a + b + c + d
  {
  }

  lemma {:induction false} JoinOption(tokens: seq<string>, option: string, value: string)
    requires tokens != []
    ensures Join(tokens + [option, value], " ") == Join(tokens, " ") + (" " + option + " ") + value
  {
    var all := tokens + [option, value];
    if |tokens| == 1 {
      assert tokens == [tokens[0]] && all[1..] == [option, value];
      TwoTokens(option, value);
    } else {
      var rest := tokens[1..];
      assert all[1..] == rest + [option, value] && all[0] == tokens[0];
      JoinOption(rest, option, value);
      Regroup(tokens[0] + " ", Join(rest, " "), " " + option + " ", value);
    }
  }
}
