// Reading the rendered text as nft would: what it loads is the spec, so the file decides packets as the profile does.
module FirewallText {
  import opened Wrappers
  import opened Text
  import opened Firewall
  import opened FirewallDiff
  import opened FirewallMeaning
  import opened FirewallRender
  import opened FirewallReadBack

  // ------------------------------------------------------------------ a reader of the text

  datatype TextChain = TextChain(name: string, hook: string, policy: string, rules: seq<seq<Want>>)

  datatype TextSpec = TextSpec(family: string, table: string, chains: seq<TextChain>)

  predicate Quoted(w: string) { |w| >= 2 && w[0] == '"' && w[|w| - 1] == '"' }

  /** `ip` is for addresses without a colon and `ip6` for those with one; a table of one family takes its own only. */
  predicate KeywordFits(family: string, keyword: string, address: string) {
    if family == "inet" then (keyword == "ip" && ':' !in address) || (keyword == "ip6" && ':' in address)
    else keyword == family
  }

  /** The match at the head of a rule's words, and how many words it takes. */
  function ReadOneMatch(family: string, words: seq<string>): (m: Option<(Want, nat)>)
    requires |words| >= 2
    ensures m.Some? ==> 0 < m.value.1 <= |words|
  {
    var a, b := words[0], words[1];
    if a == "iif" && Quoted(b) then Some((InInterface(b[1..|b| - 1]), 2))
    else if a == "oif" && Quoted(b) then Some((OutInterface(b[1..|b| - 1]), 2))
    else if |words| == 2 then None
    else
      var c := words[2];
      if b == "saddr" && KeywordFits(family, a, c) then Some((SourceIn(a, c), 3))
      else if b == "daddr" && KeywordFits(family, a, c) then Some((DestinationIn(a, c), 3))
      else if a == "ct" && b == "state" then Some((StateIn(Split(c, ',')), 3))
      else if (a == "tcp" || a == "udp") && b == "dport" then
        match Atoi(c) case None => None case Some(port) => Some((PortIs(a, port), 3))
      else if a == "ip" && b == "protocol" && c == "icmp" then Some((IsIcmp, 3))
      else if a == "ip6" && b == "nexthdr" && c == "icmpv6" then Some((IsIcmpv6, 3))
      else None
  }

  /** A rule's words: matches and, last, a verdict. */
  function ReadMatches(family: string, words: seq<string>): Option<seq<Want>>
    decreases |words|
  {
    if words == [] then None
    else if |words| == 1 then (if words[0] in {"accept", "drop", "reject"} then Some([Do(words[0])]) else None)
    else
      match ReadOneMatch(family, words) case None => None case Some((m, n)) =>
      match ReadMatches(family, words[n..]) case None => None case Some(ms) => Some([m] + ms)
  }

  /** The rules of a chain up to its closing brace, and the lines after it. */
  function ReadRuleLines(family: string, lines: seq<string>): (r: Option<(seq<seq<Want>>, seq<string>)>)
    ensures r.Some? ==> |r.value.1| < |lines|
    decreases |lines|
  {
    if lines == [] then None
    else
      var words := Fields(lines[0]);
      if words == ["}"] then Some(([], lines[1..]))
      else if words == [] then ReadRuleLines(family, lines[1..])
      else
        match ReadMatches(family, words) case None => None case Some(rule) =>
        match ReadRuleLines(family, lines[1..]) case None => None case Some((rules, rest)) => Some(([rule] + rules, rest))
  }

  /** The hook a chain's type line names. */
  function ReadHook(words: seq<string>): Option<string> {
    if |words| == 6 && words == ["type", "filter", "hook", words[3], "priority", "0;"] then Some(words[3]) else None
  }

  /** The policy a chain's policy line names. */
  function ReadPolicy(words: seq<string>): Option<string> {
    if |words| == 2 && words[0] == "policy" && words[1] != "" && words[1][|words[1]| - 1] == ';'
    then Some(words[1][..|words[1]| - 1]) else None
  }

  function ReadChains(family: string, lines: seq<string>): Option<seq<TextChain>>
    decreases |lines|
  {
    if lines == [] then None
    else
      var words := Fields(lines[0]);
      if words == ["}"] then (if |lines| == 1 then Some([]) else None)
      else if |words| == 3 && words[0] == "chain" && words[2] == "{" && |lines| >= 3 then
        match ReadHook(Fields(lines[1])) case None => None case Some(hook) =>
        match ReadPolicy(Fields(lines[2])) case None => None case Some(policy) =>
        match ReadRuleLines(family, lines[3..]) case None => None case Some((rules, rest)) =>
        match ReadChains(family, rest) case None => None case Some(chains) =>
        Some([TextChain(words[1], hook, policy, rules)] + chains)
      else None
  }

  function ReadTable(lines: seq<string>): Option<TextSpec> {
    if lines == [] then None
    else
      var words := Fields(lines[0]);
      if |words| == 4 && words[0] == "table" && words[3] == "{" then
        match ReadChains(words[1], lines[1..]) case None => None case Some(chains) => Some(TextSpec(words[1], words[2], chains))
      else None
  }

  function ReadText(text: string): Option<TextSpec> { ReadTable(LinesOf(text)) }

  // -------------------------------------------------------------------- what it says

  function Blank(chain: string): NormalizedRule { NormalizedRule(chain, "", "", 0, "", "", "", "", []) }

  function WithMatch(r: NormalizedRule, m: Want): NormalizedRule {
    match m
    case InInterface(name) => r.(inInterface := name)
    case OutInterface(name) => r.(outInterface := name)
    case SourceIn(_, text) => r.(source := text)
    case DestinationIn(_, text) => r.(destination := text)
    case StateIn(states) => r.(ctStates := states)
    case PortIs(proto, port) => r.(proto := proto, port := port)
    case IsIcmp => r.(proto := "icmp")
    case IsIcmpv6 => r.(proto := "icmpv6")
    case Do(action) => r.(action := action)
  }

  /** The rule of this chain with exactly these matches and verdict. */
  function RuleOf(chain: string, matches: seq<Want>): NormalizedRule {
    if matches == [] then Blank(chain) else WithMatch(RuleOf(chain, matches[1..]), matches[0])
  }

  function RulesOfChain(c: TextChain): seq<NormalizedRule> {
    seq(|c.rules|, i requires 0 <= i < |c.rules| => RuleOf(c.hook, c.rules[i]))
  }

  /** The rules of one chain, in the order of the list. */
  function Only(rules: seq<NormalizedRule>, chain: string): seq<NormalizedRule> {
    if rules == [] then [] else (if rules[0].chain == chain then [rules[0]] else []) + Only(rules[1..], chain)
  }

  /** The text defines exactly the managed chains, each on its own hook with its policy and its rules in order. */
  ghost predicate Says(t: TextSpec, s: NormalizedSpec) {
    && t.family == s.family && t.table == s.table
    && (forall i :: 0 <= i < |t.chains| ==>
          var c := t.chains[i];
          c.name == c.hook && c.hook in s.policies && c.policy == s.policies[c.hook] && RulesOfChain(c) == Only(s.rules, c.hook))
    && (forall i, j :: 0 <= i < j < |t.chains| ==> t.chains[i].hook != t.chains[j].hook)
    && (forall h <- s.policies :: exists i :: 0 <= i < |t.chains| && t.chains[i].hook == h)
  }

  // ------------------------------------------------------------------ reading a rule's words

  lemma {:induction false} DigitsOfItoa(n: nat)
    ensures Atoi(Itoa(n)) == Some(n)
    decreases n
  {
    ItoaOfNat(n);
    if n >= 10 {
      DigitsOfItoa(n / 10);
      var s := Itoa(n);
      assert s == Itoa(n / 10) + [Digit(n % 10)];
      assert s[..|s| - 1] == Itoa(n / 10);
    } else {
      var s := Itoa(n);
      assert s == [Digit(n)] && s[..|s| - 1] == "";
      assert DigitsValue(s[..|s| - 1]) == 0;
    }
  }

  /** A match, not a verdict, that the renderer may write in a table of this family. */
  predicate Clear(family: string, w: Want) {
    && Good(w) && !w.Do?
    && (w.SourceIn? || w.DestinationIn? ==> KeywordFits(family, w.keyword, w.text))
  }

  lemma StatesSplit(states: seq<string>)
    requires GoodStates(states) && states != []
    ensures Split(Join(states, ","), ',') == states
  {
    StatesArePlain(states);
    SplitJoin(states, ',');
  }

  lemma InterfaceIsRead(family: string, w: Want, rest: seq<string>)
    requires (w.InInterface? || w.OutInterface?) && rest != []
    ensures ReadOneMatch(family, WantWords(w) + rest) == Some((w, 2))
  {
    var q := "\"" + w.name + "\"";
    assert q[1..|q| - 1] == w.name;
    var words := WantWords(w) + rest;
    assert words[0] == WantWords(w)[0] && words[1] == q;
  }

  lemma MatchIsRead(family: string, w: Want, rest: seq<string>)
    requires Clear(family, w) && rest != []
    ensures ReadOneMatch(family, WantWords(w) + rest) == Some((w, |WantWords(w)|))
  {
    if w.InInterface? || w.OutInterface? {
      InterfaceIsRead(family, w, rest);
    } else {
      var words := WantWords(w) + rest;
      assert |WantWords(w)| == 3;
      assert words[0] == WantWords(w)[0] && words[1] == WantWords(w)[1] && words[2] == WantWords(w)[2];
      if w.StateIn? { StatesSplit(w.states); }
      if w.PortIs? { DigitsOfItoa(w.port); }
      hide GoodStates, IsAddress, Join, Split, Itoa, Atoi;
    }
  }

  lemma {:induction false} MatchesAreRead(family: string, matches: seq<Want>, action: string)
    requires (forall w <- matches :: Clear(family, w)) && action in {"accept", "drop", "reject"}
    ensures Words(matches) + [action] != []
    ensures ReadMatches(family, Words(matches) + [action]) == Some(matches + [Do(action)])
  {
    hide Clear, ReadOneMatch;
    if matches == [] {
      NoWords();
      assert Words(matches) + [action] == [action] && matches + [Do(action)] == [Do(action)];
    } else {
      var w, rest := matches[0], matches[1..];
      assert w in matches;
      MatchesAreRead(family, rest, action);
      var tail := Words(rest) + [action];
      MatchIsRead(family, w, tail);
      var words := WantWords(w) + tail;
      assert Words(matches) + [action] == words;
      assert words[|WantWords(w)|..] == tail;
      assert [w] + (rest + [Do(action)]) == matches + [Do(action)];
    }
  }

  // ------------------------------------------------------------------ reading a rule's line

  /** A rule's matches without its verdict. */
  function Tests(family: string, r: NormalizedRule): seq<Want> {
    InWants(r) + (OutWants(r) + (SourceWants(family, r) + (DestinationWants(family, r) + (StateWants(r) + ProtoWants(r)))))
  }

  lemma WantsAreTests(family: string, r: NormalizedRule)
    ensures Wants(family, r) == Tests(family, r) + [Do(r.action)]
  {
    hide InWants, OutWants, SourceWants, DestinationWants, StateWants, ProtoWants;
  }

  lemma AddressesAreClear(family: string, r: NormalizedRule)
    requires WellFormed(r) && family in FAMILIES
    ensures forall w <- SourceWants(family, r) :: Clear(family, w)
    ensures forall w <- DestinationWants(family, r) :: Clear(family, w)
  {
    hide IsAddress, GoodStates, IsInterfaceName;
  }

  lemma OthersAreClear(family: string, r: NormalizedRule)
    requires WellFormed(r)
    ensures forall w <- InWants(r) :: Clear(family, w)
    ensures forall w <- OutWants(r) :: Clear(family, w)
    ensures forall w <- StateWants(r) :: Clear(family, w)
    ensures forall w <- ProtoWants(r) :: Clear(family, w)
  {
    hide IsAddress, GoodStates, IsInterfaceName;
  }

  lemma TestsAreClear(family: string, r: NormalizedRule)
    requires WellFormed(r) && family in FAMILIES
    ensures forall w <- Tests(family, r) :: Clear(family, w)
  {
    AddressesAreClear(family, r);
    OthersAreClear(family, r);
    hide WellFormed, Clear, InWants, OutWants, SourceWants, DestinationWants, StateWants, ProtoWants;
  }

  lemma BlankStays(text: string, n: nat)
    requires n <= |text| && forall i :: 0 <= i < n ==> text[i] == ' '
    ensures Fields(text) == Fields(text[n..])
  {
    if n > 0 {
      BlankStays(text[1..], n - 1);
      assert text[1..][n - 1..] == text[n..];
    } else {
      assert text[0..] == text;
    }
  }

  lemma Indented(indent: string, line: string)
    requires indent in {"", "  ", "    "}
    ensures Fields(indent + line) == Fields(line)
  {
    var text := indent + line;
    assert forall i :: 0 <= i < |indent| ==> text[i] == indent[i] == ' ';
    assert text[|indent|..] == line;
    BlankStays(text, |indent|);
  }

  lemma RuleLineFields(family: string, r: NormalizedRule)
    requires WellFormed(r) && family in FAMILIES
    ensures Fields(RuleLine(family, r)) == Words(Tests(family, r)) + [r.action]
  {
    hide WellFormed, Tests, Wants, FromIn, RenderRule, Words, Fields;
    RuleTextIsWords(family, r);
    Indented("    ", RenderRule(family, r));
    FieldsOfJoin(FromIn(family, r));
    RuleWords(family, r);
    WantsAreTests(family, r);
    WordsConcat(Tests(family, r), [Do(r.action)]);
    WordsOfOne(Do(r.action));
  }

  lemma RuleLineIsRead(family: string, r: NormalizedRule)
    requires WellFormed(r) && family in FAMILIES
    ensures var words := Fields(RuleLine(family, r));
      && words != [] && words != ["}"]
      && ReadMatches(family, words) == Some(Wants(family, r))
  {
    hide WellFormed, Tests, Wants, Words, ReadMatches, Fields, RuleLine, Clear;
    RuleLineFields(family, r);
    WantsAreTests(family, r);
    TestsAreClear(family, r);
    ActionIsVerdict(r);
    MatchesAreRead(family, Tests(family, r), r.action);
    NotABrace(family);
  }

  lemma ActionIsVerdict(r: NormalizedRule)
    requires WellFormed(r)
    ensures r.action in {"accept", "drop", "reject"}
  {
  }

  lemma NotABrace(family: string)
    ensures ReadMatches(family, ["}"]) == None
  {
  }

  // ------------------------------------------------------------------ reading a chain's lines

  lemma ChainHeadIsRead(chain: string)
    requires chain in CHAINS
    ensures Fields(ChainHead(chain)) == ["chain", chain, "{"]
  {
    var words := ["chain", chain, "{"];
    assert words[1..] == [chain, "{"] && words[1..][1..] == ["{"];
    assert Join(["{"], " ") == "{";
    assert Join([chain, "{"], " ") == chain + " " + "{";
    assert Join(words, " ") == "chain" + " " + (chain + " " + "{");
    assert ChainHead(chain) == "  " + Join(words, " ");
    ChainIsWord(chain);
    assert IsWord("chain") && IsWord("{");
    FieldsOfJoin(words);
    Indented("  ", Join(words, " "));
  }

  lemma ChainIsWord(chain: string)
    requires chain in CHAINS
    ensures IsWord(chain)
  {
  }

  lemma HookLineIsRead(chain: string)
    requires chain in CHAINS
    ensures ReadHook(Fields(HookLine(chain))) == Some(chain)
  {
    hide Join, Fields, IsWord;
    var words := ["type", "filter", "hook", chain, "priority", "0;"];
    HookWordsAreWords(chain);
    FieldsOfJoin(words);
    Indented("    ", Join(words, " "));
  }

  lemma HookWordsAreWords(chain: string)
    requires chain in CHAINS
    ensures forall w <- ["type", "filter", "hook", chain, "priority", "0;"] :: IsWord(w)
  {
    ChainIsWord(chain);
    assert IsWord("type") && IsWord("filter") && IsWord("hook") && IsWord("priority") && IsWord("0;");
    hide IsWord;
  }

  lemma PolicyLineIsRead(policy: string)
    requires policy in {"accept", "drop"}
    ensures ReadPolicy(Fields(PolicyLine(policy))) == Some(policy)
  {
    var words := ["policy", policy + ";"];
    assert words[1..] == [policy + ";"];
    assert PolicyLine(policy) == "    " + Join(words, " ");
    assert IsWord("policy") && IsWord(policy + ";");
    FieldsOfJoin(words);
    Indented("    ", Join(words, " "));
    hide Join, Fields;
    assert words[1][..|words[1]| - 1] == policy;
  }

  lemma BracesAreRead()
    ensures Fields(CHAIN_END) == ["}"] && Fields(TABLE_END) == ["}"] && Fields("") == []
  {
    assert IsWord("}") && Join(["}"], " ") == "}";
    FieldsOfJoin(["}"]);
    Indented("  ", "}");
    assert CHAIN_END == "  " + "}";
  }

  function WantsOf(family: string, rules: seq<NormalizedRule>): seq<seq<Want>> {
    seq(|rules|, i requires 0 <= i < |rules| => Wants(family, rules[i]))
  }

  lemma {:induction false} RuleLinesAreRead(family: string, rules: seq<NormalizedRule>, rest: seq<string>)
    requires family in FAMILIES && forall r <- rules :: WellFormed(r)
    ensures ReadRuleLines(family, RuleLines(family, rules) + [CHAIN_END] + rest) == Some((WantsOf(family, rules), rest))
  {
    BracesAreRead();
    hide WellFormed, RuleLine, Fields, ReadMatches, Wants;
    var lines := RuleLines(family, rules) + [CHAIN_END] + rest;
    if rules == [] {
      assert lines[0] == CHAIN_END && lines[1..] == rest;
    } else {
      assert rules[0] in rules;
      RuleLineIsRead(family, rules[0]);
      RuleLinesAreRead(family, rules[1..], rest);
      assert lines[0] == RuleLine(family, rules[0]);
      assert lines[1..] == RuleLines(family, rules[1..]) + [CHAIN_END] + rest;
      assert WantsOf(family, rules) == [Wants(family, rules[0])] + WantsOf(family, rules[1..]);
    }
  }

  function ChainOf(s: NormalizedSpec, c: string): TextChain
    requires c in s.policies
  {
    TextChain(c, c, s.policies[c], WantsOf(s.family, ChainRules(s.rules, c)))
  }

  lemma ChainIsRead(s: NormalizedSpec, c: string, rest: seq<string>)
    requires WellFormedSpec(s) && c in s.policies
    ensures ReadChains(s.family, ChainLines(s, c) + rest) ==
            match ReadChains(s.family, rest) case None => None case Some(chains) => Some([ChainOf(s, c)] + chains)
  {
    hide WellFormedSpec, WellFormed, Fields, ReadHook, ReadPolicy, ReadRuleLines, ChainHead, HookLine, PolicyLine, ChainRules, RuleLines,
         WantsOf, ChainOf;
    var rules := ChainRules(s.rules, c);
    ChainIsGood(s, c);
    ChainHeadIsRead(c);
    HookLineIsRead(c);
    PolicyLineIsRead(s.policies[c]);
    RuleLinesAreRead(s.family, rules, rest);
    var lines := ChainLines(s, c) + rest;
    var body := RuleLines(s.family, rules) + [CHAIN_END] + rest;
    assert lines[0] == ChainHead(c) && lines[1] == HookLine(c) && lines[2] == PolicyLine(s.policies[c]);
    assert lines[3..] == [""] + body;
    BlankLineIsSkipped(s.family, body);
    ChainOfIs(s, c);
  }

  lemma ChainIsGood(s: NormalizedSpec, c: string)
    requires WellFormedSpec(s) && c in s.policies
    ensures s.family in FAMILIES && c in CHAINS && s.policies[c] in {"accept", "drop"}
    ensures forall r <- ChainRules(s.rules, c) :: WellFormed(r)
  {
    ChainRulesAre(s.rules, c);
    hide WellFormed, ChainRules;
  }

  lemma ChainOfIs(s: NormalizedSpec, c: string)
    requires c in s.policies
    ensures ChainOf(s, c) == TextChain(c, c, s.policies[c], WantsOf(s.family, ChainRules(s.rules, c)))
  {
  }

  lemma BlankLineIsSkipped(family: string, lines: seq<string>)
    ensures ReadRuleLines(family, [""] + lines) == ReadRuleLines(family, lines)
  {
    assert ([""] + lines)[1..] == lines;
  }

  /** The managed chains in the order the renderer writes them. */
  function ChainsOf(s: NormalizedSpec, order: seq<string>): seq<TextChain> {
    if order == [] then [] else (if order[0] in s.policies then [ChainOf(s, order[0])] else []) + ChainsOf(s, order[1..])
  }

  lemma {:induction false} BlocksAreRead(s: NormalizedSpec, order: seq<string>)
    requires WellFormedSpec(s)
    ensures ReadChains(s.family, BlockLines(s, order)) == Some(ChainsOf(s, order))
  {
    ManagedIsPolicies(s);
    BracesAreRead();
    hide WellFormedSpec, ChainLines, ChainOf, Fields;
    if order == [] {
      assert BlockLines(s, order) == [TABLE_END];
    } else {
      BlocksAreRead(s, order[1..]);
      if order[0] in s.policies {
        ChainIsRead(s, order[0], BlockLines(s, order[1..]));
      } else {
        assert [] + ChainsOf(s, order[1..]) == ChainsOf(s, order[1..]);
      }
    }
  }

  lemma LinesOfUnlines(lines: seq<string>)
    requires lines != [] && forall l <- lines :: '\n' !in l
    ensures LinesOf(Unlines(lines)) == lines
  {
    UnlinesIsJoin(lines);
    SplitJoin(lines + [""], '\n');
    assert (lines + [""])[..|lines|] == lines;
    assert Unlines(lines) != "";
    hide Split, Join, Unlines;
  }

  lemma RenderedIsRead(s: NormalizedSpec)
    requires WellFormedSpec(s)
    ensures ReadText(Rendered(s)) == Some(TextSpec(s.family, s.table, ChainsOf(s, CHAIN_ORDER)))
  {
    HeaderReadsBack(s);
    BlockLinesAreLines(s, CHAIN_ORDER);
    BlocksAreRead(s, CHAIN_ORDER);
    hide WellFormedSpec, HeaderLine, BlockLines, Fields, ChainsOf, ReadChains;
    LinesOfUnlines(RenderLines(s));
    assert RenderLines(s)[1..] == BlockLines(s, CHAIN_ORDER);
  }

  // -------------------------------------------------------------------- what is read

  /** One segment of a rule's matches, empty or single. */
  lemma SegmentSays(chain: string, segment: seq<Want>, rest: seq<Want>)
    requires |segment| <= 1
    ensures RuleOf(chain, segment + rest) ==
            if segment == [] then RuleOf(chain, rest) else WithMatch(RuleOf(chain, rest), segment[0])
  {
    hide WithMatch;
    if segment == [] {
      assert segment + rest == rest;
    } else {
      assert (segment + rest)[0] == segment[0] && (segment + rest)[1..] == rest;
    }
  }

  lemma VerdictSays(chain: string, r: NormalizedRule)
    requires WellFormed(r)
    ensures RuleOf(chain, ProtoWants(r) + [Do(r.action)]) == Blank(chain).(action := r.action, proto := r.proto, port := r.port)
  {
    hide IsAddress, IsInterfaceName, GoodStates;
    SegmentSays(chain, [Do(r.action)], []);
    assert [Do(r.action)] + [] == [Do(r.action)];
    SegmentSays(chain, ProtoWants(r), [Do(r.action)]);
  }

  /** The matches a rule is rendered with are that rule. */
  lemma WantsSayRule(family: string, r: NormalizedRule)
    requires WellFormed(r)
    ensures RuleOf(r.chain, Wants(family, r)) == r
  {
    VerdictSays(r.chain, r);
    var e := ProtoWants(r) + [Do(r.action)];
    var d := StateWants(r) + e;
    var c := DestinationWants(family, r) + d;
    var b := SourceWants(family, r) + c;
    var a := OutWants(r) + b;
    SegmentSays(r.chain, StateWants(r), e);
    SegmentSays(r.chain, DestinationWants(family, r), d);
    SegmentSays(r.chain, SourceWants(family, r), c);
    SegmentSays(r.chain, OutWants(r), b);
    SegmentSays(r.chain, InWants(r), a);
    hide ProtoWants, RuleOf, WellFormed, AddressKeyword;
  }

  lemma {:induction false} OnlySnoc(rules: seq<NormalizedRule>, last: NormalizedRule, chain: string)
    ensures Only(rules + [last], chain) == Only(rules, chain) + if last.chain == chain then [last] else []
  {
    hide Only;
    if rules == [] {
      OnlyHead(last, [], chain);
      assert rules + [last] == [last] + [];
    } else {
      OnlyHead(rules[0], rules[1..], chain);
      OnlyHead(rules[0], rules[1..] + [last], chain);
      assert rules == [rules[0]] + rules[1..] && rules + [last] == [rules[0]] + (rules[1..] + [last]);
      OnlySnoc(rules[1..], last, chain);
    }
  }

  lemma OnlyHead(first: NormalizedRule, rest: seq<NormalizedRule>, chain: string)
    ensures Only([first] + rest, chain) == (if first.chain == chain then [first] else []) + Only(rest, chain)
    ensures Only([], chain) == []
  {
    assert ([first] + rest)[1..] == rest;
  }

  lemma {:induction false} ChainRulesAreOnly(rules: seq<NormalizedRule>, chain: string)
    ensures ChainRules(rules, chain) == Only(rules, chain)
  {
    if rules != [] {
      var init, last := rules[..|rules| - 1], rules[|rules| - 1];
      ChainRulesAreOnly(init, chain);
      OnlySnoc(init, last, chain);
      assert rules == init + [last];
      hide Only;
    }
  }

  lemma ChainSaysRules(s: NormalizedSpec, c: string)
    requires WellFormedSpec(s) && c in s.policies
    ensures RulesOfChain(ChainOf(s, c)) == Only(s.rules, c)
  {
    hide WellFormedSpec, WellFormed, ChainRules, Wants, RuleOf, Only;
    ChainIsGood(s, c);
    ChainRulesAre(s.rules, c);
    ChainRulesAreOnly(s.rules, c);
    RulesSaid(s.family, c, s.policies[c], ChainRules(s.rules, c));
  }

  lemma RulesSaid(family: string, c: string, policy: string, rules: seq<NormalizedRule>)
    requires forall r <- rules :: WellFormed(r) && r.chain == c
    ensures RulesOfChain(TextChain(c, c, policy, WantsOf(family, rules))) == rules
  {
    hide WellFormed, Wants, RuleOf;
    forall i | 0 <= i < |rules| ensures RuleOf(c, Wants(family, rules[i])) == rules[i] {
      assert rules[i] in rules;
      WantsSayRule(family, rules[i]);
    }
  }

  /** Chains listed in an order, each the one of its hook and no hook twice. */
  ghost predicate AreChainsOf(cs: seq<TextChain>, s: NormalizedSpec, order: seq<string>) {
    && (forall i :: 0 <= i < |cs| ==> cs[i].hook in order && cs[i].hook in s.policies && cs[i] == ChainOf(s, cs[i].hook))
    && (forall i, j :: 0 <= i < j < |cs| ==> cs[i].hook != cs[j].hook)
    && (forall h <- order :: h in s.policies ==> exists i :: 0 <= i < |cs| && cs[i].hook == h)
  }

  lemma OneMoreChain(cs: seq<TextChain>, s: NormalizedSpec, rest: seq<string>, c: string)
    requires AreChainsOf(cs, s, rest) && c !in rest
    ensures c in s.policies ==> AreChainsOf([ChainOf(s, c)] + cs, s, [c] + rest)
    ensures c !in s.policies ==> AreChainsOf(cs, s, [c] + rest)
  {
    hide WantsOf, ChainRules;
    var order := [c] + rest;
    assert forall h <- rest :: h in order;
    if c in s.policies {
      var all := [ChainOf(s, c)] + cs;
      assert forall i :: 0 < i < |all| ==> all[i] == cs[i - 1];
      forall h <- order | h in s.policies ensures exists i :: 0 <= i < |all| && all[i].hook == h {
        if h == c { assert all[0].hook == h; } else {
          var i :| 0 <= i < |cs| && cs[i].hook == h;
          assert all[i + 1].hook == h;
        }
      }
    }
  }

  lemma {:induction false} ChainsOfAre(s: NormalizedSpec, order: seq<string>)
    requires forall i, j :: 0 <= i < j < |order| ==> order[i] != order[j]
    ensures AreChainsOf(ChainsOf(s, order), s, order)
  {
    hide ChainOf, AreChainsOf;
    if order == [] {
      NoChains(s);
    } else {
      var rest := order[1..];
      ChainsOfAre(s, rest);
      assert order == [order[0]] + rest && order[0] !in rest;
      OneMoreChain(ChainsOf(s, rest), s, rest, order[0]);
      assert [] + ChainsOf(s, rest) == ChainsOf(s, rest);
    }
  }

  lemma NoChains(s: NormalizedSpec)
    ensures AreChainsOf([], s, [])
  {
  }

  lemma ChainsAreOrdered()
    ensures forall i, j :: 0 <= i < j < |CHAIN_ORDER| ==> CHAIN_ORDER[i] != CHAIN_ORDER[j]
    ensures forall c <- CHAINS :: c in CHAIN_ORDER
  {
    assert CHAIN_ORDER[0] == "input" && CHAIN_ORDER[1] == "forward" && CHAIN_ORDER[2] == "output";
  }

  lemma ChainsSay(t: TextSpec, s: NormalizedSpec)
    requires t.family == s.family && t.table == s.table && AreChainsOf(t.chains, s, CHAIN_ORDER)
    requires forall h <- s.policies :: h in CHAIN_ORDER && RulesOfChain(ChainOf(s, h)) == Only(s.rules, h)
    ensures Says(t, s)
  {
    hide Only, RulesOfChain, WantsOf, ChainRules, CHAIN_ORDER;
  }

  /** Reading the rendered text gives the spec back: its family and table, and each managed chain on its hook, with its policy
      and its rules in order. */
  lemma TextReadsBack(s: NormalizedSpec)
    requires WellFormedSpec(s)
    ensures ReadText(Rendered(s)).Some? && Says(ReadText(Rendered(s)).value, s)
  {
    hide WellFormedSpec, ChainsOf, ChainOf, Only, RulesOfChain, ReadText, Rendered, Says, AreChainsOf, CHAIN_ORDER;
    RenderedIsRead(s);
    ChainsAreOrdered();
    ChainsOfAre(s, CHAIN_ORDER);
    forall h <- s.policies ensures h in CHAIN_ORDER && RulesOfChain(ChainOf(s, h)) == Only(s.rules, h) {
      ChainIsGood(s, h);
      ChainSaysRules(s, h);
    }
    ChainsSay(TextSpec(s.family, s.table, ChainsOf(s, CHAIN_ORDER)), s);
  }

  // ------------------------------------------------------------------- what it does to packets

  /** First matching rule of the packet's hook, else that chain's policy, else accept. */
  function TextVerdict(chains: seq<TextChain>, p: Packet): string {
    if chains == [] then "accept"
    else if chains[0].hook == p.chain then
      match Verdict(RulesOfChain(chains[0]), p) case Some(action) => action case None => chains[0].policy
    else TextVerdict(chains[1..], p)
  }

  lemma {:induction false} VerdictOfChain(rules: seq<NormalizedRule>, p: Packet)
    ensures Verdict(Only(rules, p.chain), p) == Verdict(rules, p)
  {
    if rules != [] {
      VerdictOfChain(rules[1..], p);
      var rest := Only(rules[1..], p.chain);
      if rules[0].chain == p.chain {
        assert ([rules[0]] + rest)[1..] == rest;
      } else {
        assert [] + rest == rest;
      }
    }
  }

  lemma {:induction false} VerdictOfHook(chains: seq<TextChain>, p: Packet, i: nat)
    requires i < |chains| && chains[i].hook == p.chain && forall j :: 0 <= j < i ==> chains[j].hook != p.chain
    ensures TextVerdict(chains, p) == match Verdict(RulesOfChain(chains[i]), p) case Some(action) => action case None => chains[i].policy
  {
    hide RulesOfChain, Verdict;
    if i > 0 { VerdictOfHook(chains[1..], p, i - 1); }
  }

  lemma {:induction false} VerdictOfNone(chains: seq<TextChain>, p: Packet)
    requires forall j :: 0 <= j < |chains| ==> chains[j].hook != p.chain
    ensures TextVerdict(chains, p) == "accept"
  {
    if chains != [] { VerdictOfNone(chains[1..], p); }
  }

  lemma SaidVerdict(t: TextSpec, s: NormalizedSpec, p: Packet)
    requires Says(t, s) && forall r <- s.rules :: r.chain in s.policies
    ensures TextVerdict(t.chains, p) == SpecVerdict(s, p)
  {
    hide RulesOfChain, Only;
    VerdictOfChain(s.rules, p);
    if p.chain in s.policies {
      var i :| 0 <= i < |t.chains| && t.chains[i].hook == p.chain;
      VerdictOfHook(t.chains, p, i);
    } else {
      VerdictOfNone(t.chains, p);
      VerdictNeedsAMatch(s.rules, p);
    }
  }

  lemma RulesAreManaged(s: NormalizedSpec)
    requires WellFormedSpec(s)
    ensures forall r <- s.rules :: r.chain in s.policies
  {
    hide WellFormed;
  }

  /** The file an accepted profile is rendered to decides every packet as the profile's own rules and policies do. */
  lemma TextDecidesAsProfile(fw: Spec, p: Packet)
    requires Normalized(fw).Ok?
    ensures var text := Rendered(Normalized(fw).value);
      ReadText(text).Some? && TextVerdict(ReadText(text).value.chains, p) == ProfileVerdict(fw, p)
  {
    var s := Normalized(fw).value;
    NormalizedIsWellFormed(fw);
    RulesAreManaged(s);
    TextReadsBack(s);
    NormalizationKeepsMeaning(fw, p);
    hide Normalized, WellFormedSpec, Says, ReadText, Rendered, ProfileVerdict, SpecVerdict;
    SaidVerdict(ReadText(Rendered(s)).value, s, p);
  }
}
