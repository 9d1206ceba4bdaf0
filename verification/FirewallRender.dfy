// The nftables text of a normalised spec, and why equal text means an equal policy.
module FirewallRender {
  import opened Text
  import opened Firewall
  import opened FirewallDiff

  // ---------------------------------------------------------------------- one rule

  /** The matches one rule's text names, in the order it names them. */
  datatype Want =
    | InInterface(name: string) | OutInterface(name: string)
    | SourceIn(keyword: string, text: string) | DestinationIn(keyword: string, text: string)
    | StateIn(states: seq<string>)
    | PortIs(proto: string, port: int) | IsIcmp | IsIcmpv6
    | Do(action: string)

  function AddressKeyword(family: string, address: string): string {
    if family == "ip" then "ip"
    else if family == "ip6" then "ip6"
    else if AddressIsV6(address) then "ip6" else "ip"
  }

  function InWants(r: NormalizedRule): seq<Want> { if r.inInterface == "" then [] else [InInterface(r.inInterface)] }

  function OutWants(r: NormalizedRule): seq<Want> { if r.outInterface == "" then [] else [OutInterface(r.outInterface)] }

  function SourceWants(family: string, r: NormalizedRule): seq<Want> {
    if r.source == "" then [] else [SourceIn(AddressKeyword(family, r.source), r.source)]
  }

  function DestinationWants(family: string, r: NormalizedRule): seq<Want> {
    if r.destination == "" then [] else [DestinationIn(AddressKeyword(family, r.destination), r.destination)]
  }

  function StateWants(r: NormalizedRule): seq<Want> { if r.ctStates == [] then [] else [StateIn(r.ctStates)] }

  function ProtoWants(r: NormalizedRule): seq<Want> {
    if r.proto in {"tcp", "udp"} then [PortIs(r.proto, r.port)]
    else if r.proto == "icmp" then [IsIcmp]
    else if r.proto == "icmpv6" then [IsIcmpv6]
    else []
  }

  function Wants(family: string, r: NormalizedRule): seq<Want> {
    InWants(r) + (OutWants(r) + (SourceWants(family, r) + (DestinationWants(family, r)
      + (StateWants(r) + (ProtoWants(r) + [Do(r.action)])))))
  }

  function WantWords(w: Want): (words: seq<string>)
    ensures words != []
  {
    match w
    case InInterface(name) => ["iif", "\"" + name + "\""]
    case OutInterface(name) => ["oif", "\"" + name + "\""]
    case SourceIn(keyword, text) => [keyword, "saddr", text]
    case DestinationIn(keyword, text) => [keyword, "daddr", text]
    case StateIn(states) => ["ct", "state", Join(states, ",")]
    case PortIs(proto, port) => [proto, "dport", Itoa(port)]
    case IsIcmp => ["ip", "protocol", "icmp"]
    case IsIcmpv6 => ["ip6", "nexthdr", "icmpv6"]
    case Do(action) => [action]
  }

  function WantText(w: Want): string { Join(WantWords(w), " ") }

  function WantTexts(wants: seq<Want>): seq<string> {
    seq(|wants|, i requires 0 <= i < |wants| => WantText(wants[i]))
  }

  function RenderRule(family: string, r: NormalizedRule): string { Join(WantTexts(Wants(family, r)), " ") }

  // ----------------------------------------------------------------------- one spec

  const CHAIN_ORDER: seq<string> := ["input", "forward", "output"]

  function ChainHead(chain: string): string { "  chain " + chain + " {" }

  function HookLine(chain: string): string { "    " + Join(["type", "filter", "hook", chain, "priority", "0;"], " ") }

  function PolicyLine(policy: string): string { "    policy " + policy + ";" }

  function RuleLine(family: string, r: NormalizedRule): string { "    " + RenderRule(family, r) }

  const CHAIN_END: string := "  }"
  const TABLE_END: string := "}"

  function RuleLines(family: string, rules: seq<NormalizedRule>): seq<string> {
    seq(|rules|, i requires 0 <= i < |rules| => RuleLine(family, rules[i]))
  }

  function ChainTop(s: NormalizedSpec, chain: string): seq<string> {
    [ChainHead(chain), HookLine(chain), PolicyLine(PolicyOf(s, chain)), ""]
  }

  function ChainLines(s: NormalizedSpec, chain: string): seq<string> {
    ChainTop(s, chain) + RuleLines(s.family, ChainRules(s.rules, chain)) + [CHAIN_END]
  }

  function BlockLines(s: NormalizedSpec, order: seq<string>): seq<string> {
    if order == [] then [TABLE_END]
    else if order[0] in Managed(s) then ChainLines(s, order[0]) + BlockLines(s, order[1..])
    else BlockLines(s, order[1..])
  }

  function HeaderLine(s: NormalizedSpec): string { Join(["table", s.family, s.table, "{"], " ") }

  function RenderLines(s: NormalizedSpec): seq<string> { [HeaderLine(s)] + BlockLines(s, CHAIN_ORDER) }

  function Rendered(s: NormalizedSpec): string { Unlines(RenderLines(s)) }

  /** Appends one finished line. */
  method WriteLine(text: string, line: string, ghost lines: seq<string>) returns (longer: string, ghost all: seq<string>)
    requires text == Unlines(lines)
    ensures all == lines + [line] && longer == Unlines(all)
  {
    UnlinesSnoc(lines, line);
    all := lines + [line];
    longer := text + line + "\n";
  }

  method RenderChain(s: NormalizedSpec, chain: string) returns (text: string)
    ensures text == Unlines(ChainLines(s, chain))
  {
    hide Unlines, ChainHead, HookLine, PolicyLine, RuleLine;
    ghost var lines: seq<string> := [];
    text := EmptyText();
    text, lines := WriteLine(text, ChainHead(chain), lines);
    text, lines := WriteLine(text, HookLine(chain), lines);
    text, lines := WriteLine(text, PolicyLine(PolicyOf(s, chain)), lines);
    text, lines := WriteLine(text, "", lines);
    assert lines == ChainTop(s, chain) + RuleLines(s.family, []);
    for i := 0 to |s.rules|
      invariant lines == ChainTop(s, chain) + RuleLines(s.family, ChainRules(s.rules[..i], chain))
      invariant text == Unlines(lines)
    {
      assert s.rules[..i + 1][..i] == s.rules[..i];
      var rule := s.rules[i];
      if rule.chain != chain { continue; }
      ghost var before := ChainRules(s.rules[..i], chain);
      assert RuleLines(s.family, before + [rule]) == RuleLines(s.family, before) + [RuleLine(s.family, rule)];
      text, lines := WriteLine(text, RuleLine(s.family, rule), lines);
    }
    assert s.rules[..|s.rules|] == s.rules;
    text, lines := WriteLine(text, CHAIN_END, lines);
  }

  method EmptyText() returns (text: string)
    ensures text == Unlines([]) == ""
  {
    text := "";
  }

  lemma {:induction false} UnlinesConcat(a: seq<string>, b: seq<string>)
    ensures Unlines(a + b) == Unlines(a) + Unlines(b)
  {
    if a == [] {
      assert a + b == b;
    } else {
      assert (a + b)[1..] == a[1..] + b;
      UnlinesConcat(a[1..], b);
    }
  }

  lemma BlocksFrom(s: NormalizedSpec, order: seq<string>, i: nat)
    requires i < |order|
    ensures Unlines(BlockLines(s, order[i..])) ==
            (if order[i] in Managed(s) then Unlines(ChainLines(s, order[i])) else "") + Unlines(BlockLines(s, order[i + 1..]))
  {
    hide ChainLines;
    assert order[i..][1..] == order[i + 1..];
    if order[i] in Managed(s) { UnlinesConcat(ChainLines(s, order[i]), BlockLines(s, order[i + 1..])); }
  }

  method RenderBlocks(s: NormalizedSpec, order: seq<string>) returns (text: string)
    ensures text + Unlines([TABLE_END]) == Unlines(BlockLines(s, order))
  {
    hide ChainLines, Unlines;
    text := "";
    assert order[0..] == order;
    for i := 0 to |order|
      invariant Unlines(BlockLines(s, order)) == text + Unlines(BlockLines(s, order[i..]))
    {
      BlocksFrom(s, order, i);
      if order[i] in Managed(s) {
        var block := RenderChain(s, order[i]);
        text := text + block;
      }
    }
  }

  method RenderNormalized(s: NormalizedSpec) returns (text: string)
    ensures text == Rendered(s)
  {
    hide BlockLines, HeaderLine, Unlines;
    var blocks := RenderBlocks(s, CHAIN_ORDER);
    UnlinesConcat([HeaderLine(s)], BlockLines(s, CHAIN_ORDER));
    ghost var none: seq<string>;
    text := EmptyText();
    text, none := WriteLine(text, HeaderLine(s), []);
    assert none == [HeaderLine(s)];
    var last := EmptyText();
    last, none := WriteLine(last, TABLE_END, []);
    assert none == [TABLE_END];
    text := text + blocks + last;
  }

  // --------------------------------------------------------- words of a rule's text

  function Words(wants: seq<Want>): seq<string> {
    if wants == [] then [] else WantWords(wants[0]) + Words(wants[1..])
  }

  lemma {:induction false} JoinConcat(a: seq<string>, b: seq<string>)
    requires a != [] && b != []
    ensures Join(a + b, " ") == Join(a, " ") + " " + Join(b, " ")
  {
    assert (a + b)[1..] == a[1..] + b;
    if |a| > 1 { JoinConcat(a[1..], b); } else { assert a[1..] + b == b; }
  }

  lemma {:induction false} WordsNonEmpty(wants: seq<Want>)
    requires wants != []
    ensures Words(wants) != []
  {
  }

  /** A rule's text is its words joined with single spaces. */
  lemma {:induction false} TextIsJoinedWords(wants: seq<Want>)
    ensures Join(WantTexts(wants), " ") == Join(Words(wants), " ")
  {
    if wants != [] {
      var rest := wants[1..];
      TextIsJoinedWords(rest);
      assert WantTexts(wants) == [WantText(wants[0])] + WantTexts(rest);
      if rest == [] {
        assert Words(wants) == WantWords(wants[0]);
      } else {
        WordsNonEmpty(rest);
        JoinConcat(WantWords(wants[0]), Words(rest));
        assert WantTexts(wants)[1..] == WantTexts(rest);
      }
    }
  }

  lemma {:induction false} WordsConcat(a: seq<Want>, b: seq<Want>)
    ensures Words(a + b) == Words(a) + Words(b)
  {
    if a == [] {
      assert a + b == b;
    } else {
      assert (a + b)[1..] == a[1..] + b;
      WordsConcat(a[1..], b);
    }
  }

  lemma WordsOfOne(w: Want)
    ensures Words([w]) == WantWords(w)
  {
    assert [w][1..] == [];
  }

  // The words of a rule, segment by segment; each segment is empty or announces itself.

  function FromProto(r: NormalizedRule): seq<string> { Words(ProtoWants(r)) + [r.action] }

  function FromState(r: NormalizedRule): seq<string> { Words(StateWants(r)) + FromProto(r) }

  function FromDestination(family: string, r: NormalizedRule): seq<string> {
    Words(DestinationWants(family, r)) + FromState(r)
  }

  function FromSource(family: string, r: NormalizedRule): seq<string> {
    Words(SourceWants(family, r)) + FromDestination(family, r)
  }

  function FromOut(family: string, r: NormalizedRule): seq<string> { Words(OutWants(r)) + FromSource(family, r) }

  function FromIn(family: string, r: NormalizedRule): seq<string> { Words(InWants(r)) + FromOut(family, r) }

  lemma RuleWords(family: string, r: NormalizedRule)
    ensures Words(Wants(family, r)) == FromIn(family, r)
  {
    var action := [Do(r.action)];
    WordsOfOne(Do(r.action));
    hide Words, InWants, OutWants, SourceWants, DestinationWants, StateWants, ProtoWants;
    var d := ProtoWants(r) + action;
    var c := StateWants(r) + d;
    var b := DestinationWants(family, r) + c;
    var a := SourceWants(family, r) + b;
    WordsConcat(InWants(r), OutWants(r) + a);
    WordsConcat(OutWants(r), a);
    WordsConcat(SourceWants(family, r), b);
    WordsConcat(DestinationWants(family, r), c);
    WordsConcat(StateWants(r), d);
    WordsConcat(ProtoWants(r), action);
  }

  predicate AllWords(words: seq<string>) { forall w <- words :: IsWord(w) }

  lemma AddressIsWord(a: string)
    requires IsAddress(a)
    ensures IsWord(a)
  {
    forall i | 0 <= i < |a| ensures !IsSpace(a[i]) {}
  }

  lemma QuotedIsWord(name: string)
    requires IsInterfaceName(name)
    ensures IsWord("\"" + name + "\"")
  {
    var q := "\"" + name + "\"";
    forall i | 0 <= i < |q| ensures !IsSpace(q[i]) {
      if 0 < i <= |name| { assert q[i] == name[i - 1]; }
    }
  }

  lemma {:induction false} JoinIsSpaceless(parts: seq<string>)
    requires forall p <- parts :: Spaceless(p)
    ensures Spaceless(Join(parts, ","))
  {
    if |parts| > 1 { JoinIsSpaceless(parts[1..]); assert parts[0] in parts; }
  }

  lemma StatesAreOneWord(states: seq<string>)
    requires GoodStates(states) && states != []
    ensures IsWord(Join(states, ","))
  {
    forall p <- states ensures Spaceless(p) && p != "" { assert p in CT_STATES; }
    JoinIsSpaceless(states);
    assert states[0] in states;
  }

  lemma InterfaceWords(family: string, r: NormalizedRule)
    requires WellFormed(r)
    ensures AllWords(Words(InWants(r))) && AllWords(Words(OutWants(r)))
  {
    hide IsInterfaceName, IsAddress, GoodStates;
    if r.inInterface != "" { QuotedIsWord(r.inInterface); WordsOfOne(InInterface(r.inInterface)); }
    if r.outInterface != "" { QuotedIsWord(r.outInterface); WordsOfOne(OutInterface(r.outInterface)); }
  }

  lemma AddressWords(family: string, r: NormalizedRule)
    requires WellFormed(r) && family in FAMILIES
    ensures AllWords(Words(SourceWants(family, r))) && AllWords(Words(DestinationWants(family, r)))
  {
    hide IsInterfaceName, IsAddress, GoodStates, AddressIsV6;
    if r.source != "" { AddressIsWord(r.source); WordsOfOne(SourceIn(AddressKeyword(family, r.source), r.source)); }
    if r.destination != "" {
      AddressIsWord(r.destination);
      WordsOfOne(DestinationIn(AddressKeyword(family, r.destination), r.destination));
    }
  }

  lemma StateWords(r: NormalizedRule)
    requires WellFormed(r)
    ensures AllWords(Words(StateWants(r)))
  {
    if r.ctStates != [] {
      StatesAreOneWord(r.ctStates);
      WordsOfOne(StateIn(r.ctStates));
      hide GoodStates, Words, Join;
    }
  }

  lemma PortIsWord(port: nat)
    ensures IsWord(Itoa(port))
  {
    ItoaOfNat(port);
    hide Itoa;
  }

  lemma KeywordsAreWords()
    ensures IsWord("dport") && IsWord("ip") && IsWord("protocol") && IsWord("icmp")
    ensures IsWord("ip6") && IsWord("nexthdr") && IsWord("icmpv6") && IsWord("tcp") && IsWord("udp")
    ensures IsWord("accept") && IsWord("drop") && IsWord("reject")
  {
  }

  lemma ProtoWords(r: NormalizedRule)
    requires WellFormed(r)
    ensures AllWords(FromProto(r))
  {
    assert r.action in ACTIONS && r.proto in PROTOS && (r.proto in {"tcp", "udp"} ==> r.port >= 0);
    if r.proto in {"tcp", "udp"} { PortIsWord(r.port); }
    KeywordsAreWords();
    WordsOfProto(r);
    hide WellFormed, FromProto, IsWord, Itoa;
    assert IsWord(r.action) && (r.proto == "" || IsWord(r.proto));
  }

  lemma NoWords()
    ensures Words([]) == []
  {
  }

  lemma RuleTextIsWords(family: string, r: NormalizedRule)
    requires WellFormed(r) && family in FAMILIES
    ensures AllWords(FromIn(family, r))
    ensures RenderRule(family, r) == Join(FromIn(family, r), " ")
  {
    InterfaceWords(family, r);
    AddressWords(family, r);
    StateWords(r);
    ProtoWords(r);
    RuleWords(family, r);
    TextIsJoinedWords(Wants(family, r));
    hide WellFormed, Words, FromProto, InWants, OutWants, SourceWants, DestinationWants, StateWants, IsWord, Wants;
  }

  // -------------------------------------------------- equal words mean an equal rule

  lemma WordsOf(r: NormalizedRule, family: string)
    ensures Words(InWants(r)) == if r.inInterface == "" then [] else WantWords(InInterface(r.inInterface))
    ensures Words(OutWants(r)) == if r.outInterface == "" then [] else WantWords(OutInterface(r.outInterface))
    ensures Words(SourceWants(family, r)) ==
              if r.source == "" then [] else [AddressKeyword(family, r.source), "saddr", r.source]
    ensures Words(DestinationWants(family, r)) ==
              if r.destination == "" then [] else [AddressKeyword(family, r.destination), "daddr", r.destination]
    ensures Words(StateWants(r)) == if r.ctStates == [] then [] else ["ct", "state", Join(r.ctStates, ",")]
  {
    NoWords();
    if r.inInterface != "" { WordsOfOne(InInterface(r.inInterface)); }
    if r.outInterface != "" { WordsOfOne(OutInterface(r.outInterface)); }
    if r.source != "" { WordsOfOne(SourceIn(AddressKeyword(family, r.source), r.source)); }
    if r.destination != "" { WordsOfOne(DestinationIn(AddressKeyword(family, r.destination), r.destination)); }
    if r.ctStates != [] { WordsOfOne(StateIn(r.ctStates)); }
  }

  lemma WordsOfProto(r: NormalizedRule)
    requires r.proto in PROTOS
    ensures FromProto(r) ==
              if r.proto in {"tcp", "udp"} then [r.proto, "dport", Itoa(r.port), r.action]
              else if r.proto == "icmp" then ["ip", "protocol", "icmp", r.action]
              else if r.proto == "icmpv6" then ["ip6", "nexthdr", "icmpv6", r.action]
              else [r.action]
  {
    NoWords();
    if r.proto in {"tcp", "udp"} { WordsOfOne(PortIs(r.proto, r.port)); }
    if r.proto == "icmp" { WordsOfOne(IsIcmp); }
    if r.proto == "icmpv6" { WordsOfOne(IsIcmpv6); }
  }

  /** The action word and what a protocol announces are none of the words that open earlier segments. */
  lemma ProtoOpening(r: NormalizedRule)
    requires r.action in ACTIONS && r.proto in PROTOS
    ensures FromProto(r) != [] && FromProto(r)[0] in {"accept", "drop", "reject", "tcp", "udp", "ip", "ip6"}
    ensures |FromProto(r)| > 1 ==> FromProto(r)[1] in {"dport", "protocol", "nexthdr"}
  {
    WordsOfProto(r);
    hide Words, Itoa, ProtoWants;
  }

  lemma StateOpening(r: NormalizedRule)
    requires r.action in ACTIONS && r.proto in PROTOS
    ensures FromState(r) != [] && FromState(r)[0] in {"ct", "accept", "drop", "reject", "tcp", "udp", "ip", "ip6"}
    ensures |FromState(r)| > 1 ==> FromState(r)[1] in {"state", "dport", "protocol", "nexthdr"}
  {
    WordsOf(r, "ip");
    ProtoOpening(r);
    hide Words, Join, FromProto, StateWants, InWants, OutWants, SourceWants, DestinationWants;
  }

  lemma DestinationOpening(family: string, r: NormalizedRule)
    requires r.action in ACTIONS && r.proto in PROTOS && family in FAMILIES
    ensures FromDestination(family, r) != []
    ensures FromDestination(family, r)[0] in {"ct", "accept", "drop", "reject", "tcp", "udp", "ip", "ip6"}
    ensures |FromDestination(family, r)| > 1 ==>
              FromDestination(family, r)[1] in {"daddr", "state", "dport", "protocol", "nexthdr"}
  {
    WordsOf(r, family);
    StateOpening(r);
    hide Words, Join, FromState, StateWants, InWants, OutWants, SourceWants, DestinationWants, AddressIsV6;
  }

  lemma SourceOpening(family: string, r: NormalizedRule)
    requires r.action in ACTIONS && r.proto in PROTOS && family in FAMILIES
    ensures FromSource(family, r) != []
    ensures FromSource(family, r)[0] in {"ct", "accept", "drop", "reject", "tcp", "udp", "ip", "ip6"}
  {
    WordsOf(r, family);
    DestinationOpening(family, r);
    hide Words, Join, FromDestination, StateWants, InWants, OutWants, SourceWants, DestinationWants, AddressIsV6;
  }

  lemma OutOpening(family: string, r: NormalizedRule)
    requires r.action in ACTIONS && r.proto in PROTOS && family in FAMILIES
    ensures FromOut(family, r) != []
    ensures FromOut(family, r)[0] != "iif"
  {
    WordsOf(r, family);
    SourceOpening(family, r);
    hide Words, Join, FromSource, StateWants, InWants, OutWants, SourceWants, DestinationWants;
  }

  /** What the words from each segment on cannot begin with. */
  lemma Openings(family: string, r: NormalizedRule)
    requires WellFormed(r) && family in FAMILIES
    ensures FromProto(r) != [] && FromProto(r)[0] != "ct"
    ensures |FromState(r)| > 1 ==> FromState(r)[1] != "daddr"
    ensures |FromDestination(family, r)| > 1 ==> FromDestination(family, r)[1] != "saddr"
    ensures FromSource(family, r) != [] && FromSource(family, r)[0] != "oif"
    ensures FromOut(family, r) != [] && FromOut(family, r)[0] != "iif"
  {
    ProtoOpening(r);
    StateOpening(r);
    DestinationOpening(family, r);
    SourceOpening(family, r);
    OutOpening(family, r);
    hide FromProto, FromState, FromDestination, FromSource, FromOut, IsAddress, IsInterfaceName, GoodStates;
  }

  /** Two word lists whose first segments cannot be mistaken for what follows the other. */
  lemma PeelSegment(segA: seq<string>, restA: seq<string>, segB: seq<string>, restB: seq<string>)
    requires segA + restA == segB + restB
    requires segA == [] || segB == [] || |segA| == |segB|
    requires segA == [] || !(segA <= restB)
    requires segB == [] || !(segB <= restA)
    ensures segA == segB && restA == restB
  {
    var x, y := segA + restA, segB + restB;
    assert segA <= x && segB <= y;
    assert segA == [] ==> x == restA;
    assert segB == [] ==> y == restB;
    assert segA == x[..|segA|] && segB == y[..|segB|];
    assert restA == x[|segA|..] && restB == y[|segB|..];
  }

  lemma PeelIn(family: string, a: NormalizedRule, b: NormalizedRule)
    requires WellFormed(a) && WellFormed(b) && family in FAMILIES && FromIn(family, a) == FromIn(family, b)
    ensures a.inInterface == b.inInterface && FromOut(family, a) == FromOut(family, b)
  {
    Openings(family, a);
    Openings(family, b);
    WordsOf(a, family);
    WordsOf(b, family);
    hide Words, WellFormed, FromOut;
    PeelSegment(Words(InWants(a)), FromOut(family, a), Words(InWants(b)), FromOut(family, b));
    NamesOfQuotes(a.inInterface, b.inInterface);
  }

  lemma NamesOfQuotes(x: string, y: string)
    ensures "\"" + x + "\"" == "\"" + y + "\"" ==> x == y
  {
    var p, q := "\"" + x + "\"", "\"" + y + "\"";
    assert x == p[1..|p| - 1] && y == q[1..|q| - 1];
  }

  lemma PeelOut(family: string, a: NormalizedRule, b: NormalizedRule)
    requires WellFormed(a) && WellFormed(b) && family in FAMILIES && FromOut(family, a) == FromOut(family, b)
    ensures a.outInterface == b.outInterface && FromSource(family, a) == FromSource(family, b)
  {
    Openings(family, a);
    Openings(family, b);
    WordsOf(a, family);
    WordsOf(b, family);
    hide Words, WellFormed, FromSource;
    PeelSegment(Words(OutWants(a)), FromSource(family, a), Words(OutWants(b)), FromSource(family, b));
    NamesOfQuotes(a.outInterface, b.outInterface);
  }

  lemma PeelSource(family: string, a: NormalizedRule, b: NormalizedRule)
    requires WellFormed(a) && WellFormed(b) && family in FAMILIES && FromSource(family, a) == FromSource(family, b)
    ensures a.source == b.source && FromDestination(family, a) == FromDestination(family, b)
  {
    Openings(family, a);
    Openings(family, b);
    WordsOf(a, family);
    WordsOf(b, family);
    hide Words, WellFormed, FromDestination, AddressIsV6;
    var x, y := Words(SourceWants(family, a)), Words(SourceWants(family, b));
    assert a.source != "" ==> x[0] in {"ip", "ip6"} && x[1] == "saddr" && x[2] == a.source;
    assert b.source != "" ==> y[0] in {"ip", "ip6"} && y[1] == "saddr" && y[2] == b.source;
    PeelSegment(x, FromDestination(family, a), y, FromDestination(family, b));
  }

  lemma PeelDestination(family: string, a: NormalizedRule, b: NormalizedRule)
    requires WellFormed(a) && WellFormed(b) && family in FAMILIES && FromDestination(family, a) == FromDestination(family, b)
    ensures a.destination == b.destination && FromState(a) == FromState(b)
  {
    hide Words, WellFormed, FromState, AddressIsV6;
    Openings(family, a);
    Openings(family, b);
    WordsOf(a, family);
    WordsOf(b, family);
    var x, y := Words(DestinationWants(family, a)), Words(DestinationWants(family, b));
    assert a.destination != "" ==> x[0] in {"ip", "ip6"} && x[1] == "daddr" && x[2] == a.destination;
    assert b.destination != "" ==> y[0] in {"ip", "ip6"} && y[1] == "daddr" && y[2] == b.destination;
    PeelSegment(x, FromState(a), y, FromState(b));
  }

  lemma StatesOf(r: NormalizedRule)
    requires WellFormed(r)
    ensures GoodStates(r.ctStates)
  {
  }

  lemma PeelState(a: NormalizedRule, b: NormalizedRule)
    requires WellFormed(a) && WellFormed(b) && FromState(a) == FromState(b)
    ensures a.ctStates == b.ctStates && FromProto(a) == FromProto(b)
  {
    hide Words, WellFormed, FromProto, GoodStates, Join;
    StatesOf(a);
    StatesOf(b);
    Openings("ip", a);
    Openings("ip", b);
    WordsOf(a, "ip");
    WordsOf(b, "ip");
    var x, y := Words(StateWants(a)), Words(StateWants(b));
    assert a.ctStates != [] ==> x[2] == Join(a.ctStates, ",");
    assert b.ctStates != [] ==> y[2] == Join(b.ctStates, ",");
    PeelSegment(x, FromProto(a), y, FromProto(b));
    if a.ctStates != [] { JoinStatesInjective(a.ctStates, b.ctStates); }
  }

  lemma PeelProto(a: NormalizedRule, b: NormalizedRule)
    requires WellFormed(a) && WellFormed(b) && FromProto(a) == FromProto(b)
    ensures a.proto == b.proto && a.port == b.port && a.action == b.action
  {
    WordsOfProto(a);
    WordsOfProto(b);
    hide Words, FromProto, IsAddress, IsInterfaceName, GoodStates;
    assert |FromProto(a)| == |FromProto(b)|;
    if a.proto in {"tcp", "udp"} {
      assert FromProto(b)[0] in {"tcp", "udp"};
      assert Itoa(a.port) == FromProto(a)[2] == FromProto(b)[2] == Itoa(b.port);
      ItoaInjective(a.port, b.port);
    }
  }

  /** In one chain and one family, rules that print alike are the same rule. */
  lemma RenderRuleInjective(family: string, a: NormalizedRule, b: NormalizedRule)
    requires WellFormed(a) && WellFormed(b) && family in FAMILIES && a.chain == b.chain
    requires RenderRule(family, a) == RenderRule(family, b)
    ensures a == b
  {
    RuleTextIsWords(family, a);
    RuleTextIsWords(family, b);
    FieldsOfJoin(FromIn(family, a));
    FieldsOfJoin(FromIn(family, b));
    hide RenderRule, FromIn, FromOut, FromSource, FromDestination, FromState, FromProto, WellFormed;
    PeelIn(family, a, b);
    PeelOut(family, a, b);
    PeelSource(family, a, b);
    PeelDestination(family, a, b);
    PeelState(a, b);
    PeelProto(a, b);
  }

  // -------------------------------------------------- equal text means an equal policy

  /** The same table, policies and, chain by chain, rules. */
  ghost predicate SamePolicy(a: NormalizedSpec, b: NormalizedSpec) {
    && a.family == b.family && a.table == b.table && a.policies == b.policies
    && forall c :: ChainRules(a.rules, c) == ChainRules(b.rules, c)
  }

  lemma RuleLineIsOneLine(family: string, r: NormalizedRule)
    requires WellFormed(r) && family in FAMILIES
    ensures '\n' !in RuleLine(family, r)
  {
    RuleTextIsWords(family, r);
    var words := FromIn(family, r);
    forall w <- words ensures '\n' !in w { assert IsWord(w); }
    JoinHasOnly(words, " ", '\n');
    hide RenderRule, FromIn, WellFormed;
  }

  lemma ChainLinesAreLines(s: NormalizedSpec, chain: string)
    requires WellFormedSpec(s) && chain in s.policies
    ensures forall l <- ChainLines(s, chain) :: '\n' !in l
  {
    assert chain in CHAINS && PolicyOf(s, chain) in {"accept", "drop"};
    FixedLinesAreLines(chain, PolicyOf(s, chain));
    ChainRulesAre(s.rules, chain);
    var rules := ChainRules(s.rules, chain);
    hide ChainHead, HookLine, PolicyLine, RuleLine, WellFormed, IsTableName;
    forall i | 0 <= i < |rules| ensures '\n' !in RuleLines(s.family, rules)[i] {
      assert rules[i] in s.rules;
      RuleLineIsOneLine(s.family, rules[i]);
    }
  }

  lemma FixedLinesAreLines(chain: string, policy: string)
    requires chain in CHAINS && policy in {"accept", "drop"}
    ensures '\n' !in ChainHead(chain) && '\n' !in HookLine(chain) && '\n' !in PolicyLine(policy)
  {
    HookLineIsLine(chain);
    hide HookLine;
  }

  lemma HookLineIsLine(chain: string)
    requires chain in CHAINS
    ensures '\n' !in HookLine(chain)
  {
    hide Join;
    var words := ["type", "filter", "hook", chain, "priority", "0;"];
    assert '\n' !in chain;
    JoinHasOnly(words, " ", '\n');
  }

  lemma {:induction false} BlockLinesAreLines(s: NormalizedSpec, order: seq<string>)
    requires WellFormedSpec(s)
    ensures forall l <- BlockLines(s, order) :: '\n' !in l
  {
    hide ChainLines, WellFormedSpec;
    if order != [] {
      BlockLinesAreLines(s, order[1..]);
      ManagedIsPolicies(s);
      if order[0] in Managed(s) { ChainLinesAreLines(s, order[0]); }
    }
  }

  lemma TableNameIsWord(table: string)
    requires IsTableName(table)
    ensures IsWord(table)
  {
    forall i | 0 <= i < |table| ensures !IsSpace(table[i]) {}
  }

  lemma HeaderReadsBack(s: NormalizedSpec)
    requires WellFormedSpec(s)
    ensures Fields(HeaderLine(s)) == ["table", s.family, s.table, "{"]
    ensures '\n' !in HeaderLine(s)
  {
    TableNameIsWord(s.table);
    var words := ["table", s.family, s.table, "{"];
    assert IsWord(s.family) && IsWord("table") && IsWord("{");
    FieldsOfJoin(words);
    forall w <- words ensures '\n' !in w { assert IsWord(w); }
    JoinHasOnly(words, " ", '\n');
    hide WellFormedSpec;
  }

  /** Everything ahead of a marker that occurs in neither prefix is read back. */
  lemma {:induction false} PrefixesBeforeMarker(p: seq<string>, x: seq<string>, q: seq<string>, y: seq<string>, marker: string)
    requires p + [marker] + x == q + [marker] + y
    requires marker !in p && marker !in q
    ensures p == q && x == y
  {
    var s, t := p + [marker] + x, q + [marker] + y;
    assert s[|p|] == marker && t[|q|] == marker;
    assert forall i :: 0 <= i < |p| ==> s[i] == p[i] && p[i] in p;
    assert forall i :: 0 <= i < |q| ==> t[i] == q[i] && q[i] in q;
    assert |p| == |q|;
    assert p == s[..|p|] && q == t[..|q|];
    assert x == s[|p| + 1..] && y == t[|q| + 1..];
  }

  lemma {:induction false} RuleLinesInjective(family: string, a: seq<NormalizedRule>, b: seq<NormalizedRule>, chain: string)
    requires family in FAMILIES
    requires forall r <- a :: WellFormed(r) && r.chain == chain
    requires forall r <- b :: WellFormed(r) && r.chain == chain
    requires RuleLines(family, a) == RuleLines(family, b)
    ensures a == b
  {
    hide RenderRule, WellFormed;
    assert |RuleLines(family, a)| == |a| && |RuleLines(family, b)| == |b|;
    forall i | 0 <= i < |a| ensures a[i] == b[i] {
      assert a[i] in a && b[i] in b;
      var x, y := RuleLines(family, a)[i], RuleLines(family, b)[i];
      assert RenderRule(family, a[i]) == x[4..] && RenderRule(family, b[i]) == y[4..];
      RenderRuleInjective(family, a[i], b[i]);
    }
  }

  lemma RuleLinesHaveNoEnd(family: string, rules: seq<NormalizedRule>)
    ensures CHAIN_END !in RuleLines(family, rules)
  {
    hide RenderRule;
    forall i | 0 <= i < |rules| ensures RuleLines(family, rules)[i] != CHAIN_END {
      assert RuleLine(family, rules[i])[2] == ' ';
    }
  }

  lemma PolicyLineInjective(p: string, q: string)
    requires PolicyLine(p) == PolicyLine(q)
    ensures p == q
  {
    var x, y := PolicyLine(p), PolicyLine(q);
    assert p == x[11..|x| - 1] && q == y[11..|y| - 1];
  }

  lemma ChainBlockInjective(a: NormalizedSpec, b: NormalizedSpec, chain: string, x: seq<string>, y: seq<string>)
    requires WellFormedSpec(a) && WellFormedSpec(b) && a.family == b.family
    requires chain in a.policies && chain in b.policies
    requires ChainLines(a, chain) + x == ChainLines(b, chain) + y
    ensures a.policies[chain] == b.policies[chain]
    ensures ChainRules(a.rules, chain) == ChainRules(b.rules, chain)
    ensures x == y
  {
    var ra, rb := ChainRules(a.rules, chain), ChainRules(b.rules, chain);
    ChainRulesAre(a.rules, chain);
    ChainRulesAre(b.rules, chain);
    RuleLinesHaveNoEnd(a.family, ra);
    RuleLinesHaveNoEnd(b.family, rb);
    hide ChainHead, HookLine, PolicyLine, RuleLines, WellFormed, IsTableName;
    var la, lb := ChainLines(a, chain) + x, ChainLines(b, chain) + y;
    assert la[2] == PolicyLine(PolicyOf(a, chain)) && lb[2] == PolicyLine(PolicyOf(b, chain));
    PolicyLineInjective(PolicyOf(a, chain), PolicyOf(b, chain));
    assert la[4..] == RuleLines(a.family, ra) + [CHAIN_END] + x;
    assert lb[4..] == RuleLines(b.family, rb) + [CHAIN_END] + y;
    PrefixesBeforeMarker(RuleLines(a.family, ra), x, RuleLines(b.family, rb), y, CHAIN_END);
    RuleLinesInjective(a.family, ra, rb, chain);
  }

  lemma {:induction false} FirstBlockLine(s: NormalizedSpec, order: seq<string>, chain: string)
    requires chain !in order
    ensures BlockLines(s, order) != [] && BlockLines(s, order)[0] != ChainHead(chain)
  {
    if order == [] {
      assert ChainHead(chain)[0] == ' ';
    } else {
      FirstBlockLine(s, order[1..], chain);
      assert order[0] in order;
      if order[0] in Managed(s) {
        var x, y := ChainHead(order[0]), ChainHead(chain);
        assert x[8..|x| - 2] == order[0] && y[8..|y| - 2] == chain;
      }
    }
  }

  predicate SameOn(a: NormalizedSpec, b: NormalizedSpec, c: string) {
    && (c in a.policies <==> c in b.policies)
    && (c in a.policies ==> a.policies[c] == b.policies[c] && ChainRules(a.rules, c) == ChainRules(b.rules, c))
  }

  lemma {:induction false} BlocksInjective(a: NormalizedSpec, b: NormalizedSpec, order: seq<string>)
    requires WellFormedSpec(a) && WellFormedSpec(b) && a.family == b.family
    requires forall i, j :: 0 <= i < j < |order| ==> order[i] != order[j]
    requires BlockLines(a, order) == BlockLines(b, order)
    ensures forall c <- order :: SameOn(a, b, c)
  {
    ManagedIsPolicies(a);
    ManagedIsPolicies(b);
    if order != [] {
      var c, rest := order[0], order[1..];
      hide ChainLines, WellFormedSpec;
      assert c !in rest;
      FirstBlockLine(a, rest, c);
      FirstBlockLine(b, rest, c);
      ChainLinesStart(a, c);
      ChainLinesStart(b, c);
      assert c in Managed(a) <==> c in Managed(b);
      if c in Managed(a) {
        ChainBlockInjective(a, b, c, BlockLines(a, rest), BlockLines(b, rest));
      }
      BlocksInjective(a, b, rest);
      assert SameOn(a, b, c);
      assert order == [c] + rest;
    }
  }

  lemma ChainLinesStart(s: NormalizedSpec, chain: string)
    ensures ChainLines(s, chain) != [] && ChainLines(s, chain)[0] == ChainHead(chain)
  {
  }

  lemma {:induction false} SameBlocks(a: NormalizedSpec, b: NormalizedSpec, order: seq<string>)
    requires SamePolicy(a, b) && Managed(a) == Managed(b)
    ensures BlockLines(a, order) == BlockLines(b, order)
  {
    if order != [] { SameBlocks(a, b, order[1..]); }
  }

  /** Two normalised specs render to the same text if and only if they are the same policy. */
  lemma RenderingIsInjective(a: NormalizedSpec, b: NormalizedSpec)
    requires WellFormedSpec(a) && WellFormedSpec(b)
    ensures Rendered(a) == Rendered(b) <==> SamePolicy(a, b)
  {
    ManagedIsPolicies(a);
    ManagedIsPolicies(b);
    if SamePolicy(a, b) {
      SameBlocks(a, b, CHAIN_ORDER);
    }
    if Rendered(a) == Rendered(b) {
      HeaderReadsBack(a);
      HeaderReadsBack(b);
      BlockLinesAreLines(a, CHAIN_ORDER);
      BlockLinesAreLines(b, CHAIN_ORDER);
      UnlinesInjective(RenderLines(a), RenderLines(b));
      TextMeansPolicy(a, b);
    }
  }

  lemma TextMeansPolicy(a: NormalizedSpec, b: NormalizedSpec)
    requires WellFormedSpec(a) && WellFormedSpec(b) && RenderLines(a) == RenderLines(b)
    ensures SamePolicy(a, b)
  {
    SameHeaders(a, b);
    var la, lb := RenderLines(a), RenderLines(b);
    hide BlockLines, HeaderLine, WellFormed, IsTableName;
    assert BlockLines(a, CHAIN_ORDER) == la[1..] && BlockLines(b, CHAIN_ORDER) == lb[1..];
    BlocksInjective(a, b, CHAIN_ORDER);
    hide WellFormedSpec, RenderLines, ChainRules, SameOn;
    SamePolicyMaps(a, b);
    forall c ensures ChainRules(a.rules, c) == ChainRules(b.rules, c) { SameEverywhere(a, b, c); }
  }

  lemma SamePolicyMaps(a: NormalizedSpec, b: NormalizedSpec)
    requires WellFormedSpec(a) && WellFormedSpec(b)
    requires forall k <- CHAIN_ORDER :: SameOn(a, b, k)
    ensures a.policies == b.policies
  {
    hide WellFormedSpec, ChainRules;
    forall c ensures SameOn(a, b, c) { SameEverywhere(a, b, c); }
    assert forall c :: c in a.policies ==> SameOn(a, b, c);
    assert forall c :: c in b.policies ==> SameOn(a, b, c);
  }

  lemma SameHeaders(a: NormalizedSpec, b: NormalizedSpec)
    requires WellFormedSpec(a) && WellFormedSpec(b) && RenderLines(a) == RenderLines(b)
    ensures a.family == b.family && a.table == b.table
  {
    HeaderReadsBack(a);
    HeaderReadsBack(b);
    hide BlockLines, HeaderLine, WellFormedSpec, Fields;
    assert HeaderLine(a) == RenderLines(a)[0] && HeaderLine(b) == RenderLines(b)[0];
    var x, y := Fields(HeaderLine(a)), Fields(HeaderLine(b));
    assert x[1] == a.family && y[1] == b.family && x[2] == a.table && y[2] == b.table;
  }

  /** Chains the rendering does not walk have neither policy nor rules. */
  lemma SameEverywhere(a: NormalizedSpec, b: NormalizedSpec, c: string)
    requires WellFormedSpec(a) && WellFormedSpec(b)
    requires forall k <- CHAIN_ORDER :: SameOn(a, b, k)
    ensures SameOn(a, b, c) && ChainRules(a.rules, c) == ChainRules(b.rules, c)
  {
    hide WellFormed, IsTableName, ChainRules;
    if c in CHAIN_ORDER && c in a.policies {
      assert SameOn(a, b, c);
    } else {
      assert forall k <- CHAINS :: k in CHAIN_ORDER;
      assert c in CHAIN_ORDER ==> SameOn(a, b, c);
      NoRulesOutside(a, c);
      NoRulesOutside(b, c);
    }
  }

  lemma NoRulesOutside(s: NormalizedSpec, c: string)
    requires WellFormedSpec(s) && c !in s.policies
    ensures ChainRules(s.rules, c) == []
  {
    ChainRulesAre(s.rules, c);
    assert ChainRules(s.rules, c) != [] ==> ChainRules(s.rules, c)[0] in ChainRules(s.rules, c);
  }
}
