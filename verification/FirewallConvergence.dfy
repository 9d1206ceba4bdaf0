// A faithful load of the rendered text reads back as the rule set, and what an empty check means.
module FirewallConvergence {
  import opened Wrappers
  import opened Text
  import opened Sorting
  import opened Firewall
  import opened FirewallDiff
  import opened FirewallRender
  import opened FirewallReadBack
  import opened FirewallText

  // --------------------------------------------------------------------- one rule back

  lemma {:induction false} NoteAllConcat(f: Found, a: seq<Want>, b: seq<Want>)
    ensures NoteAll(f, a + b) == NoteAll(NoteAll(f, a), b)
    decreases |a|
  {
    hide Note;
    if a == [] {
      assert a + b == b;
    } else {
      assert (a + b)[1..] == a[1..] + b;
      NoteAllConcat(Note(f, a[0]), a[1..], b);
    }
  }

  lemma NoteOne(f: Found, w: Want)
    ensures NoteAll(f, [w]) == Note(f, w) && NoteAll(f, []) == f
  {
    assert [w][1..] == [];
    hide Note;
  }

  /** Everything one rule's text names. */
  function FoundOf(r: NormalizedRule): Found {
    Found(r.proto, if r.proto in {"tcp", "udp"} then [r.port] else [], r.source, r.destination,
          r.inInterface, r.outInterface, r.action, r.ctStates)
  }

  function Named(f: Found, r: NormalizedRule): Found {
    f.(inInterface := r.inInterface, outInterface := r.outInterface, source := r.source, destination := r.destination)
  }

  lemma PlacesNoted(family: string, r: NormalizedRule, rest: seq<Want>)
    ensures NoteAll(NOTHING, InWants(r) + (OutWants(r) + (SourceWants(family, r) + (DestinationWants(family, r) + rest)))) ==
            NoteAll(Named(NOTHING, r), rest)
  {
    var c := DestinationWants(family, r) + rest;
    var b := SourceWants(family, r) + c;
    var a := OutWants(r) + b;
    var f0 := NOTHING;
    var f1 := f0.(inInterface := r.inInterface);
    var f2 := f1.(outInterface := r.outInterface);
    var f3 := f2.(source := r.source);
    SegmentNoted(f0, InWants(r), InInterface(r.inInterface), a);
    SegmentNoted(f1, OutWants(r), OutInterface(r.outInterface), b);
    SegmentNoted(f2, SourceWants(family, r), SourceIn(AddressKeyword(family, r.source), r.source), c);
    SegmentNoted(f3, DestinationWants(family, r), DestinationIn(AddressKeyword(family, r.destination), r.destination), rest);
    hide NoteAll, AddressKeyword;
  }

  lemma SegmentNoted(f: Found, segment: seq<Want>, w: Want, rest: seq<Want>)
    requires segment == [] || segment == [w]
    ensures NoteAll(f, segment + rest) == NoteAll(if segment == [] then f else Note(f, w), rest)
  {
    NoteAllConcat(f, segment, rest);
    NoteOne(f, w);
    hide NoteAll, Note;
  }

  lemma RestNoted(f: Found, r: NormalizedRule)
    requires f.states == [] && f.ports == [] && f.proto == "" && r.proto in PROTOS
    ensures NoteAll(f, StateWants(r) + (ProtoWants(r) + [Do(r.action)])) ==
            f.(states := r.ctStates, proto := r.proto, ports := FoundOf(r).ports, action := r.action)
  {
    var f1 := f.(states := r.ctStates);
    var f2 := f1.(proto := r.proto, ports := FoundOf(r).ports);
    assert f.states + r.ctStates == r.ctStates && f.ports + [r.port] == [r.port];
    SegmentNoted(f, StateWants(r), StateIn(r.ctStates), ProtoWants(r) + [Do(r.action)]);
    ProtoNoted(f1, r);
    NoteAllConcat(f1, ProtoWants(r), [Do(r.action)]);
    NoteOne(f2, Do(r.action));
    hide NoteAll, ProtoWants;
  }

  lemma ProtoNoted(f: Found, r: NormalizedRule)
    requires f.ports == [] && f.proto == "" && r.proto in PROTOS
    ensures NoteAll(f, ProtoWants(r)) == f.(proto := r.proto, ports := FoundOf(r).ports)
  {
    NoteOne(f, PortIs(r.proto, r.port));
    NoteOne(f, IsIcmp);
    NoteOne(f, IsIcmpv6);
    hide NoteAll;
  }

  lemma AllNoted(family: string, r: NormalizedRule)
    requires r.proto in PROTOS
    ensures NoteAll(NOTHING, Wants(family, r)) == FoundOf(r)
  {
    PlacesNoted(family, r, StateWants(r) + (ProtoWants(r) + [Do(r.action)]));
    RestNoted(Named(NOTHING, r), r);
    hide NoteAll, InWants, OutWants, SourceWants, DestinationWants, StateWants, ProtoWants;
  }

  lemma WantsAreGood(family: string, r: NormalizedRule)
    requires WellFormed(r) && family in FAMILIES
    ensures forall w <- Wants(family, r) :: Good(w)
  {
    hide IsAddress, IsInterfaceName, GoodStates, AddressIsV6;
    assert forall w <- InWants(r) :: Good(w);
    assert forall w <- OutWants(r) :: Good(w);
    assert forall w <- SourceWants(family, r) :: Good(w);
    assert forall w <- DestinationWants(family, r) :: Good(w);
    assert forall w <- StateWants(r) :: Good(w);
    assert forall w <- ProtoWants(r) :: Good(w);
    assert Good(Do(r.action));
    hide Good, InWants, OutWants, SourceWants, DestinationWants, StateWants, ProtoWants;
  }

  lemma {:induction false} NamedStatesOfClean(states: seq<string>)
    requires forall i :: 0 <= i < |states| ==> states[i] != "" && Clean(states[i]) == states[i]
    requires forall i, j :: 0 <= i < j < |states| ==> states[i] != states[j]
    ensures NamedStates(states) == states
  {
    hide Clean;
    if states != [] {
      var init, last := states[..|states| - 1], states[|states| - 1];
      NamedStatesOfClean(init);
      assert last !in init;
      assert states == init + [last];
    }
  }

  /** Known states in order are already normalised. */
  lemma GoodStatesStay(states: seq<string>)
    requires GoodStates(states)
    ensures NormalizedStates(states) == Ok(states)
  {
    forall i | 0 <= i < |states| ensures states[i] != "" && Clean(states[i]) == states[i] && Clean(states[i]) in CT_STATES {
      StateIsPlain(states[i]);
    }
    hide Clean, StringLe;
    NamedStatesOfClean(states);
    GoodStatesSorted(states);
    OrdersAreTotal();
    SortOfSorted(StringLe, states);
  }

  lemma ChainStays(chain: string)
    requires chain in CHAINS
    ensures NormalizeChain(chain) == Ok(chain)
  {
    assert chain != "" && Letters(chain);
    LettersArePlain(chain);
    hide Clean, Letters;
  }

  lemma OnePort(port: int)
    requires ValidPort(port)
    ensures Sort(IntLe, Dedupe(ValidPorts([port]))) == [port]
    ensures Sort(IntLe, Dedupe(ValidPorts([]))) == []
  {
    assert [port][..0] == [] && ValidPorts([]) == [] && Dedupe<int>([]) == [];
    assert [port][1..] == [];
  }

  lemma NoPort()
    ensures Sort(IntLe, Dedupe(ValidPorts([]))) == []
  {
    OnePort(1);
  }

  lemma FoundIsRule(r: NormalizedRule)
    requires WellFormed(r)
    ensures RulesOfFound(r.chain, FoundOf(r)) == [r]
  {
    GoodStatesStay(r.ctStates);
    NoPort();
    if r.proto in {"tcp", "udp"} { OnePort(r.port); }
    hide NormalizedStates, GoodStates, IsAddress, IsInterfaceName, ValidPorts, Dedupe, Sort;
    assert r.action != "";
  }

  /** Statements that carry the matches a rule's text names read back as exactly that rule. */
  lemma RuleReadsBack(family: string, r: NormalizedRule, live: LiveRule)
    requires WellFormed(r) && family in FAMILIES
    requires live.chain == r.chain && Carries(Wants(family, r), live.exprs)
    ensures RulesOf(live) == [r]
  {
    WantsAreGood(family, r);
    AllNoted(family, r);
    FoundIsRule(r);
    ChainStays(r.chain);
    hide WellFormed, Wants, Good, NormalizeChain, RulesOfFound, FoundOf;
    CarriedIsNoted(NOTHING, Wants(family, r), live.exprs);
  }

  // ---------------------------------------------------------------- a chain's live policy

  /** An entry of the table's listing shows a policy for a base chain: hook and policy in any case, among the known ones. */
  predicate ShowsPolicy(e: Entry, family: string, table: string, chain: string, policy: string) {
    && e.chain.Some? && e.chain.value.family == family && e.chain.value.table == table
    && chain in {"input", "output", "forward"} && Clean(e.chain.value.hook) == chain
    && policy in {"accept", "drop", "reject"} && Clean(e.chain.value.policy) == policy
  }

  /** No entry from this one on shows a policy for the chain. */
  ghost predicate SilentFrom(entries: seq<Entry>, n: nat, family: string, table: string, chain: string) {
    forall k, policy :: n <= k < |entries| ==> !ShowsPolicy(entries[k], family, table, chain, policy)
  }

  /** The last entry that shows a policy for the chain shows this one, or none does and it is accept. */
  ghost predicate Stands(entries: seq<Entry>, family: string, table: string, chain: string, policy: string) {
    || (exists i :: 0 <= i < |entries| && ShowsPolicy(entries[i], family, table, chain, policy)
          && SilentFrom(entries, i + 1, family, table, chain))
    || (policy == "accept" && SilentFrom(entries, 0, family, table, chain))
  }

  lemma BlankIsNoName(text: string)
    requires TrimSpace(text) == ""
    ensures Clean(text) == ""
  {
  }

  lemma ShowsIsChainPolicy(e: Entry, family: string, table: string, chain: string, policy: string)
    ensures ShowsPolicy(e, family, table, chain, policy) <==> ChainPolicy(e, family, table) == Some((chain, policy))
  {
    if e.chain.Some? {
      var c := e.chain.value;
      if TrimSpace(c.hook) == "" { BlankIsNoName(c.hook); }
      if TrimSpace(c.policy) == "" { BlankIsNoName(c.policy); }
    }
    hide Clean, TrimSpace;
  }

  lemma SilentSnoc(init: seq<Entry>, last: Entry, n: nat, family: string, table: string, chain: string)
    requires n <= |init|
    ensures SilentFrom(init + [last], n, family, table, chain) <==>
            SilentFrom(init, n, family, table, chain) && forall p :: !ShowsPolicy(last, family, table, chain, p)
  {
    hide ShowsPolicy;
    var entries := init + [last];
    assert entries[|init|] == last && forall i :: 0 <= i < |init| ==> entries[i] == init[i];
  }

  lemma StandsSnoc(init: seq<Entry>, last: Entry, family: string, table: string, chain: string, policy: string)
    ensures Stands(init + [last], family, table, chain, policy) <==>
            if exists p :: ShowsPolicy(last, family, table, chain, p) then ShowsPolicy(last, family, table, chain, policy)
            else Stands(init, family, table, chain, policy)
  {
    var entries := init + [last];
    assert entries[|init|] == last && forall i :: 0 <= i < |init| ==> entries[i] == init[i];
    assert SilentFrom(entries, |entries|, family, table, chain);
    hide ShowsPolicy, SilentFrom;
    forall n | 0 <= n <= |init|
      ensures SilentFrom(entries, n, family, table, chain) <==>
              SilentFrom(init, n, family, table, chain) && forall p :: !ShowsPolicy(last, family, table, chain, p)
    {
      SilentSnoc(init, last, n, family, table, chain);
    }
  }

  /** The policy read for a chain is the one its last listing shows, and accept if none shows any. */
  lemma {:induction false} LivePolicyStands(entries: seq<Entry>, family: string, table: string, chain: string, policy: string)
    ensures LivePolicy(CurrentState(entries, family, table), chain) == policy <==> Stands(entries, family, table, chain, policy)
  {
    hide ChainPolicy, ShowsPolicy, ReadRules, DedupeRules;
    if entries != [] {
      var init, last := entries[..|entries| - 1], entries[|entries| - 1];
      assert entries == init + [last];
      LivePolicyStands(init, family, table, chain, policy);
      StandsSnoc(init, last, family, table, chain, policy);
      forall p ensures ShowsPolicy(last, family, table, chain, p) <==> ChainPolicy(last, family, table) == Some((chain, p)) {
        ShowsIsChainPolicy(last, family, table, chain, p);
      }
      KnownPolicy(last, family, table);
      hide Stands;
    }
  }

  lemma KnownPolicy(e: Entry, family: string, table: string)
    ensures ChainPolicy(e, family, table).Some? ==> ChainPolicy(e, family, table).value.1 != ""
  {
    hide Clean, TrimSpace;
  }

  // ------------------------------------------------------------------- a faithful load

  /** The rules in the order the text lists them. */
  function RenderedRules(d: NormalizedSpec, order: seq<string>): seq<NormalizedRule> {
    if order == [] then []
    else (if order[0] in d.policies then ChainRules(d.rules, order[0]) else []) + RenderedRules(d, order[1..])
  }

  /** The table's live rules, in the order of the listing. */
  function OwnRules(entries: seq<Entry>, family: string, table: string): seq<LiveRule> {
    if entries == [] then []
    else
      var e := entries[|entries| - 1];
      OwnRules(entries[..|entries| - 1], family, table)
        + if e.rule.Some? && e.rule.value.family == family && e.rule.value.table == table then [e.rule.value] else []
  }

  /** The rules of a text, each with the name of its chain, in the order of the text. */
  function TextRules(chains: seq<TextChain>): seq<(string, seq<Want>)> {
    if chains == [] then []
    else
      seq(|chains[0].rules|, i requires 0 <= i < |chains[0].rules| => (chains[0].name, chains[0].rules[i])) + TextRules(chains[1..])
  }

  /** The live rules carry these rules, one by one. */
  ghost predicate CarryRules(rules: seq<(string, seq<Want>)>, live: seq<LiveRule>) {
    |live| == |rules| && forall i :: 0 <= i < |rules| ==> live[i].chain == rules[i].0 && Carries(rules[i].1, live[i].exprs)
  }

  /** What nft lists after loading a file: each chain on the hook and with the policy its text names, no other policy in the table,
      and the table's rules carrying those of the text in order. */
  ghost predicate FaithfulLoad(entries: seq<Entry>, text: string) {
    match ReadText(text)
    case None => false
    case Some(t) =>
      && (forall i :: 0 <= i < |t.chains| ==>
            exists k :: 0 <= k < |entries| && ShowsPolicy(entries[k], t.family, t.table, t.chains[i].hook, t.chains[i].policy))
      && (forall k, chain, policy :: 0 <= k < |entries| && ShowsPolicy(entries[k], t.family, t.table, chain, policy) ==>
            exists i :: 0 <= i < |t.chains| && t.chains[i].hook == chain && t.chains[i].policy == policy)
      && CarryRules(TextRules(t.chains), OwnRules(entries, t.family, t.table))
  }

  /** A policy that is shown, and that is the only one shown for its chain, stands. */
  lemma {:induction false} OnlyShownStands(entries: seq<Entry>, family: string, table: string, chain: string, policy: string)
    requires exists k :: 0 <= k < |entries| && ShowsPolicy(entries[k], family, table, chain, policy)
    requires forall k, p :: 0 <= k < |entries| && ShowsPolicy(entries[k], family, table, chain, p) ==> p == policy
    ensures Stands(entries, family, table, chain, policy)
  {
    hide ShowsPolicy;
    var init, last := entries[..|entries| - 1], entries[|entries| - 1];
    assert entries == init + [last];
    StandsSnoc(init, last, family, table, chain, policy);
    if !ShowsPolicy(last, family, table, chain, policy) {
      assert forall i :: 0 <= i < |init| ==> init[i] == entries[i];
      OnlyShownStands(init, family, table, chain, policy);
    }
  }

  lemma PoliciesStand(entries: seq<Entry>, d: NormalizedSpec)
    requires WellFormedSpec(d) && FaithfulLoad(entries, Rendered(d))
    ensures forall c <- d.policies :: Stands(entries, d.family, d.table, c, d.policies[c])
  {
    hide WellFormedSpec, ReadText, Rendered, ShowsPolicy, Stands, ChainsOf, CarryRules;
    RenderedIsRead(d);
    ChainsAreOrdered();
    ChainsOfAre(d, CHAIN_ORDER);
    forall c <- d.policies ensures Stands(entries, d.family, d.table, c, d.policies[c]) {
      ChainIsGood(d, c);
      OnlyShownStands(entries, d.family, d.table, c, d.policies[c]);
    }
  }

  function PairsOf(family: string, rules: seq<NormalizedRule>): seq<(string, seq<Want>)> {
    seq(|rules|, i requires 0 <= i < |rules| => (rules[i].chain, Wants(family, rules[i])))
  }

  lemma {:induction false} TextRulesAre(d: NormalizedSpec, order: seq<string>)
    ensures TextRules(ChainsOf(d, order)) == PairsOf(d.family, RenderedRules(d, order))
  {
    hide PairsOf, TextRules, ChainOf, ChainRules;
    if order == [] {
      NoTextRules(d.family);
    } else {
      var c, rest := order[0], order[1..];
      TextRulesAre(d, rest);
      if c in d.policies {
        OneChainsRules(d, c, ChainsOf(d, rest));
        PairsConcat(d.family, ChainRules(d.rules, c), RenderedRules(d, rest));
      } else {
        assert [] + ChainsOf(d, rest) == ChainsOf(d, rest) && [] + RenderedRules(d, rest) == RenderedRules(d, rest);
      }
    }
  }

  lemma NoTextRules(family: string)
    ensures TextRules([]) == PairsOf(family, [])
  {
  }

  lemma PairsConcat(family: string, a: seq<NormalizedRule>, b: seq<NormalizedRule>)
    ensures PairsOf(family, a + b) == PairsOf(family, a) + PairsOf(family, b)
  {
    hide Wants;
  }

  lemma OneChainsRules(d: NormalizedSpec, c: string, more: seq<TextChain>)
    requires c in d.policies
    ensures TextRules([ChainOf(d, c)] + more) == PairsOf(d.family, ChainRules(d.rules, c)) + TextRules(more)
  {
    hide Wants, ChainRules;
    var rules := ChainRules(d.rules, c);
    ChainRulesAre(d.rules, c);
    var chains := [ChainOf(d, c)] + more;
    assert chains[0] == ChainOf(d, c) && chains[1..] == more;
    assert forall i :: 0 <= i < |rules| ==> rules[i] in rules;
  }

  lemma {:induction false} RulesReadBack(entries: seq<Entry>, family: string, table: string, rules: seq<NormalizedRule>)
    requires family in FAMILIES && (forall r <- rules :: WellFormed(r)) && CarryRules(PairsOf(family, rules), OwnRules(entries, family, table))
    ensures ReadRules(entries, family, table) == rules
  {
    hide WellFormed, RulesOf, Carries, Wants;
    if entries != [] {
      var init, last := entries[..|entries| - 1], entries[|entries| - 1];
      if OwnRule(last, family, table) {
        var n := |rules| - 1;
        var live := OwnRules(entries, family, table);
        assert live[..n] == OwnRules(init, family, table) && live[n] == last.rule.value;
        assert forall i :: 0 <= i < n ==> live[..n][i] == live[i] && rules[..n][i] == rules[i];
        assert forall r <- rules[..n] :: r in rules;
        RulesReadBack(init, family, table, rules[..n]);
        assert rules[n] in rules;
        RuleReadsBack(family, rules[n], last.rule.value);
        assert rules == rules[..n] + [rules[n]];
      } else {
        assert OwnRules(entries, family, table) == OwnRules(init, family, table);
        RulesReadBack(init, family, table, rules);
      }
    }
  }

  // ------------------------------------------------------------ the rendered rule order

  lemma {:induction false} ChainRulesConcat(a: seq<NormalizedRule>, b: seq<NormalizedRule>, c: string)
    ensures ChainRules(a + b, c) == ChainRules(a, c) + ChainRules(b, c)
  {
    if b == [] {
      assert a + b == a;
    } else {
      assert (a + b)[..|a + b| - 1] == a + b[..|b| - 1];
      ChainRulesConcat(a, b[..|b| - 1], c);
    }
  }

  lemma {:induction false} ChainOfOneChain(rules: seq<NormalizedRule>, x: string, c: string)
    requires forall r <- rules :: r.chain == x
    ensures ChainRules(rules, c) == if x == c then rules else []
  {
    if rules != [] {
      var init, last := rules[..|rules| - 1], rules[|rules| - 1];
      ChainOfOneChain(init, x, c);
      assert rules == init + [last];
    }
  }

  lemma {:induction false} ChainOfRendered(d: NormalizedSpec, order: seq<string>, c: string)
    requires forall i, j :: 0 <= i < j < |order| ==> order[i] != order[j]
    ensures ChainRules(RenderedRules(d, order), c) == if c in order && c in d.policies then ChainRules(d.rules, c) else []
  {
    hide ChainRules, RenderedRules;
    if order == [] {
      NothingRendered(d, c);
    } else {
      var x, rest := order[0], order[1..];
      var mine := if x in d.policies then ChainRules(d.rules, x) else [];
      ChainRulesAre(d.rules, x);
      assert x !in rest && order == [x] + rest;
      ChainOfRendered(d, rest, c);
      ChainOfOneChain(mine, x, c);
      ChainRulesConcat(mine, RenderedRules(d, rest), c);
      UnrollRendered(d, order);
      assert [] + ChainRules(RenderedRules(d, rest), c) == ChainRules(RenderedRules(d, rest), c);
      assert ChainRules(d.rules, x) + [] == ChainRules(d.rules, x);
    }
  }

  lemma NothingRendered(d: NormalizedSpec, c: string)
    ensures ChainRules(RenderedRules(d, []), c) == []
  {
  }

  lemma {:induction false} RenderedAreDesired(d: NormalizedSpec, order: seq<string>)
    ensures forall r <- RenderedRules(d, order) :: r in d.rules && r.chain in order
  {
    if order != [] {
      ChainRulesAre(d.rules, order[0]);
      RenderedAreDesired(d, order[1..]);
      assert order == [order[0]] + order[1..];
      hide ChainRules;
    }
  }

  lemma DistinctConcat(a: seq<NormalizedRule>, b: seq<NormalizedRule>)
    requires DistinctKeys(a) && DistinctKeys(b) && forall x <- a, y <- b :: Key(x) != Key(y)
    ensures DistinctKeys(a + b)
  {
    hide Key;
    var c := a + b;
    forall i, j | 0 <= i < j < |c| ensures Key(c[i]) != Key(c[j]) {
      assert i < |a| ==> c[i] == a[i] && a[i] in a;
      assert i >= |a| ==> c[i] == b[i - |a|];
      assert j < |a| ==> c[j] == a[j];
      assert j >= |a| ==> c[j] == b[j - |a|] && b[j - |a|] in b;
    }
  }

  lemma SameKeySameRule(x: NormalizedRule, y: NormalizedRule)
    requires WellFormed(x) && WellFormed(y)
    ensures Key(x) == Key(y) ==> x == y
  {
    assert GoodStates(x.ctStates) && x.port >= 0;
    if Key(x) == Key(y) { KeyIdentifies(x, y); }
  }

  lemma {:induction false} RenderedKeysDistinct(d: NormalizedSpec, order: seq<string>)
    requires WellFormedSpec(d) && forall i, j :: 0 <= i < j < |order| ==> order[i] != order[j]
    ensures DistinctKeys(RenderedRules(d, order))
  {
    hide Key, WellFormed, IsTableName;
    if order != [] {
      var x, rest := order[0], order[1..];
      var mine := if x in d.policies then ChainRules(d.rules, x) else [];
      RenderedKeysDistinct(d, rest);
      ChainKeepsDistinct(d.rules, x);
      ChainRulesAre(d.rules, x);
      RenderedAreDesired(d, rest);
      assert x !in rest;
      hide ChainRules, RenderedRules, DistinctKeys;
      var others := RenderedRules(d, rest);
      forall a <- mine, b <- others ensures Key(a) != Key(b) {
        SameKeySameRule(a, b);
      }
      DistinctConcat(mine, others);
      assert RenderedRules(d, order) == mine + others by { UnrollRendered(d, order); }
      assert DistinctKeys(mine + others);
    }
  }

  lemma UnrollRendered(d: NormalizedSpec, order: seq<string>)
    requires order != []
    ensures RenderedRules(d, order) ==
            (if order[0] in d.policies then ChainRules(d.rules, order[0]) else []) + RenderedRules(d, order[1..])
  {
    hide ChainRules;
  }

  lemma {:induction false} DedupeOfDistinctKeys(rules: seq<NormalizedRule>)
    requires DistinctKeys(rules)
    ensures DedupeRules(rules) == rules
  {
    hide Key;
    if rules != [] {
      var init, last := rules[..|rules| - 1], rules[|rules| - 1];
      DedupeOfDistinctKeys(init);
      assert rules == init + [last];
      forall i | 0 <= i < |init| ensures Keys(init)[i] != Key(last) { assert init[i] == rules[i]; }
    }
  }

  lemma LoadedRules(entries: seq<Entry>, d: NormalizedSpec)
    requires WellFormedSpec(d) && FaithfulLoad(entries, Rendered(d))
    ensures ReadRules(entries, d.family, d.table) == RenderedRules(d, CHAIN_ORDER)
  {
    var rules := RenderedRules(d, CHAIN_ORDER);
    RenderedIsRead(d);
    TextRulesAre(d, CHAIN_ORDER);
    RenderedAreDesired(d, CHAIN_ORDER);
    assert d.family in FAMILIES && forall r <- d.rules :: WellFormed(r);
    hide WellFormedSpec, WellFormed, ReadText, Rendered, ShowsPolicy, ChainsOf, CarryRules, RenderedRules, PairsOf, OwnRules, ReadRules;
    RulesReadBack(entries, d.family, d.table, rules);
  }

  /** After a faithful load the live state agrees with the rendered spec. */
  lemma LoadAgrees(entries: seq<Entry>, d: NormalizedSpec)
    requires WellFormedSpec(d) && FaithfulLoad(entries, Rendered(d))
    ensures Agrees(CurrentState(entries, d.family, d.table), d)
  {
    var rules := RenderedRules(d, CHAIN_ORDER);
    LoadedRules(entries, d);
    PoliciesStand(entries, d);
    RenderedKeysDistinct(d, CHAIN_ORDER);
    hide FaithfulLoad, WellFormed, IsTableName, DistinctKeys, RenderedRules, DedupeRules, ReadRules, ReadPolicies, ChainRules, Stands,
         LivePolicy;
    DedupeOfDistinctKeys(rules);
    forall c <- d.policies
      ensures var s := CurrentState(entries, d.family, d.table);
        LivePolicy(s, c) == d.policies[c] && ChainRules(s.rules, c) == ChainRules(d.rules, c)
    {
      assert c in CHAINS && c in CHAIN_ORDER;
      LivePolicyStands(entries, d.family, d.table, c, d.policies[c]);
      ChainOfRendered(d, CHAIN_ORDER, c);
    }
  }

  /** A faithful load of the rendered text shows no difference against the spec. */
  lemma ReadBackConverges(entries: seq<Entry>, d: NormalizedSpec, chains: seq<string>)
    requires WellFormedSpec(d) && FaithfulLoad(entries, Rendered(d)) && Lists(chains, Managed(d))
    ensures IsEmpty(DiffOver(CurrentState(entries, d.family, d.table), d, chains))
  {
    LoadAgrees(entries, d);
    AgreementMeansEmpty(CurrentState(entries, d.family, d.table), d, chains);
  }

  // ------------------------------------------------------------ whatever is loaded is read

  lemma {:induction false} ValidPortsAre(ports: seq<int>)
    ensures forall p <- ValidPorts(ports) :: ValidPort(p)
  {
    if ports != [] { ValidPortsAre(ports[..|ports| - 1]); }
  }

  lemma FoundIsReadBack(chain: string, f: Found)
    ensures forall r <- RulesOfFound(chain, f) :: ReadBackRule(r)
  {
    ValidPortsAre(f.ports);
    OrdersAreTotal();
    SameElements(IntLe, Dedupe(ValidPorts(f.ports)));
    if StatesAllowed(f.states) { NormalizedStatesAreGood(f.states); }
    hide GoodStates, NamedStates, Sort, Dedupe, ValidPorts, HasMatcher, StatesAllowed;
    var ports := Sort(IntLe, Dedupe(ValidPorts(f.ports)));
    forall i | 0 <= i < |ports| ensures ValidPort(ports[i]) { assert ports[i] in Dedupe(ValidPorts(f.ports)); }
  }

  lemma {:induction false} ReadRulesAreReadBack(entries: seq<Entry>, family: string, table: string)
    ensures forall r <- ReadRules(entries, family, table) :: ReadBackRule(r)
  {
    if entries != [] {
      var last := entries[|entries| - 1];
      ReadRulesAreReadBack(entries[..|entries| - 1], family, table);
      if OwnRule(last, family, table) {
        var live := last.rule.value;
        if NormalizeChain(live.chain).Ok? { FoundIsReadBack(NormalizeChain(live.chain).value, ReadAll(NOTHING, live.exprs)); }
        hide NormalizeChain, RulesOfFound, ReadAll, ReadBackRule;
      }
    }
  }

  /** Whatever rules a table holds, ours or foreign, the live state has sorted known states, no negative port and no key twice. */
  lemma CurrentStateIsReadBack(entries: seq<Entry>, family: string, table: string)
    ensures var s := CurrentState(entries, family, table);
      DistinctKeys(s.rules) && forall r <- s.rules :: ReadBackRule(r)
  {
    ReadRulesAreReadBack(entries, family, table);
    DedupeRulesKeeps(ReadRules(entries, family, table));
    hide ReadRules, DedupeRules, ReadBackRule, DistinctKeys, Key;
  }

  /** For every accepted profile and every listing, the diff is empty exactly when, for each managed chain, the policy its last
      listing shows is the desired one, accept if none is shown, and its rules read back as the desired ones in order. */
  lemma CheckIsExact(fw: Spec, entries: seq<Entry>, chains: seq<string>)
    requires Normalized(fw).Ok? && Lists(chains, Managed(Normalized(fw).value))
    ensures var d := Normalized(fw).value;
      var live := CurrentState(entries, d.family, d.table);
      IsEmpty(DiffOver(live, d, chains)) <==>
        forall c <- d.policies ::
          Stands(entries, d.family, d.table, c, d.policies[c]) && Only(live.rules, c) == Only(d.rules, c)
  {
    NormalizedIsWellFormed(fw);
    var d := Normalized(fw).value;
    var live := CurrentState(entries, d.family, d.table);
    CurrentStateIsReadBack(entries, d.family, d.table);
    hide Normalized, WellFormedSpec, CurrentState, ReadBackRule, DistinctKeys, DiffOver, Managed, Lists, LivePolicy, Stands, ChainRules, Only;
    DiffIsExact(live, d, chains);
    forall c <- d.policies
      ensures LivePolicy(live, c) == d.policies[c] <==> Stands(entries, d.family, d.table, c, d.policies[c])
      ensures ChainRules(live.rules, c) == Only(live.rules, c) && ChainRules(d.rules, c) == Only(d.rules, c)
    {
      LivePolicyStands(entries, d.family, d.table, c, d.policies[c]);
      ChainRulesAreOnly(live.rules, c);
      ChainRulesAreOnly(d.rules, c);
    }
  }

  // ----------------------------------------------------------------- what the diff names

  lemma {:induction false} OutsideAre(rules: seq<NormalizedRule>, keys: set<string>)
    ensures forall r :: r in RulesOutside(rules, keys) <==> r in rules && Key(r) !in keys
  {
    hide Key;
    if rules != [] {
      OutsideAre(rules[..|rules| - 1], keys);
      assert rules == rules[..|rules| - 1] + [rules[|rules| - 1]];
    }
  }

  lemma {:induction false} PolicyChangesAre(live: NormalizedSpec, d: NormalizedSpec, chains: seq<string>)
    ensures forall p :: p in PolicyChanges(live, d, chains) <==>
              p.chain in chains && p.from == LivePolicy(live, p.chain) && p.to == PolicyOf(d, p.chain) && p.from != p.to
  {
    hide LivePolicy, PolicyOf;
    if chains != [] {
      PolicyChangesAre(live, d, chains[..|chains| - 1]);
      assert chains == chains[..|chains| - 1] + [chains[|chains| - 1]];
    }
  }

  lemma {:induction false} ReorderedAre(current: seq<NormalizedRule>, desired: seq<NormalizedRule>, chains: seq<string>)
    ensures forall c :: c in Reordered(current, desired, chains) <==> c in chains && IsReordered(current, desired, c)
  {
    hide IsReordered;
    if chains != [] {
      ReorderedAre(current, desired, chains[..|chains| - 1]);
      assert chains == chains[..|chains| - 1] + [chains[|chains| - 1]];
    }
  }

  lemma KeyInIff(r: NormalizedRule, rules: seq<NormalizedRule>)
    requires WellFormed(r) && forall x <- rules :: ReadBackRule(x)
    ensures Key(r) in KeySet(rules) <==> r in rules
  {
    hide Key, WellFormed;
    if x :| x in rules && Key(x) == Key(r) { KeyIdentifies(x, r); }
  }

  lemma KeyOfDesiredIff(r: NormalizedRule, rules: seq<NormalizedRule>)
    requires ReadBackRule(r) && forall x <- rules :: WellFormed(x)
    ensures Key(r) in KeySet(rules) <==> r in rules
  {
    hide Key, WellFormed;
    if x :| x in rules && Key(x) == Key(r) { KeyIdentifies(r, x); }
  }

  lemma ReorderedIff(live: seq<NormalizedRule>, desired: seq<NormalizedRule>, managed: set<string>, c: string)
    requires (forall r <- live :: ReadBackRule(r)) && (forall r <- desired :: WellFormed(r)) && c in managed
    ensures IsReordered(ManagedRules(live, managed), desired, c) <==>
            |Only(live, c)| == |Only(desired, c)| && Only(live, c) != Only(desired, c)
  {
    ChainOfManaged(live, managed, c);
    ChainRulesAreOnly(live, c);
    ChainRulesAreOnly(desired, c);
    ChainRulesAre(live, c);
    ChainRulesAre(desired, c);
    hide ChainRules, Only, Key, WellFormed, ReadBackRule;
    if Keys(Only(live, c)) == Keys(Only(desired, c)) { SameKeysSameRules(Only(live, c), Only(desired, c)); }
  }

  /** What a check reports, for every accepted profile and every listing: the policies that stand differently and from what to
      what, the desired rules that are not read, the rules read from managed chains that are not desired, and the chains with as
      many rules as desired but not those in that order. */
  lemma DiffNames(fw: Spec, entries: seq<Entry>, chains: seq<string>)
    requires Normalized(fw).Ok? && Lists(chains, Managed(Normalized(fw).value))
    ensures var d := Normalized(fw).value;
      var live := CurrentState(entries, d.family, d.table).rules;
      var diff := DiffOver(CurrentState(entries, d.family, d.table), d, chains);
      && (forall p :: p in diff.policyChanges <==>
            && p.chain in d.policies && p.to == d.policies[p.chain] && p.from != p.to
            && Stands(entries, d.family, d.table, p.chain, p.from))
      && (forall r :: r in diff.rulesToAdd <==> r in d.rules && r !in live)
      && (forall r :: r in diff.rulesToRemove <==> r in live && r.chain in d.policies && r !in d.rules)
      && (forall c :: c in diff.reordered <==>
            c in d.policies && |Only(live, c)| == |Only(d.rules, c)| && Only(live, c) != Only(d.rules, c))
  {
    NormalizedIsWellFormed(fw);
    var d := Normalized(fw).value;
    var s := CurrentState(entries, d.family, d.table);
    CurrentStateIsReadBack(entries, d.family, d.table);
    hide Normalized, CurrentState;
    ManagedIsPolicies(d);
    PolicyChangesNamed(entries, d, s, chains);
    RulesNamed(d, s);
    ReorderedNamed(d, s, chains);
  }

  lemma PolicyChangesNamed(entries: seq<Entry>, d: NormalizedSpec, s: NormalizedSpec, chains: seq<string>)
    requires s == CurrentState(entries, d.family, d.table) && Lists(chains, d.policies.Keys)
    ensures forall p :: p in PolicyChanges(s, d, chains) <==>
      && p.chain in d.policies && p.to == d.policies[p.chain] && p.from != p.to
      && Stands(entries, d.family, d.table, p.chain, p.from)
  {
    PolicyChangesAre(s, d, chains);
    hide PolicyChanges, LivePolicy, Stands;
    forall c, p ensures LivePolicy(s, c) == p <==> Stands(entries, d.family, d.table, c, p) {
      LivePolicyStands(entries, d.family, d.table, c, p);
    }
  }

  lemma RulesNamed(d: NormalizedSpec, s: NormalizedSpec)
    requires WellFormedSpec(d) && Managed(d) == d.policies.Keys && forall r <- s.rules :: ReadBackRule(r)
    ensures var mine := ManagedRules(s.rules, Managed(d));
      && (forall r :: r in RulesOutside(d.rules, KeySet(mine)) <==> r in d.rules && r !in s.rules)
      && (forall r :: r in RulesOutside(mine, KeySet(d.rules)) <==> r in s.rules && r.chain in d.policies && r !in d.rules)
  {
    var mine := ManagedRules(s.rules, Managed(d));
    ManagedRulesAre(s.rules, Managed(d));
    OutsideAre(d.rules, KeySet(mine));
    OutsideAre(mine, KeySet(d.rules));
    hide WellFormed, ReadBackRule, Key, KeySet, RulesOutside, ManagedRules, DistinctKeys;
    forall r <- d.rules ensures Key(r) in KeySet(mine) <==> r in s.rules { KeyInIff(r, mine); }
    forall r <- mine ensures Key(r) in KeySet(d.rules) <==> r in d.rules { KeyOfDesiredIff(r, d.rules); }
  }

  lemma ReorderedNamed(d: NormalizedSpec, s: NormalizedSpec, chains: seq<string>)
    requires WellFormedSpec(d) && Managed(d) == d.policies.Keys && Lists(chains, d.policies.Keys)
    requires forall r <- s.rules :: ReadBackRule(r)
    ensures forall c :: c in Reordered(ManagedRules(s.rules, Managed(d)), d.rules, chains) <==>
      c in d.policies && |Only(s.rules, c)| == |Only(d.rules, c)| && Only(s.rules, c) != Only(d.rules, c)
  {
    ReorderedAre(ManagedRules(s.rules, Managed(d)), d.rules, chains);
    hide Reordered, ManagedRules, IsReordered, Only, WellFormed, ReadBackRule, DistinctKeys;
    forall c <- d.policies
      ensures IsReordered(ManagedRules(s.rules, Managed(d)), d.rules, c) <==>
              |Only(s.rules, c)| == |Only(d.rules, c)| && Only(s.rules, c) != Only(d.rules, c)
    {
      ReorderedIff(s.rules, d.rules, Managed(d), c);
    }
  }

  // -------------------------------------------------------------- what foreign rules read as

  function Numbers(ports: seq<int>): seq<Json> { seq(|ports|, i requires 0 <= i < |ports| => Num(ports[i])) }

  lemma {:induction false} NumbersRead(ports: seq<int>)
    ensures PortsOf(Numbers(ports)) == ports
  {
    if ports != [] {
      var init, last := ports[..|ports| - 1], ports[|ports| - 1];
      NumbersRead(init);
      assert Numbers(ports)[..|ports| - 1] == Numbers(init) && Numbers(ports)[|ports| - 1] == Num(last);
      assert ports == init + [last];
    }
  }

  /** A statement that lists several ports, as an array or a set, names them all. */
  lemma PortListIsRead(f: Found, proto: string, right: Json, ports: seq<int>)
    requires proto in {"tcp", "udp"} && ports != [] && (right == SetOf(Numbers(ports)) || right == Arr(Numbers(ports)))
    ensures ReadMatch(f, OnPayload(proto, "dport", right)) == f.(proto := proto, ports := f.ports + ports)
  {
    NumbersRead(ports);
    hide PortsOf, Numbers;
  }

  lemma {:induction false} ValidPortsFilter(ports: seq<int>)
    ensures forall p :: p in ValidPorts(ports) <==> p in ports && 1 <= p <= 65535
  {
    if ports != [] {
      ValidPortsFilter(ports[..|ports| - 1]);
      assert ports == ports[..|ports| - 1] + [ports[|ports| - 1]];
    }
  }

  lemma SortedValidPorts(ports: seq<int>)
    ensures var sorted := Sort(IntLe, Dedupe(ValidPorts(ports)));
      && (forall p :: p in sorted <==> p in ports && 1 <= p <= 65535)
      && (forall i, j :: 0 <= i < j < |sorted| ==> sorted[i] < sorted[j])
  {
    ValidPortsFilter(ports);
    OrdersAreTotal();
    var valid := Dedupe(ValidPorts(ports));
    SameElements(IntLe, valid);
    SortSorts(IntLe, valid);
    SortKeepsDistinct(IntLe, valid);
    hide ValidPorts, Dedupe, Sort;
  }

  lemma PortsFound(r: NormalizedRule, ports: seq<int>)
    requires WellFormed(r) && r.proto in {"tcp", "udp"}
    ensures var sorted := Sort(IntLe, Dedupe(ValidPorts(ports)));
      RulesOfFound(r.chain, FoundOf(r).(ports := ports)) == seq(|sorted|, i requires 0 <= i < |sorted| => r.(port := sorted[i]))
  {
    GoodStatesStay(r.ctStates);
    assert r.action != "";
    hide NormalizedStates, GoodStates, IsAddress, IsInterfaceName, ValidPorts, Dedupe, Sort, HasMatcher, WellFormed;
  }

  /** A rule with several ports reads as one rule for each port there is, in rising order, whatever else the rule names. */
  lemma PortsReadAsRules(r: NormalizedRule, ports: seq<int>)
    requires WellFormed(r) && r.proto in {"tcp", "udp"}
    ensures var rules := RulesOfFound(r.chain, FoundOf(r).(ports := ports));
      && (forall x :: x in rules <==> exists p :: p in ports && 1 <= p <= 65535 && x == r.(port := p))
      && (forall i, j :: 0 <= i < j < |rules| ==> rules[i].port < rules[j].port)
  {
    PortsFound(r, ports);
    SortedValidPorts(ports);
    hide ValidPorts, Dedupe, Sort, WellFormed, RulesOfFound, FoundOf;
    var sorted := Sort(IntLe, Dedupe(ValidPorts(ports)));
    var rules := RulesOfFound(r.chain, FoundOf(r).(ports := ports));
    forall x ensures x in rules <==> exists p :: p in ports && 1 <= p <= 65535 && x == r.(port := p) {
      if x in rules {
        var i :| 0 <= i < |rules| && rules[i] == x;
        assert sorted[i] in sorted && x == r.(port := sorted[i]);
      }
      if p :| p in ports && 1 <= p <= 65535 && x == r.(port := p) {
        var i :| 0 <= i < |sorted| && sorted[i] == p;
        assert rules[i] == x;
      }
    }
  }

  lemma {:induction false} NoVerdictFound(f: Found, exprs: seq<Expr>)
    requires forall e <- exprs :: !e.accept && !e.drop && !e.reject
    ensures ReadAll(f, exprs).action == f.action
    decreases |exprs|
  {
    hide PortValues, StringValue, StringValues, Clean;
    if exprs != [] {
      assert exprs[0] in exprs;
      NoVerdictFound(ReadExpr(f, exprs[0]), exprs[1..]);
    }
  }

  lemma {:induction false} NothingFound(f: Found, exprs: seq<Expr>)
    requires forall e <- exprs :: Ignorable(e) || e.accept || e.drop || e.reject
    ensures ReadAll(f, exprs) == f.(action := ReadAll(f, exprs).action)
    decreases |exprs|
  {
    if exprs != [] {
      assert exprs[0] in exprs;
      NothingFound(ReadExpr(f, exprs[0]), exprs[1..]);
    }
  }

  /** A live rule without a verdict, or without a match of a kind the compiler writes, reads as no rule. */
  lemma ReadsAsNothing(live: LiveRule)
    requires (forall e <- live.exprs :: !e.accept && !e.drop && !e.reject)
          || (forall e <- live.exprs :: Ignorable(e) || e.accept || e.drop || e.reject)
    ensures RulesOf(live) == []
  {
    NoPort();
    hide NormalizeChain, ValidPorts, Dedupe, Sort;
    assert NormalizedStates([]) == Ok([]) by { GoodStatesStay([]); }
    hide NormalizedStates;
    if forall e <- live.exprs :: !e.accept && !e.drop && !e.reject {
      NoVerdictFound(NOTHING, live.exprs);
    } else {
      NothingFound(NOTHING, live.exprs);
    }
    hide ReadAll;
  }

  lemma ListedTexts(right: Json, texts: seq<string>)
    requires (right == SetOf(Texts(texts)) || right == Arr(Texts(texts))) && (forall t <- texts :: IsAddress(t))
    ensures RawStrings(right) == texts
  {
    hide IsAddress, AllStrings;
    forall t <- texts ensures PlainPiece(t) {
      AddressIsPlain(t);
      hide Clean;
    }
    hide PlainPiece;
    StringsOfTexts(texts);
  }

  lemma SortedAlone(texts: seq<string>)
    requires forall i, j :: 0 <= i < j < |texts| ==> texts[i] != texts[j]
    ensures |Sort(StringLe, Dedupe(texts))| == |texts|
    ensures |texts| == 1 ==> Sort(StringLe, Dedupe(texts))[0] == texts[0]
  {
    hide Sort, StringLe, Dedupe;
    DedupeOfDistinct(texts);
    OrdersAreTotal();
    SortSorts(StringLe, texts);
    var sorted := Sort(StringLe, texts);
    assert |multiset(sorted)| == |sorted| && |multiset(texts)| == |texts|;
    if |texts| == 1 { assert sorted[0] in multiset(texts); }
  }

  /** Of several addresses in one statement none is read; of one, that one. */
  lemma AddressesRead(right: Json, texts: seq<string>)
    requires (right == SetOf(Texts(texts)) || right == Arr(Texts(texts))) && (forall t <- texts :: IsAddress(t))
    requires forall i, j :: 0 <= i < j < |texts| ==> texts[i] != texts[j]
    ensures StringValue(right) == if |texts| == 1 then texts[0] else ""
  {
    hide Sort, StringLe, Dedupe, RawStrings, Texts, IsAddress;
    ListedTexts(right, texts);
    SortedAlone(texts);
  }
}
