// What a rule list does to a packet, before and after normalisation.
module FirewallMeaning {
  import opened Wrappers
  import opened Text
  import opened Sorting
  import opened Firewall

  /** A packet at one hook; sources and destinations are the prefixes its addresses lie in. */
  datatype Packet = Packet(chain: string, proto: string, dport: int,
                           sources: set<string>, destinations: set<string>,
                           inInterface: string, outInterface: string, ctState: string)

  // ------------------------------------------------------- meaning of a profile's rules

  predicate AddressMatches(a: RawAddress, holders: set<string>) {
    a.Unset? || (a.Network? && a.text in holders)
  }

  predicate InterfaceMatches(raw: string, name: string) {
    TrimSpace(raw) == "" || TrimSpace(raw) == name
  }

  predicate NamesState(raw: seq<string>, state: string) {
    exists i :: 0 <= i < |raw| && Clean(raw[i]) != "" && Clean(raw[i]) == state
  }

  predicate NamesNoState(raw: seq<string>) {
    forall i :: 0 <= i < |raw| ==> Clean(raw[i]) == ""
  }

  /** A profile rule read as written: every matcher it gives must hold, and any of its ports will do. */
  predicate RawMatches(r: Rule, p: Packet) {
    && Clean(r.chain) == p.chain
    && (Clean(r.proto) == "" || Clean(r.proto) == p.proto)
    && (Clean(r.proto) in {"tcp", "udp"} ==> p.dport in DeclaredPorts(r))
    && AddressMatches(r.source, p.sources) && AddressMatches(r.destination, p.destinations)
    && InterfaceMatches(r.inInterface, p.inInterface) && InterfaceMatches(r.outInterface, p.outInterface)
    && (NamesNoState(r.ctStates) || NamesState(r.ctStates, p.ctState))
  }

  function RawVerdict(rules: seq<Rule>, p: Packet): Option<string> {
    if rules == [] then None
    else if RawMatches(rules[0], p) then Some(Clean(rules[0].action))
    else RawVerdict(rules[1..], p)
  }

  /** The last policy entry for a chain is the one that holds. */
  function RawPolicy(policies: seq<Policy>, chain: string): Option<string> {
    if policies == [] then None
    else if Clean(policies[|policies| - 1].chain) == chain then Some(Clean(policies[|policies| - 1].policy))
    else RawPolicy(policies[..|policies| - 1], chain)
  }

  /** First match, else the chain's policy, else accept. */
  function ProfileVerdict(fw: Spec, p: Packet): string {
    match RawVerdict(fw.rules, p)
    case Some(action) => action
    case None => match RawPolicy(fw.policies, p.chain)
      case Some(policy) => policy
      case None => "accept"
  }

  // ---------------------------------------------------- meaning of normalised rules

  predicate Matches(r: NormalizedRule, p: Packet) {
    && r.chain == p.chain
    && (r.proto == "" || r.proto == p.proto)
    && (r.proto in {"tcp", "udp"} ==> r.port == p.dport)
    && (r.source == "" || r.source in p.sources) && (r.destination == "" || r.destination in p.destinations)
    && (r.inInterface == "" || r.inInterface == p.inInterface)
    && (r.outInterface == "" || r.outInterface == p.outInterface)
    && (r.ctStates == [] || p.ctState in r.ctStates)
  }

  function Verdict(rules: seq<NormalizedRule>, p: Packet): Option<string> {
    if rules == [] then None
    else if Matches(rules[0], p) then Some(rules[0].action)
    else Verdict(rules[1..], p)
  }

  function SpecVerdict(s: NormalizedSpec, p: Packet): string {
    match Verdict(s.rules, p)
    case Some(action) => action
    case None => if p.chain in s.policies then s.policies[p.chain] else "accept"
  }

  // ------------------------------------------------------------- first-match algebra

  lemma {:induction false} VerdictConcat(a: seq<NormalizedRule>, b: seq<NormalizedRule>, p: Packet)
    ensures Verdict(a + b, p) == if Verdict(a, p).Some? then Verdict(a, p) else Verdict(b, p)
  {
    if a == [] {
      assert a + b == b;
    } else {
      assert (a + b)[1..] == a[1..] + b;
      VerdictConcat(a[1..], b, p);
    }
  }

  lemma {:induction false} RawVerdictConcat(a: seq<Rule>, b: seq<Rule>, p: Packet)
    ensures RawVerdict(a + b, p) == if RawVerdict(a, p).Some? then RawVerdict(a, p) else RawVerdict(b, p)
  {
    hide RawMatches;
    if a == [] {
      assert a + b == b;
    } else {
      assert (a + b)[1..] == a[1..] + b;
      RawVerdictConcat(a[1..], b, p);
    }
  }

  lemma {:induction false} VerdictOfMember(rules: seq<NormalizedRule>, r: NormalizedRule, p: Packet)
    requires r in rules && Matches(r, p)
    ensures Verdict(rules, p).Some?
  {
    if !Matches(rules[0], p) {
      assert r in rules[1..];
      VerdictOfMember(rules[1..], r, p);
    }
  }

  lemma {:induction false} VerdictNeedsAMatch(rules: seq<NormalizedRule>, p: Packet)
    ensures Verdict(rules, p).None? <==> forall r <- rules :: !Matches(r, p)
  {
    if rules != [] { VerdictNeedsAMatch(rules[1..], p); }
  }

  lemma VerdictOfOne(r: NormalizedRule, p: Packet)
    ensures Verdict([r], p) == if Matches(r, p) then Some(r.action) else None
  {
    assert [r][1..] == [];
  }

  // ------------------------------------------------------------- the passes, one by one

  function AddressTextOf(a: RawAddress): string { if a.Network? then a.text else "" }

  /** The rule a profile rule becomes, before its ports are filled in. */
  function Unexpanded(r: Rule): NormalizedRule {
    NormalizedRule(Clean(r.chain), Clean(r.action), Clean(r.proto), 0,
                   AddressTextOf(r.source), AddressTextOf(r.destination),
                   TrimSpace(r.inInterface), TrimSpace(r.outInterface), Sort(StringLe, NamedStates(r.ctStates)))
  }

  lemma NormalizedRulesAre(r: Rule)
    requires NormalizedRules(r).Ok?
    ensures PortsValid(DeclaredPorts(r)) && StatesAllowed(r.ctStates)
    ensures var ports := Sort(IntLe, Dedupe(DeclaredPorts(r)));
            && NormalizedRules(r).value == ExpandPorts(Unexpanded(r), ports)
            && (Clean(r.proto) in {"tcp", "udp"} <==> ports != [])
    ensures !r.source.Malformed? && !r.destination.Malformed?
    ensures Clean(r.proto) in PROTOS
  {
    hide Clean, TrimSpace, Sort, IsInterfaceName;
  }

  lemma UnexpandedMatches(r: Rule, p: Packet)
    requires StatesAllowed(r.ctStates) && !r.source.Malformed? && !r.destination.Malformed?
    ensures RawMatches(r, p) <==>
              Matches(Unexpanded(r).(port := p.dport), p) && (Clean(r.proto) in {"tcp", "udp"} ==> p.dport in DeclaredPorts(r))
  {
    StatesKeepMeaning(r.ctStates, p.ctState);
    hide Clean, TrimSpace, Sort, NamesState, NamesNoState;
  }

  /** Port expansion: the rules of one profile rule decide exactly the packets it matched, as it did. */
  lemma ExpansionKeepsMeaning(r: Rule, p: Packet)
    requires NormalizedRules(r).Ok?
    ensures Verdict(NormalizedRules(r).value, p) == if RawMatches(r, p) then Some(Clean(r.action)) else None
  {
    NormalizedRulesAre(r);
    UnexpandedMatches(r, p);
    OrdersAreTotal();
    SameElements(IntLe, Dedupe(DeclaredPorts(r)));
    var base, ports := Unexpanded(r), Sort(IntLe, Dedupe(DeclaredPorts(r)));
    hide NormalizedRules, RawMatches, Sort, Dedupe, Clean, TrimSpace;
    if ports == [] {
      VerdictOfOne(base, p);
      assert Matches(base, p) <==> Matches(base.(port := p.dport), p);
    } else {
      ExpandedVerdict(base, ports, p);
    }
  }

  lemma StatesKeepMeaning(raw: seq<string>, state: string)
    requires StatesAllowed(raw)
    ensures NormalizedStates(raw).Ok?
    ensures NormalizedStates(raw).value == [] <==> NamesNoState(raw)
    ensures state in NormalizedStates(raw).value <==> NamesState(raw, state)
  {
    var states := NormalizedStates(raw).value;
    NormalizedStatesAreGood(raw);
    NamedStatesAre(raw);
    if states == [] {
      forall i | 0 <= i < |raw| ensures Clean(raw[i]) == "" {
        assert Clean(raw[i]) in NamedStates(raw) || Clean(raw[i]) == "";
      }
    } else {
      assert states[0] in NamedStates(raw);
    }
  }

  lemma {:induction false} ExpandedVerdict(base: NormalizedRule, ports: seq<int>, p: Packet)
    requires base.proto in {"tcp", "udp"}
    ensures var out := seq(|ports|, i requires 0 <= i < |ports| => base.(port := ports[i]));
            Verdict(out, p) == if p.dport in ports && Matches(base.(port := p.dport), p) then Some(base.action) else None
  {
    var out := seq(|ports|, i requires 0 <= i < |ports| => base.(port := ports[i]));
    if ports != [] {
      ExpandedVerdict(base, ports[1..], p);
      assert out[1..] == seq(|ports[1..]|, i requires 0 <= i < |ports[1..]| => base.(port := ports[1..][i]));
    }
  }

  lemma {:induction false} ExpandAllKeepsMeaning(rules: seq<Rule>, p: Packet)
    requires ExpandAll(rules).Ok?
    ensures Verdict(ExpandAll(rules).value, p) == RawVerdict(rules, p)
  {
    hide NormalizedRules, RawMatches, Matches, Clean;
    if rules != [] {
      var init, last := rules[..|rules| - 1], rules[|rules| - 1];
      ExpandAllKeepsMeaning(init, p);
      ExpansionKeepsMeaning(last, p);
      VerdictConcat(ExpandAll(init).value, NormalizedRules(last).value, p);
      assert rules == init + [last] && [last][1..] == [];
      RawVerdictConcat(init, [last], p);
    }
  }

  /** Dropping a rule whose key came earlier never changes which rule fires first. */
  lemma {:induction false} DedupeKeepsMeaning(rules: seq<NormalizedRule>, p: Packet)
    requires forall r <- rules :: WellFormed(r)
    ensures Verdict(DedupeRules(rules), p) == Verdict(rules, p)
  {
    if rules != [] {
      var init, last := rules[..|rules| - 1], rules[|rules| - 1];
      assert rules == init + [last];
      DedupeKeepsMeaning(init, p);
      DedupeSnoc(init, last);
      VerdictConcat(init, [last], p);
      VerdictOfOne(last, p);
      var d := DedupeRules(init);
      if Key(last) in Keys(d) {
        var i :| 0 <= i < |d| && Keys(d)[i] == Key(last);
        DedupeRulesKeeps(init);
        assert d[i] in init;
        KeyIdentifies(d[i], last);
        if Matches(last, p) { VerdictOfMember(d, last, p); }
      } else {
        VerdictConcat(d, [last], p);
      }
    }
  }

  lemma {:induction false} PoliciesKeepMeaning(policies: seq<Policy>, chain: string)
    requires PolicyMap(policies).Ok?
    ensures var m := PolicyMap(policies).value;
            RawPolicy(policies, chain) == if chain in m then Some(m[chain]) else None
  {
    if policies != [] { PoliciesKeepMeaning(policies[..|policies| - 1], chain); }
  }

  /** Every packet gets from the normalised spec what the profile's own rules and policies give it. */
  lemma NormalizationKeepsMeaning(fw: Spec, p: Packet)
    requires Normalized(fw).Ok?
    ensures SpecVerdict(Normalized(fw).value, p) == ProfileVerdict(fw, p)
  {
    hide RawMatches, Matches, NormalizedRules;
    ExpandAllIsWellFormed(fw.rules);
    ExpandAllKeepsMeaning(fw.rules, p);
    DedupeKeepsMeaning(ExpandAll(fw.rules).value, p);
    PoliciesKeepMeaning(fw.policies, p.chain);
  }

  // -------------------------------------------------------------------------- overrides

  /** The operator's port list under one override name. */
  datatype PortOverride = Absent | NotIntegers | Ports(ports: seq<int>)

  datatype OverrideError = NotAPortArray | InvalidPort

  function DecodePorts(o: PortOverride): Result<seq<int>, OverrideError> {
    match o
    case Absent => Ok([])
    case NotIntegers => Err(NotAPortArray)
    case Ports(ports) => if PortsValid(ports) then Ok(ports) else Err(InvalidPort)
  }

  function OverrideRule(proto: string, port: int): Rule {
    Rule("input", proto, port, [], Unset, Unset, "", "", [], "accept")
  }

  function OverrideRules(proto: string, ports: seq<int>): seq<Rule> {
    seq(|ports|, i requires 0 <= i < |ports| => OverrideRule(proto, ports[i]))
  }

  /** The decoded step configuration, which overrides extend in place. */
  class FirewallStep {
    var spec: Spec

    constructor (spec: Spec)
      ensures this.spec == spec
    {
      this.spec := spec;
    }

    method AppendAccepts(proto: string, ports: seq<int>)
      modifies this
      ensures spec == old(spec).(rules := old(spec).rules + OverrideRules(proto, ports))
    {
      for i := 0 to |ports|
        invariant spec == old(spec).(rules := old(spec).rules + OverrideRules(proto, ports[..i]))
      {
        assert OverrideRules(proto, ports[..i + 1]) == OverrideRules(proto, ports[..i]) + [OverrideRule(proto, ports[i])];
        spec := spec.(rules := spec.rules + [OverrideRule(proto, ports[i])]);
      }
      assert ports[..|ports|] == ports;
    }

    /** Both lists are read before either is applied, so a bad override leaves the spec alone. */
    method ApplyOverrides(tcp: PortOverride, udp: PortOverride) returns (err: Option<OverrideError>)
      modifies this
      ensures err.None? <==> DecodePorts(tcp).Ok? && DecodePorts(udp).Ok?
      ensures err.Some? ==> spec == old(spec)
      ensures err.None? ==>
                spec == old(spec).(rules := old(spec).rules + OverrideRules("tcp", DecodePorts(tcp).value)
                                                            + OverrideRules("udp", DecodePorts(udp).value))
    {
      var tcpPorts := DecodePorts(tcp);
      if tcpPorts.Err? { return Some(tcpPorts.error); }
      var udpPorts := DecodePorts(udp);
      if udpPorts.Err? { return Some(udpPorts.error); }
      AppendAccepts("tcp", tcpPorts.value);
      AppendAccepts("udp", udpPorts.value);
      return None;
    }
  }

  predicate OverrideOpens(tcp: seq<int>, udp: seq<int>, p: Packet) {
    p.chain == "input" && ((p.proto == "tcp" && p.dport in tcp) || (p.proto == "udp" && p.dport in udp))
  }

  lemma PlainAcceptMatches(r: Rule, p: Packet)
    requires Clean(r.chain) == "input" && Clean(r.proto) in {"tcp", "udp"} && ValidPort(r.port) && r.ports == []
    requires r.source.Unset? && r.destination.Unset? && r.ctStates == []
    requires TrimSpace(r.inInterface) == "" && TrimSpace(r.outInterface) == ""
    ensures RawMatches(r, p) <==> p.chain == "input" && p.proto == Clean(r.proto) && p.dport == r.port
  {
    hide Clean, TrimSpace;
  }

  lemma OverrideRuleMatches(proto: string, port: int, p: Packet)
    requires proto in {"tcp", "udp"} && ValidPort(port)
    ensures RawMatches(OverrideRule(proto, port), p) <==> p.chain == "input" && p.proto == proto && p.dport == port
    ensures Clean(OverrideRule(proto, port).action) == "accept"
  {
    hide Clean, TrimSpace, RawMatches;
    var r := OverrideRule(proto, port);
    CleanOfClean(r.chain);
    CleanOfClean(r.action);
    CleanOfClean(r.proto);
    TrimOfSpaceless(r.inInterface);
    PlainAcceptMatches(r, p);
  }

  lemma {:induction false} OverrideVerdict(proto: string, ports: seq<int>, p: Packet)
    requires proto in {"tcp", "udp"} && PortsValid(ports)
    ensures RawVerdict(OverrideRules(proto, ports), p)
         == if p.chain == "input" && p.proto == proto && p.dport in ports then Some("accept") else None
  {
    hide RawMatches, Clean, OverrideRule;
    if ports != [] {
      var rest := ports[1..];
      OverrideRuleMatches(proto, ports[0], p);
      OverrideVerdict(proto, rest, p);
      assert OverrideRules(proto, ports)[1..] == OverrideRules(proto, rest);
      assert ports == [ports[0]] + rest;
    }
  }

  /** Overrides open their ports for packets no profile rule decides, and change nothing else. */
  lemma OverridesOnlyFillGaps(fw: Spec, tcp: seq<int>, udp: seq<int>, p: Packet)
    requires PortsValid(tcp) && PortsValid(udp)
    ensures var more := fw.(rules := fw.rules + OverrideRules("tcp", tcp) + OverrideRules("udp", udp));
            ProfileVerdict(more, p) ==
              if RawVerdict(fw.rules, p).None? && OverrideOpens(tcp, udp, p) then "accept" else ProfileVerdict(fw, p)
  {
    hide RawMatches;
    OverrideVerdict("tcp", tcp, p);
    OverrideVerdict("udp", udp, p);
    RawVerdictConcat(fw.rules, OverrideRules("tcp", tcp), p);
    RawVerdictConcat(fw.rules + OverrideRules("tcp", tcp), OverrideRules("udp", udp), p);
  }
}
