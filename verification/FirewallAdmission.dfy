// Exactly which firewall profiles are accepted, in the profile's own terms.
module FirewallAdmission {
  import opened Wrappers
  import opened Text
  import opened Sorting
  import opened Firewall

  predicate AddressUsable(family: string, a: RawAddress) {
    match a
    case Unset => true
    case Malformed => false
    case Network(text) => (family == "ip" ==> ':' !in text) && (family == "ip6" ==> ':' in text)
  }

  /** Up to 64 letters, digits and underscores, no digit first. */
  predicate TableUsable(name: string) {
    && 1 <= |name| <= 64 && !('0' <= name[0] <= '9')
    && forall c <- name :: 'a' <= c <= 'z' || 'A' <= c <= 'Z' || '0' <= c <= '9' || c == '_'
  }

  /** Blank, or up to 15 letters, digits, underscores, dots and dashes, no dot or dash first. */
  predicate InterfaceUsable(raw: string) {
    var name := TrimSpace(raw);
    name != "" ==>
      && |name| <= 15 && name[0] !in ".-"
      && forall c <- name :: 'a' <= c <= 'z' || 'A' <= c <= 'Z' || '0' <= c <= '9' || c in "_.-"
  }

  lemma InterfaceUsableIff(raw: string)
    ensures InterfaceUsable(raw) <==> TrimSpace(raw) == "" || IsInterfaceName(TrimSpace(raw))
  {
    hide TrimSpace;
    var name := TrimSpace(raw);
    assert forall i :: 0 <= i < |name| ==> name[i] in name;
    assert "_.-"[0] == '_' && "_.-"[1] == '.' && "_.-"[2] == '-' && ".-"[0] == '.' && ".-"[1] == '-';
  }

  lemma TableUsableIff(name: string)
    ensures TableUsable(name) <==> IsTableName(name)
  {
    assert forall i :: 0 <= i < |name| ==> name[i] in name;
  }

  /** The rule asks for something besides its chain and action. */
  predicate MatchesSomething(r: Rule) {
    || Clean(r.proto) != "" || r.source.Network? || r.destination.Network?
    || TrimSpace(r.inInterface) != "" || TrimSpace(r.outInterface) != ""
    || exists i :: 0 <= i < |r.ctStates| && Clean(r.ctStates[i]) != ""
  }

  /** Known words, ports where the protocol takes them and only there, and something to match. */
  predicate RuleUsable(r: Rule) {
    && Clean(r.chain) in {"input", "output", "forward"} && Clean(r.action) in {"accept", "drop", "reject"}
    && Clean(r.proto) in {"", "tcp", "udp", "icmp", "icmpv6"}
    && |r.ports| <= 65535 && 0 <= r.port <= 65535 && (forall i :: 0 <= i < |r.ports| ==> 1 <= r.ports[i] <= 65535)
    && (Clean(r.proto) in {"tcp", "udp"} <==> r.port != 0 || r.ports != [])
    && !r.source.Malformed? && !r.destination.Malformed? && InterfaceUsable(r.inInterface) && InterfaceUsable(r.outInterface)
    && (forall i :: 0 <= i < |r.ctStates| ==>
          Clean(r.ctStates[i]) in {"", "new", "established", "related", "invalid", "untracked"})
    && MatchesSomething(r)
  }

  predicate HasPolicy(policies: seq<Policy>, chain: string) {
    exists i :: 0 <= i < |policies| && Clean(policies[i].chain) == chain
  }

  /** The profile can be compiled: a known family, a table name, at least one policy, each accept or drop for a known chain, and
      usable rules for chains with a policy and addresses of the family. */
  predicate Usable(fw: Spec) {
    && Clean(fw.family) in {"inet", "ip", "ip6"} && TableUsable(TrimSpace(fw.table)) && fw.policies != []
    && (forall i :: 0 <= i < |fw.policies| ==>
          Clean(fw.policies[i].chain) in {"input", "output", "forward"} && Clean(fw.policies[i].policy) in {"accept", "drop"})
    && (forall r <- fw.rules ::
          && RuleUsable(r) && HasPolicy(fw.policies, Clean(r.chain))
          && AddressUsable(Clean(fw.family), r.source) && AddressUsable(Clean(fw.family), r.destination))
  }

  // ------------------------------------------------------------------------- one rule

  lemma SomeStateIff(raw: seq<string>)
    requires StatesAllowed(raw)
    ensures Sort(StringLe, NamedStates(raw)) != [] <==> exists i :: 0 <= i < |raw| && Clean(raw[i]) != ""
  {
    NamedStatesAre(raw);
    NormalizedStatesAreGood(raw);
    hide Clean, NamedStates, Sort, StringLe, StatesAllowed, GoodStates;
    var names, sorted := NamedStates(raw), Sort(StringLe, NamedStates(raw));
    if sorted != [] {
      assert sorted[0] in names;
    }
    if i :| 0 <= i < |raw| && Clean(raw[i]) != "" {
      assert Clean(raw[i]) in sorted;
    }
  }

  lemma SortedPorts(ports: seq<int>)
    ensures Sort(IntLe, Dedupe(ports)) != [] <==> ports != []
    ensures forall p :: p in Sort(IntLe, Dedupe(ports)) <==> p in ports
  {
    OrdersAreTotal();
    SameElements(IntLe, Dedupe(ports));
    hide Sort, Dedupe, IntLe;
    var sorted := Sort(IntLe, Dedupe(ports));
    if sorted != [] { assert sorted[0] in ports; }
    if ports != [] { assert ports[0] in sorted; }
  }

  lemma DeclaredValidIff(r: Rule)
    ensures PortsValid(DeclaredPorts(r)) <==> 0 <= r.port <= 65535 && forall i :: 0 <= i < |r.ports| ==> 1 <= r.ports[i] <= 65535
    ensures DeclaredPorts(r) != [] <==> r.port != 0 || r.ports != []
  {
    var d := DeclaredPorts(r);
    if r.port != 0 {
      assert d[0] == r.port && forall i :: 0 <= i < |r.ports| ==> d[i + 1] == r.ports[i];
    } else {
      assert d == r.ports;
    }
  }

  /** The matches a rule is left with once its fields are read. */
  lemma MatcherIff(r: Rule, base: NormalizedRule)
    requires StatesAllowed(r.ctStates) && base.proto == Clean(r.proto) && base.ctStates == Sort(StringLe, NamedStates(r.ctStates))
    requires base.source == (if r.source.Network? then r.source.text else "")
    requires base.destination == (if r.destination.Network? then r.destination.text else "")
    requires base.inInterface == TrimSpace(r.inInterface) && base.outInterface == TrimSpace(r.outInterface)
    ensures HasMatcher(base) <==> MatchesSomething(r)
  {
    SomeStateIff(r.ctStates);
    hide Clean, TrimSpace, Sort, StringLe, NamedStates, StatesAllowed;
  }

  /** The normalised rules of one rule, none if it is refused. */
  function Out(r: Rule): seq<NormalizedRule> { match NormalizedRules(r) case Ok(rules) => rules case Err(_) => [] }

  lemma RuleUsableIff(r: Rule)
    ensures NormalizedRules(r).Ok? <==> RuleUsable(r)
    ensures RuleUsable(r) ==> Out(r) != [] && forall n <- Out(r) ::
              && n.chain == Clean(r.chain)
              && n.source == (if r.source.Network? then r.source.text else "")
              && n.destination == (if r.destination.Network? then r.destination.text else "")
  {
    DeclaredValidIff(r);
    SortedPorts(DeclaredPorts(r));
    StatesAllowedIff(r.ctStates);
    InterfaceUsableIff(r.inInterface);
    InterfaceUsableIff(r.outInterface);
    hide InterfaceUsable, Clean, TrimSpace, Sort, StringLe, IntLe, Dedupe, NamedStates, StatesAllowed, IsInterfaceName, PortsValid, DeclaredPorts,
         HasMatcher, MatchesSomething;
    if StatesAllowed(r.ctStates) {
      var base := NormalizedRule(Clean(r.chain), Clean(r.action), Clean(r.proto), 0,
                                 if r.source.Network? then r.source.text else "",
                                 if r.destination.Network? then r.destination.text else "",
                                 TrimSpace(r.inInterface), TrimSpace(r.outInterface), Sort(StringLe, NamedStates(r.ctStates)));
      MatcherIff(r, base);
    }
  }

  lemma StatesAllowedIff(raw: seq<string>)
    ensures StatesAllowed(raw) <==>
            forall i :: 0 <= i < |raw| ==> Clean(raw[i]) in {"", "new", "established", "related", "invalid", "untracked"}
  {
    hide Clean;
  }

  // ------------------------------------------------------------------------- all rules

  ghost predicate FromSome(rules: seq<Rule>, n: NormalizedRule) { exists r <- rules :: n in Out(r) }

  lemma ExpandSnoc(rules: seq<Rule>, last: Rule)
    ensures ExpandAll(rules + [last]).Ok? <==> ExpandAll(rules).Ok? && RuleUsable(last)
    ensures ExpandAll(rules + [last]).Ok? ==> ExpandAll(rules + [last]).value == ExpandAll(rules).value + Out(last)
  {
    RuleUsableIff(last);
    hide RuleUsable, NormalizedRules;
    assert (rules + [last])[..|rules|] == rules;
  }

  lemma {:induction false} AllUsableIff(rules: seq<Rule>)
    ensures ExpandAll(rules).Ok? <==> forall r <- rules :: RuleUsable(r)
    ensures ExpandAll(rules).Ok? ==> forall n :: n in ExpandAll(rules).value <==> FromSome(rules, n)
  {
    hide NormalizedRules, RuleUsable, Out;
    if rules == [] {
      assert ExpandAll(rules) == Ok([]);
    } else {
      hide ExpandAll;
      var init, last := rules[..|rules| - 1], rules[|rules| - 1];
      AllUsableIff(init);
      ExpandSnoc(init, last);
      assert rules == init + [last];
    }
  }

  lemma {:induction false} PoliciesUsableIff(policies: seq<Policy>)
    ensures PolicyMap(policies).Ok? <==> forall i :: 0 <= i < |policies| ==>
              Clean(policies[i].chain) in {"input", "output", "forward"} && Clean(policies[i].policy) in {"accept", "drop"}
    ensures PolicyMap(policies).Ok? ==> forall c :: c in PolicyMap(policies).value <==> HasPolicy(policies, c)
  {
    hide Clean;
    if policies != [] {
      var init, last := policies[..|policies| - 1], policies[|policies| - 1];
      PoliciesUsableIff(init);
      assert policies == init + [last] && forall i :: 0 <= i < |init| ==> policies[i] == init[i];
      if PolicyMap(policies).Ok? {
        forall c ensures c in PolicyMap(policies).value <==> HasPolicy(policies, c) {
          if i :| 0 <= i < |init| && Clean(init[i].chain) == c { assert Clean(policies[i].chain) == c; }
          assert Clean(policies[|policies| - 1].chain) == Clean(last.chain);
        }
      }
    }
  }

  lemma {:induction false} FittingIff(family: string, policies: map<string, string>, rules: seq<NormalizedRule>)
    ensures FirstMisfit(family, policies, rules).None? <==> forall r <- rules :: RuleFits(family, policies, r).None?
  {
    hide RuleFits;
    if rules != [] {
      FittingIff(family, policies, rules[1..]);
      assert rules == [rules[0]] + rules[1..];
    }
  }

  lemma SameKeySameRule(x: NormalizedRule, y: NormalizedRule)
    requires WellFormed(x) && WellFormed(y) && Key(x) == Key(y)
    ensures x == y
  {
    assert x.port >= 0;
    KeyIdentifies(x, y);
  }

  /** Dropping repeated rules keeps every rule. */
  lemma NoneIsLost(rules: seq<NormalizedRule>)
    requires forall r <- rules :: WellFormed(r)
    ensures forall r :: r in DedupeRules(rules) <==> r in rules
  {
    DedupeRulesKeeps(rules);
    hide WellFormed, Key, DedupeRules, DistinctKeys;
    var kept := DedupeRules(rules);
    forall r <- rules ensures r in kept {
      var i :| 0 <= i < |kept| && Keys(kept)[i] == Key(r);
      SameKeySameRule(kept[i], r);
    }
  }

  lemma RuleFitsIff(fw: Spec, policies: map<string, string>, r: Rule)
    requires RuleUsable(r) && forall c :: c in policies <==> HasPolicy(fw.policies, c)
    ensures (forall n <- Out(r) :: RuleFits(Clean(fw.family), policies, n).None?) <==>
            && HasPolicy(fw.policies, Clean(r.chain))
            && AddressUsable(Clean(fw.family), r.source) && AddressUsable(Clean(fw.family), r.destination)
  {
    RuleUsableIff(r);
    AddressUsableIff(Clean(fw.family), r.source);
    AddressUsableIff(Clean(fw.family), r.destination);
    assert !r.source.Malformed? && !r.destination.Malformed?;
    hide Out, RuleUsable, Clean, HasPolicy, AddressFits, AddressUsable;
    assert Out(r)[0] in Out(r);
  }

  lemma AddressUsableIff(family: string, a: RawAddress)
    requires !a.Malformed?
    ensures AddressUsable(family, a) <==> AddressFits(family, if a.Network? then a.text else "")
  {
  }

  /** A profile is accepted exactly when it is usable. */
  lemma AcceptedIff(fw: Spec)
    ensures Normalized(fw).Ok? <==> Usable(fw)
  {
    PoliciesUsableIff(fw.policies);
    AllUsableIff(fw.rules);
    TableUsableIff(TrimSpace(fw.table));
    hide Clean, TrimSpace, IsTableName, TableUsable, RuleUsable, HasPolicy, PolicyMap, ExpandAll, DedupeRules, FirstMisfit, AddressUsable;
    if PolicyMap(fw.policies).Ok? && ExpandAll(fw.rules).Ok? {
      RulesFitIff(fw, PolicyMap(fw.policies).value);
    }
  }

  lemma RulesFitIff(fw: Spec, policies: map<string, string>)
    requires ExpandAll(fw.rules).Ok? && forall c :: c in policies <==> HasPolicy(fw.policies, c)
    ensures FirstMisfit(Clean(fw.family), policies, DedupeRules(ExpandAll(fw.rules).value)).None? <==>
            forall r <- fw.rules ::
              && HasPolicy(fw.policies, Clean(r.chain))
              && AddressUsable(Clean(fw.family), r.source) && AddressUsable(Clean(fw.family), r.destination)
  {
    hide Clean, RuleUsable, HasPolicy, ExpandAll, DedupeRules, FirstMisfit, AddressUsable, Out, RuleFits, WellFormed;
    var family, all := Clean(fw.family), ExpandAll(fw.rules).value;
    AllUsableIff(fw.rules);
    ExpandAllIsWellFormed(fw.rules);
    NoneIsLost(all);
    FittingIff(family, policies, DedupeRules(all));
    forall r <- fw.rules
      ensures (forall n <- Out(r) :: RuleFits(family, policies, n).None?) <==>
              HasPolicy(fw.policies, Clean(r.chain)) && AddressUsable(family, r.source) && AddressUsable(family, r.destination)
    {
      RuleFitsIff(fw, policies, r);
    }
    AllFitIff(fw.rules, all, family, policies);
  }

  lemma AllFitIff(rules: seq<Rule>, all: seq<NormalizedRule>, family: string, policies: map<string, string>)
    requires forall n :: n in all <==> FromSome(rules, n)
    ensures (forall n <- all :: RuleFits(family, policies, n).None?) <==>
            forall r <- rules :: forall n <- Out(r) :: RuleFits(family, policies, n).None?
  {
    hide Out, RuleFits;
    if forall n <- all :: RuleFits(family, policies, n).None? {
      forall r <- rules, n <- Out(r) ensures RuleFits(family, policies, n).None? { assert FromSome(rules, n); }
    }
  }
}
