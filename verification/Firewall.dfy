// The firewall step's compiler front: a profile's rules become normalised rules, one per port.
module Firewall {
  import opened Wrappers
  import opened Text
  import opened Sorting

  // ------------------------------------------------------------------ profile side

  /** The canonical text net/netip prints for an address or a masked prefix. */
  type Address = s: string | IsAddress(s) witness "::"

  predicate IsAddress(s: string) {
    s != "" && forall i :: 0 <= i < |s| ==> IsDigit(s[i]) || 'a' <= s[i] <= 'f' || s[i] in {':', '.', '/'}
  }

  /** A source or destination field once net/netip has read it. */
  datatype RawAddress = Unset | Malformed | Network(text: Address)

  datatype Policy = Policy(chain: string, policy: string)

  datatype Rule = Rule(chain: string, proto: string, port: int, ports: seq<int>,
                       source: RawAddress, destination: RawAddress,
                       inInterface: string, outInterface: string,
                       ctStates: seq<string>, action: string)

  datatype Spec = Spec(family: string, table: string, policies: seq<Policy>, rules: seq<Rule>)

  // --------------------------------------------------------------- normalised side

  datatype NormalizedRule = NormalizedRule(chain: string, action: string, proto: string, port: int,
                                           source: string, destination: string,
                                           inInterface: string, outInterface: string, ctStates: seq<string>)

  datatype NormalizedSpec = NormalizedSpec(family: string, table: string,
                                           policies: map<string, string>, rules: seq<NormalizedRule>)

  datatype SpecError =
    | BadFamily | BadTable | NoPolicies | BadChain | BadPolicy | BadAction | BadProto
    | TooManyPorts | BadPort | BadAddress | BadInterface | BadCtState
    | PortsRequired | PortsForbidden | NoMatcher | MissingPolicy | WrongFamily

  const CHAINS: set<string> := {"input", "output", "forward"}
  const ACTIONS: set<string> := {"accept", "drop", "reject"}
  const PROTOS: set<string> := {"", "tcp", "udp", "icmp", "icmpv6"}
  const FAMILIES: set<string> := {"inet", "ip", "ip6"}
  const CT_STATES: set<string> := {"new", "established", "related", "invalid", "untracked"}
  const MAX_PORT: int := 65535

  predicate IsLetter(c: char) { 'a' <= c <= 'z' || 'A' <= c <= 'Z' }

  predicate IsTableName(s: string) {
    && 1 <= |s| <= 64
    && (IsLetter(s[0]) || s[0] == '_')
    && forall i :: 0 < i < |s| ==> IsLetter(s[i]) || IsDigit(s[i]) || s[i] == '_'
  }

  predicate IsInterfaceName(s: string) {
    && 1 <= |s| <= 15
    && (IsLetter(s[0]) || IsDigit(s[0]) || s[0] == '_')
    && forall i :: 0 < i < |s| ==> IsLetter(s[i]) || IsDigit(s[i]) || s[i] in {'_', '.', '-'}
  }

  predicate ValidPort(p: int) { 0 < p <= MAX_PORT }

  /** What every normalised rule of an accepted profile looks like. */
  predicate WellFormed(r: NormalizedRule) {
    && r.chain in CHAINS && r.action in ACTIONS && r.proto in PROTOS
    && (if r.proto in {"tcp", "udp"} then ValidPort(r.port) else r.port == 0)
    && (r.source == "" || IsAddress(r.source)) && (r.destination == "" || IsAddress(r.destination))
    && (r.inInterface == "" || IsInterfaceName(r.inInterface))
    && (r.outInterface == "" || IsInterfaceName(r.outInterface))
    && GoodStates(r.ctStates)
    && HasMatcher(r)
  }

  predicate HasMatcher(r: NormalizedRule) {
    r.proto != "" || r.ctStates != [] || r.source != "" || r.destination != "" || r.inInterface != "" || r.outInterface != ""
  }

  /** Known states, each once, in order. */
  predicate GoodStates(s: seq<string>) {
    && (forall i :: 0 <= i < |s| ==> s[i] in CT_STATES)
    && (forall i, j :: 0 <= i < j < |s| ==> s[i] != s[j] && StringLe(s[i], s[j]))
  }

  // ------------------------------------------------------------------- list helpers

  /** The first occurrence of every element. */
  function Dedupe<T(==,!new)>(s: seq<T>): (d: seq<T>)
    ensures forall x :: x in d <==> x in s
    ensures forall i, j :: 0 <= i < j < |d| ==> d[i] != d[j]
  {
    if s == [] then []
    else
      var d := Dedupe(s[..|s| - 1]);
      var last := s[|s| - 1];
      assert s == s[..|s| - 1] + [last];
      if last in d then d else d + [last]
  }

  // ------------------------------------------------------------------ single fields

  function NormalizeChain(chain: string): Result<string, SpecError> {
    var c := Clean(chain);
    if c in CHAINS then Ok(c) else Err(BadChain)
  }

  function NormalizePolicy(policy: string): Result<string, SpecError> {
    var p := Clean(policy);
    if p in ACTIONS then Ok(p) else Err(BadPolicy)
  }

  function NormalizeAddress(a: RawAddress): (r: Result<string, SpecError>)
    ensures r.Ok? ==> r.value == "" || IsAddress(r.value)
  {
    match a
    case Unset => Ok("")
    case Malformed => Err(BadAddress)
    case Network(t) => Ok(t)
  }

  function NormalizeInterface(raw: string): (r: Result<string, SpecError>)
    ensures r.Ok? ==> r.value == "" || IsInterfaceName(r.value)
  {
    var v := TrimSpace(raw);
    if v == "" then Ok("") else if IsInterfaceName(v) then Ok(v) else Err(BadInterface)
  }

  /** IPv6 text is the one with a colon. */
  predicate AddressIsV6(a: string) { ':' in a }

  /** The cleaned, non-blank states, first occurrences in the order given. */
  function NamedStates(raw: seq<string>): seq<string> {
    if raw == [] then []
    else
      var before := NamedStates(raw[..|raw| - 1]);
      var s := Clean(raw[|raw| - 1]);
      if s == "" || s in before then before else before + [s]
  }

  predicate StatesAllowed(raw: seq<string>) {
    forall i :: 0 <= i < |raw| ==> Clean(raw[i]) == "" || Clean(raw[i]) in CT_STATES
  }

  function NormalizedStates(raw: seq<string>): Result<seq<string>, SpecError> {
    if StatesAllowed(raw) then Ok(Sort(StringLe, NamedStates(raw))) else Err(BadCtState)
  }

  method NormalizeCtStates(states: seq<string>) returns (r: Result<seq<string>, SpecError>)
    ensures r == NormalizedStates(states)
  {
    var seen: set<string> := {};
    var out: seq<string> := [];
    for i := 0 to |states|
      invariant out == NamedStates(states[..i])
      invariant forall s :: s in seen <==> s in out
      invariant forall k :: 0 <= k < i ==> Clean(states[k]) == "" || Clean(states[k]) in CT_STATES
    {
      assert states[..i + 1][..i] == states[..i];
      var s := Clean(states[i]);
      if s == "" { continue; }
      if s !in CT_STATES { return Err(BadCtState); }
      if s in seen { continue; }
      seen := seen + {s};
      out := out + [s];
    }
    assert states[..|states|] == states;
    return Ok(Sort(StringLe, out));
  }

  lemma {:induction false} NamedStatesAre(raw: seq<string>)
    ensures forall i, j :: 0 <= i < j < |NamedStates(raw)| ==> NamedStates(raw)[i] != NamedStates(raw)[j]
    ensures forall s :: s in NamedStates(raw) <==> s != "" && exists i :: 0 <= i < |raw| && Clean(raw[i]) == s
  {
    if raw != [] {
      var init := raw[..|raw| - 1];
      NamedStatesAre(init);
      forall s ensures s in NamedStates(raw) <==> s != "" && exists i :: 0 <= i < |raw| && Clean(raw[i]) == s {
        if s in NamedStates(init) {
          var i :| 0 <= i < |init| && Clean(init[i]) == s;
          assert Clean(raw[i]) == s;
        } else {
          assert Clean(raw[|raw| - 1]) == s ==> s in NamedStates(raw) || s == "";
          assert forall i :: 0 <= i < |init| ==> Clean(raw[i]) == Clean(init[i]);
        }
      }
    }
  }

  lemma NormalizedStatesAreGood(raw: seq<string>)
    requires StatesAllowed(raw)
    ensures GoodStates(Sort(StringLe, NamedStates(raw)))
    ensures forall s :: s in Sort(StringLe, NamedStates(raw)) <==> s in NamedStates(raw)
  {
    var n := NamedStates(raw);
    var out := Sort(StringLe, n);
    OrdersAreTotal();
    NamedStatesAre(raw);
    SortSorts(StringLe, n);
    SameElements(StringLe, n);
    forall i | 0 <= i < |out| ensures out[i] in CT_STATES { assert out[i] in n; }
    SortKeepsDistinct(StringLe, n);
  }

  // ------------------------------------------------------------------------ ports

  function DeclaredPorts(r: Rule): seq<int> {
    (if r.port != 0 then [r.port] else []) + r.ports
  }

  predicate PortsValid(ports: seq<int>) {
    forall i :: 0 <= i < |ports| ==> ValidPort(ports[i])
  }

  function NormalizedPorts(ports: seq<int>): Result<seq<int>, SpecError> {
    if PortsValid(ports) then Ok(Sort(IntLe, Dedupe(ports))) else Err(BadPort)
  }

  method FilterPorts(ports: seq<int>) returns (r: Result<seq<int>, SpecError>)
    ensures r == NormalizedPorts(ports)
  {
    var seen: set<int> := {};
    var filtered: seq<int> := [];
    for i := 0 to |ports|
      invariant filtered == Dedupe(ports[..i])
      invariant forall p :: p in seen <==> p in filtered
      invariant forall k :: 0 <= k < i ==> ValidPort(ports[k])
    {
      assert ports[..i + 1][..i] == ports[..i];
      var port := ports[i];
      if port <= 0 || port > MAX_PORT { return Err(BadPort); }
      if port in seen { continue; }
      seen := seen + {port};
      filtered := filtered + [port];
    }
    assert ports[..|ports|] == ports;
    return Ok(Sort(IntLe, filtered));
  }

  // ------------------------------------------------------------------- whole rules

  /** One rule per port, or the rule itself when it names none. */
  function ExpandPorts(base: NormalizedRule, ports: seq<int>): seq<NormalizedRule> {
    if ports == [] then [base]
    else seq(|ports|, i requires 0 <= i < |ports| => base.(port := ports[i]))
  }

  /** Which protocols need ports and which refuse them. */
  function PortsFit(proto: string, ports: seq<int>): Option<SpecError> {
    if proto in {"tcp", "udp"} then (if ports == [] then Some(PortsRequired) else None)
    else if ports != [] then Some(PortsForbidden) else None
  }

  function NormalizedRules(r: Rule): Result<seq<NormalizedRule>, SpecError> {
    match NormalizeChain(r.chain) case Err(e) => Err(e) case Ok(chain) =>
    var action := Clean(r.action);
    if action !in ACTIONS then Err(BadAction) else
    var proto := Clean(r.proto);
    if proto !in PROTOS then Err(BadProto) else
    if |r.ports| > MAX_PORT then Err(TooManyPorts) else
    match NormalizedPorts(DeclaredPorts(r)) case Err(e) => Err(e) case Ok(ports) =>
    match NormalizeAddress(r.source) case Err(e) => Err(e) case Ok(src) =>
    match NormalizeAddress(r.destination) case Err(e) => Err(e) case Ok(dst) =>
    match NormalizeInterface(r.inInterface) case Err(e) => Err(e) case Ok(iif) =>
    match NormalizeInterface(r.outInterface) case Err(e) => Err(e) case Ok(oif) =>
    match NormalizedStates(r.ctStates) case Err(e) => Err(e) case Ok(states) =>
    match PortsFit(proto, ports) case Some(e) => Err(e) case None =>
    var base := NormalizedRule(chain, action, proto, 0, src, dst, iif, oif, states);
    if !HasMatcher(base) then Err(NoMatcher) else Ok(ExpandPorts(base, ports))
  }

  method NormalizeDesiredRule(r: Rule) returns (out: Result<seq<NormalizedRule>, SpecError>)
    ensures out == NormalizedRules(r)
  {
    var chain := NormalizeChain(r.chain);
    if chain.Err? { return Err(chain.error); }
    var action := Clean(r.action);
    if action !in ACTIONS { return Err(BadAction); }
    var proto := Clean(r.proto);
    if proto !in PROTOS { return Err(BadProto); }
    if |r.ports| > MAX_PORT { return Err(TooManyPorts); }
    var ports := FilterPorts(DeclaredPorts(r));
    if ports.Err? { return Err(ports.error); }
    var src := NormalizeAddress(r.source);
    if src.Err? { return Err(src.error); }
    var dst := NormalizeAddress(r.destination);
    if dst.Err? { return Err(dst.error); }
    var iif := NormalizeInterface(r.inInterface);
    if iif.Err? { return Err(iif.error); }
    var oif := NormalizeInterface(r.outInterface);
    if oif.Err? { return Err(oif.error); }
    var states := NormalizeCtStates(r.ctStates);
    if states.Err? { return Err(states.error); }
    var misfit := PortsFit(proto, ports.value);
    if misfit.Some? { return Err(misfit.value); }
    var base := NormalizedRule(chain.value, action, proto, 0, src.value, dst.value, iif.value, oif.value, states.value);
    if !HasMatcher(base) { return Err(NoMatcher); }
    if ports.value == [] { return Ok([base]); }
    var rules: seq<NormalizedRule> := [];
    for i := 0 to |ports.value|
      invariant rules == seq(i, k requires 0 <= k < i => base.(port := ports.value[k]))
    {
      rules := rules + [base.(port := ports.value[i])];
    }
    return Ok(rules);
  }

  lemma NormalizedRulesAreWellFormed(r: Rule)
    requires NormalizedRules(r).Ok?
    ensures forall n <- NormalizedRules(r).value :: WellFormed(n)
  {
    OrdersAreTotal();
    NormalizedStatesAreGood(r.ctStates);
    SameElements(IntLe, Dedupe(DeclaredPorts(r)));
    var ports := NormalizedPorts(DeclaredPorts(r)).value;
    forall i | 0 <= i < |ports| ensures ValidPort(ports[i]) { assert ports[i] in DeclaredPorts(r); }
  }

  // ------------------------------------------------------------------------- keys

  function KeyParts(r: NormalizedRule): seq<string> {
    [r.chain, r.action, r.proto, Itoa(r.port), r.source, r.destination, r.inInterface, r.outInterface, Join(r.ctStates, ",")]
  }

  /** The identity under which rules are deduplicated and compared. */
  function Key(r: NormalizedRule): string { Join(KeyParts(r), "|") }

  function Keys(rules: seq<NormalizedRule>): seq<string> {
    seq(|rules|, i requires 0 <= i < |rules| => Key(rules[i]))
  }

  /** The rules whose key no earlier rule has. */
  function DedupeRules(rules: seq<NormalizedRule>): seq<NormalizedRule> {
    if rules == [] then []
    else
      var d, last := DedupeRules(rules[..|rules| - 1]), rules[|rules| - 1];
      if Key(last) in Keys(d) then d else d + [last]
  }

  lemma NoRulesYet()
    ensures DedupeRules([]) == []
  {
  }

  lemma DedupeSnoc(rules: seq<NormalizedRule>, last: NormalizedRule)
    ensures var d := DedupeRules(rules);
            DedupeRules(rules + [last]) == if Key(last) in Keys(d) then d else d + [last]
    ensures Keys(DedupeRules(rules) + [last]) == Keys(DedupeRules(rules)) + [Key(last)]
  {
    hide Key;
    assert (rules + [last])[..|rules|] == rules;
  }

  predicate DistinctKeys(rules: seq<NormalizedRule>) {
    forall i, j :: 0 <= i < j < |rules| ==> Key(rules[i]) != Key(rules[j])
  }

  /** The kept rules are among the given ones and cover their keys. */
  predicate Represents(kept: seq<NormalizedRule>, rules: seq<NormalizedRule>) {
    && (forall r <- kept :: r in rules)
    && (forall r <- rules :: Key(r) in Keys(kept))
  }

  lemma RepresentsSnoc(kept: seq<NormalizedRule>, init: seq<NormalizedRule>, last: NormalizedRule)
    requires DistinctKeys(kept) && Represents(kept, init)
    ensures Key(last) in Keys(kept) ==> Represents(kept, init + [last])
    ensures Key(last) !in Keys(kept) ==> DistinctKeys(kept + [last]) && Represents(kept + [last], init + [last])
  {
    hide Key;
    assert Keys(kept + [last]) == Keys(kept) + [Key(last)];
    if Key(last) !in Keys(kept) {
      forall i | 0 <= i < |kept| ensures Key(kept[i]) != Key(last) {
        assert Keys(kept)[i] == Key(kept[i]);
      }
    }
  }

  lemma NothingRepresented()
    ensures DistinctKeys([]) && Represents([], [])
  {
    hide Key;
  }

  lemma {:induction false} DedupeRulesKeeps(rules: seq<NormalizedRule>)
    ensures DistinctKeys(DedupeRules(rules)) && Represents(DedupeRules(rules), rules)
  {
    hide DistinctKeys, Represents, Key;
    if rules == [] {
      NothingRepresented();
    } else {
      var init, last := rules[..|rules| - 1], rules[|rules| - 1];
      DedupeRulesKeeps(init);
      RepresentsSnoc(DedupeRules(init), init, last);
      assert rules == init + [last];
    }
  }

  // ------------------------------------------------------------------- whole specs

  function PolicyMap(policies: seq<Policy>): Result<map<string, string>, SpecError> {
    if policies == [] then Ok(map[])
    else match PolicyMap(policies[..|policies| - 1]) case Err(e) => Err(e) case Ok(m) =>
      var cp := policies[|policies| - 1];
      match NormalizeChain(cp.chain) case Err(e) => Err(e) case Ok(chain) =>
      match NormalizePolicy(cp.policy) case Err(e) => Err(e) case Ok(policy) =>
      if policy == "reject" then Err(BadPolicy) else Ok(m[chain := policy])
  }

  function ExpandAll(rules: seq<Rule>): Result<seq<NormalizedRule>, SpecError> {
    if rules == [] then Ok([])
    else match ExpandAll(rules[..|rules| - 1]) case Err(e) => Err(e) case Ok(before) =>
      match NormalizedRules(rules[|rules| - 1]) case Err(e) => Err(e) case Ok(more) => Ok(before + more)
  }

  /** Whether an address can be matched in a table of this family. */
  predicate AddressFits(family: string, a: string) {
    a == "" || ((family == "ip" ==> !AddressIsV6(a)) && (family == "ip6" ==> AddressIsV6(a)))
  }

  function RuleFits(family: string, policies: map<string, string>, r: NormalizedRule): Option<SpecError> {
    if r.chain !in policies then Some(MissingPolicy)
    else if !AddressFits(family, r.source) || !AddressFits(family, r.destination) then Some(WrongFamily)
    else None
  }

  function FirstMisfit(family: string, policies: map<string, string>, rules: seq<NormalizedRule>): Option<SpecError> {
    if rules == [] then None
    else if RuleFits(family, policies, rules[0]).Some? then RuleFits(family, policies, rules[0])
    else FirstMisfit(family, policies, rules[1..])
  }

  function Normalized(fw: Spec): Result<NormalizedSpec, SpecError> {
    var family := Clean(fw.family);
    var table := TrimSpace(fw.table);
    if family !in FAMILIES then Err(BadFamily)
    else if !IsTableName(table) then Err(BadTable)
    else if fw.policies == [] then Err(NoPolicies)
    else match PolicyMap(fw.policies) case Err(e) => Err(e) case Ok(policies) =>
    match ExpandAll(fw.rules) case Err(e) => Err(e) case Ok(expanded) =>
    var rules := DedupeRules(expanded);
    match FirstMisfit(family, policies, rules) case Some(e) => Err(e) case None =>
    Ok(NormalizedSpec(family, table, policies, rules))
  }

  method NormalizePolicies(policies: seq<Policy>) returns (r: Result<map<string, string>, SpecError>)
    ensures r == PolicyMap(policies)
  {
    var m: map<string, string> := map[];
    for i := 0 to |policies|
      invariant PolicyMap(policies[..i]) == Ok(m)
    {
      assert policies[..i + 1][..i] == policies[..i];
      var chain := NormalizeChain(policies[i].chain);
      var policy := NormalizePolicy(policies[i].policy);
      if chain.Err? || policy.Err? || policy.value == "reject" {
        PolicyMapFails(policies, i);
        if chain.Err? { return Err(chain.error); }
        return Err(BadPolicy);
      }
      m := m[chain.value := policy.value];
    }
    assert policies[..|policies|] == policies;
    return Ok(m);
  }

  /** Adds the expanded rules whose key is new to the rules kept so far. */
  method KeepNew(rules: seq<NormalizedRule>, seen: set<string>, more: seq<NormalizedRule>, ghost expanded: seq<NormalizedRule>)
    returns (kept: seq<NormalizedRule>, keys: set<string>)
    requires rules == DedupeRules(expanded) && forall k :: k in seen <==> k in Keys(rules)
    ensures kept == DedupeRules(expanded + more) && forall k :: k in keys <==> k in Keys(kept)
  {
    hide DedupeRules, Key;
    kept, keys := rules, seen;
    assert expanded + more[..0] == expanded;
    for j := 0 to |more|
      invariant kept == DedupeRules(expanded + more[..j])
      invariant forall k :: k in keys <==> k in Keys(kept)
    {
      var nr := more[j];
      DedupeSnoc(expanded + more[..j], nr);
      assert expanded + more[..j + 1] == expanded + more[..j] + [nr];
      if Key(nr) in keys { continue; }
      keys := keys + {Key(nr)};
      kept := kept + [nr];
    }
    assert more[..|more|] == more;
  }

  method ExpandRules(rules: seq<Rule>) returns (r: Result<seq<NormalizedRule>, SpecError>)
    ensures r == match ExpandAll(rules) case Err(e) => Err(e) case Ok(all) => Ok(DedupeRules(all))
  {
    hide DedupeRules, Key, NormalizedRules;
    NoRulesYet();
    var seen: set<string> := {};
    var out: seq<NormalizedRule> := [];
    ghost var expanded: seq<NormalizedRule> := [];
    for i := 0 to |rules|
      invariant ExpandAll(rules[..i]) == Ok(expanded)
      invariant out == DedupeRules(expanded)
      invariant forall k :: k in seen <==> k in Keys(out)
    {
      assert rules[..i + 1][..i] == rules[..i];
      var more := NormalizeDesiredRule(rules[i]);
      if more.Err? {
        ExpandAllFails(rules, i);
        return Err(more.error);
      }
      out, seen := KeepNew(out, seen, more.value, expanded);
      expanded := expanded + more.value;
    }
    assert rules[..|rules|] == rules;
    return Ok(out);
  }

  method NormalizeDesiredSpec(fw: Spec) returns (r: Result<NormalizedSpec, SpecError>)
    ensures r == Normalized(fw)
  {
    var family := Clean(fw.family);
    if family !in FAMILIES { return Err(BadFamily); }
    var table := TrimSpace(fw.table);
    if !IsTableName(table) { return Err(BadTable); }
    if fw.policies == [] { return Err(NoPolicies); }
    var policies := NormalizePolicies(fw.policies);
    if policies.Err? { return Err(policies.error); }
    var rules := ExpandRules(fw.rules);
    if rules.Err? { return Err(rules.error); }
    for i := 0 to |rules.value|
      invariant FirstMisfit(family, policies.value, rules.value) == FirstMisfit(family, policies.value, rules.value[i..])
    {
      assert rules.value[i..][1..] == rules.value[i + 1..];
      var misfit := RuleFits(family, policies.value, rules.value[i]);
      if misfit.Some? { return Err(misfit.value); }
    }
    return Ok(NormalizedSpec(family, table, policies.value, rules.value));
  }

  lemma {:induction false} PolicyMapFails(policies: seq<Policy>, i: nat)
    requires i < |policies| && PolicyMap(policies[..i]).Ok?
    requires PolicyMap(policies[..i + 1]).Err?
    ensures PolicyMap(policies) == PolicyMap(policies[..i + 1])
    decreases |policies|
  {
    if i + 1 == |policies| {
      assert policies[..i + 1] == policies;
    } else {
      var init := policies[..|policies| - 1];
      assert init[..i] == policies[..i] && init[..i + 1] == policies[..i + 1];
      PolicyMapFails(init, i);
    }
  }

  lemma {:induction false} ExpandAllFails(rules: seq<Rule>, i: nat)
    requires i < |rules| && ExpandAll(rules[..i]).Ok?
    requires ExpandAll(rules[..i + 1]).Err?
    ensures ExpandAll(rules) == ExpandAll(rules[..i + 1])
    decreases |rules|
  {
    hide NormalizedRules;
    if i + 1 == |rules| {
      assert rules[..i + 1] == rules;
    } else {
      var init := rules[..|rules| - 1];
      assert init[..i] == rules[..i] && init[..i + 1] == rules[..i + 1];
      ExpandAllFails(init, i);
    }
  }

  /** A spec as the normaliser leaves it. */
  predicate WellFormedSpec(s: NormalizedSpec) {
    && s.family in FAMILIES && IsTableName(s.table)
    && (forall c <- s.policies :: c in CHAINS && s.policies[c] in {"accept", "drop"})
    && (forall r <- s.rules :: WellFormed(r) && r.chain in s.policies)
    && DistinctKeys(s.rules)
  }

  lemma {:induction false} PolicyMapIsGood(policies: seq<Policy>)
    requires PolicyMap(policies).Ok?
    ensures var m := PolicyMap(policies).value; forall c <- m :: c in CHAINS && m[c] in {"accept", "drop"}
  {
    if policies != [] { PolicyMapIsGood(policies[..|policies| - 1]); }
  }

  lemma {:induction false} ExpandAllIsWellFormed(rules: seq<Rule>)
    requires ExpandAll(rules).Ok?
    ensures forall n <- ExpandAll(rules).value :: WellFormed(n)
  {
    if rules != [] {
      ExpandAllIsWellFormed(rules[..|rules| - 1]);
      NormalizedRulesAreWellFormed(rules[|rules| - 1]);
    }
  }

  lemma {:induction false} NoMisfitMeans(family: string, policies: map<string, string>, rules: seq<NormalizedRule>)
    requires FirstMisfit(family, policies, rules).None?
    ensures forall r <- rules :: RuleFits(family, policies, r).None?
  {
    if rules != [] { NoMisfitMeans(family, policies, rules[1..]); }
  }

  lemma NormalizedIsWellFormed(fw: Spec)
    requires Normalized(fw).Ok?
    ensures WellFormedSpec(Normalized(fw).value)
  {
    PolicyMapIsGood(fw.policies);
    ExpandAllIsWellFormed(fw.rules);
    DedupeRulesKeeps(ExpandAll(fw.rules).value);
    var s := Normalized(fw).value;
    NoMisfitMeans(s.family, s.policies, s.rules);
    forall r <- s.rules ensures WellFormed(r) && r.chain in s.policies {
      assert RuleFits(s.family, s.policies, r).None?;
    }
  }

  // --------------------------------------------------------- the key identifies a rule

  predicate PlainKey(r: NormalizedRule) { forall p <- KeyParts(r) :: '|' !in p }

  lemma StatesArePlain(s: seq<string>)
    requires GoodStates(s)
    ensures '|' !in Join(s, ",")
    ensures forall p <- s :: ',' !in p && p != ""
  {
    JoinHasOnly(s, ",", '|');
  }

  lemma NoBar(s: string)
    requires s == "" || IsAddress(s) || IsInterfaceName(s)
    ensures '|' !in s
  {
    forall i | 0 <= i < |s| ensures s[i] != '|' {}
  }

  lemma WordsArePlain(r: NormalizedRule)
    requires r.chain in CHAINS && r.action in ACTIONS && r.proto in PROTOS
    ensures '|' !in r.chain && '|' !in r.action && '|' !in r.proto
  {
  }

  lemma WellFormedKeyIsPlain(r: NormalizedRule)
    requires WellFormed(r)
    ensures PlainKey(r)
  {
    hide IsAddress, IsInterfaceName, GoodStates, Join;
    StatesArePlain(r.ctStates);
    ItoaOfNat(r.port);
    NoBar(r.source);
    NoBar(r.destination);
    NoBar(r.inInterface);
    NoBar(r.outInterface);
    WordsArePlain(r);
    var p := KeyParts(r);
    assert p[0] == r.chain && p[1] == r.action && p[2] == r.proto && p[3] == Itoa(r.port) && p[4] == r.source;
    assert p[5] == r.destination && p[6] == r.inInterface && p[7] == r.outInterface && p[8] == Join(r.ctStates, ",");
  }

  lemma JoinStatesInjective(a: seq<string>, b: seq<string>)
    requires GoodStates(a) && GoodStates(b) && Join(a, ",") == Join(b, ",")
    ensures a == b
  {
    StatesArePlain(a);
    StatesArePlain(b);
    if a != [] { SplitJoin(a, ','); }
    if b != [] { SplitJoin(b, ','); }
  }

  /** A rule with the key of a normalised rule is that rule, however foreign it is otherwise. */
  lemma KeyIdentifies(foreign: NormalizedRule, own: NormalizedRule)
    requires WellFormed(own) && GoodStates(foreign.ctStates) && 0 <= foreign.port
    requires Key(foreign) == Key(own)
    ensures foreign == own
  {
    var a, b := KeyParts(foreign), KeyParts(own);
    WellFormedKeyIsPlain(own);
    CountJoin(a, '|');
    CountJoin(b, '|');
    SplitJoin(a, '|');
    SplitJoin(b, '|');
    assert a == b;
    assert a[0] == b[0] && a[1] == b[1] && a[2] == b[2] && a[3] == b[3] && a[4] == b[4];
    assert a[5] == b[5] && a[6] == b[6] && a[7] == b[7] && a[8] == b[8];
    ItoaInjective(foreign.port, own.port);
    JoinStatesInjective(foreign.ctStates, own.ctStates);
  }
}
