// The comparison of the live rule set with the desired one.
module FirewallDiff {
  import opened Sorting
  import opened Firewall

  datatype PolicyChange = PolicyChange(chain: string, from: string, to: string)

  datatype NormalizedDiff = NormalizedDiff(policyChanges: seq<PolicyChange>,
                                           rulesToAdd: seq<NormalizedRule>, rulesToRemove: seq<NormalizedRule>,
                                           reordered: seq<string>)

  // ------------------------------------------------------------------ specification

  function Managed(desired: NormalizedSpec): set<string> {
    desired.policies.Keys + set r <- desired.rules :: r.chain
  }

  /** A chain without a recorded policy accepts, as in nftables. */
  function LivePolicy(s: NormalizedSpec, chain: string): string {
    if chain in s.policies && s.policies[chain] != "" then s.policies[chain] else "accept"
  }

  function PolicyOf(s: NormalizedSpec, chain: string): string {
    if chain in s.policies then s.policies[chain] else ""
  }

  function ChainRules(rules: seq<NormalizedRule>, chain: string): seq<NormalizedRule> {
    if rules == [] then []
    else
      var before, last := ChainRules(rules[..|rules| - 1], chain), rules[|rules| - 1];
      if last.chain == chain then before + [last] else before
  }

  function ManagedRules(rules: seq<NormalizedRule>, managed: set<string>): seq<NormalizedRule> {
    if rules == [] then []
    else
      var before, last := ManagedRules(rules[..|rules| - 1], managed), rules[|rules| - 1];
      if last.chain in managed then before + [last] else before
  }

  function KeySet(rules: seq<NormalizedRule>): set<string> { set r <- rules :: Key(r) }

  function RulesOutside(rules: seq<NormalizedRule>, keys: set<string>): seq<NormalizedRule> {
    if rules == [] then []
    else
      var before, last := RulesOutside(rules[..|rules| - 1], keys), rules[|rules| - 1];
      if Key(last) in keys then before else before + [last]
  }

  function PolicyChanges(current: NormalizedSpec, desired: NormalizedSpec, chains: seq<string>): seq<PolicyChange> {
    if chains == [] then []
    else
      var before, c := PolicyChanges(current, desired, chains[..|chains| - 1]), chains[|chains| - 1];
      if PolicyOf(desired, c) == LivePolicy(current, c) then before
      else before + [PolicyChange(c, LivePolicy(current, c), PolicyOf(desired, c))]
  }

  predicate IsReordered(current: seq<NormalizedRule>, desired: seq<NormalizedRule>, chain: string) {
    var a, b := Keys(ChainRules(current, chain)), Keys(ChainRules(desired, chain));
    |a| == |b| && a != b
  }

  function Reordered(current: seq<NormalizedRule>, desired: seq<NormalizedRule>, chains: seq<string>): seq<string> {
    if chains == [] then []
    else
      var before, c := Reordered(current, desired, chains[..|chains| - 1]), chains[|chains| - 1];
      if IsReordered(current, desired, c) then before + [c] else before
  }

  function DiffOver(current: NormalizedSpec, desired: NormalizedSpec, chains: seq<string>): NormalizedDiff {
    var mine := ManagedRules(current.rules, Managed(desired));
    NormalizedDiff(PolicyChanges(current, desired, chains),
                   RulesOutside(desired.rules, KeySet(mine)),
                   RulesOutside(mine, KeySet(desired.rules)),
                   Reordered(mine, desired.rules, chains))
  }

  predicate IsEmpty(d: NormalizedDiff) {
    d.policyChanges == [] && d.rulesToAdd == [] && d.rulesToRemove == [] && d.reordered == []
  }

  // ---------------------------------------------------------------------- the loops

  method ChainRuleKeys(rules: seq<NormalizedRule>, chain: string) returns (keys: seq<string>)
    ensures keys == Keys(ChainRules(rules, chain))
  {
    keys := [];
    for i := 0 to |rules|
      invariant keys == Keys(ChainRules(rules[..i], chain))
    {
      assert rules[..i + 1][..i] == rules[..i];
      if rules[i].chain == chain {
        var before := ChainRules(rules[..i], chain);
        assert Keys(before + [rules[i]]) == Keys(before) + [Key(rules[i])];
        keys := keys + [Key(rules[i])];
      }
    }
    assert rules[..|rules|] == rules;
  }

  method ReorderedChains(current: seq<NormalizedRule>, desired: seq<NormalizedRule>, chains: seq<string>)
    returns (out: seq<string>)
    ensures out == Reordered(current, desired, chains)
  {
    hide Key, ChainRules;
    out := [];
    for n := 0 to |chains|
      invariant out == Reordered(current, desired, chains[..n])
    {
      assert chains[..n + 1][..n] == chains[..n];
      var a := ChainRuleKeys(current, chains[n]);
      var b := ChainRuleKeys(desired, chains[n]);
      if |a| != |b| { continue; }
      for i := 0 to |b|
        invariant out == Reordered(current, desired, chains[..n])
        invariant a[..i] == b[..i]
      {
        if a[i] != b[i] {
          out := out + [chains[n]];
          break;
        }
      }
    }
    assert chains[..|chains|] == chains;
  }

  method PolicyChangesOf(current: NormalizedSpec, desired: NormalizedSpec, chains: seq<string>)
    returns (changes: seq<PolicyChange>)
    ensures changes == PolicyChanges(current, desired, chains)
  {
    changes := [];
    for i := 0 to |chains|
      invariant changes == PolicyChanges(current, desired, chains[..i])
    {
      assert chains[..i + 1][..i] == chains[..i];
      var c := chains[i];
      var wanted, live := PolicyOf(desired, c), PolicyOf(current, c);
      if live == "" { live := "accept"; }
      if wanted != live { changes := changes + [PolicyChange(c, live, wanted)]; }
    }
    assert chains[..|chains|] == chains;
  }

  method RulesNotIn(rules: seq<NormalizedRule>, keys: set<string>) returns (out: seq<NormalizedRule>)
    ensures out == RulesOutside(rules, keys)
  {
    out := [];
    for i := 0 to |rules|
      invariant out == RulesOutside(rules[..i], keys)
    {
      assert rules[..i + 1][..i] == rules[..i];
      if Key(rules[i]) !in keys { out := out + [rules[i]]; }
    }
    assert rules[..|rules|] == rules;
  }

  method DiffNormalized(current: NormalizedSpec, desired: NormalizedSpec)
    returns (diff: NormalizedDiff, chains: seq<string>)
    ensures Lists(chains, Managed(desired))
    ensures diff == DiffOver(current, desired, chains)
  {
    hide Key, Managed, Lists, PolicyChanges, Reordered;
    var managed := Managed(desired);
    chains := SortedListing(managed);
    var changes := PolicyChangesOf(current, desired, chains);

    var currentKeys: set<string> := {};
    var mine: seq<NormalizedRule> := [];
    for i := 0 to |current.rules|
      invariant mine == ManagedRules(current.rules[..i], managed)
      invariant currentKeys == KeySet(mine)
    {
      assert current.rules[..i + 1][..i] == current.rules[..i];
      var rule := current.rules[i];
      if rule.chain !in managed { continue; }
      currentKeys := currentKeys + {Key(rule)};
      mine := mine + [rule];
    }
    assert current.rules[..|current.rules|] == current.rules;
    var add := RulesNotIn(desired.rules, currentKeys);
    var remove := RulesNotIn(mine, KeySet(desired.rules));
    var reordered := ReorderedChains(mine, desired.rules, chains);
    return NormalizedDiff(changes, add, remove, reordered), chains;
  }

  // --------------------------------------------------------- an empty diff is equality

  /** Every managed chain has the desired policy and the desired rules in the desired order. */
  predicate Agrees(current: NormalizedSpec, desired: NormalizedSpec) {
    forall c <- desired.policies ::
      LivePolicy(current, c) == desired.policies[c] && ChainRules(current.rules, c) == ChainRules(desired.rules, c)
  }

  /** What the read-back guarantees of a live rule, and no more. */
  predicate ReadBackRule(r: NormalizedRule) { GoodStates(r.ctStates) && 0 <= r.port }

  lemma {:induction false} ChainRulesAre(rules: seq<NormalizedRule>, chain: string)
    ensures forall r :: r in ChainRules(rules, chain) <==> r in rules && r.chain == chain
  {
    if rules != [] {
      ChainRulesAre(rules[..|rules| - 1], chain);
      assert rules == rules[..|rules| - 1] + [rules[|rules| - 1]];
    }
  }

  lemma {:induction false} ChainOfManaged(rules: seq<NormalizedRule>, managed: set<string>, chain: string)
    requires chain in managed
    ensures ChainRules(ManagedRules(rules, managed), chain) == ChainRules(rules, chain)
  {
    if rules != [] {
      var init, last := rules[..|rules| - 1], rules[|rules| - 1];
      ChainOfManaged(init, managed, chain);
      if last.chain in managed {
        assert (ManagedRules(init, managed) + [last])[..|ManagedRules(init, managed)|] == ManagedRules(init, managed);
      }
    }
  }

  lemma {:induction false} ManagedRulesAre(rules: seq<NormalizedRule>, managed: set<string>)
    ensures forall r :: r in ManagedRules(rules, managed) <==> r in rules && r.chain in managed
  {
    if rules != [] {
      ManagedRulesAre(rules[..|rules| - 1], managed);
      assert rules == rules[..|rules| - 1] + [rules[|rules| - 1]];
    }
  }

  lemma {:induction false} OutsideIsEmptyIff(rules: seq<NormalizedRule>, keys: set<string>)
    ensures RulesOutside(rules, keys) == [] <==> forall r <- rules :: Key(r) in keys
  {
    if rules != [] {
      OutsideIsEmptyIff(rules[..|rules| - 1], keys);
      assert rules == rules[..|rules| - 1] + [rules[|rules| - 1]];
    }
  }

  lemma {:induction false} NoPolicyChangeIff(current: NormalizedSpec, desired: NormalizedSpec, chains: seq<string>)
    ensures PolicyChanges(current, desired, chains) == [] <==>
            forall c <- chains :: PolicyOf(desired, c) == LivePolicy(current, c)
  {
    if chains != [] {
      NoPolicyChangeIff(current, desired, chains[..|chains| - 1]);
      assert chains == chains[..|chains| - 1] + [chains[|chains| - 1]];
    }
  }

  lemma {:induction false} NoReorderIff(current: seq<NormalizedRule>, desired: seq<NormalizedRule>, chains: seq<string>)
    ensures Reordered(current, desired, chains) == [] <==> forall c <- chains :: !IsReordered(current, desired, c)
  {
    hide IsReordered;
    if chains != [] {
      NoReorderIff(current, desired, chains[..|chains| - 1]);
      assert chains == chains[..|chains| - 1] + [chains[|chains| - 1]];
    }
  }

  lemma {:induction false} ChainKeepsDistinct(rules: seq<NormalizedRule>, chain: string)
    requires DistinctKeys(rules)
    ensures DistinctKeys(ChainRules(rules, chain))
  {
    if rules != [] {
      var init, last := rules[..|rules| - 1], rules[|rules| - 1];
      ChainKeepsDistinct(init, chain);
      ChainRulesAre(init, chain);
      var before := ChainRules(init, chain);
      hide Key;
      forall i | 0 <= i < |before| ensures Key(before[i]) != Key(last) {
        assert before[i] in init;
        var k :| 0 <= k < |init| && init[k] == before[i];
        assert rules[k] == before[i];
      }
    }
  }

  lemma {:induction false} SizeOfDistinct<T>(s: seq<T>)
    requires forall i, j :: 0 <= i < j < |s| ==> s[i] != s[j]
    ensures |(set x <- s)| == |s|
  {
    if s != [] {
      SizeOfDistinct(s[1..]);
      assert (set x <- s) == (set x <- s[1..]) + {s[0]};
      assert s[0] !in s[1..];
    } else {
      assert (set x <- s) == {};
    }
  }

  lemma SameRulesSameLength(a: seq<NormalizedRule>, b: seq<NormalizedRule>)
    requires DistinctKeys(a) && DistinctKeys(b)
    requires forall r :: r in a <==> r in b
    ensures |a| == |b|
  {
    hide Key;
    SizeOfDistinct(a);
    SizeOfDistinct(b);
    assert (set x <- a) == (set x <- b);
  }

  /** A live rule whose key a desired rule has is that desired rule. */
  lemma LiveRuleIsDesired(live: seq<NormalizedRule>, desired: seq<NormalizedRule>, r: NormalizedRule)
    requires (forall l <- live :: ReadBackRule(l)) && (forall d <- desired :: WellFormed(d))
    ensures r in live && Key(r) in KeySet(desired) ==> r in desired
    ensures r in desired && Key(r) in KeySet(live) ==> r in live
  {
    if r in live && Key(r) in KeySet(desired) {
      var d :| d in desired && Key(d) == Key(r);
      KeyIdentifies(r, d);
    }
    if r in desired && Key(r) in KeySet(live) {
      var l :| l in live && Key(l) == Key(r);
      KeyIdentifies(l, r);
    }
  }

  lemma SameKeysSameRules(a: seq<NormalizedRule>, b: seq<NormalizedRule>)
    requires (forall l <- a :: ReadBackRule(l)) && (forall d <- b :: WellFormed(d)) && Keys(a) == Keys(b)
    ensures a == b
  {
    hide Key, WellFormed;
    assert |Keys(a)| == |Keys(b)|;
    forall i | 0 <= i < |a| ensures a[i] == b[i] {
      assert a[i] in a && b[i] in b && Keys(a)[i] == Keys(b)[i];
      KeyIdentifies(a[i], b[i]);
    }
  }

  lemma ManagedIsPolicies(desired: NormalizedSpec)
    requires WellFormedSpec(desired)
    ensures Managed(desired) == desired.policies.Keys
  {
    hide WellFormed, DistinctKeys;
  }

  lemma EmptyDiffMeans(current: NormalizedSpec, desired: NormalizedSpec, chains: seq<string>)
    requires WellFormedSpec(desired) && DistinctKeys(current.rules) && (forall r <- current.rules :: ReadBackRule(r))
    requires Lists(chains, Managed(desired)) && IsEmpty(DiffOver(current, desired, chains))
    ensures Agrees(current, desired)
  {
    var managed := Managed(desired);
    var mine := ManagedRules(current.rules, managed);
    ManagedIsPolicies(desired);
    hide Key, WellFormed, ReadBackRule;
    ManagedRulesAre(current.rules, managed);
    OutsideIsEmptyIff(desired.rules, KeySet(mine));
    OutsideIsEmptyIff(mine, KeySet(desired.rules));
    NoPolicyChangeIff(current, desired, chains);
    NoReorderIff(mine, desired.rules, chains);
    forall c <- desired.policies
      ensures LivePolicy(current, c) == desired.policies[c] && ChainRules(current.rules, c) == ChainRules(desired.rules, c)
    {
      assert c in chains;
      ChainOfManaged(current.rules, managed, c);
      var a, b := ChainRules(current.rules, c), ChainRules(desired.rules, c);
      ChainRulesAre(current.rules, c);
      ChainRulesAre(desired.rules, c);
      ChainKeepsDistinct(current.rules, c);
      ChainKeepsDistinct(desired.rules, c);
      forall r ensures r in a <==> r in b { LiveRuleIsDesired(mine, desired.rules, r); }
      SameRulesSameLength(a, b);
      assert !IsReordered(mine, desired.rules, c);
      SameKeysSameRules(a, b);
    }
  }

  lemma AgreementMeansEmpty(current: NormalizedSpec, desired: NormalizedSpec, chains: seq<string>)
    requires WellFormedSpec(desired)
    requires Lists(chains, Managed(desired)) && Agrees(current, desired)
    ensures IsEmpty(DiffOver(current, desired, chains))
  {
    var managed := Managed(desired);
    var mine := ManagedRules(current.rules, managed);
    ManagedIsPolicies(desired);
    hide Key, WellFormed;
    ManagedRulesAre(current.rules, managed);
    OutsideIsEmptyIff(desired.rules, KeySet(mine));
    OutsideIsEmptyIff(mine, KeySet(desired.rules));
    NoPolicyChangeIff(current, desired, chains);
    NoReorderIff(mine, desired.rules, chains);
    forall r ensures r in mine <==> r in desired.rules {
      if r in mine || r in desired.rules {
        assert r.chain in desired.policies;
        ChainRulesAre(current.rules, r.chain);
        ChainRulesAre(desired.rules, r.chain);
      }
    }
    forall c <- chains ensures !IsReordered(mine, desired.rules, c) {
      ChainOfManaged(current.rules, managed, c);
    }
  }

  /** The diff is an exact check: empty if and only if the live state agrees with the desired one. */
  lemma DiffIsExact(current: NormalizedSpec, desired: NormalizedSpec, chains: seq<string>)
    requires WellFormedSpec(desired) && DistinctKeys(current.rules) && (forall r <- current.rules :: ReadBackRule(r))
    requires Lists(chains, Managed(desired))
    ensures IsEmpty(DiffOver(current, desired, chains)) <==> Agrees(current, desired)
  {
    if IsEmpty(DiffOver(current, desired, chains)) { EmptyDiffMeans(current, desired, chains); }
    if Agrees(current, desired) { AgreementMeansEmpty(current, desired, chains); }
  }
}
