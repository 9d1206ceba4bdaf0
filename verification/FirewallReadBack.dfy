// Reading live rules back from nft's JSON, and why a faithful load shows no difference.
module FirewallReadBack {
  import opened Wrappers
  import opened Text
  import opened Sorting
  import opened Firewall
  import opened FirewallRender

  // --------------------------------------------------------------------- nft's JSON

  /** A match's right-hand side. */
  datatype Json = Str(text: string) | Num(value: int) | Prefix(addr: string, len: int) | Arr(items: seq<Json>)
                | SetOf(items: seq<Json>) | Opaque

  datatype Payload = Payload(protocol: string, field: string)

  datatype Match = Match(payload: Option<Payload>, meta: Option<string>, ct: Option<string>, right: Json)

  /** One statement of a rule; what cannot be decoded has no part. */
  datatype Expr = Expr(accept: bool, drop: bool, reject: bool, test: Option<Match>)

  datatype LiveRule = LiveRule(family: string, table: string, chain: string, exprs: seq<Expr>)
  datatype LiveChain = LiveChain(family: string, table: string, hook: string, policy: string)
  datatype Entry = Entry(chain: Option<LiveChain>, rule: Option<LiveRule>)

  // ----------------------------------------------------------------- decoding values

  /** strconv.Atoi of an unsigned number, the only kind nft prints. */
  function Atoi(s: string): Option<int> {
    if s == "" || !forall i :: 0 <= i < |s| ==> IsDigit(s[i]) then None else Some(DigitsValue(s))
  }

  function DigitsValue(s: string): nat
    requires forall i :: 0 <= i < |s| ==> IsDigit(s[i])
  {
    if s == "" then 0
    else
      assert IsDigit(s[|s| - 1]);
      10 * DigitsValue(s[..|s| - 1]) + (s[|s| - 1] as int - '0' as int)
  }

  function PortOf(v: Json): seq<int> {
    match v
    case Num(n) => [n]
    case Str(t) => (match Atoi(TrimSpace(t)) case Some(n) => [n] case None => [])
    case _ => []
  }

  function PortsOf(vs: seq<Json>): seq<int> {
    if vs == [] then [] else PortsOf(vs[..|vs| - 1]) + PortOf(vs[|vs| - 1])
  }

  function PortValues(v: Json): seq<int> {
    match v
    case SetOf(items) => PortsOf(items)
    case Arr(items) => PortsOf(items)
    case Prefix(_, _) => []
    case _ => PortOf(v)
  }

  method DecodeNftPortValues(v: Json) returns (values: seq<int>)
    ensures values == PortValues(v)
  {
    if !v.SetOf? && !v.Arr? { return if v.Prefix? then [] else PortOf(v); }
    values := [];
    for i := 0 to |v.items|
      invariant values == PortsOf(v.items[..i])
    {
      assert v.items[..i + 1][..i] == v.items[..i];
      values := values + PortOf(v.items[i]);
    }
    assert v.items[..|v.items|] == v.items;
  }

  /** The cleaned, non-empty pieces. */
  function Pieces(parts: seq<string>): seq<string> {
    if parts == [] then []
    else
      var last := Clean(parts[|parts| - 1]);
      Pieces(parts[..|parts| - 1]) + if last == "" then [] else [last]
  }

  /** A prefix covering one address is that address. */
  function CollapsedPrefix(addr: string, len: int): string {
    if len == (if AddressIsV6(addr) then 128 else 32) then addr else addr + "/" + Itoa(len)
  }

  function StringsOf(v: Json): seq<string> {
    match v
    case Str(t) => Pieces(Split(t, ','))
    case Prefix(addr, len) => Pieces(Split(CollapsedPrefix(addr, len), ','))
    case _ => []
  }

  function AllStrings(vs: seq<Json>): seq<string> {
    if vs == [] then [] else AllStrings(vs[..|vs| - 1]) + StringsOf(vs[|vs| - 1])
  }

  function RawStrings(v: Json): seq<string> {
    match v
    case SetOf(items) => AllStrings(items)
    case Arr(items) => AllStrings(items)
    case _ => StringsOf(v)
  }

  function StringValues(v: Json): seq<string> { Sort(StringLe, Dedupe(RawStrings(v))) }

  method CollectStrings(items: seq<Json>) returns (values: seq<string>)
    ensures values == AllStrings(items)
  {
    hide StringsOf;
    values := [];
    for i := 0 to |items|
      invariant values == AllStrings(items[..i])
    {
      assert items[..i + 1][..i] == items[..i];
      values := values + StringsOf(items[i]);
    }
    assert items[..|items|] == items;
  }

  method DecodeNftStringValues(v: Json) returns (out: seq<string>)
    ensures out == StringValues(v)
  {
    hide AllStrings, StringsOf, StringLe, Sort, Dedupe;
    var values: seq<string>;
    if v.SetOf? || v.Arr? {
      values := CollectStrings(v.items);
    } else {
      values := StringsOf(v);
    }
    out := FirstOccurrences(values);
    out := Sort(StringLe, out);
  }

  method FirstOccurrences<T(==,!new)>(values: seq<T>) returns (out: seq<T>)
    ensures out == Dedupe(values)
  {
    var seen: set<T> := {};
    out := [];
    for i := 0 to |values|
      invariant out == Dedupe(values[..i])
      invariant forall s :: s in seen <==> s in out
    {
      assert values[..i + 1][..i] == values[..i];
      if values[i] in seen { continue; }
      seen := seen + {values[i]};
      out := out + [values[i]];
    }
    assert values[..|values|] == values;
  }

  function StringValue(v: Json): string {
    if v.Str? then TrimSpace(v.text)
    else
      var values := StringValues(v);
      if |values| == 1 then values[0] else ""
  }

  method DecodeNftStringValue(v: Json) returns (s: string)
    ensures s == StringValue(v)
  {
    if v.Str? { return TrimSpace(v.text); }
    var values := DecodeNftStringValues(v);
    s := if |values| == 1 then values[0] else "";
  }

  // ------------------------------------------------------------------------ one rule

  /** What the statements read so far have named. */
  datatype Found = Found(proto: string, ports: seq<int>, source: string, destination: string,
                         inInterface: string, outInterface: string, action: string, states: seq<string>)

  const NOTHING: Found := Found("", [], "", "", "", "", "", [])

  function Or(s: string, otherwise: string): string { if s != "" then s else otherwise }

  function ReadPayload(f: Found, p: Payload, right: Json): Found {
    if p.protocol in {"tcp", "udp"} && p.field == "dport" then
      (if PortValues(right) != [] then f.(proto := p.protocol, ports := f.ports + PortValues(right)) else f)
    else if p.protocol in {"ip", "ip6"} && p.field == "saddr" then f.(source := Or(StringValue(right), f.source))
    else if p.protocol in {"ip", "ip6"} && p.field == "daddr" then f.(destination := Or(StringValue(right), f.destination))
    else if p.protocol == "ip" && p.field == "protocol" then
      (if Clean(StringValue(right)) == "icmp" then f.(proto := "icmp") else f)
    else if p.protocol == "ip6" && p.field == "nexthdr" then
      (if Clean(StringValue(right)) in {"icmpv6", "ipv6-icmp"} then f.(proto := "icmpv6") else f)
    else f
  }

  function ReadMeta(f: Found, key: string, right: Json): Found {
    if key in {"iifname", "iif"} then f.(inInterface := Or(StringValue(right), f.inInterface))
    else if key in {"oifname", "oif"} then f.(outInterface := Or(StringValue(right), f.outInterface))
    else f
  }

  function ReadCt(f: Found, key: string, right: Json): Found {
    if key == "state" then f.(states := f.states + StringValues(right)) else f
  }

  function ReadMatch(f: Found, m: Match): Found {
    var f1 := if m.payload.Some? then ReadPayload(f, m.payload.value, m.right) else f;
    var f2 := if m.meta.Some? then ReadMeta(f1, m.meta.value, m.right) else f1;
    if m.ct.Some? then ReadCt(f2, m.ct.value, m.right) else f2
  }

  function ReadExpr(f: Found, e: Expr): Found {
    if e.accept then f.(action := "accept")
    else if e.drop then f.(action := "drop")
    else if e.reject then f.(action := "reject")
    else if e.test.Some? then ReadMatch(f, e.test.value)
    else f
  }

  function ReadAll(f: Found, exprs: seq<Expr>): Found
    decreases |exprs|
  {
    if exprs == [] then f else ReadAll(ReadExpr(f, exprs[0]), exprs[1..])
  }

  function ValidPorts(ports: seq<int>): seq<int> {
    if ports == [] then []
    else
      var last := ports[|ports| - 1];
      ValidPorts(ports[..|ports| - 1]) + if ValidPort(last) then [last] else []
  }

  /** The rules a live rule stands for; none if it has no verdict, no known match or a bad combination. */
  function RulesOfFound(chain: string, f: Found): seq<NormalizedRule> {
    if f.action == "" then []
    else match NormalizedStates(f.states) case Err(_) => [] case Ok(states) =>
      var base := NormalizedRule(chain, f.action, f.proto, 0, f.source, f.destination, f.inInterface, f.outInterface, states);
      var ports := Sort(IntLe, Dedupe(ValidPorts(f.ports)));
      if ports != [] then (if f.proto in {"tcp", "udp"} then ExpandPorts(base, ports) else [])
      else if f.proto in {"tcp", "udp"} || !HasMatcher(base) then []
      else [base]
  }

  function RulesOf(r: LiveRule): seq<NormalizedRule> {
    match NormalizeChain(r.chain) case Err(_) => [] case Ok(chain) => RulesOfFound(chain, ReadAll(NOTHING, r.exprs))
  }

  method FilterLivePorts(ports: seq<int>) returns (filtered: seq<int>)
    ensures filtered == Sort(IntLe, Dedupe(ValidPorts(ports)))
  {
    hide Dedupe, Sort, IntLe;
    var valid: seq<int> := [];
    for i := 0 to |ports|
      invariant valid == ValidPorts(ports[..i])
    {
      assert ports[..i + 1][..i] == ports[..i];
      var port := ports[i];
      if port <= 0 || port > MAX_PORT { continue; }
      valid := valid + [port];
    }
    assert ports[..|ports|] == ports;
    filtered := FirstOccurrences(valid);
    filtered := Sort(IntLe, filtered);
  }

  /** Reads one match into what was found so far. */
  method Observe(f: Found, m: Match) returns (g: Found)
    ensures g == ReadMatch(f, m)
  {
    hide PortValues, StringValues, Clean;
    g := f;
    if m.payload.Some? {
      var p := m.payload.value;
      if (p.protocol == "tcp" || p.protocol == "udp") && p.field == "dport" {
        var ports := DecodeNftPortValues(m.right);
        if |ports| > 0 { g := g.(proto := p.protocol, ports := g.ports + ports); }
      } else if (p.protocol == "ip" || p.protocol == "ip6") && p.field == "saddr" {
        var s := DecodeNftStringValue(m.right);
        if s != "" { g := g.(source := s); }
      } else if (p.protocol == "ip" || p.protocol == "ip6") && p.field == "daddr" {
        var s := DecodeNftStringValue(m.right);
        if s != "" { g := g.(destination := s); }
      } else if p.protocol == "ip" && p.field == "protocol" {
        var s := DecodeNftStringValue(m.right);
        if Clean(s) == "icmp" { g := g.(proto := "icmp"); }
      } else if p.protocol == "ip6" && p.field == "nexthdr" {
        var s := DecodeNftStringValue(m.right);
        if Clean(s) == "icmpv6" || Clean(s) == "ipv6-icmp" { g := g.(proto := "icmpv6"); }
      }
    }
    if m.meta.Some? {
      var s := DecodeNftStringValue(m.right);
      if m.meta.value == "iifname" || m.meta.value == "iif" {
        if s != "" { g := g.(inInterface := s); }
      } else if m.meta.value == "oifname" || m.meta.value == "oif" {
        if s != "" { g := g.(outInterface := s); }
      }
    }
    if m.ct.Some? && m.ct.value == "state" {
      var states := DecodeNftStringValues(m.right);
      g := g.(states := g.states + states);
    }
  }

  method ObserveAll(exprs: seq<Expr>) returns (f: Found)
    ensures f == ReadAll(NOTHING, exprs)
  {
    hide ReadMatch;
    f := NOTHING;
    assert exprs[0..] == exprs;
    for i := 0 to |exprs|
      invariant ReadAll(NOTHING, exprs) == ReadAll(f, exprs[i..])
    {
      assert exprs[i..][1..] == exprs[i + 1..];
      var e := exprs[i];
      if e.accept { f := f.(action := "accept"); continue; }
      if e.drop { f := f.(action := "drop"); continue; }
      if e.reject { f := f.(action := "reject"); continue; }
      if e.test.None? { continue; }
      f := Observe(f, e.test.value);
    }
  }

  method NormalizeNftRuleExpr(r: LiveRule) returns (out: seq<NormalizedRule>)
    ensures out == RulesOf(r)
  {
    hide NormalizeChain, ReadAll, NormalizedStates, ValidPorts, Dedupe;
    var chain := NormalizeChain(r.chain);
    if chain.Err? { return []; }
    var f := ObserveAll(r.exprs);
    if f.action == "" { return []; }
    var states := NormalizeCtStates(f.states);
    if states.Err? { return []; }
    var ports := FilterLivePorts(f.ports);
    var base := NormalizedRule(chain.value, f.action, f.proto, 0, f.source, f.destination, f.inInterface, f.outInterface, states.value);
    if |ports| > 0 {
      if f.proto != "tcp" && f.proto != "udp" { return []; }
      out := [];
      for i := 0 to |ports|
        invariant out == seq(i, k requires 0 <= k < i => base.(port := ports[k]))
      {
        out := out + [base.(port := ports[i])];
      }
      return;
    }
    if f.proto == "tcp" || f.proto == "udp" { return []; }
    if !HasMatcher(base) { return []; }
    return [base];
  }

  // ----------------------------------------------------------------- the whole listing

  predicate OwnRule(e: Entry, family: string, table: string) {
    e.rule.Some? && e.rule.value.family == family && e.rule.value.table == table
  }

  function ReadRules(entries: seq<Entry>, family: string, table: string): seq<NormalizedRule> {
    if entries == [] then []
    else
      var last := entries[|entries| - 1];
      ReadRules(entries[..|entries| - 1], family, table) + if OwnRule(last, family, table) then RulesOf(last.rule.value) else []
  }

  /** The chain and policy an entry records, if it is a base chain of the table with a known hook and policy. */
  function ChainPolicy(e: Entry, family: string, table: string): Option<(string, string)> {
    if e.chain.None? then None else
    var c := e.chain.value;
    if c.family != family || c.table != table || TrimSpace(c.hook) == "" then None else
    match NormalizeChain(c.hook) case Err(_) => None case Ok(chain) =>
    if TrimSpace(c.policy) == "" then None else
    match NormalizePolicy(c.policy) case Err(_) => None case Ok(policy) => Some((chain, policy))
  }

  function ReadPolicies(entries: seq<Entry>, family: string, table: string): map<string, string> {
    if entries == [] then map[]
    else
      var before := ReadPolicies(entries[..|entries| - 1], family, table);
      match ChainPolicy(entries[|entries| - 1], family, table)
      case None => before
      case Some((chain, policy)) => before[chain := policy]
  }

  function CurrentState(entries: seq<Entry>, family: string, table: string): NormalizedSpec {
    NormalizedSpec(family, table, ReadPolicies(entries, family, table), DedupeRules(ReadRules(entries, family, table)))
  }

  method NormalizeCurrentState(entries: seq<Entry>, family: string, table: string) returns (s: NormalizedSpec)
    ensures s == CurrentState(entries, family, table)
  {
    hide NormalizeChain, NormalizePolicy, RulesOf, DedupeRules, Key, TrimSpace;
    var policies: map<string, string> := map[];
    var rules: seq<NormalizedRule> := [];
    var seen: set<string> := {};
    ghost var listed: seq<NormalizedRule> := [];
    NoRulesYet();
    for i := 0 to |entries|
      invariant policies == ReadPolicies(entries[..i], family, table)
      invariant listed == ReadRules(entries[..i], family, table) && rules == DedupeRules(listed)
      invariant forall k :: k in seen <==> k in Keys(rules)
    {
      assert entries[..i + 1][..i] == entries[..i];
      var entry := entries[i];
      if entry.chain.Some? {
        var c := entry.chain.value;
        if c.family == family && c.table == table && TrimSpace(c.hook) != "" {
          var chain := NormalizeChain(c.hook);
          if chain.Ok? && TrimSpace(c.policy) != "" {
            var policy := NormalizePolicy(c.policy);
            if policy.Ok? { policies := policies[chain.value := policy.value]; }
          }
        }
      }
      if entry.rule.Some? {
        var r := entry.rule.value;
        if r.family == family && r.table == table {
          var more := NormalizeNftRuleExpr(r);
          rules, seen := KeepNew(rules, seen, more, listed);
          listed := listed + more;
        }
      }
    }
    assert entries[..|entries|] == entries;
    s := NormalizedSpec(family, table, policies, rules);
  }

  // ----------------------------------------------------------- a faithful JSON rendering

  /** One item or a list of just that item. */
  predicate Holds(v: Json, item: Json) { v == item || v == Arr([item]) || v == SetOf([item]) }

  /** An address as a string, or as nft's prefix object, where one that covers a single address is that address. */
  predicate IsAddressItem(v: Json, text: string) {
    || v == Str(text)
    || (v.Prefix? && text == v.addr && v.len == (if ':' in v.addr then 128 else 32))
    || (v.Prefix? && text == v.addr + "/" + Itoa(v.len) && v.len != (if ':' in v.addr then 128 else 32))
  }

  predicate IsAddressValue(v: Json, text: string) {
    IsAddressItem(v, text) || ((v.Arr? || v.SetOf?) && |v.items| == 1 && IsAddressItem(v.items[0], text))
  }

  function Texts(words: seq<string>): seq<Json> {
    seq(|words|, i requires 0 <= i < |words| => Str(words[i]))
  }

  /** The states in any order, as one comma-separated string, an array or a set. */
  ghost predicate IsStateValue(v: Json, states: seq<string>) {
    exists order: seq<string> ::
      multiset(order) == multiset(states) && (v == Str(Join(order, ",")) || v == Arr(Texts(order)) || v == SetOf(Texts(order)))
  }

  function OnPayload(protocol: string, field: string, right: Json): Match {
    Match(Some(Payload(protocol, field)), None, None, right)
  }

  predicate IsTest(e: Expr) { !e.accept && !e.drop && !e.reject && e.test.Some? }

  predicate TestsPayload(e: Expr, protocol: string, field: string) {
    IsTest(e) && e.test.value == OnPayload(protocol, field, e.test.value.right)
  }

  predicate TestsMeta(e: Expr, keys: set<string>) {
    && IsTest(e) && e.test.value.payload.None? && e.test.value.ct.None?
    && e.test.value.meta.Some? && e.test.value.meta.value in keys
  }

  predicate TestsState(e: Expr) {
    IsTest(e) && e.test.value.payload.None? && e.test.value.meta.None? && e.test.value.ct == Some("state")
  }

  /** The statement nft lists for one match or verdict of the rendered text. */
  ghost predicate Expresses(w: Want, e: Expr) {
    match w
    case InInterface(name) => TestsMeta(e, {"iif", "iifname"}) && e.test.value.right == Str(name)
    case OutInterface(name) => TestsMeta(e, {"oif", "oifname"}) && e.test.value.right == Str(name)
    case SourceIn(keyword, text) => TestsPayload(e, keyword, "saddr") && IsAddressValue(e.test.value.right, text)
    case DestinationIn(keyword, text) => TestsPayload(e, keyword, "daddr") && IsAddressValue(e.test.value.right, text)
    case StateIn(states) => TestsState(e) && IsStateValue(e.test.value.right, states)
    case PortIs(proto, port) => TestsPayload(e, proto, "dport") && Holds(e.test.value.right, Num(port))
    case IsIcmp => TestsPayload(e, "ip", "protocol") && e.test.value.right == Str("icmp")
    case IsIcmpv6 => TestsPayload(e, "ip6", "nexthdr") && e.test.value.right in {Str("icmpv6"), Str("ipv6-icmp")}
    case Do(action) => e == Expr(action == "accept", action == "drop", action == "reject", None)
  }

  /** A counter, a comment, or a match on something the renderer never writes. */
  predicate Ignorable(e: Expr) {
    && !e.accept && !e.drop && !e.reject
    && (e.test.None? ||
        (e.test.value.payload.None? && e.test.value.ct.None?
         && (e.test.value.meta.None? || e.test.value.meta.value !in {"iif", "iifname", "oif", "oifname"})))
  }

  /** The statements express exactly these wants in order, among ignorable ones. */
  ghost predicate Carries(wants: seq<Want>, exprs: seq<Expr>)
    decreases |exprs|
  {
    if exprs == [] then wants == []
    else
      (Ignorable(exprs[0]) && Carries(wants, exprs[1..]))
      || (wants != [] && Expresses(wants[0], exprs[0]) && Carries(wants[1..], exprs[1..]))
  }

  // ------------------------------------------------------------- reading it back again

  /** What one want adds to what was found. */
  function Note(f: Found, w: Want): Found {
    match w
    case InInterface(name) => f.(inInterface := name)
    case OutInterface(name) => f.(outInterface := name)
    case SourceIn(_, text) => f.(source := text)
    case DestinationIn(_, text) => f.(destination := text)
    case StateIn(states) => f.(states := f.states + states)
    case PortIs(proto, port) => f.(proto := proto, ports := f.ports + [port])
    case IsIcmp => f.(proto := "icmp")
    case IsIcmpv6 => f.(proto := "icmpv6")
    case Do(action) => f.(action := action)
  }

  function NoteAll(f: Found, wants: seq<Want>): Found
    decreases |wants|
  {
    if wants == [] then f else NoteAll(Note(f, wants[0]), wants[1..])
  }

  /** Wants of a well-formed rule. */
  predicate Good(w: Want) {
    match w
    case InInterface(name) => IsInterfaceName(name)
    case OutInterface(name) => IsInterfaceName(name)
    case SourceIn(keyword, text) => keyword in {"ip", "ip6"} && IsAddress(text)
    case DestinationIn(keyword, text) => keyword in {"ip", "ip6"} && IsAddress(text)
    case StateIn(states) => GoodStates(states) && states != []
    case PortIs(proto, port) => proto in {"tcp", "udp"} && ValidPort(port)
    case IsIcmp => true
    case IsIcmpv6 => true
    case Do(action) => action in ACTIONS
  }

  lemma InterfaceReads(name: string)
    requires IsInterfaceName(name)
    ensures StringValue(Str(name)) == name && name != ""
  {
    forall c <- name ensures !IsSpace(c) {
      var i :| 0 <= i < |name| && name[i] == c;
    }
    TrimOfSpaceless(name);
    hide TrimSpace, IsSpace, StringValues;
  }

  lemma OnePiece(text: string)
    requires text != "" && ',' !in text && Clean(text) == text
    ensures Pieces(Split(text, ',')) == [text]
  {
    SplitOfClean(text, ',');
    assert [text][..0] == [] && Pieces([]) == [];
    hide Clean;
  }

  lemma AddressIsPlain(text: string)
    requires IsAddress(text)
    ensures ',' !in text && Clean(text) == text && TrimSpace(text) == text && text != ""
  {
    forall i | 0 <= i < |text| ensures text[i] != ',' && !IsSpace(text[i]) && !('A' <= text[i] <= 'Z') {}
    TrimOfSpaceless(text);
    CleanOfClean(text);
  }

  lemma SingleValue(x: string)
    ensures Sort(StringLe, Dedupe([x])) == [x]
  {
    assert [x][..0] == [] && Dedupe<string>([]) == [];
    assert [x][1..] == [];
  }

  lemma AddressItemReads(v: Json, text: string)
    requires IsAddress(text) && IsAddressItem(v, text)
    ensures StringsOf(v) == [text]
  {
    AddressIsPlain(text);
    OnePiece(text);
    hide Clean, TrimSpace, Pieces, Split, IsAddress;
  }

  lemma AddressReads(v: Json, text: string)
    requires IsAddress(text) && IsAddressValue(v, text)
    ensures StringValue(v) == text && text != ""
  {
    AddressIsPlain(text);
    SingleValue(text);
    if v.Arr? || v.SetOf? {
      AddressItemReads(v.items[0], text);
      OneItem(v.items);
    } else {
      AddressItemReads(v, text);
    }
    hide Clean, TrimSpace, IsAddress, StringsOf, AllStrings, Sort, Dedupe;
  }

  lemma NoStrings()
    ensures AllStrings([]) == []
  {
  }

  lemma OneItem(items: seq<Json>)
    requires |items| == 1
    ensures AllStrings(items) == StringsOf(items[0])
  {
    hide StringsOf;
    NoStrings();
    assert items[..0] == [] && items[0] == items[|items| - 1];
  }

  /** A piece that splitting and cleaning leave alone. */
  predicate PlainPiece(s: string) { s != "" && ',' !in s && Clean(s) == s }

  lemma {:induction false} PiecesOfPlain(order: seq<string>)
    requires forall s <- order :: PlainPiece(s)
    ensures Pieces(order) == order
  {
    hide Clean;
    if order != [] {
      var last := order[|order| - 1];
      PiecesOfPlain(order[..|order| - 1]);
      assert PlainPiece(last);
      assert order == order[..|order| - 1] + [last];
    }
  }

  predicate Letters(s: string) { forall i :: 0 <= i < |s| ==> 'a' <= s[i] <= 'z' }

  lemma LettersArePlain(s: string)
    requires s != "" && Letters(s)
    ensures PlainPiece(s)
  {
    CleanOfClean(s);
    hide Clean;
  }

  lemma StateLetters(s: string)
    requires s in CT_STATES
    ensures s != "" && Letters(s)
  {
  }

  lemma StateIsPlain(s: string)
    requires s in CT_STATES
    ensures PlainPiece(s)
  {
    StateLetters(s);
    hide Letters, PlainPiece;
    LettersArePlain(s);
  }

  lemma {:induction false} StringsOfTexts(order: seq<string>)
    requires forall s <- order :: PlainPiece(s)
    ensures AllStrings(Texts(order)) == order
  {
    hide StringsOf, PlainPiece;
    if order != [] {
      var init, last := order[..|order| - 1], order[|order| - 1];
      StringsOfTexts(init);
      assert last in order;
      PlainTextReads(last);
      assert Texts(order)[..|order| - 1] == Texts(init) && Texts(order)[|order| - 1] == Str(last);
      assert order == init + [last];
    }
  }

  lemma PlainTextReads(s: string)
    requires PlainPiece(s)
    ensures StringsOf(Str(s)) == [s]
  {
    OnePiece(s);
    hide Clean, Pieces, Split;
  }

  lemma StatesInOrder(v: Json, states: seq<string>)
    requires GoodStates(states) && states != [] && IsStateValue(v, states)
    ensures multiset(RawStrings(v)) == multiset(states)
  {
    var order :| multiset(order) == multiset(states) && (v == Str(Join(order, ",")) || v == Arr(Texts(order)) || v == SetOf(Texts(order)));
    assert states[0] in multiset(states);
    forall s <- order ensures PlainPiece(s) {
      assert s in multiset(states);
      hide PlainPiece;
      StateIsPlain(s);
    }
    hide Clean, Pieces, StringsOf, AllStrings;
    if v.Str? {
      assert order != [];
      assert forall s <- order :: ',' !in s;
      SplitJoin(order, ',');
      PiecesOfPlain(order);
      JoinedStates(order);
    } else {
      StringsOfTexts(order);
    }
  }

  lemma JoinedStates(order: seq<string>)
    requires Split(Join(order, ","), ',') == order && Pieces(order) == order
    ensures StringsOf(Str(Join(order, ","))) == order
  {
  }

  lemma StatesRead(v: Json, states: seq<string>)
    requires GoodStates(states) && states != [] && IsStateValue(v, states)
    ensures StringValues(v) == states
  {
    StatesInOrder(v, states);
    var raw := RawStrings(v);
    hide RawStrings, IsStateValue;
    DistinctAlike(states, raw);
    DedupeOfDistinct(raw);
    OrdersAreTotal();
    SortIsStable(StringLe, raw, states);
    GoodStatesSorted(states);
    SortOfSorted(StringLe, states);
  }

  lemma GoodStatesSorted(states: seq<string>)
    requires GoodStates(states)
    ensures Sorted(StringLe, states)
  {
  }

  lemma {:induction false} DedupeOfDistinct<T(!new)>(s: seq<T>)
    requires forall i, j :: 0 <= i < j < |s| ==> s[i] != s[j]
    ensures Dedupe(s) == s
  {
    if s != [] {
      var init, last := s[..|s| - 1], s[|s| - 1];
      DedupeOfDistinct(init);
      assert s == init + [last];
      assert last !in init;
    }
  }

  lemma PortReads(v: Json, port: int)
    requires Holds(v, Num(port))
    ensures PortValues(v) == [port]
  {
    assert [Num(port)][..0] == [] && PortsOf([]) == [];
  }

  lemma IcmpReads()
    ensures Clean(StringValue(Str("icmp"))) == "icmp"
    ensures Clean(StringValue(Str("icmpv6"))) == "icmpv6" && Clean(StringValue(Str("ipv6-icmp"))) == "ipv6-icmp"
  {
    KnownWord("icmp");
    KnownWord("icmpv6");
    KnownWord("ipv6-icmp");
  }

  lemma KnownWord(s: string)
    requires s in {"icmp", "icmpv6", "ipv6-icmp"}
    ensures Clean(StringValue(Str(s))) == s
  {
    hide Clean, TrimSpace, StringValues;
    TrimOfSpaceless(s);
    CleanOfClean(s);
  }

  lemma PayloadIsRead(f: Found, e: Expr, protocol: string, field: string)
    requires TestsPayload(e, protocol, field)
    ensures ReadExpr(f, e) == ReadPayload(f, Payload(protocol, field), e.test.value.right)
  {
    hide ReadPayload, ReadMeta, ReadCt;
  }

  lemma MetaIsRead(f: Found, e: Expr, keys: set<string>)
    requires TestsMeta(e, keys)
    ensures ReadExpr(f, e) == ReadMeta(f, e.test.value.meta.value, e.test.value.right)
  {
    hide ReadPayload, ReadMeta, ReadCt;
  }

  lemma StateIsRead(f: Found, e: Expr)
    requires TestsState(e)
    ensures ReadExpr(f, e) == f.(states := f.states + StringValues(e.test.value.right))
  {
    hide ReadPayload, ReadMeta, StringValues;
  }

  lemma AddressIsNoted(f: Found, e: Expr, keyword: string, text: string)
    requires keyword in {"ip", "ip6"} && IsAddress(text) && IsTest(e) && IsAddressValue(e.test.value.right, text)
    ensures TestsPayload(e, keyword, "saddr") ==> ReadExpr(f, e) == f.(source := text)
    ensures TestsPayload(e, keyword, "daddr") ==> ReadExpr(f, e) == f.(destination := text)
  {
    AddressReads(e.test.value.right, text);
    hide IsAddress, StringValue, IsAddressValue, PortValues, Clean, ReadExpr;
    if TestsPayload(e, keyword, "saddr") { PayloadIsRead(f, e, keyword, "saddr"); }
    if TestsPayload(e, keyword, "daddr") { PayloadIsRead(f, e, keyword, "daddr"); }
  }

  lemma InterfaceIsNoted(f: Found, e: Expr, name: string)
    requires IsInterfaceName(name) && IsTest(e) && e.test.value.right == Str(name)
    ensures TestsMeta(e, {"iif", "iifname"}) ==> ReadExpr(f, e) == f.(inInterface := name)
    ensures TestsMeta(e, {"oif", "oifname"}) ==> ReadExpr(f, e) == f.(outInterface := name)
  {
    InterfaceReads(name);
    hide IsInterfaceName, StringValue, ReadExpr;
    if TestsMeta(e, {"iif", "iifname"}) { MetaIsRead(f, e, {"iif", "iifname"}); }
    if TestsMeta(e, {"oif", "oifname"}) { MetaIsRead(f, e, {"oif", "oifname"}); }
  }

  lemma PortIsNoted(f: Found, e: Expr, proto: string, port: int)
    requires proto in {"tcp", "udp"} && TestsPayload(e, proto, "dport") && Holds(e.test.value.right, Num(port))
    ensures ReadExpr(f, e) == f.(proto := proto, ports := f.ports + [port])
  {
    PortReads(e.test.value.right, port);
    PayloadIsRead(f, e, proto, "dport");
    hide PortValues, StringValue, Clean, ReadExpr, Holds;
  }

  lemma IcmpIsNoted(f: Found, e: Expr)
    ensures TestsPayload(e, "ip", "protocol") && e.test.value.right == Str("icmp") ==> ReadExpr(f, e) == f.(proto := "icmp")
    ensures TestsPayload(e, "ip6", "nexthdr") && e.test.value.right in {Str("icmpv6"), Str("ipv6-icmp")} ==>
              ReadExpr(f, e) == f.(proto := "icmpv6")
  {
    IcmpReads();
    hide PortValues, StringValue, Clean, ReadExpr;
    if TestsPayload(e, "ip", "protocol") { PayloadIsRead(f, e, "ip", "protocol"); }
    if TestsPayload(e, "ip6", "nexthdr") { PayloadIsRead(f, e, "ip6", "nexthdr"); }
  }

  lemma VerdictIsNoted(f: Found, action: string)
    requires action in ACTIONS
    ensures ReadExpr(f, Expr(action == "accept", action == "drop", action == "reject", None)) == f.(action := action)
  {
  }

  /** Reading the statement that expresses a want notes that want. */
  lemma ExpressedIsNoted(f: Found, w: Want, e: Expr)
    requires Good(w) && Expresses(w, e)
    ensures ReadExpr(f, e) == Note(f, w)
  {
    hide ReadExpr, IsAddress, IsInterfaceName, GoodStates, IsStateValue, IsAddressValue, StringValues, Holds;
    match w
    case InInterface(name) => InterfaceIsNoted(f, e, name);
    case OutInterface(name) => InterfaceIsNoted(f, e, name);
    case SourceIn(keyword, text) => AddressIsNoted(f, e, keyword, text);
    case DestinationIn(keyword, text) => AddressIsNoted(f, e, keyword, text);
    case StateIn(states) => StateIsRead(f, e); StatesRead(e.test.value.right, states);
    case PortIs(proto, port) => PortIsNoted(f, e, proto, port);
    case IsIcmp => IcmpIsNoted(f, e);
    case IsIcmpv6 => IcmpIsNoted(f, e);
    case Do(action) => VerdictIsNoted(f, action);
  }

  lemma IgnorableIsIgnored(f: Found, e: Expr)
    requires Ignorable(e)
    ensures ReadExpr(f, e) == f
  {
    hide StringValue, StringValues, PortValues, Clean;
  }

  lemma {:induction false} CarriedIsNoted(f: Found, wants: seq<Want>, exprs: seq<Expr>)
    requires Carries(wants, exprs) && forall w <- wants :: Good(w)
    ensures ReadAll(f, exprs) == NoteAll(f, wants)
    decreases |exprs|
  {
    hide Good, Expresses, Ignorable, ReadExpr, Note;
    if exprs != [] {
      if Ignorable(exprs[0]) && Carries(wants, exprs[1..]) {
        IgnorableIsIgnored(f, exprs[0]);
        CarriedIsNoted(f, wants, exprs[1..]);
      } else {
        assert wants[0] in wants;
        ExpressedIsNoted(f, wants[0], exprs[0]);
        CarriedIsNoted(Note(f, wants[0]), wants[1..], exprs[1..]);
      }
    }
  }
}
