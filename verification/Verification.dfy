// ttp/firewall/verification.py: deciding from a JSON listing whether the kernel table is containment,
// and what that decision says about packets.
module Verification {
  import opened Wrappers
  import opened Packets
  import opened Nft
  import opened Builder
  import opened Kernel

  datatype Json =
    | JNull
    | JBool(bool)
    | JInt(number: int)
    | JReal(real)
    | JStr(text: string)
    | JList(items: seq<Json>)
    | JObj(fields: map<string, Json>)

  /** dict.get: an absent key reads as null. */
  function Get(fields: map<string, Json>, key: string): Json {
    if key in fields then fields[key] else JNull
  }

  predicate Truthy(j: Json) {
    match j
    case JNull => false
    case JBool(b) => b
    case JInt(n) => n != 0
    case JReal(r) => r != 0.0
    case JStr(s) => s != ""
    case JList(items) => items != []
    case JObj(fields) => fields != map[]
  }

  function LoopbackExpression(direction: string): Json {
    JList([
      JObj(map["match" := JObj(map[
        "op" := JStr("=="),
        "left" := JObj(map["meta" := JObj(map["key" := JStr(direction)])]),
        "right" := JStr("lo")])]),
      JObj(map["accept" := JNull])])
  }

  // ---------------------------------------------------------------- one entry of a listing

  lemma SingleKey(m: map<string, Json>, a: string, b: string)
    requires |m| == 1 && a in m && b in m
    ensures a == b
  {
    assert |m.Keys| == 1;
    if a != b {
      assert {a, b} <= m.Keys && |{a, b}| == 2;
      SubsetSize({a, b}, m.Keys);
    }
  }

  lemma SubsetSize(a: set<string>, b: set<string>)
    requires a <= b
    ensures |a| <= |b|
  {
    assert b == a + (b - a);
  }

  function OnlyKey(m: map<string, Json>): string
    requires |m| == 1
  {
    assert m.Keys != {};
    assert forall a, b | a in m && b in m :: a == b by {
      forall a, b | a in m && b in m ensures a == b { SingleKey(m, a, b); }
    }
    var k :| k in m;
    k
  }

  /** How the contract reads an entry; `Bad` refuses the whole listing. */
  datatype Entry =
    | Bad
    | Ignored
    | TableEntry
    | ChainEntry(name: string, fields: map<string, Json>)
    | RuleEntry(chain: string, expr: Json)

  function Classify(j: Json): Entry {
    if !j.JObj? || |j.fields| != 1 then Bad
    else
      var kind := OnlyKey(j.fields);
      var item := j.fields[kind];
      if kind == "metainfo" then Ignored
      else if !item.JObj? || Get(item.fields, "family") != JStr("inet") then Bad
      else if kind == "table" then
        if Get(item.fields, "name") != JStr("ttp") || Truthy(Get(item.fields, "flags")) then Bad else TableEntry
      else if Get(item.fields, "table") != JStr("ttp") then Bad
      else if kind == "chain" then
        if Get(item.fields, "name").JStr? then ChainEntry(Get(item.fields, "name").text, item.fields) else Bad
      else if kind == "rule" then
        if Get(item.fields, "chain").JStr? then RuleEntry(Get(item.fields, "chain").text, Get(item.fields, "expr"))
        else Bad
      else if kind == "counter" then Ignored
      else Bad
  }

  /** A filter chain on `hook` with priority 0 and policy drop, not scoped to devices or offloaded. */
  predicate GuardChain(fields: map<string, Json>, hook: string) {
    && Get(fields, "type") == JStr("filter")
    && Get(fields, "hook") == JStr(hook)
    && Get(fields, "policy") == JStr("drop")
    && Get(fields, "prio") == JInt(0)
    && "dev" !in fields && "device" !in fields && "devices" !in fields
    && !Truthy(Get(fields, "flags"))
  }

  /** The listing as the contract reads it. */
  function Read(listing: seq<Json>): (entries: seq<Entry>)
    ensures |entries| == |listing|
    ensures forall i | 0 <= i < |listing| :: entries[i] == Classify(listing[i])
  {
    if listing == [] then []
    else Read(listing[..|listing| - 1]) + [Classify(listing[|listing| - 1])]
  }

  // ---------------------------------------------------------------- the contract, by counting entries

  predicate Named(e: Entry, name: string) { e.ChainEntry? && e.name == name }

  predicate RuleOf(e: Entry, chain: string) { e.RuleEntry? && e.chain == chain }

  function TableTest(): Entry -> bool { (e: Entry) => e.TableEntry? }

  function NameTest(name: string): Entry -> bool { e => Named(e, name) }

  function RuleTest(chain: string): Entry -> bool { e => RuleOf(e, chain) }

  /** The entries of a sequence that satisfy a test, in order. */
  function Select(entries: seq<Entry>, p: Entry -> bool): seq<Entry> {
    if entries == [] then []
    else
      Select(entries[..|entries| - 1], p) + (if p(entries[|entries| - 1]) then [entries[|entries| - 1]] else [])
  }

  function Tables(entries: seq<Entry>): seq<Entry> { Select(entries, TableTest()) }

  function Chains(entries: seq<Entry>, name: string): seq<Entry> { Select(entries, NameTest(name)) }

  function RulesOf(entries: seq<Entry>, chain: string): seq<Entry> { Select(entries, RuleTest(chain)) }

  const EXPECTED: map<string, string> :=
    map["filter_out" := "output", "filter_forward" := "forward", "filter_input" := "input"]

  const LOOPBACK: map<string, string> := map["filter_out" := "oifname", "filter_input" := "iifname"]

  const CHAIN_NAMES: set<string> := {"filter_out", "filter_forward", "filter_input", "output", "prerouting"}

  ghost predicate Guarding(entries: seq<Entry>, name: string, hook: string) {
    exists e | e in entries :: Named(e, name) && GuardChain(e.fields, hook)
  }

  ghost predicate Contract(entries: seq<Entry>) {
    && Bad !in entries
    && |Tables(entries)| == 1
    && (forall name :: |Chains(entries, name)| <= 1)
    && (forall e | e in entries && e.ChainEntry? :: e.name in CHAIN_NAMES)
    && (forall name | name in EXPECTED :: Guarding(entries, name, EXPECTED[name]))
    && (forall e | e in entries && e.RuleEntry? ::
          e.chain in LOOPBACK && e.expr == LoopbackExpression(LOOPBACK[e.chain]))
    && (forall chain | chain in LOOPBACK :: |RulesOf(entries, chain)| == 1)
  }

  lemma {:induction false} SelectCounts(entries: seq<Entry>, p: Entry -> bool, e: Entry)
    ensures multiset(Select(entries, p))[e] == if p(e) then multiset(entries)[e] else 0
  {
    if entries != [] {
      var init, last := entries[..|entries| - 1], entries[|entries| - 1];
      assert entries == init + [last];
      SelectCounts(init, p, e);
    }
  }

  lemma SelectMember(entries: seq<Entry>, p: Entry -> bool, e: Entry)
    ensures e in Select(entries, p) <==> e in entries && p(e)
  {
    SelectCounts(entries, p, e);
  }

  lemma SelectPermutes(a: seq<Entry>, b: seq<Entry>, p: Entry -> bool)
    requires multiset(a) == multiset(b)
    ensures |Select(a, p)| == |Select(b, p)|
  {
    forall e ensures multiset(Select(a, p))[e] == multiset(Select(b, p))[e] {
      SelectCounts(a, p, e);
      SelectCounts(b, p, e);
    }
    assert multiset(Select(a, p)) == multiset(Select(b, p));
    assert |multiset(Select(a, p))| == |Select(a, p)|;
    assert |multiset(Select(b, p))| == |Select(b, p)|;
  }

  lemma {:induction false} ReadConcat(a: seq<Json>, b: seq<Json>)
    ensures Read(a + b) == Read(a) + Read(b)
  {
  }

  lemma Cancel(a: multiset<Json>, b: multiset<Json>, x: Json)
    requires a + multiset{x} == b + multiset{x}
    ensures a == b
  {
    forall e ensures a[e] == b[e] { assert (a + multiset{x})[e] == (b + multiset{x})[e]; }
  }

  lemma {:induction false} ReadPermutes(a: seq<Json>, b: seq<Json>)
    requires multiset(a) == multiset(b)
    ensures multiset(Read(a)) == multiset(Read(b))
  {
    if a == [] {
      assert |multiset(b)| == |b| == 0;
    } else {
      var init, last := a[..|a| - 1], a[|a| - 1];
      assert a == init + [last];
      assert last in multiset(b);
      var k :| 0 <= k < |b| && b[k] == last;
      var front, back := b[..k], b[k + 1..];
      assert b == front + [last] + back;
      assert multiset(a) == multiset(init) + multiset{last};
      assert multiset(b) == multiset(front + back) + multiset{last};
      Cancel(multiset(init), multiset(front + back), last);
      ReadPermutes(init, front + back);
      ReadWithout(front, last, back);
      assert Read(a) == Read(init) + [Classify(last)];
    }
  }

  lemma ReadWithout(front: seq<Json>, j: Json, back: seq<Json>)
    ensures multiset(Read(front + [j] + back)) == multiset(Read(front + back)) + multiset{Classify(j)}
  {
    ReadConcat(front, back);
    ReadConcat(front + [j], back);
    ReadConcat(front, [j]);
    assert Read([j]) == [Classify(j)];
  }

  /** The decision depends only on which entries are listed, not on their order. */
  lemma OrderIrrelevant(a: seq<Json>, b: seq<Json>)
    requires multiset(a) == multiset(b)
    ensures Contract(Read(a)) <==> Contract(Read(b))
  {
    ReadPermutes(a, b);
    if Contract(Read(a)) {
      ContractPermutes(Read(a), Read(b));
    }
    if Contract(Read(b)) {
      ContractPermutes(Read(b), Read(a));
    }
  }

  lemma ContractPermutes(a: seq<Entry>, b: seq<Entry>)
    requires multiset(a) == multiset(b) && Contract(a)
    ensures Contract(b)
  {
    assert forall e :: e in a <==> e in b by {
      forall e ensures e in a <==> e in b { assert e in multiset(a) <==> e in multiset(b); }
    }
    SelectPermutes(a, b, TableTest());
    forall name ensures |Chains(b, name)| <= 1 {
      assert |Chains(a, name)| <= 1;
      SelectPermutes(a, b, NameTest(name));
    }
    forall chain | chain in LOOPBACK ensures |RulesOf(b, chain)| == 1 { SelectPermutes(a, b, RuleTest(chain)); }
    forall name | name in EXPECTED ensures Guarding(b, name, EXPECTED[name]) {
      assert Guarding(a, name, EXPECTED[name]);
    }
  }

  // ---------------------------------------------------------------- the contract on the JSON itself

  predicate Falsy(j: Json) {
    j in {JNull, JBool(false), JInt(0), JReal(0.0), JStr(""), JList([]), JObj(map[])}
  }

  /** `{kind: {...}}` with the fields every kind but metainfo must have. */
  predicate Object(j: Json, kind: string) {
    && j.JObj? && j.fields.Keys == {kind}
    && j.fields[kind].JObj?
    && Get(j.fields[kind].fields, "family") == JStr("inet")
    && Get(j.fields[kind].fields, if kind == "table" then "name" else "table") == JStr("ttp")
  }

  function Field(j: Json, kind: string, key: string): Json
    requires Object(j, kind)
  {
    Get(j.fields[kind].fields, key)
  }

  /** The only entries a listing may have, each of this family and table. */
  predicate KnownEntry(j: Json) {
    || (j.JObj? && j.fields.Keys == {"metainfo"})
    || (Object(j, "table") && Falsy(Field(j, "table", "flags")))
    || (Object(j, "chain") && Field(j, "chain", "name").JStr?)
    || (Object(j, "rule") && Field(j, "rule", "chain").JStr?)
    || Object(j, "counter")
  }

  lemma KindOf(j: Json, kind: string)
    requires j.JObj? && j.fields.Keys == {kind}
    ensures |j.fields| == 1 && OnlyKey(j.fields) == kind
  {
    assert kind in j.fields.Keys;
    assert |j.fields.Keys| == 1;
  }

  lemma OneKey(j: Json)
    requires j.JObj? && |j.fields| == 1
    ensures j.fields.Keys == {OnlyKey(j.fields)}
  {
    forall k | k in j.fields ensures k == OnlyKey(j.fields) {
      SingleKey(j.fields, k, OnlyKey(j.fields));
    }
  }

  lemma TruthyExactly(j: Json)
    ensures Truthy(j) <==> !Falsy(j)
  {
  }

  /** How each kind of entry reads, and that nothing else is anything but bad. */
  lemma ClassifyExactly(j: Json)
    ensures Classify(j) != Bad <==> KnownEntry(j)
    ensures Classify(j) == Ignored <==> (j.JObj? && j.fields.Keys == {"metainfo"}) || Object(j, "counter")
    ensures Classify(j) == TableEntry <==> Object(j, "table") && Falsy(Field(j, "table", "flags"))
    ensures forall name, fields :: Classify(j) == ChainEntry(name, fields) <==>
      Object(j, "chain") && Field(j, "chain", "name") == JStr(name) && j.fields["chain"].fields == fields
    ensures forall chain, expr :: Classify(j) == RuleEntry(chain, expr) <==>
      Object(j, "rule") && Field(j, "rule", "chain") == JStr(chain) && Field(j, "rule", "expr") == expr
  {
    if j.JObj? && |j.fields| == 1 {
      OneKey(j);
      var kind := OnlyKey(j.fields);
      KindOf(j, kind);
      if j.fields[kind].JObj? {
        TruthyExactly(Get(j.fields[kind].fields, "flags"));
      }
    } else if j.JObj? {
      forall kind | j.fields.Keys == {kind} ensures false { KindOf(j, kind); }
    }
  }

  predicate IsTable(j: Json) { Object(j, "table") }

  predicate IsChain(j: Json, name: string) { Object(j, "chain") && Field(j, "chain", "name") == JStr(name) }

  predicate IsRule(j: Json, chain: string) { Object(j, "rule") && Field(j, "rule", "chain") == JStr(chain) }

  function ChainCalled(name: string): Json -> bool { j => IsChain(j, name) }

  function RuleIn(chain: string): Json -> bool { j => IsRule(j, chain) }

  predicate Guards(j: Json, name: string, hook: string) {
    && IsChain(j, name)
    && Field(j, "chain", "type") == JStr("filter")
    && Field(j, "chain", "hook") == JStr(hook)
    && Field(j, "chain", "policy") == JStr("drop")
    && Field(j, "chain", "prio") == JInt(0)
    && Falsy(Field(j, "chain", "flags"))
    && (forall key | key in {"dev", "device", "devices"} :: key !in j.fields["chain"].fields)
  }

  ghost predicate Once(listing: seq<Json>, p: Json -> bool) {
    && (exists i | 0 <= i < |listing| :: p(listing[i]))
    && AtMostOnce(listing, p)
  }

  ghost predicate AtMostOnce(listing: seq<Json>, p: Json -> bool) {
    forall i, k | 0 <= i < k < |listing| :: !(p(listing[i]) && p(listing[k]))
  }

  ghost predicate EntriesKnown(listing: seq<Json>) { forall j | j in listing :: KnownEntry(j) }

  ghost predicate NamesUnique(listing: seq<Json>) { forall name :: AtMostOnce(listing, ChainCalled(name)) }

  ghost predicate NamesExpected(listing: seq<Json>) {
    forall j, name | j in listing && IsChain(j, name) ::
      name in {"filter_out", "filter_forward", "filter_input", "output", "prerouting"}
  }

  ghost predicate HooksGuarded(listing: seq<Json>) {
    && (exists j | j in listing :: Guards(j, "filter_out", "output"))
    && (exists j | j in listing :: Guards(j, "filter_forward", "forward"))
    && (exists j | j in listing :: Guards(j, "filter_input", "input"))
  }

  ghost predicate RulesExpected(listing: seq<Json>) {
    forall j, chain | j in listing && IsRule(j, chain) :: Loopback(chain, Field(j, "rule", "expr"))
  }

  /** The emergency contract as a reader of the listing would state it. */
  ghost predicate RawContract(listing: seq<Json>) {
    && EntriesKnown(listing)
    && Once(listing, IsTable)
    && NamesUnique(listing)
    && NamesExpected(listing)
    && HooksGuarded(listing)
    && RulesExpected(listing)
    && Once(listing, RuleIn("filter_out"))
    && Once(listing, RuleIn("filter_input"))
  }

  /** Where a test holds. */
  function Marks(entries: seq<Entry>, p: Entry -> bool): seq<bool> {
    seq(|entries|, i requires 0 <= i < |entries| => p(entries[i]))
  }

  ghost predicate NoTwo(marks: seq<bool>) { forall i, k | 0 <= i < k < |marks| :: !(marks[i] && marks[k]) }

  lemma NoTwoSnoc(marks: seq<bool>, b: bool)
    ensures true in marks + [b] <==> true in marks || b
    ensures NoTwo(marks + [b]) <==> NoTwo(marks) && !(b && true in marks)
  {
    var all, n := marks + [b], |marks|;
    assert all[n] == b && forall i | 0 <= i < n :: all[i] == marks[i];
    if NoTwo(all) {
      forall i, k | 0 <= i < k < n ensures !(marks[i] && marks[k]) { assert !(all[i] && all[k]); }
      if b {
        forall i | 0 <= i < n ensures !marks[i] { assert all[i] == marks[i]; }
      }
    }
    if NoTwo(marks) && !(b && true in marks) {
      forall i, k | 0 <= i < k < |all| ensures !(all[i] && all[k]) {
        if k == n { assert marks[i] ==> true in marks; }
      }
    }
  }

  lemma {:induction false} SelectCount(entries: seq<Entry>, p: Entry -> bool)
    ensures |Select(entries, p)| > 0 <==> true in Marks(entries, p)
    ensures |Select(entries, p)| <= 1 <==> NoTwo(Marks(entries, p))
  {
    if entries != [] {
      var init, last := entries[..|entries| - 1], |entries| - 1;
      SelectCount(init, p);
      assert Marks(entries, p) == Marks(init, p) + [p(entries[last])];
      NoTwoSnoc(Marks(init, p), p(entries[last]));
    }
  }

  lemma OnceByMarks(listing: seq<Json>, q: Json -> bool, marks: seq<bool>)
    requires |marks| == |listing| && forall i | 0 <= i < |listing| :: marks[i] == q(listing[i])
    ensures (exists i | 0 <= i < |listing| :: q(listing[i])) <==> true in marks
    ensures AtMostOnce(listing, q) <==> NoTwo(marks)
  {
    if true in marks {
      var i :| 0 <= i < |marks| && marks[i];
      assert q(listing[i]);
    }
    if AtMostOnce(listing, q) {
      forall i, k | 0 <= i < k < |marks| ensures !(marks[i] && marks[k]) {
        assert !(q(listing[i]) && q(listing[k]));
      }
    } else {
      var i, k :| 0 <= i < k < |listing| && q(listing[i]) && q(listing[k]);
      assert marks[i] && marks[k];
    }
  }

  /** Counting entries is counting objects. */
  lemma CountsAgree(listing: seq<Json>, p: Entry -> bool, q: Json -> bool)
    requires forall j | j in listing :: p(Classify(j)) <==> q(j)
    ensures |Select(Read(listing), p)| == 1 <==> Once(listing, q)
    ensures |Select(Read(listing), p)| <= 1 <==> AtMostOnce(listing, q)
  {
    var marks := Marks(Read(listing), p);
    SelectCount(Read(listing), p);
    forall i | 0 <= i < |listing| ensures marks[i] == q(listing[i]) {
      assert listing[i] in listing;
    }
    OnceByMarks(listing, q, marks);
  }

  lemma TablesAgree(listing: seq<Json>)
    requires forall j | j in listing :: KnownEntry(j)
    ensures |Tables(Read(listing))| == 1 <==> Once(listing, IsTable)
  {
    forall j | j in listing ensures Classify(j).TableEntry? <==> IsTable(j) { ClassifyExactly(j); }
    CountsAgree(listing, TableTest(), IsTable);
  }

  lemma ChainReadsAs(j: Json, name: string)
    ensures Named(Classify(j), name) <==> IsChain(j, name)
    ensures IsChain(j, name) ==> Classify(j).fields == j.fields["chain"].fields
  {
    ClassifyExactly(j);
    if IsChain(j, name) {
      assert Classify(j) == ChainEntry(name, j.fields["chain"].fields);
    }
    if Named(Classify(j), name) {
      assert Classify(j) == ChainEntry(name, Classify(j).fields);
    }
  }

  lemma RuleReadsAs(j: Json, chain: string)
    ensures RuleOf(Classify(j), chain) <==> IsRule(j, chain)
    ensures IsRule(j, chain) ==> Classify(j).expr == Field(j, "rule", "expr")
  {
    ClassifyExactly(j);
    if IsRule(j, chain) {
      assert Classify(j) == RuleEntry(chain, Field(j, "rule", "expr"));
    }
    if RuleOf(Classify(j), chain) {
      assert Classify(j) == RuleEntry(chain, Classify(j).expr);
    }
  }

  lemma ChainCountsAgree(listing: seq<Json>, name: string)
    ensures |Chains(Read(listing), name)| <= 1 <==> AtMostOnce(listing, ChainCalled(name))
  {
    forall j | j in listing ensures Named(Classify(j), name) <==> IsChain(j, name) { ChainReadsAs(j, name); }
    CountsAgree(listing, NameTest(name), ChainCalled(name));
  }

  lemma RuleCountsAgree(listing: seq<Json>, chain: string)
    ensures |RulesOf(Read(listing), chain)| == 1 <==> Once(listing, RuleIn(chain))
  {
    forall j | j in listing ensures RuleOf(Classify(j), chain) <==> IsRule(j, chain) { RuleReadsAs(j, chain); }
    CountsAgree(listing, RuleTest(chain), RuleIn(chain));
  }

  lemma GuardReadsAs(j: Json, name: string, hook: string)
    ensures Named(Classify(j), name) && GuardChain(Classify(j).fields, hook) <==> Guards(j, name, hook)
  {
    ChainReadsAs(j, name);
    if IsChain(j, name) {
      TruthyExactly(Get(j.fields["chain"].fields, "flags"));
    }
  }

  lemma GuardsAgree(listing: seq<Json>, name: string, hook: string)
    ensures Guarding(Read(listing), name, hook) <==> exists j | j in listing :: Guards(j, name, hook)
  {
    var entries := Read(listing);
    if Guarding(entries, name, hook) {
      var e :| e in entries && Named(e, name) && GuardChain(e.fields, hook);
      var i :| 0 <= i < |entries| && entries[i] == e;
      GuardReadsAs(listing[i], name, hook);
      assert listing[i] in listing;
    }
    if exists j | j in listing :: Guards(j, name, hook) {
      var j :| j in listing && Guards(j, name, hook);
      var i :| 0 <= i < |listing| && listing[i] == j;
      GuardReadsAs(j, name, hook);
      assert entries[i] in entries;
    }
  }

  lemma ListedNames(name: string)
    ensures name in CHAIN_NAMES <==> name in {"filter_out", "filter_forward", "filter_input", "output", "prerouting"}
    ensures name in EXPECTED <==> name in {"filter_out", "filter_forward", "filter_input"}
    ensures name in LOOPBACK <==> name in {"filter_out", "filter_input"}
  {
  }

  lemma ExpectedHooks()
    ensures EXPECTED["filter_out"] == "output" && EXPECTED["filter_forward"] == "forward"
    ensures EXPECTED["filter_input"] == "input"
    ensures LOOPBACK["filter_out"] == "oifname" && LOOPBACK["filter_input"] == "iifname"
  {
  }

  lemma NoBadEntry(listing: seq<Json>)
    ensures Bad !in Read(listing) <==> EntriesKnown(listing)
  {
    var entries := Read(listing);
    forall i | 0 <= i < |listing| ensures entries[i] != Bad <==> KnownEntry(listing[i]) {
      ClassifyExactly(listing[i]);
    }
    if Bad in entries {
      var i :| 0 <= i < |entries| && entries[i] == Bad;
      assert listing[i] in listing;
    }
    if exists j | j in listing :: !KnownEntry(j) {
      var j :| j in listing && !KnownEntry(j);
      var i :| 0 <= i < |listing| && listing[i] == j;
      assert entries[i] == Bad;
    }
  }

  lemma ChainNamesAgree(listing: seq<Json>)
    ensures ChainsListed(Read(listing)) <==> NamesExpected(listing)
  {
    var entries := Read(listing);
    forall i, name | 0 <= i < |listing| ensures Named(entries[i], name) <==> IsChain(listing[i], name) {
      ChainReadsAs(listing[i], name);
    }
    forall name ensures name in CHAIN_NAMES <==>
      name in {"filter_out", "filter_forward", "filter_input", "output", "prerouting"}
    {
      ListedNames(name);
    }
    if forall e | e in entries && e.ChainEntry? :: e.name in CHAIN_NAMES {
      forall j, name | j in listing && IsChain(j, name) ensures name in CHAIN_NAMES {
        var i :| 0 <= i < |listing| && listing[i] == j;
        assert Named(entries[i], name) && entries[i] in entries;
      }
    } else {
      var e :| e in entries && e.ChainEntry? && e.name !in CHAIN_NAMES;
      var i :| 0 <= i < |entries| && entries[i] == e;
      assert Named(entries[i], e.name);
      assert listing[i] in listing && IsChain(listing[i], e.name);
    }
  }

  predicate Loopback(chain: string, expr: Json) {
    || (chain == "filter_out" && expr == LoopbackExpression("oifname"))
    || (chain == "filter_input" && expr == LoopbackExpression("iifname"))
  }

  lemma LoopbackListed(chain: string, expr: Json)
    ensures chain in LOOPBACK && expr == LoopbackExpression(LOOPBACK[chain]) <==> Loopback(chain, expr)
  {
    ListedNames(chain);
    ExpectedHooks();
  }

  lemma RulesAgree(listing: seq<Json>)
    ensures RulesListed(Read(listing)) <==> RulesExpected(listing)
  {
    var entries := Read(listing);
    if RulesListed(entries) {
      forall j, chain | j in listing && IsRule(j, chain) ensures Loopback(chain, Field(j, "rule", "expr")) {
        var i :| 0 <= i < |listing| && listing[i] == j;
        RuleReadsAs(j, chain);
        assert entries[i] in entries;
        LoopbackListed(chain, entries[i].expr);
      }
    } else {
      var e :| e in entries && e.RuleEntry? &&
        !(e.chain in LOOPBACK && e.expr == LoopbackExpression(LOOPBACK[e.chain]));
      var i :| 0 <= i < |entries| && entries[i] == e;
      RuleReadsAs(listing[i], e.chain);
      LoopbackListed(e.chain, e.expr);
      assert listing[i] in listing && IsRule(listing[i], e.chain);
    }
  }

  ghost predicate AllGuarding(entries: seq<Entry>) {
    && Guarding(entries, "filter_out", "output")
    && Guarding(entries, "filter_forward", "forward")
    && Guarding(entries, "filter_input", "input")
  }

  lemma ExpectedGuards(entries: seq<Entry>)
    ensures (forall name | name in EXPECTED :: Guarding(entries, name, EXPECTED[name])) <==> AllGuarding(entries)
  {
    ExpectedHooks();
    ListedNames("filter_out");
    ListedNames("filter_forward");
    ListedNames("filter_input");
    forall name | name in EXPECTED ensures AllGuarding(entries) ==> Guarding(entries, name, EXPECTED[name]) {
      ListedNames(name);
    }
  }

  lemma ThreeGuards(listing: seq<Json>)
    ensures AllGuarding(Read(listing)) <==> HooksGuarded(listing)
  {
    GuardsAgree(listing, "filter_out", "output");
    GuardsAgree(listing, "filter_forward", "forward");
    GuardsAgree(listing, "filter_input", "input");
  }

  lemma TwoRules(listing: seq<Json>)
    ensures RulesOnce(Read(listing)) <==> Once(listing, RuleIn("filter_out")) && Once(listing, RuleIn("filter_input"))
  {
    RuleCountsAgree(listing, "filter_out");
    RuleCountsAgree(listing, "filter_input");
  }

  lemma NamesOnce(listing: seq<Json>)
    ensures ChainsOnce(Read(listing)) <==> NamesUnique(listing)
  {
    if ChainsOnce(Read(listing)) {
      forall name ensures AtMostOnce(listing, ChainCalled(name)) {
        ChainCountsAgree(listing, name);
      }
    }
    if NamesUnique(listing) {
      forall name ensures |Chains(Read(listing), name)| <= 1 {
        assert AtMostOnce(listing, ChainCalled(name));
        ChainCountsAgree(listing, name);
      }
    }
  }

  ghost predicate ChainsOnce(entries: seq<Entry>) { forall name :: |Chains(entries, name)| <= 1 }

  ghost predicate ChainsListed(entries: seq<Entry>) {
    forall e | e in entries && e.ChainEntry? :: e.name in CHAIN_NAMES
  }

  ghost predicate RulesListed(entries: seq<Entry>) {
    forall e | e in entries && e.RuleEntry? :: e.chain in LOOPBACK && e.expr == LoopbackExpression(LOOPBACK[e.chain])
  }

  ghost predicate RulesOnce(entries: seq<Entry>) {
    |RulesOf(entries, "filter_out")| == 1 && |RulesOf(entries, "filter_input")| == 1
  }

  lemma ContractParts(entries: seq<Entry>)
    ensures Contract(entries) <==>
      && Bad !in entries && |Tables(entries)| == 1 && ChainsOnce(entries) && ChainsListed(entries)
      && AllGuarding(entries) && RulesListed(entries) && RulesOnce(entries)
  {
    ExpectedGuards(entries);
    LoopbackChains(entries);
  }

  lemma LoopbackChains(entries: seq<Entry>)
    ensures RulesOnce(entries) <==> forall chain | chain in LOOPBACK :: |RulesOf(entries, chain)| == 1
  {
    ListedNames("filter_out");
    ListedNames("filter_input");
    forall chain | chain in LOOPBACK ensures chain in {"filter_out", "filter_input"} { ListedNames(chain); }
  }

  /**
   * The contract the check decides is the contract as a reader of the JSON states it: every entry is of
   * one of five kinds and of this family and table, and tables, chains and rules are exactly the
   * expected ones.
   */
  lemma ContractIsRaw(listing: seq<Json>)
    ensures Contract(Read(listing)) <==> RawContract(listing)
  {
    ContractParts(Read(listing));
    NoBadEntry(listing);
    NamesOnce(listing);
    ChainNamesAgree(listing);
    ThreeGuards(listing);
    RulesAgree(listing);
    TwoRules(listing);
    if EntriesKnown(listing) {
      TablesAgree(listing);
    }
  }

  /** Adding metainfo or a counter of the table anywhere changes no answer. */
  lemma BystandersDoNotMatter(listing: seq<Json>, j: Json)
    requires (j.JObj? && j.fields.Keys == {"metainfo"}) || Object(j, "counter")
    ensures Contract(Read(listing + [j])) <==> Contract(Read(listing))
  {
    ClassifyExactly(j);
    assert Read(listing + [j]) == Read(listing) + [Ignored];
    IgnoredKeepsContract(Read(listing));
  }

  lemma IgnoredKeepsContract(entries: seq<Entry>)
    ensures Contract(entries + [Ignored]) <==> Contract(entries)
  {
    CollectOne(entries, Ignored);
    IgnoredKeepsGuards(entries);
    ContractParts(entries);
    ContractParts(entries + [Ignored]);
    IgnoredCounts(entries);
  }

  lemma IgnoredCounts(entries: seq<Entry>)
    ensures Tables(entries + [Ignored]) == Tables(entries)
    ensures ChainsOnce(entries + [Ignored]) <==> ChainsOnce(entries)
    ensures RulesOnce(entries + [Ignored]) <==> RulesOnce(entries)
  {
    CollectOne(entries, Ignored);
    forall name ensures Chains(entries + [Ignored], name) == Chains(entries, name) {
      assert Chains(entries, name) + [] == Chains(entries, name);
    }
    forall chain ensures RulesOf(entries + [Ignored], chain) == RulesOf(entries, chain) {
      assert RulesOf(entries, chain) + [] == RulesOf(entries, chain);
    }
    assert Tables(entries) + [] == Tables(entries);
  }

  lemma IgnoredKeepsGuards(entries: seq<Entry>)
    ensures forall e :: e in entries + [Ignored] <==> e in entries || e == Ignored
    ensures forall name, hook :: Guarding(entries + [Ignored], name, hook) <==> Guarding(entries, name, hook)
  {
    forall name, hook ensures Guarding(entries + [Ignored], name, hook) <==> Guarding(entries, name, hook) {
      if Guarding(entries, name, hook) {
        var e :| e in entries && Named(e, name) && GuardChain(e.fields, hook);
        assert e in entries + [Ignored];
      }
    }
  }

  // ---------------------------------------------------------------- one reading of rule expressions

  /** A member of a member, null when there is none. */
  function Member(j: Json, key: string): Json { if j.JObj? then Get(j.fields, key) else JNull }

  /** `meta oifname/iifname ==/!= "lo"` with an accept, as nft writes it; anything else reads as a drop of all. */
  function ReadRule(expr: Json): Rule {
    if !expr.JList? || |expr.items| != 2 || !expr.items[1].JObj? || "accept" !in expr.items[1].fields then
      Rule(Always, None, Drop)
    else
      var body := Member(expr.items[0], "match");
      var key, op := Member(Member(Member(body, "left"), "meta"), "key"), Member(body, "op");
      if Member(body, "right") != JStr("lo") then Rule(Always, None, Drop)
      else if key == JStr("oifname") && op == JStr("==") then Accepting(If(OifLo(false)))
      else if key == JStr("oifname") && op == JStr("!=") then Accepting(If(OifLo(true)))
      else if key == JStr("iifname") && op == JStr("==") then Accepting(If(IifLo))
      else Rule(Always, None, Drop)
  }

  lemma ReadRuleReadsLoopback()
    ensures ReadsLoopback(ReadRule)
  {
  }

  // ---------------------------------------------------------------- the decision procedure

  ghost predicate CollectedChains(entries: seq<Entry>, chains: map<string, map<string, Json>>) {
    forall name :: Chains(entries, name) == if name in chains then [ChainEntry(name, chains[name])] else []
  }

  function At(rules: map<string, seq<Json>>, chain: string): seq<Json> {
    if chain in rules then rules[chain] else []
  }

  ghost predicate CollectedRules(entries: seq<Entry>, rules: map<string, seq<Json>>) {
    && (forall chain | chain in rules :: rules[chain] != [])
    && (forall chain :: RulesOf(entries, chain) == Listed(chain, At(rules, chain)))
  }

  /** What the loop has collected from a prefix of the listing. */
  ghost predicate Collected(
    entries: seq<Entry>, tables: nat, chains: map<string, map<string, Json>>, rules: map<string, seq<Json>>)
  {
    && Bad !in entries
    && tables == |Tables(entries)|
    && CollectedChains(entries, chains)
    && CollectedRules(entries, rules)
  }

  function Listed(chain: string, exprs: seq<Json>): seq<Entry> {
    seq(|exprs|, i requires 0 <= i < |exprs| => RuleEntry(chain, exprs[i]))
  }

  /** The tests after the loop. */
  predicate Accepts(tables: nat, chains: map<string, map<string, Json>>, rules: map<string, seq<Json>>) {
    && tables == 1
    && chains.Keys <= CHAIN_NAMES
    && (forall name | name in EXPECTED :: name in chains && GuardChain(chains[name], EXPECTED[name]))
    && rules == map["filter_out" := [LoopbackExpression("oifname")], "filter_input" := [LoopbackExpression("iifname")]]
  }

  lemma ChainsSound(
    entries: seq<Entry>, tables: nat, chains: map<string, map<string, Json>>, rules: map<string, seq<Json>>)
    requires Collected(entries, tables, chains, rules) && Accepts(tables, chains, rules)
    ensures forall e | e in entries && e.ChainEntry? :: e.name in CHAIN_NAMES
    ensures forall name | name in EXPECTED :: Guarding(entries, name, EXPECTED[name])
  {
    forall e | e in entries && e.ChainEntry? ensures e.name in CHAIN_NAMES {
      SelectMember(entries, NameTest(e.name), e);
      assert e.name in chains.Keys;
    }
    forall name | name in EXPECTED ensures Guarding(entries, name, EXPECTED[name]) {
      SelectMember(entries, NameTest(name), ChainEntry(name, chains[name]));
      assert ChainEntry(name, chains[name]) in Chains(entries, name);
    }
  }

  lemma RulesSound(
    entries: seq<Entry>, tables: nat, chains: map<string, map<string, Json>>, rules: map<string, seq<Json>>)
    requires Collected(entries, tables, chains, rules) && Accepts(tables, chains, rules)
    ensures forall e | e in entries && e.RuleEntry? ::
      e.chain in LOOPBACK && e.expr == LoopbackExpression(LOOPBACK[e.chain])
    ensures forall chain | chain in LOOPBACK :: |RulesOf(entries, chain)| == 1
  {
    forall e | e in entries && e.RuleEntry?
      ensures e.chain in LOOPBACK && e.expr == LoopbackExpression(LOOPBACK[e.chain])
    {
      SelectMember(entries, RuleTest(e.chain), e);
      assert e in RulesOf(entries, e.chain);
      assert e.chain in rules;
      assert e in Listed(e.chain, rules[e.chain]);
    }
    forall chain | chain in LOOPBACK ensures |RulesOf(entries, chain)| == 1 {
      assert chain in rules;
    }
  }

  lemma AcceptsSound(
    entries: seq<Entry>, tables: nat, chains: map<string, map<string, Json>>, rules: map<string, seq<Json>>)
    requires Collected(entries, tables, chains, rules) && Accepts(tables, chains, rules)
    ensures Contract(entries)
  {
    ChainsSound(entries, tables, chains, rules);
    RulesSound(entries, tables, chains, rules);
  }

  lemma AcceptsExactly(
    entries: seq<Entry>, tables: nat, chains: map<string, map<string, Json>>, rules: map<string, seq<Json>>)
    requires Collected(entries, tables, chains, rules)
    ensures Accepts(tables, chains, rules) <==> Contract(entries)
  {
    if Accepts(tables, chains, rules) {
      AcceptsSound(entries, tables, chains, rules);
    } else if Contract(entries) {
      AcceptsComplete(entries, tables, chains, rules);
    }
  }

  /** A chain listed a second time breaks the contract, whatever follows. */
  lemma RepeatedChain(entries: seq<Entry>, i: nat, name: string, first: map<string, Json>, second: map<string, Json>)
    requires i < |entries| && entries[i] == ChainEntry(name, second)
    requires Chains(entries[..i], name) == [ChainEntry(name, first)]
    ensures !Contract(entries)
  {
    assert entries[..i + 1] == entries[..i] + [entries[i]];
    SelectSnoc(entries[..i], entries[i], NameTest(name));
    SelectGrows(entries, i + 1, NameTest(name));
    assert |Chains(entries, name)| > 1;
  }

  lemma ChainsComplete(
    entries: seq<Entry>, tables: nat, chains: map<string, map<string, Json>>, rules: map<string, seq<Json>>)
    requires Collected(entries, tables, chains, rules) && Contract(entries)
    ensures chains.Keys <= CHAIN_NAMES
    ensures forall name | name in EXPECTED :: name in chains && GuardChain(chains[name], EXPECTED[name])
  {
    forall name | name in chains ensures name in CHAIN_NAMES {
      SelectMember(entries, NameTest(name), ChainEntry(name, chains[name]));
      assert ChainEntry(name, chains[name]) in Chains(entries, name);
    }
    forall name | name in EXPECTED ensures name in chains && GuardChain(chains[name], EXPECTED[name]) {
      assert Guarding(entries, name, EXPECTED[name]);
      var e :| e in entries && Named(e, name) && GuardChain(e.fields, EXPECTED[name]);
      SelectMember(entries, NameTest(name), e);
      assert e in Chains(entries, name);
    }
  }

  lemma RulesComplete(
    entries: seq<Entry>, tables: nat, chains: map<string, map<string, Json>>, rules: map<string, seq<Json>>,
    chain: string)
    requires Collected(entries, tables, chains, rules) && Contract(entries)
    ensures chain in rules <==> chain in LOOPBACK
    ensures chain in LOOPBACK ==> rules[chain] == [LoopbackExpression(LOOPBACK[chain])]
  {
    if chain in LOOPBACK {
      assert |RulesOf(entries, chain)| == 1;
    }
    if chain in rules {
      var e := RuleEntry(chain, rules[chain][0]);
      assert e == Listed(chain, rules[chain])[0];
      SelectMember(entries, RuleTest(chain), e);
      assert e in RulesOf(entries, chain);
      assert chain in LOOPBACK && |Listed(chain, rules[chain])| == 1;
    }
  }

  lemma AcceptsComplete(
    entries: seq<Entry>, tables: nat, chains: map<string, map<string, Json>>, rules: map<string, seq<Json>>)
    requires Collected(entries, tables, chains, rules) && Contract(entries)
    ensures Accepts(tables, chains, rules)
  {
    ChainsComplete(entries, tables, chains, rules);
    forall chain
      ensures chain in rules <==> chain in LOOPBACK
      ensures chain in LOOPBACK ==> rules[chain] == [LoopbackExpression(LOOPBACK[chain])]
    {
      RulesComplete(entries, tables, chains, rules, chain);
    }
    ExpectedRules(rules);
  }

  lemma ExpectedRules(rules: map<string, seq<Json>>)
    requires forall chain :: chain in rules <==> chain in LOOPBACK
    requires forall chain | chain in LOOPBACK :: rules[chain] == [LoopbackExpression(LOOPBACK[chain])]
    ensures rules ==
      map["filter_out" := [LoopbackExpression("oifname")], "filter_input" := [LoopbackExpression("iifname")]]
  {
    assert "filter_out" in LOOPBACK && "filter_input" in LOOPBACK;
  }

  lemma SelectSnoc(entries: seq<Entry>, e: Entry, p: Entry -> bool)
    ensures Select(entries + [e], p) == Select(entries, p) + if p(e) then [e] else []
  {
    assert (entries + [e])[..|entries|] == entries;
  }

  lemma CollectOne(entries: seq<Entry>, e: Entry)
    ensures Tables(entries + [e]) == Tables(entries) + if e.TableEntry? then [e] else []
    ensures forall name :: Chains(entries + [e], name) == Chains(entries, name) + if Named(e, name) then [e] else []
    ensures forall chain ::
      RulesOf(entries + [e], chain) == RulesOf(entries, chain) + if RuleOf(e, chain) then [e] else []
  {
    SelectSnoc(entries, e, TableTest());
    forall name ensures Chains(entries + [e], name) == Chains(entries, name) + if Named(e, name) then [e] else [] {
      SelectSnoc(entries, e, NameTest(name));
    }
    forall chain
      ensures RulesOf(entries + [e], chain) == RulesOf(entries, chain) + if RuleOf(e, chain) then [e] else []
    {
      SelectSnoc(entries, e, RuleTest(chain));
    }
  }

  lemma {:induction false} SelectGrows(entries: seq<Entry>, i: nat, p: Entry -> bool)
    requires i <= |entries|
    ensures |Select(entries[..i], p)| <= |Select(entries, p)|
    decreases |entries| - i
  {
    if i == |entries| {
      assert entries[..i] == entries;
    } else {
      assert entries[..i + 1][..i] == entries[..i];
      SelectGrows(entries, i + 1, p);
    }
  }

  lemma ListedSnoc(chain: string, exprs: seq<Json>, expr: Json)
    ensures Listed(chain, exprs + [expr]) == Listed(chain, exprs) + [RuleEntry(chain, expr)]
  {
  }

  lemma CollectChain(
    entries: seq<Entry>, chains: map<string, map<string, Json>>, name: string, fields: map<string, Json>)
    requires CollectedChains(entries, chains)
    ensures name !in chains ==> CollectedChains(entries + [ChainEntry(name, fields)], chains[name := fields])
    ensures name in chains ==> |Chains(entries + [ChainEntry(name, fields)], name)| == 2
  {
    CollectOne(entries, ChainEntry(name, fields));
  }

  lemma CollectRule(entries: seq<Entry>, rules: map<string, seq<Json>>, chain: string, expr: Json)
    requires CollectedRules(entries, rules)
    ensures CollectedRules(entries + [RuleEntry(chain, expr)], rules[chain := At(rules, chain) + [expr]])
  {
    var rules' := rules[chain := At(rules, chain) + [expr]];
    CollectOne(entries, RuleEntry(chain, expr));
    ListedSnoc(chain, At(rules, chain), expr);
    forall c ensures RulesOf(entries + [RuleEntry(chain, expr)], c) == Listed(c, At(rules', c)) {
      assert RulesOf(entries, c) == Listed(c, At(rules, c));
    }
  }

  /** One step of the loop: the entry is collected, or the listing breaks the contract. */
  lemma CollectNext(
    entries: seq<Entry>, i: nat, tables: nat, chains: map<string, map<string, Json>>, rules: map<string, seq<Json>>)
    requires i < |entries| && Collected(entries[..i], tables, chains, rules)
    ensures match entries[i]
      case Bad => !Contract(entries)
      case Ignored => Collected(entries[..i + 1], tables, chains, rules)
      case TableEntry => Collected(entries[..i + 1], tables + 1, chains, rules)
      case ChainEntry(name, fields) =>
        if name in chains then !Contract(entries)
        else Collected(entries[..i + 1], tables, chains[name := fields], rules)
      case RuleEntry(chain, expr) =>
        Collected(entries[..i + 1], tables, chains, rules[chain := At(rules, chain) + [expr]])
  {
    var entry := entries[i];
    assert entries[..i + 1] == entries[..i] + [entry];
    CollectOne(entries[..i], entry);
    match entry {
      case ChainEntry(name, fields) =>
        if name in chains {
          RepeatedChain(entries, i, name, chains[name], fields);
        } else {
          CollectChain(entries[..i], chains, name, fields);
        }
      case RuleEntry(chain, expr) => CollectRule(entries[..i], rules, chain, expr);
      case _ =>
    }
  }

  method MatchesEmergencyContract(payload: Json) returns (ok: bool)
    ensures ok <==>
      && payload.JObj?
      && Get(payload.fields, "nftables").JList?
      && Contract(Read(Get(payload.fields, "nftables").items))
    ensures ok <==>
      && payload.JObj?
      && Get(payload.fields, "nftables").JList?
      && RawContract(Get(payload.fields, "nftables").items)
  {
    if !payload.JObj? || !Get(payload.fields, "nftables").JList? {
      return false;
    }
    var listing := Get(payload.fields, "nftables").items;
    ok := Judge(listing);
    ContractIsRaw(listing);
  }

  /** What `nft -j list table inet ttp` gave. */
  datatype Reply = NotRun | Hung | Refused | NotJson | Parsed(payload: Json)

  datatype Finding = ReadFailed | ReadTimeout | ReplyInvalid | RulesMismatch | Verified

  /** The entries of a reply; none when it is not a listing. */
  function ListingOf(reply: Reply): seq<Json> {
    if reply.Parsed? && reply.payload.JObj? && Get(reply.payload.fields, "nftables").JList?
    then Get(reply.payload.fields, "nftables").items
    else []
  }

  ghost predicate Conforms(reply: Reply) {
    && reply.Parsed?
    && reply.payload.JObj?
    && Get(reply.payload.fields, "nftables").JList?
    && Contract(Read(ListingOf(reply)))
  }

  /** Verified is answered only to a parsed reply that keeps the contract; every failure to read has its own finding. */
  method InspectEmergencyRules(reply: Reply) returns (v: Finding)
    ensures v == Verified <==> Conforms(reply)
    ensures v == ReadFailed <==> reply.NotRun? || reply.Refused?
    ensures v == ReadTimeout <==> reply.Hung?
    ensures v == ReplyInvalid <==> reply.NotJson?
  {
    match reply {
      case NotRun => return ReadFailed;
      case Hung => return ReadTimeout;
      case Refused => return ReadFailed;
      case NotJson => return ReplyInvalid;
      case Parsed(payload) =>
        var ok := MatchesEmergencyContract(payload);
        return if ok then Verified else RulesMismatch;
    }
  }

  method Judge(listing: seq<Json>) returns (ok: bool)
    ensures ok <==> Contract(Read(listing))
  {
    ghost var entries := Read(listing);
    var tables: nat := 0;
    var chains: map<string, map<string, Json>> := map[];
    var rules: map<string, seq<Json>> := map[];
    for i := 0 to |listing|
      invariant Collected(entries[..i], tables, chains, rules)
    {
      var entry := Classify(listing[i]);
      assert entry == entries[i];
      CollectNext(entries, i, tables, chains, rules);
      match entry {
        case Bad =>
          return false;
        case Ignored =>
        case TableEntry =>
          tables := tables + 1;
        case ChainEntry(name, fields) =>
          if name in chains {
            return false;
          }
          chains := chains[name := fields];
        case RuleEntry(chain, expr) =>
          rules := rules[chain := At(rules, chain) + [expr]];
      }
    }
    assert entries[..|listing|] == entries;
    ok := Accepts(tables, chains, rules);
    AcceptsExactly(entries, tables, chains, rules);
  }

  // ---------------------------------------------------------------- what an accepted listing means

  function HookOf(j: Json): Option<Hook> {
    if j == JStr("output") then Some(Output)
    else if j == JStr("input") then Some(Input)
    else if j == JStr("forward") then Some(Forward)
    else if j == JStr("prerouting") then Some(Prerouting)
    else None
  }

  function TypeOf(j: Json): ChainType {
    if j == JStr("filter") then Filter else if j == JStr("nat") then Nat else Route
  }

  function DecodeChain(fields: map<string, Json>, rules: seq<Rule>): Chain {
    Chain(
      TypeOf(Get(fields, "type")),
      HookOf(Get(fields, "hook")),
      if Get(fields, "prio").JInt? then Get(fields, "prio").number else 0,
      Get(fields, "policy") == JStr("drop"),
      "dev" in fields || "device" in fields || "devices" in fields || Truthy(Get(fields, "flags")),
      rules)
  }

  function RuleExprs(entries: seq<Entry>, interpret: Json -> Rule): seq<Rule> {
    seq(|entries|, i requires 0 <= i < |entries| =>
      if entries[i].RuleEntry? then interpret(entries[i].expr) else interpret(JNull))
  }

  function FieldsOf(chains: seq<Entry>): map<string, Json> {
    if chains != [] && chains[0].ChainEntry? then chains[0].fields else map[]
  }

  predicate FlaggedTable(j: Json) {
    && j.JObj? && |j.fields| == 1
    && OnlyKey(j.fields) == "table"
    && j.fields["table"].JObj? && Truthy(Get(j.fields["table"].fields, "flags"))
  }

  /** What makes a table dormant or a chain scoped, by the fields of the listing. */
  lemma FlagsDescribed(j: Json, fields: map<string, Json>, rules: seq<Rule>)
    ensures Object(j, "table") ==> (FlaggedTable(j) <==> !Falsy(Field(j, "table", "flags")))
    ensures DecodeChain(fields, rules).scoped <==>
      (exists key | key in {"dev", "device", "devices"} :: key in fields) || !Falsy(Get(fields, "flags"))
    ensures DecodeChain(fields, rules).rules == rules
    ensures DecodeChain(fields, rules).policyDrop <==> Get(fields, "policy") == JStr("drop")
  {
    TruthyExactly(Get(fields, "flags"));
    if Object(j, "table") {
      KindOf(j, "table");
      TruthyExactly(Field(j, "table", "flags"));
    }
  }

  /**
   * The kernel table a listing describes: its base chains with their rules in order, where
   * `interpret` gives every rule expression its meaning. A flag on the table may make it dormant.
   */
  ghost function Described(listing: seq<Json>, interpret: Json -> Rule): Table {
    var entries := Read(listing);
    var names := set e | e in entries && e.ChainEntry? :: e.name;
    Table(
      exists j | j in listing :: FlaggedTable(j),
      map name | name in names ::
        DecodeChain(FieldsOf(Chains(entries, name)), RuleExprs(RulesOf(entries, name), interpret)))
  }

  /** Any reading of rule expressions that gives the two loopback expressions their meaning. */
  ghost predicate ReadsLoopback(interpret: Json -> Rule) {
    && interpret(LoopbackExpression("oifname")) == Accepting(If(OifLo(false)))
    && interpret(LoopbackExpression("iifname")) == Accepting(If(IifLo))
  }

  lemma AcceptedNotDormant(listing: seq<Json>)
    requires Contract(Read(listing))
    ensures !exists j | j in listing :: FlaggedTable(j)
  {
    forall j | j in listing ensures !FlaggedTable(j) {
      var i :| 0 <= i < |listing| && listing[i] == j;
      assert Read(listing)[i] == Classify(j);
    }
  }

  lemma AcceptedGuard(entries: seq<Entry>, name: string) returns (e: Entry)
    requires Contract(entries) && name in EXPECTED
    ensures Named(e, name) && e in entries && GuardChain(e.fields, EXPECTED[name]) && Chains(entries, name) == [e]
  {
    assert Guarding(entries, name, EXPECTED[name]);
    e :| e in entries && Named(e, name) && GuardChain(e.fields, EXPECTED[name]);
    SelectMember(entries, NameTest(name), e);
    assert e in Chains(entries, name);
  }

  lemma AcceptedExprs(entries: seq<Entry>, name: string, interpret: Json -> Rule)
    requires Contract(entries) && ReadsLoopback(interpret) && name in EXPECTED
    ensures RuleExprs(RulesOf(entries, name), interpret) == Killswitch().chains[name].rules
  {
    AcceptedRules(entries, name);
    if name in LOOPBACK {
      assert RuleExprs(RulesOf(entries, name), interpret) == [interpret(LoopbackExpression(LOOPBACK[name]))];
    } else {
      assert name == "filter_forward";
    }
  }

  lemma GuardDecodes(fields: map<string, Json>, name: string)
    requires name in EXPECTED && GuardChain(fields, EXPECTED[name])
    ensures DecodeChain(fields, Killswitch().chains[name].rules) == Killswitch().chains[name]
  {
  }

  lemma AcceptedChain(entries: seq<Entry>, name: string, interpret: Json -> Rule)
    requires Contract(entries) && ReadsLoopback(interpret) && name in EXPECTED
    ensures exists e | e in entries :: e.ChainEntry? && e.name == name
    ensures DecodeChain(FieldsOf(Chains(entries, name)), RuleExprs(RulesOf(entries, name), interpret))
            == Killswitch().chains[name]
  {
    var e := AcceptedGuard(entries, name);
    AcceptedExprs(entries, name, interpret);
    GuardDecodes(e.fields, name);
  }

  lemma AcceptedRules(entries: seq<Entry>, name: string)
    requires Contract(entries)
    ensures RulesOf(entries, name) ==
      if name in LOOPBACK then [RuleEntry(name, LoopbackExpression(LOOPBACK[name]))] else []
  {
    if RulesOf(entries, name) != [] {
      var e := RulesOf(entries, name)[0];
      SelectMember(entries, RuleTest(name), e);
      assert e.chain == name && name in LOOPBACK;
    }
  }

  /** An accepted table is the killswitch, except that it may list empty chains besides. */
  lemma AcceptedIsKillswitch(listing: seq<Json>, interpret: Json -> Rule)
    requires Contract(Read(listing)) && ReadsLoopback(interpret)
    ensures KillswitchPlusEmpty(Described(listing, interpret))
  {
    var entries, t := Read(listing), Described(listing, interpret);
    AcceptedNotDormant(listing);
    forall name | name in EXPECTED ensures name in t.chains && t.chains[name] == Killswitch().chains[name] {
      AcceptedChain(entries, name, interpret);
    }
    forall name | name in t.chains && name !in EXPECTED ensures name in CHAIN_NAMES && t.chains[name].rules == [] {
      AcceptedRules(entries, name);
      LoopbackExpected(name);
    }
  }

  lemma LoopbackExpected(name: string)
    ensures name in LOOPBACK ==> name in EXPECTED
  {
  }

  ghost predicate KillswitchPlusEmpty(t: Table) {
    && !t.dormant
    && (forall name | name in EXPECTED :: name in t.chains && t.chains[name] == Killswitch().chains[name])
    && (forall name | name in t.chains && name !in EXPECTED :: name in CHAIN_NAMES && t.chains[name].rules == [])
  }

  lemma ExpectedNames()
    ensures "filter_out" in EXPECTED && "filter_forward" in EXPECTED && "filter_input" in EXPECTED
    ensures "output" !in EXPECTED
  {
  }

  /**
   * Soundness: whatever else it lists, an accepted table drops every output packet that does not
   * leave through loopback, every input packet that did not arrive on it, and every forwarded packet.
   */
  lemma AcceptedIsolates(listing: seq<Json>, interpret: Json -> Rule, e: Env)
    requires Contract(Read(listing)) && ReadsLoopback(interpret)
    ensures Isolates(Described(listing, interpret), e)
  {
    var t := Described(listing, interpret);
    AcceptedIsKillswitch(listing, interpret);
    ExpectedNames();
    forall p
      ensures PassesOutput(t, e, p) ==> e.viaLo(p.dst)
      ensures Passes(t, Input, e, p) ==> p.inLo
      ensures !Passes(t, Forward, e, p)
    {
      EmptyChainsAddNothing(t, e, p);
    }
  }

  /** A reply that conforms describes, in any reading of its rules, a table that isolates. */
  lemma ConformingIsolates(reply: Reply, interpret: Json -> Rule, e: Env)
    requires Conforms(reply) && ReadsLoopback(interpret)
    ensures Isolates(Described(ListingOf(reply), interpret), e)
  {
    AcceptedIsolates(ListingOf(reply), interpret, e);
  }

  lemma EmptyChainsAddNothing(t: Table, e: Env, p: Packet)
    requires !t.dormant
    requires "filter_out" in t.chains && t.chains["filter_out"] == Killswitch().chains["filter_out"]
    requires "filter_forward" in t.chains && t.chains["filter_forward"] == Killswitch().chains["filter_forward"]
    requires "filter_input" in t.chains && t.chains["filter_input"] == Killswitch().chains["filter_input"]
    requires "output" in t.chains ==> t.chains["output"].rules == []
    ensures PassesOutput(t, e, p) ==> e.viaLo(p.dst)
    ensures Passes(t, Input, e, p) ==> p.inLo
    ensures !Passes(t, Forward, e, p)
  {
    assert AfterNat(t, e, p) == p;
    DecideOne(Accepting(If(OifLo(false))), e, p);
    DecideOne(Accepting(If(IifLo)), e, p);
    assert ChainLets(t.chains["filter_out"], e, p) <==> e.viaLo(p.dst);
    assert ChainLets(t.chains["filter_input"], e, p) <==> p.inLo;
    assert !ChainLets(t.chains["filter_forward"], e, p);
  }

  // ---------------------------------------------------------------- the killswitch's own listing

  function Item(kind: string, fields: map<string, Json>): Json { JObj(map[kind := JObj(fields)]) }

  function ChainFields(name: string, hook: string, handle: int): map<string, Json> {
    map["family" := JStr("inet"), "table" := JStr("ttp"), "name" := JStr(name), "handle" := JInt(handle),
        "type" := JStr("filter"), "hook" := JStr(hook), "prio" := JInt(0), "policy" := JStr("drop")]
  }

  function RuleFields(chain: string, direction: string, handle: int): map<string, Json> {
    map["family" := JStr("inet"), "table" := JStr("ttp"), "chain" := JStr(chain), "handle" := JInt(handle),
        "expr" := LoopbackExpression(direction)]
  }

  /** What nft lists after apply_emergency_killswitch, with any handles. */
  function KillswitchListing(version: Json, h: int -> int): seq<Json> {
    [JObj(map["metainfo" := version]),
     Item("table", map["family" := JStr("inet"), "name" := JStr("ttp"), "handle" := JInt(h(0))]),
     Item("chain", ChainFields("filter_out", "output", h(1))),
     Item("rule", RuleFields("filter_out", "oifname", h(2))),
     Item("chain", ChainFields("filter_forward", "forward", h(3))),
     Item("chain", ChainFields("filter_input", "input", h(4))),
     Item("rule", RuleFields("filter_input", "iifname", h(5)))]
  }

  lemma OnlyKeyOf(kind: string, value: Json)
    ensures |map[kind := value]| == 1 && OnlyKey(map[kind := value]) == kind
  {
  }

  lemma MetainfoReads(version: Json)
    ensures Classify(JObj(map["metainfo" := version])) == Ignored
  {
    OnlyKeyOf("metainfo", version);
  }

  lemma TableReads(handle: int)
    ensures Classify(Item("table", map["family" := JStr("inet"), "name" := JStr("ttp"), "handle" := JInt(handle)])) ==
      TableEntry
  {
    var fields := map["family" := JStr("inet"), "name" := JStr("ttp"), "handle" := JInt(handle)];
    OnlyKeyOf("table", JObj(fields));
    assert "flags" !in fields;
  }

  lemma ChainReads(name: string, hook: string, handle: int)
    ensures Classify(Item("chain", ChainFields(name, hook, handle))) ==
      ChainEntry(name, ChainFields(name, hook, handle))
    ensures GuardChain(ChainFields(name, hook, handle), hook)
  {
    OnlyKeyOf("chain", JObj(ChainFields(name, hook, handle)));
  }

  lemma RuleReads(chain: string, direction: string, handle: int)
    ensures Classify(Item("rule", RuleFields(chain, direction, handle))) ==
      RuleEntry(chain, LoopbackExpression(direction))
  {
    OnlyKeyOf("rule", JObj(RuleFields(chain, direction, handle)));
  }

  /** Seven entries with three chains and a rule on the first and the last. */
  function Entries(a: string, f1: map<string, Json>, x1: Json, b: string, f2: map<string, Json>,
                   c: string, f3: map<string, Json>, x3: Json): seq<Entry>
  {
    [Ignored, TableEntry, ChainEntry(a, f1), RuleEntry(a, x1), ChainEntry(b, f2), ChainEntry(c, f3), RuleEntry(c, x3)]
  }

  lemma KillswitchReads(version: Json, h: int -> int)
    ensures Read(KillswitchListing(version, h)) == Entries(
      "filter_out", ChainFields("filter_out", "output", h(1)), LoopbackExpression("oifname"),
      "filter_forward", ChainFields("filter_forward", "forward", h(3)),
      "filter_input", ChainFields("filter_input", "input", h(4)), LoopbackExpression("iifname"))
  {
    MetainfoReads(version);
    TableReads(h(0));
    ChainReads("filter_out", "output", h(1));
    RuleReads("filter_out", "oifname", h(2));
    ChainReads("filter_forward", "forward", h(3));
    ChainReads("filter_input", "input", h(4));
    RuleReads("filter_input", "iifname", h(5));
    ReadSeven(
      JObj(map["metainfo" := version]),
      Item("table", map["family" := JStr("inet"), "name" := JStr("ttp"), "handle" := JInt(h(0))]),
      Item("chain", ChainFields("filter_out", "output", h(1))),
      Item("rule", RuleFields("filter_out", "oifname", h(2))),
      Item("chain", ChainFields("filter_forward", "forward", h(3))),
      Item("chain", ChainFields("filter_input", "input", h(4))),
      Item("rule", RuleFields("filter_input", "iifname", h(5))));
  }

  lemma ReadSeven(a: Json, b: Json, c: Json, d: Json, e: Json, f: Json, g: Json)
    ensures Read([a, b, c, d, e, f, g]) ==
      [Classify(a), Classify(b), Classify(c), Classify(d), Classify(e), Classify(f), Classify(g)]
  {
  }

  lemma CollectSeven(a: string, f1: map<string, Json>, x1: Json, b: string, f2: map<string, Json>,
                     c: string, f3: map<string, Json>, x3: Json)
    requires a != b && b != c && a != c
    ensures Collected(
      Entries(a, f1, x1, b, f2, c, f3, x3), 1, map[a := f1, b := f2, c := f3], map[a := [x1], c := [x3]])
  {
    var s2: seq<Entry> := [] + [Ignored] + [TableEntry];
    var s3 := s2 + [ChainEntry(a, f1)];
    var s4 := s3 + [RuleEntry(a, x1)];
    var s5 := s4 + [ChainEntry(b, f2)];
    var s6 := s5 + [ChainEntry(c, f3)];
    assert s6 + [RuleEntry(c, x3)] == Entries(a, f1, x1, b, f2, c, f3, x3);
    assert Collected(s2, 1, map[], map[]) by {
      CollectOne([], Ignored);
      CollectOne([] + [Ignored], TableEntry);
    }
    StepChain(s2, map[], map[], a, f1);
    StepRule(s3, map[a := f1], map[], a, x1);
    StepChain(s4, map[a := f1], map[a := [x1]], b, f2);
    StepChain(s5, map[a := f1, b := f2], map[a := [x1]], c, f3);
    StepRule(s6, map[a := f1, b := f2, c := f3], map[a := [x1]], c, x3);
  }

  lemma StepChain(entries: seq<Entry>, chains: map<string, map<string, Json>>, rules: map<string, seq<Json>>,
                  name: string, fields: map<string, Json>)
    requires Collected(entries, 1, chains, rules) && name !in chains
    ensures Collected(entries + [ChainEntry(name, fields)], 1, chains[name := fields], rules)
  {
    CollectOne(entries, ChainEntry(name, fields));
    CollectChain(entries, chains, name, fields);
  }

  lemma StepRule(entries: seq<Entry>, chains: map<string, map<string, Json>>, rules: map<string, seq<Json>>,
                 chain: string, expr: Json)
    requires Collected(entries, 1, chains, rules) && chain !in rules
    ensures Collected(entries + [RuleEntry(chain, expr)], 1, chains, rules[chain := [expr]])
  {
    CollectOne(entries, RuleEntry(chain, expr));
    CollectRule(entries, rules, chain, expr);
    assert [] + [expr] == [expr];
  }

  lemma KillswitchTests(f1: map<string, Json>, f2: map<string, Json>, f3: map<string, Json>)
    requires GuardChain(f1, "output") && GuardChain(f2, "forward") && GuardChain(f3, "input")
    ensures Accepts(
      1, map["filter_out" := f1, "filter_forward" := f2, "filter_input" := f3],
      map["filter_out" := [LoopbackExpression("oifname")], "filter_input" := [LoopbackExpression("iifname")]])
  {
  }

  lemma KillswitchContract(h: int -> int)
    ensures Contract(Entries(
      "filter_out", ChainFields("filter_out", "output", h(1)), LoopbackExpression("oifname"),
      "filter_forward", ChainFields("filter_forward", "forward", h(3)),
      "filter_input", ChainFields("filter_input", "input", h(4)), LoopbackExpression("iifname")))
  {
    var f1, f2, f3 := ChainFields("filter_out", "output", h(1)), ChainFields("filter_forward", "forward", h(3)),
                      ChainFields("filter_input", "input", h(4));
    ChainReads("filter_out", "output", h(1));
    ChainReads("filter_forward", "forward", h(3));
    ChainReads("filter_input", "input", h(4));
    var x1, x3 := LoopbackExpression("oifname"), LoopbackExpression("iifname");
    CollectSeven("filter_out", f1, x1, "filter_forward", f2, "filter_input", f3, x3);
    KillswitchTests(f1, f2, f3);
    AcceptsSound(
      Entries("filter_out", f1, x1, "filter_forward", f2, "filter_input", f3, x3), 1,
      map["filter_out" := f1, "filter_forward" := f2, "filter_input" := f3],
      map["filter_out" := [x1], "filter_input" := [x3]]);
  }

  /** Completeness: the killswitch's listing is accepted in whatever order nft lists it. */
  lemma KillswitchAccepted(version: Json, h: int -> int, listing: seq<Json>)
    requires multiset(listing) == multiset(KillswitchListing(version, h))
    ensures Contract(Read(listing))
  {
    KillswitchReads(version, h);
    KillswitchContract(h);
    OrderIrrelevant(KillswitchListing(version, h), listing);
  }
}
