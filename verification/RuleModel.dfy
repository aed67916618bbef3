/** Rules, the snapshots built from them, and why a snapshot's content is canonical. */
module RuleModel {
  import opened Ordering
  import opened Text

  datatype Option<+T> = None | Some(value: T)

  datatype Rule = Rule(
    id: int, category: string, action: string, groupId: string, matchType: string, pattern: string,
    priority: int, source: string, comment: string, enabled: bool, createdAt: int, updatedAt: int,
    expectedRegistry: Option<nat>, ipv4: seq<string>, ipv6: seq<string>, ttl: int)

  datatype WireRule = WireRule(
    id: int, category: string, action: string, groupId: string, matchType: string, pattern: string,
    priority: int, source: string, comment: string, ipv4: seq<string>, ipv6: seq<string>, ttl: int)

  datatype SubscriptionSet = SubscriptionSet(
    sourceId: int, sourceName: string, category: string, action: string,
    bindingId: int, groupId: string, priority: int, domains: seq<string>)

  /** What an Apply carries. The checksum is taken to identify the content, so comparing checksums
      is comparing snapshots; version and generation time are part of the content. */
  datatype Snapshot = Snapshot(
    version: nat, expected: nat, generatedAt: int, rules: seq<WireRule>, sets: seq<SubscriptionSet>)

  // ---- the five-key comparator -------------------------------------------------------------

  datatype SortKey = SortKey(category: string, priority: int, matchType: string, pattern: string, id: int)

  function WireKey(r: WireRule): SortKey {
    SortKey(r.category, r.priority, r.matchType, r.pattern, r.id)
  }

  function RuleKey(r: Rule): SortKey {
    SortKey(r.category, r.priority, r.matchType, r.pattern, r.id)
  }

  predicate KeyLess(a: SortKey, b: SortKey) {
    if a.category != b.category then StrLess(a.category, b.category)
    else if a.priority != b.priority then a.priority < b.priority
    else if a.matchType != b.matchType then StrLess(a.matchType, b.matchType)
    else if a.pattern != b.pattern then StrLess(a.pattern, b.pattern)
    else a.id < b.id
  }

  predicate WireLess(a: WireRule, b: WireRule) { KeyLess(WireKey(a), WireKey(b)) }

  predicate RuleLess(a: Rule, b: Rule) { KeyLess(RuleKey(a), RuleKey(b)) }

  lemma KeyTransitive(a: SortKey, b: SortKey, c: SortKey)
    requires KeyLess(a, b) && KeyLess(b, c)
    ensures KeyLess(a, c)
  {
    StringStep(a.category, b.category, c.category);
    StringStep(a.matchType, b.matchType, c.matchType);
    StringStep(a.pattern, b.pattern, c.pattern);
  }

  /** One string key of the comparator composes. */
  lemma StringStep(a: string, b: string, c: string)
    ensures StrLess(a, b) && StrLess(b, c) ==> StrLess(a, c) && a != c
    ensures !StrLess(a, a)
  {
    StrIrreflexive(a);
    if StrLess(a, b) && StrLess(b, c) {
      StrTransitive(a, b, c);
    }
  }

  lemma KeyTotal(a: SortKey, b: SortKey)
    requires a != b
    ensures KeyLess(a, b) || KeyLess(b, a)
    ensures !KeyLess(a, a)
  {
    if a.category != b.category { StrTotal(a.category, b.category); }
    if a.matchType != b.matchType { StrTotal(a.matchType, b.matchType); }
    if a.pattern != b.pattern { StrTotal(a.pattern, b.pattern); }
  }

  ghost predicate DistinctIds(rules: seq<Rule>) {
    forall i, j | 0 <= i < j < |rules| :: rules[i].id != rules[j].id
  }

  ghost predicate DistinctWireIds(wire: seq<WireRule>) {
    forall i, j | 0 <= i < j < |wire| :: wire[i].id != wire[j].id
  }

  /** The comparator is a strict total order on the rules of one list. */
  lemma WireOrder(wire: seq<WireRule>)
    requires DistinctWireIds(wire)
    ensures StrictOrderOn(WireLess, Elements(wire))
    ensures NoDuplicates(wire)
  {
    var s := Elements(wire);
    forall x | x in s ensures !WireLess(x, x) {
      KeyTotal(WireKey(x), WireKey(x).(id := x.id + 1));
    }
    forall x, y, z | x in s && y in s && z in s && WireLess(x, y) && WireLess(y, z) ensures WireLess(x, z) {
      KeyTransitive(WireKey(x), WireKey(y), WireKey(z));
    }
    forall x, y | x in s && y in s && x != y ensures WireLess(x, y) || WireLess(y, x) {
      var i :| 0 <= i < |wire| && wire[i] == x;
      var j :| 0 <= j < |wire| && wire[j] == y;
      assert i < j || j < i;
      KeyTotal(WireKey(x), WireKey(y));
    }
  }

  lemma RuleOrder(rules: seq<Rule>)
    requires DistinctIds(rules)
    ensures StrictOrderOn(RuleLess, Elements(rules))
    ensures NoDuplicates(rules)
  {
    var s := Elements(rules);
    forall x | x in s ensures !RuleLess(x, x) {
      KeyTotal(RuleKey(x), RuleKey(x).(id := x.id + 1));
    }
    forall x, y, z | x in s && y in s && z in s && RuleLess(x, y) && RuleLess(y, z) ensures RuleLess(x, z) {
      KeyTransitive(RuleKey(x), RuleKey(y), RuleKey(z));
    }
    forall x, y | x in s && y in s && x != y ensures RuleLess(x, y) || RuleLess(y, x) {
      var i :| 0 <= i < |rules| && rules[i] == x;
      var j :| 0 <= j < |rules| && rules[j] == y;
      assert i < j || j < i;
      KeyTotal(RuleKey(x), RuleKey(y));
    }
  }

  // ---- building the wire rule list ---------------------------------------------------------

  function ToWire(r: Rule): WireRule {
    WireRule(r.id, r.category, r.action, r.groupId, r.matchType, r.pattern, r.priority, r.source, r.comment,
             r.ipv4, r.ipv6, r.ttl)
  }

  /** The wire rule holds the rule, column by column. */
  predicate Carries(w: WireRule, r: Rule) {
    && w.id == r.id && w.category == r.category && w.action == r.action && w.groupId == r.groupId
    && w.matchType == r.matchType && w.pattern == r.pattern && w.priority == r.priority
    && w.source == r.source && w.comment == r.comment
    && w.ipv4 == r.ipv4 && w.ipv6 == r.ipv6 && w.ttl == r.ttl
  }

  /** Every enabled rule of the list is on the wire, once and with its columns, and nothing else is. */
  ghost predicate CarriesEnabled(wire: seq<WireRule>, rules: seq<Rule>) {
    && DistinctWireIds(wire)
    && (forall r | r in rules && r.enabled :: exists w :: w in wire && Carries(w, r))
    && (forall w | w in wire :: exists r :: r in rules && r.enabled && Carries(w, r))
  }

  /** The same of a rule table. */
  ghost predicate CarriesTable(wire: seq<WireRule>, table: map<int, Rule>) {
    && DistinctWireIds(wire)
    && (forall id | id in table && table[id].enabled :: exists w :: w in wire && Carries(w, table[id]))
    && (forall w | w in wire :: w.id in table && table[w.id].enabled && Carries(w, table[w.id]))
  }

  function EnabledWire(rules: seq<Rule>): seq<WireRule> {
    if rules == [] then []
    else (if rules[0].enabled then [ToWire(rules[0])] else []) + EnabledWire(rules[1..])
  }

  lemma {:induction false} EnabledWireAppend(rules: seq<Rule>, r: Rule)
    ensures EnabledWire(rules + [r]) == EnabledWire(rules) + (if r.enabled then [ToWire(r)] else [])
  {
    if rules == [] {
      assert rules + [r] == [r];
    } else {
      EnabledWireAppend(rules[1..], r);
      assert (rules + [r])[1..] == rules[1..] + [r];
    }
  }

  /** The wire list holds exactly the enabled rules. */
  lemma {:induction false} EnabledWireElements(rules: seq<Rule>)
    ensures forall w :: w in EnabledWire(rules) <==> exists r :: r in rules && r.enabled && ToWire(r) == w
    decreases |rules|
  {
    if rules != [] {
      EnabledWireElements(rules[1..]);
      var head := if rules[0].enabled then [ToWire(rules[0])] else [];
      forall w ensures w in EnabledWire(rules) <==> exists r :: r in rules && r.enabled && ToWire(r) == w {
        if w in EnabledWire(rules) {
          if w in head {
            assert rules[0] in rules && rules[0].enabled && ToWire(rules[0]) == w;
          } else {
            var r :| r in rules[1..] && r.enabled && ToWire(r) == w;
            assert r in rules;
          }
        }
        if r :| r in rules && r.enabled && ToWire(r) == w {
          assert r == rules[0] || r in rules[1..];
        }
      }
    }
  }

  lemma {:induction false} EnabledWireDistinct(rules: seq<Rule>)
    requires DistinctIds(rules)
    ensures DistinctWireIds(EnabledWire(rules))
    decreases |rules|
  {
    if rules != [] {
      EnabledWireDistinct(rules[1..]);
      EnabledWireElements(rules[1..]);
      var rest := EnabledWire(rules[1..]);
      forall i | 0 <= i < |rest| ensures rest[i].id != rules[0].id {
        assert rest[i] in rest;
        var r :| r in rules[1..] && r.enabled && ToWire(r) == rest[i];
        var k :| 0 <= k < |rules[1..]| && rules[1..][k] == r;
        assert rules[k + 1] == r;
      }
    }
  }

  function Wire(rules: seq<Rule>): seq<WireRule> {
    Sort(EnabledWire(rules), WireLess)
  }

  function BuildSnapshot(version: nat, current: nat, now: int, rules: seq<Rule>, sets: seq<SubscriptionSet>): Snapshot {
    Snapshot(version, current, now, Wire(rules), sets)
  }

  lemma WireSortsEnabled(rules: seq<Rule>)
    requires DistinctIds(rules)
    ensures Ascending(WireLess, Wire(rules))
    ensures DistinctWireIds(Wire(rules))
    ensures forall w :: w in Wire(rules) <==> exists r :: r in rules && r.enabled && ToWire(r) == w
  {
    EnabledWireDistinct(rules);
    EnabledWireElements(rules);
    var e := EnabledWire(rules);
    WireOrder(e);
    SortAscends(e, WireLess);
    SortKeeps(e, WireLess);
    var s := Wire(rules);
    forall w ensures w in s <==> w in e {
      assert w in s <==> w in Elements(s);
      assert w in e <==> w in Elements(e);
    }
    forall i, j | 0 <= i < j < |s| ensures s[i].id != s[j].id {
      assert WireLess(s[i], s[j]);
      assert s[i] in e && s[j] in e;
      assert s[i] in Elements(e);
      assert s[i] != s[j];
      var x :| 0 <= x < |e| && e[x] == s[i];
      var y :| 0 <= y < |e| && e[y] == s[j];
      assert x < y || y < x;
    }
  }

  /** A snapshot carries exactly the enabled rules of its list, column by column, in strictly ascending key order. */
  lemma WireIsSortedEnabledRules(rules: seq<Rule>)
    requires DistinctIds(rules)
    ensures Ascending(WireLess, Wire(rules))
    ensures CarriesEnabled(Wire(rules), rules)
  {
    WireSortsEnabled(rules);
    hide Wire;
    var wire := Wire(rules);
    forall r | r in rules && r.enabled ensures exists w :: w in wire && Carries(w, r) {
      assert ToWire(r) in wire && Carries(ToWire(r), r);
    }
    forall w | w in wire ensures exists r :: r in rules && r.enabled && Carries(w, r) {
      var r :| r in rules && r.enabled && ToWire(r) == w;
      assert Carries(w, r);
    }
  }

  /** Of two rules of the wire list the category decides which comes first, then the smaller priority number, the match
      type, the pattern and at last the id. */
  lemma EarlierOnTheWire(rules: seq<Rule>, i: nat, j: nat)
    requires DistinctIds(rules) && i < j < |Wire(rules)|
    ensures var a, b := Wire(rules)[i], Wire(rules)[j];
      && (a.category != b.category ==> StrLess(a.category, b.category))
      && (a.category == b.category ==> a.priority <= b.priority)
      && (a.category == b.category && a.priority == b.priority && a.matchType != b.matchType ==>
            StrLess(a.matchType, b.matchType))
      && var tied := a.category == b.category && a.priority == b.priority && a.matchType == b.matchType;
      && (tied && a.pattern != b.pattern ==> StrLess(a.pattern, b.pattern))
      && (tied && a.pattern == b.pattern ==> a.id < b.id)
  {
    WireSortsEnabled(rules);
    hide Wire;
    assert WireLess(Wire(rules)[i], Wire(rules)[j]);
  }

  /** The wire list depends on the set of rules alone: every permutation of the input gives the same list. */
  lemma WireIsCanonical(a: seq<Rule>, b: seq<Rule>)
    requires DistinctIds(a) && DistinctIds(b)
    requires Elements(a) == Elements(b)
    ensures Wire(a) == Wire(b)
  {
    EnabledWireDistinct(a);
    EnabledWireDistinct(b);
    EnabledWireElements(a);
    EnabledWireElements(b);
    var ea, eb := EnabledWire(a), EnabledWire(b);
    assert forall r :: r in a <==> r in Elements(a);
    assert forall r :: r in b <==> r in Elements(b);
    assert Elements(ea) == Elements(eb);
    WireOrder(ea);
    WireOrder(eb);
    SortIsCanonical(ea, eb, WireLess);
  }

  method CollectWire(rules: seq<Rule>) returns (wire: seq<WireRule>)
    ensures wire == Wire(rules)
    ensures DistinctIds(rules) ==> Ascending(WireLess, wire) && CarriesEnabled(wire, rules)
  {
    if DistinctIds(rules) { WireIsSortedEnabledRules(rules); }
    hide WireLess;
    hide Carries;
    wire := [];
    for i := 0 to |rules|
      invariant wire == EnabledWire(rules[..i])
    {
      EnabledWireAppend(rules[..i], rules[i]);
      assert rules[..i + 1] == rules[..i] + [rules[i]];
      if rules[i].enabled {
        wire := wire + [ToWire(rules[i])];
      }
    }
    assert rules[..|rules|] == rules;
    wire := Sort(wire, WireLess);
  }

  // ---- the rule table ----------------------------------------------------------------------

  /** The row a rule list leaves in the rule table: the expected registry version is not stored. */
  function Stored(r: Rule): Rule { r.(expectedRegistry := None) }

  function StoredList(rules: seq<Rule>): seq<Rule> {
    seq(|rules|, i requires 0 <= i < |rules| => Stored(rules[i]))
  }

  /** The rule table after deleting every row and inserting the list: rows keyed by id. */
  function TableOf(rules: seq<Rule>): map<int, Rule> {
    if rules == [] then map[] else TableOf(rules[..|rules| - 1])[Last(rules).id := Last(rules)]
  }

  function Last(rules: seq<Rule>): Rule
    requires rules != []
  {
    rules[|rules| - 1]
  }

  ghost predicate IsTableOf(table: map<int, Rule>, rules: seq<Rule>) {
    && (forall r | r in rules :: r.id in table && table[r.id] == r)
    && (forall id | id in table :: table[id] in rules && table[id].id == id)
  }

  lemma {:induction false} TableHolds(rules: seq<Rule>)
    requires DistinctIds(rules)
    ensures IsTableOf(TableOf(rules), rules)
  {
    if rules != [] {
      var front := rules[..|rules| - 1];
      TableHolds(front);
      TableHoldsOneMore(TableOf(front), front, Last(rules));
      assert rules == front + [Last(rules)];
    }
  }

  lemma TableHoldsOneMore(table: map<int, Rule>, rules: seq<Rule>, r: Rule)
    requires IsTableOf(table, rules) && DistinctIds(rules + [r])
    ensures IsTableOf(table[r.id := r], rules + [r])
  {
    var all := rules + [r];
    forall x | x in rules ensures x.id != r.id {
      var k :| 0 <= k < |rules| && rules[k] == x;
      assert all[k] == x && all[|rules|] == r;
    }
  }

  /** The rows of a table as one list, in the order the list query gives them. */
  function Rows(table: map<int, Rule>): seq<Rule> {
    Sort(RowsById(table, SortedIds(table.Keys)), RuleLess)
  }

  function RowsById(table: map<int, Rule>, ids: seq<int>): seq<Rule>
    requires forall i | 0 <= i < |ids| :: ids[i] in table
  {
    seq(|ids|, i requires 0 <= i < |ids| => table[ids[i]])
  }

  /** The rules a table would put in a snapshot. */
  function WireOfTable(table: map<int, Rule>): seq<WireRule> {
    Wire(Rows(table))
  }

  ghost predicate Keyed(table: map<int, Rule>) {
    forall id | id in table :: table[id].id == id
  }

  lemma RowsByIdAreTheTable(table: map<int, Rule>, ids: seq<int>)
    requires Keyed(table) && ids == SortedIds(table.Keys)
    ensures DistinctIds(RowsById(table, ids))
    ensures forall r :: r in RowsById(table, ids) <==> r.id in table && table[r.id] == r
  {
    SortedIdsListAll(table.Keys);
    var byId := RowsById(table, ids);
    assert forall i | 0 <= i < |ids| :: byId[i] == table[ids[i]] && byId[i].id == ids[i];
    forall r ensures r in byId <==> r.id in table && table[r.id] == r {
      if r.id in table && table[r.id] == r {
        assert r.id in Elements(ids);
        var i :| 0 <= i < |ids| && ids[i] == r.id;
        assert byId[i] == r;
      }
    }
  }

  lemma RowsAreTheTable(table: map<int, Rule>)
    requires Keyed(table)
    ensures DistinctIds(Rows(table))
    ensures forall r :: r in Rows(table) <==> r.id in table && table[r.id] == r
  {
    var byId := RowsById(table, SortedIds(table.Keys));
    RowsByIdAreTheTable(table, SortedIds(table.Keys));
    RuleOrder(byId);
    SortAscends(byId, RuleLess);
    SortKeeps(byId, RuleLess);
    hide RuleLess;
    hide RowsById;
    hide Sort;
    var rows := Rows(table);
    forall r ensures r in rows <==> r in byId {
      assert r in rows <==> r in Elements(rows);
      assert r in byId <==> r in Elements(byId);
    }
    forall i, j | 0 <= i < j < |rows| ensures rows[i].id != rows[j].id {
      assert RuleLess(rows[i], rows[j]);
      assert rows[i] in Elements(rows) && rows[j] in Elements(rows);
      assert rows[i] in rows && rows[j] in rows;
    }
  }

  /** The list query orders the rows by category, then the smaller priority number, match type, pattern and id. */
  lemma EarlierInTheList(table: map<int, Rule>, i: nat, j: nat)
    requires Keyed(table) && i < j < |Rows(table)|
    ensures var a, b := Rows(table)[i], Rows(table)[j];
      && (a.category != b.category ==> StrLess(a.category, b.category))
      && (a.category == b.category ==> a.priority <= b.priority)
      && (a.category == b.category && a.priority == b.priority && a.matchType != b.matchType ==>
            StrLess(a.matchType, b.matchType))
      && var tied := a.category == b.category && a.priority == b.priority && a.matchType == b.matchType;
      && (tied && a.pattern != b.pattern ==> StrLess(a.pattern, b.pattern))
      && (tied && a.pattern == b.pattern ==> a.id < b.id)
  {
    var byId := RowsById(table, SortedIds(table.Keys));
    RowsByIdAreTheTable(table, SortedIds(table.Keys));
    RuleOrder(byId);
    SortAscends(byId, RuleLess);
    hide RowsById;
    hide Sort;
    assert RuleLess(Rows(table)[i], Rows(table)[j]);
  }

  /** A list and its table put the same rules on the wire. */
  lemma ListCarriesTable(wire: seq<WireRule>, rules: seq<Rule>, table: map<int, Rule>)
    requires CarriesEnabled(wire, rules) && IsTableOf(table, rules)
    ensures CarriesTable(wire, table)
  {
    forall w | w in wire ensures w.id in table && table[w.id].enabled && Carries(w, table[w.id]) {
      var r :| r in rules && r.enabled && Carries(w, r);
    }
    forall id | id in table && table[id].enabled ensures exists w :: w in wire && Carries(w, table[id]) {
      assert table[id] in rules;
    }
  }

  /** Publishing a list and building a snapshot from the table it leaves give the same wire rules. */
  lemma WireOfTableIsWireOfList(rules: seq<Rule>)
    requires DistinctIds(rules)
    ensures Keyed(TableOf(rules))
    ensures WireOfTable(TableOf(rules)) == Wire(rules)
  {
    TableHolds(rules);
    var table := TableOf(rules);
    RowsAreTheTable(table);
    var rows := Rows(table);
    forall r ensures r in Elements(rows) <==> r in Elements(rules) {
      assert r in rows <==> r.id in table && table[r.id] == r;
    }
    WireIsCanonical(rows, rules);
  }

  /** Dropping the expected registry versions changes neither the ids nor the wire rules. */
  lemma {:induction false} StoredListKeepsWire(rules: seq<Rule>)
    ensures |StoredList(rules)| == |rules|
    ensures DistinctIds(rules) ==> DistinctIds(StoredList(rules))
    ensures Wire(StoredList(rules)) == Wire(rules)
    decreases |rules|
  {
    StoredListKeepsEnabled(rules);
  }

  lemma {:induction false} StoredListKeepsEnabled(rules: seq<Rule>)
    ensures EnabledWire(StoredList(rules)) == EnabledWire(rules)
    decreases |rules|
  {
    if rules != [] {
      StoredListKeepsEnabled(rules[1..]);
      assert StoredList(rules)[1..] == StoredList(rules[1..]);
    }
  }
}
