/** The controller's tables and the statements that change them. SQLite runs on one connection, so a
    statement, or a transaction, is one atomic step. */
module Store {
  import opened Ordering
  import opened Text
  import opened RuleModel
  import opened Validation

  datatype Status = Pending | Unknown | Active | Superseded | Failed {
    predicate Open() { Pending? || Unknown? }
    predicate WasActive() { Active? || Superseded? }
  }

  /** A row of rule_versions. Versions are MAX(version)+1 and rows are never deleted, so row i has version i+1. */
  datatype Row = Row(
    snapshot: Snapshot, rules: seq<Rule>, status: Status, previous: nat, rollbackFrom: nat, errorCode: string)

  datatype Source = Source(
    id: int, category: string, action: string, kind: string, name: string, url: string, interval: int,
    enabled: bool, contentChecksum: string, ruleCount: int, lastChecked: int, lastSuccess: int,
    lastError: string, createdAt: int, updatedAt: int, domains: seq<string>)

  datatype Binding = Binding(
    id: int, subscriptionId: int, groupId: string, priority: int, createdAt: int, updatedAt: int)

  /** rule_subscriptions by id and subscription_bindings by subscription_id, with their AUTOINCREMENT counters. */
  datatype Sources = Sources(rows: map<int, Source>, bindings: map<int, Binding>, lastSource: int, lastBinding: int)

  datatype Db = Db(rows: seq<Row>, table: map<int, Rule>, lastRuleId: int, sources: Sources)

  // ---- rule_versions ----------------------------------------------------------------------

  /** SELECT version WHERE status='active', or 0. */
  function ActiveVersion(rows: seq<Row>): (v: nat)
    ensures v <= |rows|
    ensures v > 0 ==> rows[v - 1].status == Active
    ensures forall i | v <= i < |rows| :: rows[i].status != Active
  {
    if rows == [] then 0
    else if rows[|rows| - 1].status == Active then |rows|
    else ActiveVersion(rows[..|rows| - 1])
  }

  ghost predicate OneActive(rows: seq<Row>) {
    forall i, j | 0 <= i < j < |rows| :: !(rows[i].status == Active && rows[j].status == Active)
  }

  lemma ActiveIs(rows: seq<Row>, v: nat)
    requires OneActive(rows) && 1 <= v <= |rows| && rows[v - 1].status == Active
    ensures ActiveVersion(rows) == v
  {
    var a := ActiveVersion(rows);
    assert a >= v;
  }

  lemma NoneActive(rows: seq<Row>)
    requires forall i | 0 <= i < |rows| :: rows[i].status != Active
    ensures ActiveVersion(rows) == 0
  {}

  /** INSERT of a pending candidate built from a rule list and the subscription sets. */
  function NewRow(db: Db, now: int, rules: seq<Rule>, sets: seq<SubscriptionSet>, rollbackFrom: nat): Row {
    var current := ActiveVersion(db.rows);
    Row(BuildSnapshot(|db.rows| + 1, current, now, rules, sets), StoredList(rules), Pending, current, rollbackFrom, "")
  }

  function InsertRow(db: Db, now: int, rules: seq<Rule>, sets: seq<SubscriptionSet>, rollbackFrom: nat): Db {
    db.(rows := db.rows + [NewRow(db, now, rules, sets, rollbackFrom)])
  }

  function SetStatus(db: Db, v: nat, status: Status, code: string): Db
    requires 1 <= v <= |db.rows|
  {
    db.(rows := db.rows[v - 1 := db.rows[v - 1].(status := status, errorCode := code)])
  }

  /** The status columns after superseding the active row and activating v. */
  function ActivatedRow(row: Row, chosen: bool): Row {
    if chosen then row.(status := Active, errorCode := "")
    else if row.status == Active then row.(status := Superseded)
    else row
  }

  function ActivatedRows(rows: seq<Row>, v: nat): (r: seq<Row>)
    ensures |r| == |rows|
    ensures forall i | 0 <= i < |rows| :: r[i] == ActivatedRow(rows[i], i + 1 == v)
  {
    seq(|rows|, i requires 0 <= i < |rows| => ActivatedRow(rows[i], i + 1 == v))
  }

  /** The finalising transaction: supersede, activate, and replace the rule table by the row's list. */
  function Activate(db: Db, v: nat): Db
    requires 1 <= v <= |db.rows|
  {
    db.(rows := ActivatedRows(db.rows, v), table := TableOf(db.rows[v - 1].rules))
  }

  lemma ActivateMakesActive(rows: seq<Row>, v: nat)
    requires 1 <= v <= |rows|
    ensures OneActive(ActivatedRows(rows, v))
    ensures ActiveVersion(ActivatedRows(rows, v)) == v
  {
    ActiveIs(ActivatedRows(rows, v), v);
  }

  // ---- subscription sets ------------------------------------------------------------------

  /** The join row subscriptionSets reads for one source. */
  datatype Joined = Joined(source: Source, binding: Option<Binding>, priority: int)

  function Join(s: Sources, id: int): Joined
    requires id in s.rows
  {
    if id in s.bindings then Joined(s.rows[id], Some(s.bindings[id]), s.bindings[id].priority)
    else Joined(s.rows[id], None, 100)
  }

  /** ORDER BY COALESCE(priority,100), id. */
  predicate JoinedLess(a: Joined, b: Joined) {
    a.priority < b.priority || (a.priority == b.priority && a.source.id < b.source.id)
  }

  function JoinAll(s: Sources, ids: seq<int>): seq<Joined>
    requires forall i | 0 <= i < |ids| :: ids[i] in s.rows
  {
    seq(|ids|, i requires 0 <= i < |ids| => Join(s, ids[i]))
  }

  function JoinedRows(s: Sources): seq<Joined> {
    Sort(JoinAll(s, SortedIds(s.rows.Keys)), JoinedLess)
  }

  function SetOf(j: Joined): SubscriptionSet {
    var src := j.source;
    var domains := Sort(src.domains, StrLess);
    if src.category == "route" && j.binding.Some? then
      var b := j.binding.value;
      SubscriptionSet(src.id, src.name, src.category, src.action, b.id, b.groupId, j.priority, domains)
    else
      SubscriptionSet(src.id, src.name, src.category, src.action, 0, "", 100, domains)
  }

  /** A source contributes a set when it is enabled and has domains. */
  predicate Contributes(j: Joined) { j.source.enabled && j.source.domains != [] }

  /** An enabled route source without a binding makes the whole query fail. */
  predicate Unbound(j: Joined) { j.source.enabled && j.source.category == "route" && j.binding.None? }

  function CollectSets(rows: seq<Joined>): Result<seq<SubscriptionSet>> {
    if rows == [] then Ok([])
    else
      var front := CollectSets(rows[..|rows| - 1]);
      var j := rows[|rows| - 1];
      if front.Err? then front
      else if Unbound(j) then Err("route subscription has no binding")
      else if Contributes(j) then Ok(front.value + [SetOf(j)])
      else front
  }

  function SubscriptionSets(s: Sources): Result<seq<SubscriptionSet>> {
    CollectSets(JoinedRows(s))
  }

  method ReadSubscriptionSets(s: Sources) returns (r: Result<seq<SubscriptionSet>>)
    ensures r == SubscriptionSets(s)
  {
    var rows := JoinedRows(s);
    var sets: seq<SubscriptionSet> := [];
    for i := 0 to |rows|
      invariant CollectSets(rows[..i]) == Ok(sets)
    {
      var j := rows[i];
      assert rows[..i + 1][..i] == rows[..i] && rows[..i + 1][i] == j;
      if !j.source.enabled { continue; }
      if j.source.category == "route" && j.binding.None? {
        CollectStaysErr(rows, i + 1);
        return Err("route subscription has no binding");
      }
      if |j.source.domains| == 0 { continue; }
      sets := sets + [SetOf(j)];
    }
    assert rows[..|rows|] == rows;
    r := Ok(sets);
  }

  lemma {:induction false} CollectStaysErr(rows: seq<Joined>, n: nat)
    requires n <= |rows| && CollectSets(rows[..n]).Err?
    ensures CollectSets(rows) == CollectSets(rows[..n])
    decreases |rows| - n
  {
    if n < |rows| {
      assert rows[..n + 1][..n] == rows[..n];
      CollectStaysErr(rows, n + 1);
    } else {
      assert rows[..n] == rows;
    }
  }

  /** Reading the sets fails exactly when some enabled route source has lost its binding. */
  lemma SetsFailExactlyWhenUnbound(s: Sources)
    requires forall id | id in s.rows :: s.rows[id].id == id
    ensures SubscriptionSets(s).Err? <==>
      exists id :: id in s.rows && s.rows[id].enabled && s.rows[id].category == "route" && id !in s.bindings
  {
    var ids := SortedIds(s.rows.Keys);
    SortedIdsListAll(s.rows.Keys);
    var all := JoinAll(s, ids);
    var rows := JoinedRows(s);
    SortKeeps(all, JoinedLess);
    CollectFailsOnUnbound(rows);
    if j :| j in rows && Unbound(j) {
      assert j in Elements(rows);
      var i :| 0 <= i < |all| && all[i] == j;
      assert ids[i] in s.rows && s.rows[ids[i]].enabled && s.rows[ids[i]].category == "route" && ids[i] !in s.bindings;
    }
    if id :| id in s.rows && s.rows[id].enabled && s.rows[id].category == "route" && id !in s.bindings {
      assert id in Elements(ids);
      var i :| 0 <= i < |ids| && ids[i] == id;
      assert all[i] in Elements(all) && Unbound(all[i]);
      assert all[i] in rows;
    }
  }

  lemma {:induction false} CollectFailsOnUnbound(rows: seq<Joined>)
    ensures CollectSets(rows).Err? <==> exists j :: j in rows && Unbound(j)
  {
    if rows != [] {
      var front := rows[..|rows| - 1];
      CollectFailsOnUnbound(front);
      var last := rows[|rows| - 1];
      assert forall j :: j in rows <==> j in front || j == last;
    }
  }

  // ---- what the sets show -------------------------------------------------------------------

  ghost predicate SourcesKeyed(s: Sources) {
    forall id | id in s.rows :: s.rows[id].id == id
  }

  function Kept(rows: seq<Joined>): seq<Joined> {
    if rows == [] then []
    else
      var j := rows[|rows| - 1];
      Kept(rows[..|rows| - 1]) + if Contributes(j) then [j] else []
  }

  function SetsOf(rows: seq<Joined>): seq<SubscriptionSet> {
    seq(|rows|, i requires 0 <= i < |rows| => SetOf(rows[i]))
  }

  lemma {:induction false} CollectedAreKept(rows: seq<Joined>)
    requires CollectSets(rows).Ok?
    ensures CollectSets(rows).value == SetsOf(Kept(rows))
  {
    hide SetOf;
    if rows != [] {
      CollectedAreKept(rows[..|rows| - 1]);
    }
  }

  lemma {:induction false} KeptMembers(rows: seq<Joined>)
    ensures forall j :: j in Kept(rows) <==> j in rows && Contributes(j)
  {
    if rows != [] {
      KeptMembers(rows[..|rows| - 1]);
      assert rows == rows[..|rows| - 1] + [rows[|rows| - 1]];
    }
  }

  lemma {:induction false} KeptAscends(rows: seq<Joined>)
    requires Ascending(JoinedLess, rows)
    ensures Ascending(JoinedLess, Kept(rows))
  {
    if rows != [] {
      var front := rows[..|rows| - 1];
      KeptAscends(front);
      KeptMembers(front);
      forall i | 0 <= i < |Kept(front)| ensures JoinedLess(Kept(front)[i], rows[|rows| - 1]) {
        assert Kept(front)[i] in Kept(front);
        var k :| 0 <= k < |front| && front[k] == Kept(front)[i];
        assert JoinedLess(rows[k], rows[|rows| - 1]);
      }
    }
  }

  lemma JoinedAscend(s: Sources)
    requires SourcesKeyed(s)
    ensures Ascending(JoinedLess, JoinedRows(s))
    ensures forall j :: j in JoinedRows(s) <==> j.source.id in s.rows && j == Join(s, j.source.id)
  {
    var ids := SortedIds(s.rows.Keys);
    SortedIdsListAll(s.rows.Keys);
    var all := JoinAll(s, ids);
    JoinAllIs(s, ids, all);
    JoinedOrder(all);
    SortAscends(all, JoinedLess);
    SortKeeps(all, JoinedLess);
    forall j ensures j in JoinedRows(s) <==> j in all {
      assert j in JoinedRows(s) <==> j in Elements(JoinedRows(s));
      assert j in all <==> j in Elements(all);
    }
  }

  lemma JoinAllIs(s: Sources, ids: seq<int>, all: seq<Joined>)
    requires SourcesKeyed(s) && Elements(ids) == s.rows.Keys
    requires forall i, k | 0 <= i < k < |ids| :: ids[i] < ids[k]
    requires (forall i | 0 <= i < |ids| :: ids[i] in s.rows) && all == JoinAll(s, ids)
    ensures forall i, k | 0 <= i < k < |all| :: all[i].source.id != all[k].source.id
    ensures forall j :: j in all <==> j.source.id in s.rows && j == Join(s, j.source.id)
  {
    forall j: Joined | j.source.id in s.rows && j == Join(s, j.source.id) ensures j in all {
      assert j.source.id in Elements(ids);
      var i :| 0 <= i < |ids| && ids[i] == j.source.id;
      assert all[i] == j;
    }
  }

  lemma JoinedOrder(all: seq<Joined>)
    requires forall i, k | 0 <= i < k < |all| :: all[i].source.id != all[k].source.id
    ensures StrictOrderOn(JoinedLess, Elements(all)) && NoDuplicates(all)
  {
    var e := Elements(all);
    forall x, y | x in e && y in e && x != y ensures JoinedLess(x, y) || JoinedLess(y, x) {
      var i :| 0 <= i < |all| && all[i] == x;
      var k :| 0 <= k < |all| && all[k] == y;
      assert i < k || k < i;
    }
  }

  /** The set is that of an enabled, non-empty source, column by column; group and priority come from the binding of a
      route source, and any other has none and 100. */
  predicate Shows(shown: SubscriptionSet, s: Sources) {
    var id := shown.sourceId;
    && id in s.rows && s.rows[id].enabled && s.rows[id].domains != []
    && shown.sourceName == s.rows[id].name
    && shown.category == s.rows[id].category && shown.action == s.rows[id].action
    && multiset(shown.domains) == multiset(s.rows[id].domains)
    && (s.rows[id].category == "route" ==>
          && id in s.bindings
          && shown.bindingId == s.bindings[id].id && shown.groupId == s.bindings[id].groupId
          && shown.priority == s.bindings[id].priority)
    && (s.rows[id].category != "route" ==> shown.bindingId == 0 && shown.groupId == "" && shown.priority == 100)
  }

  /** One set for each enabled source that is not empty, and no other. */
  ghost predicate ShowSources(sets: seq<SubscriptionSet>, s: Sources) {
    && (forall i | 0 <= i < |sets| :: Shows(sets[i], s))
    && (forall i, k | 0 <= i < k < |sets| :: sets[i].sourceId != sets[k].sourceId)
    && (forall id | id in s.rows && s.rows[id].enabled && s.rows[id].domains != [] ::
          exists i :: 0 <= i < |sets| && sets[i].sourceId == id)
  }

  lemma SetOfShows(s: Sources, id: int)
    requires SourcesKeyed(s) && id in s.rows && Contributes(Join(s, id)) && !Unbound(Join(s, id))
    ensures SetOf(Join(s, id)).sourceId == id && Shows(SetOf(Join(s, id)), s)
  {
    SortPermutes(s.rows[id].domains, StrLess);
  }

  lemma SetsShowSources(s: Sources)
    requires SourcesKeyed(s) && SubscriptionSets(s).Ok?
    ensures ShowSources(SubscriptionSets(s).value, s)
  {
    var rows := JoinedRows(s);
    JoinedAscend(s);
    CollectedAreKept(rows);
    CollectFailsOnUnbound(rows);
    KeptMembers(rows);
    KeptAscends(rows);
    hide JoinedRows;
    hide CollectSets;
    hide Kept;
    hide SetOf;
    hide Contributes;
    hide Unbound;
    hide Shows;
    hide Join;
    var kept, sets := Kept(rows), SubscriptionSets(s).value;
    forall i | 0 <= i < |sets| ensures Shows(sets[i], s) && sets[i].sourceId == kept[i].source.id {
      var j := kept[i];
      assert j in kept;
      SetOfShows(s, j.source.id);
    }
    forall i, k | 0 <= i < k < |sets| ensures sets[i].sourceId != sets[k].sourceId {
      var x, y := kept[i], kept[k];
      assert x in kept && y in kept && JoinedLess(x, y);
    }
    forall id | id in s.rows && s.rows[id].enabled && s.rows[id].domains != []
      ensures exists i :: 0 <= i < |sets| && sets[i].sourceId == id
    {
      ContributorIsListed(s, id);
      var j := Join(s, id);
      assert j in kept;
      var i :| 0 <= i < |kept| && kept[i] == j;
      assert sets[i].sourceId == id;
    }
  }

  lemma ContributorIsListed(s: Sources, id: int)
    requires SourcesKeyed(s) && id in s.rows && s.rows[id].enabled && s.rows[id].domains != []
    ensures Contributes(Join(s, id)) && Join(s, id).source.id == id
  {}

  // ---- reads of the rule table --------------------------------------------------------------

  /** `source LIKE 'subscription:%'`: SQLite's LIKE ignores the case of ASCII letters. */
  predicate HiddenSource(source: string) {
    |source| >= 13 && ToLower(source[..13]) == "subscription:"
  }

  /** isSubscriptionRule: the case-sensitive prefix test the mutations use. */
  predicate SubscriptionSource(source: string) { HasPrefix(source, "subscription:") }

  /** The filter in the two forms it is written in: the SQL pattern, and a prefix up to the case of its letters. */
  lemma HiddenSourceIs(source: string)
    ensures HiddenSource(source) <==> Like("subscription:%", source)
    ensures HiddenSource(source) <==> exists head, rest :: source == head + rest && ToLower(head) == "subscription:"
  {
    var prefix := "subscription:";
    LowerIsFixed(prefix);
    LikeIsPrefix(prefix, source);
    assert prefix + "%" == "subscription:%";
    if HiddenSource(source) {
      assert source == source[..13] + source[13..];
    }
    if head, rest :| source == head + rest && ToLower(head) == prefix {
      assert |head| == |ToLower(head)| && source[..13] == head;
    }
  }

  function Visible(rows: seq<Rule>): seq<Rule> {
    if rows == [] then []
    else Visible(rows[..|rows| - 1]) + (if HiddenSource(Last(rows).source) then [] else [Last(rows)])
  }

  /** The list query: every row whose source does not match the LIKE pattern. */
  function AllRules(db: Db): seq<Rule> { Visible(Rows(db.table)) }

  lemma {:induction false} VisibleMembers(rows: seq<Rule>)
    ensures forall r :: r in Visible(rows) <==> r in rows && !HiddenSource(r.source)
  {
    if rows != [] {
      var front, last := rows[..|rows| - 1], Last(rows);
      VisibleMembers(front);
      hide HiddenSource;
      assert forall r :: r in rows <==> r in front || r == last by { assert rows == front + [last]; }
    }
  }

  lemma {:induction false} VisibleDistinct(rows: seq<Rule>)
    requires DistinctIds(rows)
    ensures DistinctIds(Visible(rows))
  {
    hide HiddenSource;
    if rows != [] {
      var front, last := rows[..|rows| - 1], Last(rows);
      VisibleDistinct(front);
      VisibleMembers(front);
      forall i | 0 <= i < |Visible(front)| ensures Visible(front)[i].id != last.id {
        var r := Visible(front)[i];
        assert r in Visible(front);
        var k :| 0 <= k < |front| && front[k] == r;
        assert rows[k] == r;
      }
    }
  }

  lemma AllRulesAreTheVisibleRows(db: Db)
    requires Keyed(db.table)
    ensures DistinctIds(AllRules(db))
    ensures forall r :: r in AllRules(db) <==> r.id in db.table && db.table[r.id] == r && !HiddenSource(r.source)
    ensures forall r :: r in AllRules(db) <==>
      r.id in db.table && db.table[r.id] == r && !Like("subscription:%", r.source)
  {
    RowsAreTheTable(db.table);
    VisibleMembers(Rows(db.table));
    VisibleDistinct(Rows(db.table));
    hide HiddenSource;
    hide Like;
    forall r: Rule ensures HiddenSource(r.source) <==> Like("subscription:%", r.source) { HiddenSourceIs(r.source); }
  }
}
