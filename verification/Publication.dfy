/** What the publishing methods rely on: stored lists are normal forms, and the rule table read back,
    edited and published again changes only where the edit says. */
module Publication {
  import opened Ordering
  import opened Text
  import opened RuleModel
  import opened Validation
  import opened Store
  import opened Protocol

  // ---- normal lists -------------------------------------------------------------------------

  ghost predicate NormalRule(libs: Libs, r: Rule) {
    NormalizeRule(libs, r) == Ok(r)
  }

  /** A list as validation leaves it. */
  ghost predicate NormalList(libs: Libs, rules: seq<Rule>) {
    (forall i | 0 <= i < |rules| :: NormalRule(libs, rules[i])) && DistinctKeys(rules)
  }

  /** Stored rules carry no expected registry version. */
  ghost predicate AlreadyStored(rules: seq<Rule>) {
    forall i | 0 <= i < |rules| :: Stored(rules[i]) == rules[i]
  }

  ghost predicate CleanList(libs: Libs, rules: seq<Rule>) {
    NormalList(libs, rules) && AlreadyStored(rules)
  }

  ghost predicate RowsClean(libs: Libs, rows: seq<Row>) {
    forall i | 0 <= i < |rows| :: CleanList(libs, rows[i].rules)
  }

  lemma ValidatedListIsNormal(libs: Libs, rules: seq<Rule>)
    requires SoundLibs(libs) && Accepted(libs, rules)
    ensures NormalList(libs, NormalizedList(libs, rules))
  {
    hide NormalizeRule;
    var n := NormalizedList(libs, rules);
    forall i | 0 <= i < |n| ensures NormalRule(libs, n[i]) {
      NormalizeRuleIsIdempotent(libs, rules[i]);
    }
  }

  lemma StoredIsNormal(libs: Libs, r: Rule)
    requires NormalRule(libs, r)
    ensures NormalRule(libs, Stored(r)) && KeyOf(Stored(r)) == KeyOf(r)
  {
    hide Normalize;
    hide NormalizeIps;
    hide TrimSpace;
    hide ByteLen;
  }

  lemma StoredListIsClean(libs: Libs, rules: seq<Rule>)
    requires NormalList(libs, rules)
    ensures CleanList(libs, StoredList(rules))
  {
    hide NormalRule;
    hide KeyOf;
    forall i | 0 <= i < |rules|
      ensures NormalRule(libs, StoredList(rules)[i]) && KeyOf(StoredList(rules)[i]) == KeyOf(rules[i])
    {
      StoredIsNormal(libs, rules[i]);
    }
  }

  lemma NormalListIsStorable(libs: Libs, rules: seq<Rule>)
    requires SoundLibs(libs) && NormalList(libs, rules) && DistinctIds(rules)
    ensures StorableList(libs, rules)
  {
    hide NormalizeRule;
    forall i | 0 <= i < |rules| ensures Storable(libs, rules[i]) {
      assert NormalRule(libs, rules[i]);
      AcceptedRuleIsStorable(libs, rules[i]);
    }
  }

  lemma RowsCleanAfter(libs: Libs, w: World, e: Event)
    requires RowsClean(libs, w.db.rows) && Enabled(w, e)
    requires e.InsertCandidate? ==> NormalList(libs, e.rules)
    ensures RowsClean(libs, Effect(w, e).db.rows)
  {
    hide ActiveVersion;
    hide CleanList;
    hide KnownIds;
    hide SourcesOk;
    match e
    case InsertCandidate(_, rules, _, _) => StoredListIsClean(libs, rules);
    case Finalize(v) => ActivatedKeeps(w.db.rows, v);
    case _ =>
  }

  // ---- the rule table read back -----------------------------------------------------------

  /** The rows the list query returns. */
  ghost function VisibleTable(table: map<int, Rule>): map<int, Rule> {
    map id | id in table && !HiddenSource(table[id].source) :: table[id]
  }

  lemma TableIsDetermined(table: map<int, Rule>, rules: seq<Rule>)
    requires DistinctIds(rules) && IsTableOf(table, rules)
    ensures TableOf(rules) == table
  {
    TableHolds(rules);
    hide TableOf;
    var t := TableOf(rules);
    forall id | id in t ensures id in table && table[id] == t[id] {
      assert t[id] in rules;
    }
    forall id | id in table ensures id in t && table[id] == t[id] {
      assert table[id] in rules;
    }
    assert t.Keys == table.Keys;
  }

  ghost function ActiveRules(db: Db): seq<Rule> {
    var a := ActiveVersion(db.rows);
    if a == 0 then [] else db.rows[a - 1].rules
  }

  /** The active list is the table, so its rules are known, clean and keyed by id. */
  lemma ActiveRulesAreTheTable(libs: Libs, w: World)
    requires Sound(w) && RowsClean(libs, w.db.rows)
    ensures KnownIds(ActiveRules(w.db), w.db.lastRuleId)
    ensures CleanList(libs, ActiveRules(w.db))
    ensures IsTableOf(w.db.table, ActiveRules(w.db)) && Keyed(w.db.table)
  {
    hide NormalList;
    hide MessagesOk;
    hide SourcesOk;
    hide ActivatedWereAdopted;
    hide OneActive;
    EmptyIsNormal(libs);
    var a := ActiveVersion(w.db.rows);
    if a > 0 {
      assert RowOk(w.db.rows[a - 1], a - 1, w.db.lastRuleId);
      TableHolds(w.db.rows[a - 1].rules);
    }
  }

  lemma EmptyIsNormal(libs: Libs)
    ensures NormalList(libs, [])
  {}

  lemma ReadBack(libs: Libs, w: World)
    requires Sound(w) && RowsClean(libs, w.db.rows)
    ensures KnownIds(AllRules(w.db), w.db.lastRuleId)
    ensures CleanList(libs, AllRules(w.db))
    ensures IsTableOf(VisibleTable(w.db.table), AllRules(w.db))
  {
    ActiveRulesAreTheTable(libs, w);
    AllRulesAreTheVisibleRows(w.db);
    hide Sound;
    hide RowsClean;
    hide ActiveRules;
    hide Like;
    hide AllRules;
    hide HiddenSource;
    hide KnownIds;
    hide CleanList;
    SublistIsClean(libs, AllRules(w.db), ActiveRules(w.db), w.db.table, w.db.lastRuleId);
  }

  lemma SublistIsClean(libs: Libs, some: seq<Rule>, rules: seq<Rule>, table: map<int, Rule>, last: int)
    requires KnownIds(rules, last) && CleanList(libs, rules) && IsTableOf(table, rules)
    requires DistinctIds(some) && forall r | r in some :: r.id in table && table[r.id] == r
    ensures KnownIds(some, last) && CleanList(libs, some)
  {
    SublistKeepsKeys(some, rules, table);
    hide DistinctKeys;
    hide DistinctIds;
    hide NormalRule;
    hide Stored;
    forall i | 0 <= i < |some|
      ensures 1 <= some[i].id <= last && NormalRule(libs, some[i]) && Stored(some[i]) == some[i]
    {
      assert some[i] in some && table[some[i].id] in rules;
      var k :| 0 <= k < |rules| && rules[k] == some[i];
    }
  }

  lemma SublistKeepsKeys(some: seq<Rule>, rules: seq<Rule>, table: map<int, Rule>)
    requires DistinctIds(some) && DistinctKeys(rules) && IsTableOf(table, rules)
    requires forall r | r in some :: r.id in table && table[r.id] == r
    ensures DistinctKeys(some)
  {
    hide KeyOf;
    forall i, j | 0 <= i < j < |some| ensures KeyOf(some[i]) != KeyOf(some[j]) {
      assert some[i] in some && some[j] in some;
      assert table[some[i].id] in rules && table[some[j].id] in rules;
      var x :| 0 <= x < |rules| && rules[x] == some[i];
      var y :| 0 <= y < |rules| && rules[y] == some[j];
      assert x < y || y < x;
    }
  }

  /** Publishing the list as read back drops exactly the rows the list query hides. */
  lemma RepublishKeepsVisible(libs: Libs, w: World)
    requires Sound(w) && RowsClean(libs, w.db.rows)
    ensures TableOf(AllRules(w.db)) == VisibleTable(w.db.table)
  {
    ReadBack(libs, w);
    TableIsDetermined(VisibleTable(w.db.table), AllRules(w.db));
  }

  /** A stored rule survives the next publish of the table exactly when its source does not match the
      LIKE pattern; and a source can match it without being a subscription source for the mutations. */
  lemma RuleSurvivesExactlyWhenVisible(libs: Libs, w: World, id: int)
    requires Sound(w) && RowsClean(libs, w.db.rows) && id in w.db.table
    ensures id in TableOf(AllRules(w.db)) <==> !Like("subscription:%", w.db.table[id].source)
    ensures id in TableOf(AllRules(w.db)) <==>
      !exists head, rest :: w.db.table[id].source == head + rest && ToLower(head) == "subscription:"
    ensures id in TableOf(AllRules(w.db)) ==> TableOf(AllRules(w.db))[id] == w.db.table[id]
  {
    RepublishKeepsVisible(libs, w);
    HiddenSourceIs(w.db.table[id].source);
    hide HiddenSource;
    hide Like;
    hide ToLower;
    hide TableOf;
  }

  /** Everything outside the changed ids stays as it was, except that the rows the list query hides are gone. */
  ghost predicate KeepsOthers(before: map<int, Rule>, after: map<int, Rule>, changed: set<int>) {
    forall id | id !in changed :: KeptAt(before, after, id)
  }

  predicate KeptAt(before: map<int, Rule>, after: map<int, Rule>, id: int) {
    && (id in after <==> id in before && !Like("subscription:%", before[id].source))
    && (id in after ==> after[id] == before[id])
  }

  lemma VisibleKeepsOthers(table: map<int, Rule>)
    ensures KeepsOthers(table, VisibleTable(table), {})
  {
    hide HiddenSource;
    hide Like;
    forall id | id in table ensures HiddenSource(table[id].source) <==> Like("subscription:%", table[id].source) {
      HiddenSourceIs(table[id].source);
    }
  }

  lemma MixedCaseSourceSlipsThrough()
    ensures !SubscriptionSource("Subscription:x") && Like("subscription:%", "Subscription:x")
    ensures forall s :: SubscriptionSource(s) <==> Like("subscription:%", s) && "subscription:" <= s
  {
    forall t ensures HiddenSource(t) <==> Like("subscription:%", t) { HiddenSourceIs(t); }
    hide Like;
    var s := "Subscription:x";
    assert s[..13] == "Subscription:";
    assert ToLower("Subscription:") == "subscription:";
    assert s[0] != "subscription:"[0];
    forall t | SubscriptionSource(t) ensures HiddenSource(t) {
      assert t[..13] == "subscription:";
      LowerIsFixed(t[..13]);
    }
  }

  // ---- what publishing a normal list stores -------------------------------------------------

  /** Validation rewrites nothing in a list that is already normal; only the new rule changes. */
  lemma NormalizedSame(libs: Libs, rules: seq<Rule>)
    requires NormalList(libs, rules)
    ensures EachAccepted(libs, rules) && NormalizedList(libs, rules) == rules
  {
    hide NormalizeRule;
    assert forall i | 0 <= i < |rules| :: NormalRule(libs, rules[i]);
    assert NormalizedList(libs, rules) == rules;
  }

  lemma NormalizedAppend(libs: Libs, rules: seq<Rule>, more: seq<Rule>)
    requires EachAccepted(libs, rules + more)
    ensures EachAccepted(libs, rules) && EachAccepted(libs, more)
    ensures NormalizedList(libs, rules + more) == NormalizedList(libs, rules) + NormalizedList(libs, more)
  {
    hide NormalizeRule;
    assert forall i | 0 <= i < |rules| :: (rules + more)[i] == rules[i];
    assert forall i | 0 <= i < |more| :: (rules + more)[|rules| + i] == more[i];
    assert NormalizedList(libs, rules + more) == NormalizedList(libs, rules) + NormalizedList(libs, more);
  }

  lemma StoredListFixes(rules: seq<Rule>)
    requires AlreadyStored(rules)
    ensures StoredList(rules) == rules
  {
    hide Stored;
    assert forall i | 0 <= i < |rules| :: StoredList(rules)[i] == rules[i];
  }

  lemma StoredListConcat(a: seq<Rule>, b: seq<Rule>)
    ensures StoredList(a + b) == StoredList(a) + StoredList(b)
  {
    hide Stored;
    forall i | 0 <= i < |a| + |b| ensures StoredList(a + b)[i] == (StoredList(a) + StoredList(b))[i] {}
  }

  lemma TableOfConcat(a: seq<Rule>, b: seq<Rule>)
    requires DistinctIds(a + b)
    ensures TableOf(a + b) == TableOf(a) + TableOf(b)
  {
    ConcatDistinct(a, b);
    TableHolds(a);
    TableHolds(b);
    hide TableOf;
    hide DistinctIds;
    var t := TableOf(a) + TableOf(b);
    forall id, r | id in TableOf(b) && r in a ensures r.id != id {
      assert TableOf(b)[id] in b;
    }
    TableIsDetermined(t, a + b);
  }

  lemma ConcatDistinct(a: seq<Rule>, b: seq<Rule>)
    requires DistinctIds(a + b)
    ensures DistinctIds(a) && DistinctIds(b)
    ensures forall r, q | r in a && q in b :: r.id != q.id
  {
    var all := a + b;
    assert forall i | 0 <= i < |a| :: all[i] == a[i];
    assert forall i | 0 <= i < |b| :: all[|a| + i] == b[i];
    forall r, q | r in a && q in b ensures r.id != q.id {
      var i :| 0 <= i < |a| && a[i] == r;
      var j :| 0 <= j < |b| && b[j] == q;
      assert all[i] == r && all[|a| + j] == q;
    }
  }

  /** Publishing the table with new rules at its end keeps the visible rows and adds the new ones, in
      normal form. */
  lemma PublishedAppend(libs: Libs, w: World, more: seq<Rule>)
    requires SoundLibs(libs) && Sound(w) && RowsClean(libs, w.db.rows)
    requires DistinctIds(AllRules(w.db) + more) && EachAccepted(libs, AllRules(w.db) + more)
    ensures EachAccepted(libs, more)
    ensures TableOf(StoredList(NormalizedList(libs, AllRules(w.db) + more)))
         == VisibleTable(w.db.table) + TableOf(StoredList(NormalizedList(libs, more)))
  {
    var all := AllRules(w.db);
    ReadBack(libs, w);
    hide Sound;
    hide RowsClean;
    hide AllRules;
    hide TableOf;
    hide NormalizeRule;
    NormalizedAppend(libs, all, more);
    NormalizedSame(libs, all);
    StoredListFixes(all);
    var n := NormalizedList(libs, more);
    StoredListConcat(all, n);
    AppendKeepsIds(libs, all, more);
    RepublishKeepsVisible(libs, w);
    TableOfConcat(all, StoredList(n));
  }

  lemma AppendKeepsIds(libs: Libs, all: seq<Rule>, more: seq<Rule>)
    requires EachAccepted(libs, more) && DistinctIds(all + more)
    ensures DistinctIds(all + StoredList(NormalizedList(libs, more)))
  {
    hide NormalizeRule;
    var a, b := all + more, all + StoredList(NormalizedList(libs, more));
    forall i | 0 <= i < |a| ensures a[i].id == b[i].id {
      if i >= |all| { AcceptedRuleKinds(libs, more[i - |all|]); }
    }
  }

  // ---- editing the list in place ------------------------------------------------------------

  /** Publishing the table with one rule replaced changes that row only. */
  lemma PublishedReplace(libs: Libs, w: World, i: nat, patch: Rule)
    requires SoundLibs(libs) && Sound(w) && RowsClean(libs, w.db.rows)
    requires i < |AllRules(w.db)| && patch.id == AllRules(w.db)[i].id
    requires EachAccepted(libs, AllRules(w.db)[i := patch])
    ensures NormalizeRule(libs, patch).Ok?
    ensures TableOf(StoredList(NormalizedList(libs, AllRules(w.db)[i := patch])))
         == VisibleTable(w.db.table)[patch.id := Stored(NormalizeRule(libs, patch).value)]
  {
    var all := AllRules(w.db);
    ReadBack(libs, w);
    hide Sound;
    hide RowsClean;
    hide AllRules;
    hide TableOf;
    hide NormalizeRule;
    hide HiddenSource;
    assert all[i := patch][i] == patch;
    AcceptedRuleKinds(libs, patch);
    var n := Stored(NormalizeRule(libs, patch).value);
    var list := StoredList(NormalizedList(libs, all[i := patch]));
    forall k | 0 <= k < |list| ensures list[k] == all[i := n][k] {
      assert NormalRule(libs, all[k]) && Stored(all[k]) == all[k];
      assert all[i := patch][k] == if k == i then patch else all[k];
    }
    assert list == all[i := n];
    ReplaceInTable(VisibleTable(w.db.table), all, i, n);
  }

  lemma ReplaceInTable(table: map<int, Rule>, rules: seq<Rule>, i: nat, r: Rule)
    requires DistinctIds(rules) && IsTableOf(table, rules) && i < |rules| && r.id == rules[i].id
    ensures TableOf(rules[i := r]) == table[r.id := r]
  {
    var list, t := rules[i := r], table[r.id := r];
    forall q | q in list ensures q.id in t && t[q.id] == q {
      var k :| 0 <= k < |list| && list[k] == q;
      if k != i { assert rules[k] == q && rules[k] in rules && rules[k].id != rules[i].id; }
    }
    forall id | id in t ensures t[id] in list && t[id].id == id {
      if id == r.id {
        assert list[i] == r;
      } else {
        var k :| 0 <= k < |rules| && rules[k] == table[id];
        assert k != i && list[k] == rules[k];
      }
    }
    TableIsDetermined(t, list);
  }

  /** One rule under a batch operation: kept as it is, switched, or dropped. */
  function BatchRule(operation: string, selected: set<int>, r: Rule): seq<Rule> {
    if r.id !in selected then [r]
    else if operation == "enable" then [r.(enabled := true)]
    else if operation == "disable" then [r.(enabled := false)]
    else []
  }

  function BatchList(operation: string, selected: set<int>, rules: seq<Rule>): seq<Rule> {
    if rules == [] then []
    else BatchList(operation, selected, rules[..|rules| - 1]) + BatchRule(operation, selected, Last(rules))
  }

  function KeptIds(operation: string, selected: set<int>, ids: set<int>): (kept: set<int>)
    ensures kept <= ids
  {
    if operation == "enable" || operation == "disable" then ids else ids - selected
  }

  ghost function BatchTable(operation: string, selected: set<int>, table: map<int, Rule>): map<int, Rule> {
    map id | id in KeptIds(operation, selected, table.Keys) ::
      if id in selected then table[id].(enabled := operation == "enable") else table[id]
  }

  lemma BatchRuleStaysNormal(libs: Libs, operation: string, selected: set<int>, r: Rule)
    requires NormalRule(libs, r) && Stored(r) == r
    ensures |BatchRule(operation, selected, r)| <= 1
    ensures forall q | q in BatchRule(operation, selected, r) ::
      NormalRule(libs, q) && Stored(q) == q && q.id == r.id && KeyOf(q) == KeyOf(r)
  {
    hide Normalize;
    hide NormalizeIps;
    hide TrimSpace;
    hide ByteLen;
  }

  /** The batch list comes from the input list rule by rule, so its keys and ids stay distinct. */
  lemma {:induction false} BatchKeeps(libs: Libs, operation: string, selected: set<int>, rules: seq<Rule>)
    requires CleanList(libs, rules) && DistinctIds(rules)
    ensures var b := BatchList(operation, selected, rules);
      CleanList(libs, b) && DistinctIds(b)
    ensures forall q | q in BatchList(operation, selected, rules) ::
      exists r :: r in rules && r.id == q.id && KeyOf(r) == KeyOf(q)
  {
    hide NormalRule;
    hide Stored;
    hide KeyOf;
    hide BatchRule;
    if rules != [] {
      var front, last := rules[..|rules| - 1], Last(rules);
      assert rules == front + [last];
      assert forall i | 0 <= i < |front| :: front[i] == rules[i];
      BatchKeeps(libs, operation, selected, front);
      var b, c := BatchList(operation, selected, front), BatchRule(operation, selected, last);
      assert NormalRule(libs, rules[|rules| - 1]) && Stored(rules[|rules| - 1]) == last;
      BatchRuleStaysNormal(libs, operation, selected, last);
      forall i | 0 <= i < |b| ensures b[i].id != last.id && KeyOf(b[i]) != KeyOf(last) {
        assert b[i] in b;
        var r :| r in front && r.id == b[i].id && KeyOf(r) == KeyOf(b[i]);
        var k :| 0 <= k < |front| && front[k] == r;
        assert rules[k].id != rules[|rules| - 1].id && KeyOf(rules[k]) != KeyOf(rules[|rules| - 1]);
      }
      AppendAtMostOne(libs, b, c, last);
      forall q | q in b + c ensures exists r :: r in rules && r.id == q.id && KeyOf(r) == KeyOf(q) {
        if q in b {
          var r :| r in front && r.id == q.id && KeyOf(r) == KeyOf(q);
          assert r in rules;
        } else {
          assert last in rules && last.id == q.id && KeyOf(last) == KeyOf(q);
        }
      }
    }
  }

  lemma AppendAtMostOne(libs: Libs, b: seq<Rule>, c: seq<Rule>, last: Rule)
    requires CleanList(libs, b) && DistinctIds(b) && |c| <= 1
    requires forall q | q in c :: NormalRule(libs, q) && Stored(q) == q && q.id == last.id && KeyOf(q) == KeyOf(last)
    requires forall i | 0 <= i < |b| :: b[i].id != last.id && KeyOf(b[i]) != KeyOf(last)
    ensures CleanList(libs, b + c) && DistinctIds(b + c)
  {
    hide NormalRule;
    hide Stored;
    hide KeyOf;
    if c == [] {
      assert b + c == b;
    } else {
      assert c[0] in c && c == [c[0]];
      assert forall i | 0 <= i < |b| :: (b + c)[i] == b[i];
      assert (b + c)[|b|] == c[0];
    }
  }

  lemma {:induction false} BatchMembers(operation: string, selected: set<int>, rules: seq<Rule>)
    ensures forall q :: q in BatchList(operation, selected, rules) <==>
      exists r :: r in rules && q in BatchRule(operation, selected, r)
  {
    hide BatchRule;
    if rules != [] {
      var front, last := rules[..|rules| - 1], Last(rules);
      assert rules == front + [last];
      BatchMembers(operation, selected, front);
      forall q
        ensures q in BatchList(operation, selected, rules)
          <==> exists r :: r in rules && q in BatchRule(operation, selected, r)
      {
        if q in BatchList(operation, selected, front) {
          var r :| r in front && q in BatchRule(operation, selected, r);
          assert r in rules;
        }
        if q in BatchRule(operation, selected, last) { assert last in rules; }
      }
    }
  }

  lemma BatchKeepsKnown(libs: Libs, operation: string, selected: set<int>, rules: seq<Rule>, last: int)
    requires CleanList(libs, rules) && KnownIds(rules, last)
    ensures var b := BatchList(operation, selected, rules);
      && KnownIds(b, last) && EachAccepted(libs, b)
      && StoredList(NormalizedList(libs, b)) == b
  {
    hide NormalRule;
    hide BatchList;
    var b := BatchList(operation, selected, rules);
    BatchKeeps(libs, operation, selected, rules);
    forall i | 0 <= i < |b| ensures 1 <= b[i].id <= last {
      assert b[i] in b;
      var r :| r in rules && r.id == b[i].id && KeyOf(r) == KeyOf(b[i]);
      var k :| 0 <= k < |rules| && rules[k] == r;
    }
    NormalizedSame(libs, b);
    StoredListFixes(b);
  }

  /** Publishing the batch list applies the operation to the selected rows and to no others. */
  lemma PublishedBatch(libs: Libs, w: World, operation: string, selected: set<int>)
    requires SoundLibs(libs) && Sound(w) && RowsClean(libs, w.db.rows)
    ensures var b := BatchList(operation, selected, AllRules(w.db));
      && KnownIds(b, w.db.lastRuleId)
      && EachAccepted(libs, b)
      && TableOf(StoredList(NormalizedList(libs, b))) == BatchTable(operation, selected, VisibleTable(w.db.table))
  {
    var all := AllRules(w.db);
    var b := BatchList(operation, selected, all);
    ReadBack(libs, w);
    hide Sound;
    hide RowsClean;
    hide AllRules;
    hide TableOf;
    hide NormalList;
    hide BatchList;
    hide BatchRule;
    hide VisibleTable;
    hide BatchTable;
    BatchKeepsKnown(libs, operation, selected, all, w.db.lastRuleId);
    BatchMembers(operation, selected, all);
    BatchIsTable(operation, selected, VisibleTable(w.db.table), all, b);
    TableIsDetermined(BatchTable(operation, selected, VisibleTable(w.db.table)), b);
  }

  lemma BatchIsTable(operation: string, selected: set<int>, table: map<int, Rule>, rules: seq<Rule>, b: seq<Rule>)
    requires IsTableOf(table, rules)
    requires forall q :: q in b <==> exists r :: r in rules && q in BatchRule(operation, selected, r)
    ensures IsTableOf(BatchTable(operation, selected, table), b)
  {
    var t := BatchTable(operation, selected, table);
    forall q | q in b ensures q.id in t && t[q.id] == q {
      var r :| r in rules && q in BatchRule(operation, selected, r);
    }
    forall id | id in t ensures t[id] in b && t[id].id == id {
      assert table[id] in rules && t[id] in BatchRule(operation, selected, table[id]);
    }
  }
}
