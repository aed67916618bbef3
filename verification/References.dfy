/** Rule publishing and registry edits together: no group that a binding or a live snapshot names is ever
    disabled or deleted, although reconciling takes only one of the two locks and some registry writers none. */
module References {
  import opened Ordering
  import opened RuleModel
  import opened Validation
  import opened Store
  import opened Protocol
  import opened Text
  import opened Publication
  import O = Outcomes
  import S = Subscriptions
  import U = UpstreamRegistry

  // ---- the reference check -----------------------------------------------------------------

  ghost predicate TablesName(db: Db, group: string) {
    || (exists id :: id in db.sources.bindings && db.sources.bindings[id].groupId == group)
    || (exists id :: id in db.table && GroupColumn(db.table[id]) == Some(group))
  }

  predicate SnapshotNames(m: Snapshot, group: string) {
    || (exists i :: 0 <= i < |m.rules| && m.rules[i].groupId == group)
    || (exists i :: 0 <= i < |m.sets| && m.sets[i].groupId == group)
  }

  predicate Live(row: Row) { row.status.Open() || row.status.Active? }

  ghost predicate LiveNames(rows: seq<Row>, group: string) {
    exists i :: 0 <= i < |rows| && Live(rows[i]) && SnapshotNames(rows[i].snapshot, group)
  }

  /** The second query of upstreamGroupReferencedBySubscriptions: the live snapshots, row by row. */
  method LiveSnapshotsName(rows: seq<Row>, group: string) returns (named: bool)
    ensures named <==> LiveNames(rows, group)
  {
    for i := 0 to |rows|
      invariant forall k | 0 <= k < i && Live(rows[k]) :: !SnapshotNames(rows[k].snapshot, group)
    {
      if !Live(rows[i]) { continue; }
      var snapshot := rows[i].snapshot;
      for j := 0 to |snapshot.rules|
        invariant forall k | 0 <= k < j :: snapshot.rules[k].groupId != group
      {
        if snapshot.rules[j].groupId == group {
          assert SnapshotNames(rows[i].snapshot, group);
          return true;
        }
      }
      for j := 0 to |snapshot.sets|
        invariant forall k | 0 <= k < j :: snapshot.sets[k].groupId != group
      {
        if snapshot.sets[j].groupId == group {
          assert SnapshotNames(rows[i].snapshot, group);
          return true;
        }
      }
    }
    named := false;
  }

  /** upstreamGroupReferencedBySubscriptions: the bindings and the rule rows are counted first, enabled or not, then the
      live snapshots are searched. */
  method GroupReferenced(db: Db, group: string) returns (named: bool)
    ensures named <==> TablesName(db, group) || LiveNames(db.rows, group)
    ensures named <==>
      || (exists id :: id in db.sources.bindings && db.sources.bindings[id].groupId == group)
      || (exists id :: id in db.table && db.table[id].category == "route" && db.table[id].groupId == group)
      || LiveNames(db.rows, group)
  {
    hide LiveNames;
    var bound := set id | id in db.sources.bindings && db.sources.bindings[id].groupId == group;
    var rules := set id | id in db.table && GroupColumn(db.table[id]) == Some(group);
    if |bound| + |rules| > 0 {
      if bound != {} {
        ghost var id := Pick(bound);
        assert id in db.sources.bindings;
      } else {
        ghost var id := Pick(rules);
        assert id in db.table;
      }
      return true;
    }
    assert forall id | id in db.sources.bindings && db.sources.bindings[id].groupId == group :: id in bound;
    assert forall id | id in db.table && GroupColumn(db.table[id]) == Some(group) :: id in rules;
    named := LiveSnapshotsName(db.rows, group);
  }

  /** The registry has the group, and it is enabled. */
  predicate Offered(r: U.Registry, group: string) { exists g :: g in r.groups && g.id == group && g.enabled }

  // ---- the joint state ------------------------------------------------------------------------

  /** The bindings lock: free, held by a rule or subscription mutation (bound: the groups bound when it began;
      view: the enabled groups it has read), or held by a group update or deletion, which has passed
      phase checks of the reference check. */
  datatype Bindings =
    | Free
    | Editing(bound: set<string>, view: set<string>)
    | Regrouping(edit: U.Edit, base: U.Registry, phase: nat)

  /** The service's own mutex: free, held by the mutation, or held by a reconcile and what it has read. */
  datatype Mutex = Unlocked | Mutating | Reconciling(rules: Option<seq<Rule>>, sets: Option<seq<SubscriptionSet>>)

  /** late: registry calls without an answer whose writer has let go of the lock. */
  datatype Joint = Joint(world: World, registry: U.Registry, bindings: Bindings, mutex: Mutex, late: set<U.Request>)

  datatype Action =
    | BeginMutation | ReadGroups | EditSources(sources: Sources)
    | InsertMutation(now: int, rules: seq<Rule>, sets: seq<SubscriptionSet>, rollbackFrom: nat) | EndMutation
    | BeginReconcile | ReadRules | ReadSets | InsertReconciled(now: int) | EndReconcile
    | Progress(event: Protocol.Event)
    | BeginRegroup(edit: U.Edit) | CheckTables | CheckSnapshots | ApplyRegroup | EndRegroup
    | LoseRegroup | LandLate(request: U.Request)
    | OtherWrite(edit: U.Edit)

  /** Updates and deletions are the edits that take the bindings lock. */
  predicate Locked(e: U.Edit) { e.PutGroup? || e.DropGroup? }

  function Target(e: U.Edit): string
    requires Locked(e)
  {
    if e.PutGroup? then e.group.id else e.id
  }

  /** The statements that settle a candidate, and the runtime's own steps. */
  predicate Settles(e: Protocol.Event) {
    e.Finalize? || e.MarkUnknown? || e.MarkFailed? || e.SendApply? || e.ReserveIds?
  }

  predicate OfRuntime(e: Protocol.Event) { e.Deliver? || e.FallBack? }

  function Bound(s: Sources): set<string> { set id | id in s.bindings :: s.bindings[id].groupId }

  /** The reference check is needed only to disable or delete a group that is enabled. */
  predicate NeedsCheck(e: U.Edit, base: U.Registry)
    requires Locked(e)
  {
    e.DropGroup? || (!e.group.enabled && e.group.id in U.EnabledIds(base))
  }

  ghost predicate CanAct(w: Joint, a: Action)
    requires WellLocked(w)
  {
    match a
    case BeginMutation => w.bindings.Free? && w.mutex.Unlocked?
    case ReadGroups => w.mutex.Mutating? && w.bindings.Editing?
    case EditSources(s) =>
      w.mutex.Mutating? && w.bindings.Editing? && SourcesOk(s) && Bound(s) <= w.bindings.bound + w.bindings.view
    case InsertMutation(_, rules, sets, _) =>
      && w.mutex.Mutating? && w.bindings.Editing? && KnownIds(rules, w.world.db.lastRuleId)
      && SubscriptionSets(w.world.db.sources) == Ok(sets)
      && forall i | 0 <= i < |rules| && rules[i].category == "route" :: rules[i].groupId in w.bindings.view
    case EndMutation => w.mutex.Mutating?
    case BeginReconcile => w.mutex.Unlocked?
    case ReadRules => w.mutex.Reconciling?
    case ReadSets => w.mutex.Reconciling? && SubscriptionSets(w.world.db.sources).Ok?
    case InsertReconciled(_) =>
      && w.mutex.Reconciling? && w.mutex.rules.Some? && w.mutex.sets.Some?
      && KnownIds(w.mutex.rules.value, w.world.db.lastRuleId)
    case EndReconcile => w.mutex.Reconciling?
    case Progress(e) => Protocol.Enabled(w.world, e) && ((Settles(e) && !w.mutex.Unlocked?) || OfRuntime(e))
    case BeginRegroup(e) => w.bindings.Free? && Locked(e) && U.Desired(w.registry, e).Ok?
    case CheckTables =>
      w.bindings.Regrouping? && w.bindings.phase == 0 && !TablesName(w.world.db, Target(w.bindings.edit))
    case CheckSnapshots =>
      w.bindings.Regrouping? && w.bindings.phase == 1 && !LiveNames(w.world.db.rows, Target(w.bindings.edit))
    case ApplyRegroup =>
      && w.bindings.Regrouping? && w.bindings.base.version == w.registry.version
      && U.Desired(w.bindings.base, w.bindings.edit).Ok?
      && (w.bindings.phase == 2 || !NeedsCheck(w.bindings.edit, w.bindings.base))
    case EndRegroup => w.bindings.Regrouping?
    case LoseRegroup =>
      w.bindings.Regrouping? && (w.bindings.phase == 2 || !NeedsCheck(w.bindings.edit, w.bindings.base))
    case LandLate(q) => q in w.late && q.base.version == w.registry.version && U.Desired(q.base, q.edit).Ok?
    case OtherWrite(e) => !Locked(e) && U.Desired(w.registry, e).Ok?
  }

  ghost function Db(w: Joint, e: Protocol.Event): Joint {
    w.(world := Protocol.Step(w.world, e))
  }

  ghost function Act(w: Joint, a: Action): Joint
    requires WellLocked(w) && CanAct(w, a)
  {
    match a
    case BeginMutation => w.(bindings := Editing(Bound(w.world.db.sources), {}), mutex := Mutating)
    case ReadGroups => w.(bindings := w.bindings.(view := U.EnabledIds(w.registry)))
    case EditSources(s) => Db(w, Protocol.WriteSources(s))
    case InsertMutation(now, rules, sets, from) => Db(w, InsertCandidate(now, rules, sets, from))
    case EndMutation => w.(bindings := Free, mutex := Unlocked)
    case BeginReconcile => w.(mutex := Reconciling(None, None))
    case ReadRules => w.(mutex := w.mutex.(rules := Some(AllRules(w.world.db))))
    case ReadSets => w.(mutex := w.mutex.(sets := Some(SubscriptionSets(w.world.db.sources).value)))
    case InsertReconciled(now) => Db(w, InsertCandidate(now, w.mutex.rules.value, w.mutex.sets.value, 0))
    case EndReconcile => w.(mutex := Unlocked)
    case Progress(e) =>
      Db(w, e).(mutex := if e.Finalize? && w.mutex.Reconciling? then Reconciling(None, None) else w.mutex)
    case BeginRegroup(e) => w.(bindings := Regrouping(e, w.registry, 0))
    case CheckTables => w.(bindings := w.bindings.(phase := 1))
    case CheckSnapshots => w.(bindings := w.bindings.(phase := 2))
    case ApplyRegroup => w.(registry := U.Adopted(w.bindings.base, w.bindings.edit), bindings := Free)
    case EndRegroup => w.(bindings := Free)
    case LoseRegroup => w.(bindings := Free, late := w.late + {U.Request(w.bindings.base, w.bindings.edit)})
    case LandLate(q) => w.(registry := U.Adopted(q.base, q.edit))
    case OtherWrite(e) => w.(registry := U.Adopted(w.registry, e))
  }

  /** A mutation holds both locks; only updates and deletions are regroupings. */
  predicate WellLocked(w: Joint) {
    && (w.bindings.Editing? <==> w.mutex.Mutating?)
    && (w.bindings.Regrouping? ==> Locked(w.bindings.edit))
  }

  ghost function Next(w: Joint, a: Action): Joint {
    if WellLocked(w) && CanAct(w, a) then Act(w, a) else w
  }

  ghost function RunAll(w: Joint, actions: seq<Action>): Joint {
    if actions == [] then w else Next(RunAll(w, actions[..|actions| - 1]), actions[|actions| - 1])
  }

  // ---- safety -----------------------------------------------------------------------------------

  /** Every route rule and every route set of a snapshot names a group of e. */
  ghost predicate SnapshotWithin(m: Snapshot, e: set<string>) {
    && (forall i | 0 <= i < |m.rules| && m.rules[i].category == "route" :: m.rules[i].groupId in e)
    && (forall i | 0 <= i < |m.sets| && m.sets[i].category == "route" :: m.sets[i].groupId in e)
  }

  ghost predicate RowsWithin(rows: seq<Row>, e: set<string>) {
    forall i | 0 <= i < |rows| && Live(rows[i]) :: SnapshotWithin(rows[i].snapshot, e)
  }

  /** The groups bindings, and live snapshots, may still name: a regrouping that has passed a query of the
      reference check has ruled its target out. */
  function OpenToBindings(w: Joint): set<string>
    requires WellLocked(w)
  {
    U.EnabledIds(w.registry) - if w.bindings.Regrouping? && w.bindings.phase >= 1 then {Target(w.bindings.edit)} else {}
  }

  function OpenToRows(w: Joint): set<string>
    requires WellLocked(w)
  {
    U.EnabledIds(w.registry) - if w.bindings.Regrouping? && w.bindings.phase >= 2 then {Target(w.bindings.edit)} else {}
  }

  /** What the lock holders have read is still true. */
  ghost predicate ReadsHold(w: Joint) {
    && (w.bindings.Editing? ==> w.bindings.bound + w.bindings.view <= U.EnabledIds(w.registry))
    && (w.bindings.Regrouping? ==>
          && w.bindings.base.version <= w.registry.version
          && (w.bindings.base.version == w.registry.version ==> w.bindings.base == w.registry))
    && (w.mutex.Reconciling? && w.mutex.rules.Some? ==> w.mutex.rules.value == AllRules(w.world.db))
    && (w.mutex.Reconciling? && w.mutex.sets.Some? ==> SubscriptionSets(w.world.db.sources) == Ok(w.mutex.sets.value))
  }

  ghost predicate Safe(w: Joint) {
    && Sound(w.world) && WellLocked(w) && ReadsHold(w)
    && Bound(w.world.db.sources) <= OpenToBindings(w)
    && RowsWithin(w.world.db.rows, OpenToRows(w))
  }

  /** Sets take their groups from the bindings. */
  lemma {:induction false} SetsNameBindings(rows: seq<Joined>, e: set<string>)
    requires CollectSets(rows).Ok?
    requires forall j | j in rows && j.binding.Some? :: j.binding.value.groupId in e
    ensures forall i | 0 <= i < |CollectSets(rows).value| && CollectSets(rows).value[i].category == "route" ::
      CollectSets(rows).value[i].groupId in e
  {
    if rows != [] {
      var front, j := rows[..|rows| - 1], rows[|rows| - 1];
      SetsNameBindings(front, e);
      assert j in rows;
      hide Sort;
    }
  }

  lemma SetsWithin(s: Sources, sets: seq<SubscriptionSet>, e: set<string>)
    requires SubscriptionSets(s) == Ok(sets) && Bound(s) <= e
    ensures forall i | 0 <= i < |sets| && sets[i].category == "route" :: sets[i].groupId in e
  {
    var rows := JoinedRows(s);
    var all := JoinAll(s, SortedIds(s.rows.Keys));
    SortKeeps(all, JoinedLess);
    forall j | j in rows && j.binding.Some? ensures j.binding.value.groupId in e {
      assert j in Elements(rows) && j in Elements(all);
      var i :| 0 <= i < |all| && all[i] == j;
      assert s.bindings[SortedIds(s.rows.Keys)[i]].groupId in Bound(s);
    }
    SetsNameBindings(rows, e);
  }

  /** The enabled rules of a list, as a snapshot carries them. */
  lemma WireWithin(rules: seq<Rule>, e: set<string>)
    requires DistinctIds(rules)
    requires forall r | r in rules && r.enabled && r.category == "route" :: r.groupId in e
    ensures forall i | 0 <= i < |Wire(rules)| && Wire(rules)[i].category == "route" :: Wire(rules)[i].groupId in e
  {
    WireSortsEnabled(rules);
    hide Wire;
    forall i | 0 <= i < |Wire(rules)| && Wire(rules)[i].category == "route" ensures Wire(rules)[i].groupId in e {
      assert Wire(rules)[i] in Wire(rules);
      var r :| r in rules && r.enabled && ToWire(r) == Wire(rules)[i];
    }
  }

  lemma TableIsActive(w: World)
    requires Sound(w)
    ensures Keyed(w.db.table)
    ensures forall id | id in w.db.table ::
      ActiveVersion(w.db.rows) > 0 && w.db.table[id] in w.db.rows[ActiveVersion(w.db.rows) - 1].rules
  {
    var a := ActiveVersion(w.db.rows);
    hide ActiveVersion;
    hide Wire;
    hide MessagesOk;
    hide SourcesOk;
    hide ActivatedWereAdopted;
    hide OneActive;
    if a > 0 {
      assert RowOk(w.db.rows[a - 1], a - 1, w.db.lastRuleId);
      TableHolds(w.db.rows[a - 1].rules);
      hide TableOf;
    }
  }

  lemma ListedRulesAreActive(w: World)
    requires Sound(w)
    ensures DistinctIds(AllRules(w.db))
    ensures forall r | r in AllRules(w.db) ::
      ActiveVersion(w.db.rows) > 0 && r in w.db.rows[ActiveVersion(w.db.rows) - 1].rules
  {
    hide *;
    TableIsActive(w);
    AllRulesAreTheVisibleRows(w.db);
  }

  /** The enabled rules of the table are in the active snapshot, so they name what it names. */
  lemma TableWithin(w: World, e: set<string>)
    requires Sound(w) && RowsWithin(w.db.rows, e)
    ensures DistinctIds(AllRules(w.db))
    ensures forall r | r in AllRules(w.db) && r.enabled && r.category == "route" :: r.groupId in e
  {
    var a := ActiveVersion(w.db.rows);
    ListedRulesAreActive(w);
    hide AllRules;
    hide ActiveVersion;
    hide Wire;
    hide TableOf;
    if a > 0 {
      var row := w.db.rows[a - 1];
      assert RowOk(row, a - 1, w.db.lastRuleId) && SnapshotWithin(row.snapshot, e);
      hide Sound;
      forall r | r in AllRules(w.db) && r.enabled && r.category == "route" ensures r.groupId in e {
        EnabledRuleIsCarried(row, r);
      }
    }
  }

  lemma EnabledRuleIsCarried(row: Row, r: Rule)
    requires row.snapshot.rules == Wire(row.rules) && DistinctIds(row.rules) && r in row.rules && r.enabled
    ensures exists i :: 0 <= i < |row.snapshot.rules| && row.snapshot.rules[i] == ToWire(r)
  {
    WireSortsEnabled(row.rules);
    hide Wire;
    assert ToWire(r) in row.snapshot.rules;
  }

  lemma InsertedWithin(db: Db, now: int, rules: seq<Rule>, sets: seq<SubscriptionSet>, from: nat, e: set<string>)
    requires RowsWithin(db.rows, e) && DistinctIds(rules)
    requires forall r | r in rules && r.enabled && r.category == "route" :: r.groupId in e
    requires SubscriptionSets(db.sources) == Ok(sets) && Bound(db.sources) <= e
    ensures RowsWithin(InsertRow(db, now, rules, sets, from).rows, e)
  {
    SetsWithin(db.sources, sets, e);
    WireWithin(rules, e);
    hide Wire;
    hide ActiveVersion;
    hide SubscriptionSets;
    hide Bound;
  }

  lemma SettledWithin(w: World, ev: Protocol.Event, e: set<string>)
    requires RowsWithin(w.db.rows, e) && Protocol.Enabled(w, ev) && (Settles(ev) || OfRuntime(ev))
    ensures RowsWithin(Protocol.Effect(w, ev).db.rows, e)
    ensures Protocol.Effect(w, ev).db.sources == w.db.sources
    ensures !ev.Finalize? ==> Protocol.Effect(w, ev).db.table == w.db.table
  {
    hide SnapshotWithin;
    hide TableOf;
    match ev
    case Finalize(v) => ActivatedKeeps(w.db.rows, v);
    case _ =>
  }

  /** Only sources, so only rows and bindings, decide what a reconcile may have read. */
  lemma InsertKeepsTables(w: World, now: int, rules: seq<Rule>, sets: seq<SubscriptionSet>, from: nat)
    ensures InsertRow(w.db, now, rules, sets, from).table == w.db.table
    ensures InsertRow(w.db, now, rules, sets, from).sources == w.db.sources
    ensures AllRules(InsertRow(w.db, now, rules, sets, from)) == AllRules(w.db)
  {}

  /** A step of the publish protocol that touches neither the sources nor what a reconcile has read. */
  lemma WorldKeepsSafe(w: Joint, world: World, mutex: Mutex)
    requires Safe(w) && Sound(world) && world.db.sources == w.world.db.sources
    requires RowsWithin(world.db.rows, OpenToRows(w))
    requires
      || (mutex == Reconciling(None, None) && w.mutex.Reconciling?)
      || (mutex == w.mutex && (w.mutex.Reconciling? ==> AllRules(world.db) == AllRules(w.world.db)))
    ensures Safe(w.(world := world, mutex := mutex))
  {
    hide Sound;
    hide RowsWithin;
    hide Bound;
    hide AllRules;
    hide SubscriptionSets;
    hide U.EnabledIds;
  }

  lemma InsertStep(w: World, now: int, rules: seq<Rule>, sets: seq<SubscriptionSet>, from: nat)
    requires Sound(w) && KnownIds(rules, w.db.lastRuleId)
    ensures var w' := Protocol.Step(w, InsertCandidate(now, rules, sets, from));
      && Sound(w') && w'.db.sources == w.db.sources && AllRules(w'.db) == AllRules(w.db)
      && w'.db.rows == InsertRow(w.db, now, rules, sets, from).rows
  {
    StepKeepsSound(w, InsertCandidate(now, rules, sets, from));
    InsertKeepsTables(w, now, rules, sets, from);
    hide Sound;
    hide AllRules;
    hide InsertRow;
    hide KnownIds;
  }

  lemma InsertKeepsSafe(w: Joint, now: int, rules: seq<Rule>, sets: seq<SubscriptionSet>, from: nat)
    requires Safe(w) && KnownIds(rules, w.world.db.lastRuleId) && SubscriptionSets(w.world.db.sources) == Ok(sets)
    requires forall r | r in rules && r.enabled && r.category == "route" :: r.groupId in OpenToRows(w)
    ensures Safe(Db(w, InsertCandidate(now, rules, sets, from)))
  {
    InsertStep(w.world, now, rules, sets, from);
    hide Sound;
    hide AllRules;
    hide SubscriptionSets;
    hide Protocol.Step;
    hide ReadsHold;
    hide U.EnabledIds;
    InsertedWithin(w.world.db, now, rules, sets, from, OpenToRows(w));
    WorldKeepsSafe(w, Protocol.Step(w.world, InsertCandidate(now, rules, sets, from)), w.mutex);
  }

  lemma MutationKeepsSafe(w: Joint, a: Action)
    requires Safe(w) && a.InsertMutation? && CanAct(w, a)
    ensures Safe(Act(w, a))
  {
    hide Sound;
    hide RowsWithin;
    hide SubscriptionSets;
    hide AllRules;
    hide Safe;
    assert ReadsHold(w) by { SafeReads(w); }
    forall r | r in a.rules && r.enabled && r.category == "route" ensures r.groupId in OpenToRows(w) {
      var i :| 0 <= i < |a.rules| && a.rules[i] == r;
    }
    InsertKeepsSafe(w, a.now, a.rules, a.sets, a.rollbackFrom);
  }

  lemma SafeReads(w: Joint)
    requires Safe(w)
    ensures WellLocked(w) && ReadsHold(w) && Sound(w.world) && RowsWithin(w.world.db.rows, OpenToRows(w))
  {}

  lemma ReconcileKeepsSafe(w: Joint, a: Action)
    requires Safe(w) && a.InsertReconciled? && CanAct(w, a)
    ensures Safe(Act(w, a))
  {
    hide Sound;
    hide RowsWithin;
    hide SubscriptionSets;
    hide AllRules;
    hide Safe;
    SafeReads(w);
    TableWithin(w.world, OpenToRows(w));
    InsertKeepsSafe(w, a.now, w.mutex.rules.value, w.mutex.sets.value, 0);
  }

  lemma ProgressKeepsSafe(w: Joint, ev: Protocol.Event)
    requires Safe(w) && CanAct(w, Progress(ev))
    ensures Safe(Act(w, Progress(ev)))
  {
    hide Sound;
    hide RowsWithin;
    hide Safe;
    hide AllRules;
    SafeReads(w);
    StepKeepsSound(w.world, ev);
    SettledWithin(w.world, ev, OpenToRows(w));
    var mutex := if ev.Finalize? && w.mutex.Reconciling? then Reconciling(None, None) else w.mutex;
    var world := Protocol.Step(w.world, ev);
    if w.mutex.Reconciling? && !ev.Finalize? { SameTableSameRules(w.world.db, world.db); }
    WorldKeepsSafe(w, world, mutex);
  }

  lemma SameTableSameRules(a: Store.Db, b: Store.Db)
    requires a.table == b.table
    ensures AllRules(a) == AllRules(b)
  {}

  lemma SourcesKeepSafe(w: Joint, s: Sources)
    requires Safe(w) && CanAct(w, EditSources(s))
    ensures Safe(Act(w, EditSources(s)))
  {
    StepKeepsSound(w.world, Protocol.WriteSources(s));
    hide Sound;
    hide RowsWithin;
    hide AllRules;
    hide SubscriptionSets;
    hide Bound;
    hide U.EnabledIds;
  }

  /** A registry edit that no check was needed for, or whose target the check has ruled out. */
  lemma RegistryKeepsSafe(w: Joint, e: U.Edit)
    requires Safe(w) && U.Desired(w.registry, e).Ok?
    requires Locked(e) ==>
      w.bindings.Regrouping? && w.bindings.edit == e && (w.bindings.phase == 2 || !NeedsCheck(e, w.registry))
    ensures OpenToRows(w) <= U.EnabledIds(U.Adopted(w.registry, e)) || !Locked(e)
    ensures !Locked(e) ==> U.EnabledIds(w.registry) <= U.EnabledIds(U.Adopted(w.registry, e))
    ensures Locked(e) ==> Bound(w.world.db.sources) <= U.EnabledIds(U.Adopted(w.registry, e))
  {
    hide Sound;
    hide RowsWithin;
    hide U.Adopted;
    forall id | id in U.EnabledIds(w.registry) && !U.Threatens(e, id)
      ensures id in U.EnabledIds(U.Adopted(w.registry, e))
    {
      U.OthersStayEnabled(w.registry, e, id);
    }
  }

  lemma RowsWithinMore(rows: seq<Row>, e: set<string>, f: set<string>)
    requires RowsWithin(rows, e) && e <= f
    ensures RowsWithin(rows, f)
  {}

  /** A new registry version under which everything named so far is still enabled. */
  lemma NewRegistryKeepsSafe(w: Joint, r: U.Registry, bindings: Bindings)
    requires Safe(w) && r.version == w.registry.version + 1
    requires
      || (bindings == w.bindings && U.EnabledIds(w.registry) <= U.EnabledIds(r))
      || (bindings.Free? && w.bindings.Regrouping? && Bound(w.world.db.sources) <= U.EnabledIds(r)
          && RowsWithin(w.world.db.rows, U.EnabledIds(r)))
    ensures Safe(w.(registry := r, bindings := bindings))
  {
    hide Sound;
    hide Bound;
    hide U.EnabledIds;
    hide AllRules;
    hide SubscriptionSets;
    var w' := w.(registry := r, bindings := bindings);
    if bindings == w.bindings {
      RowsWithinMore(w.world.db.rows, OpenToRows(w), OpenToRows(w'));
    }
    hide RowsWithin;
  }

  lemma RegroupKeepsSafe(w: Joint)
    requires Safe(w) && CanAct(w, ApplyRegroup)
    ensures Safe(Act(w, ApplyRegroup))
  {
    hide Sound;
    hide RowsWithin;
    hide Bound;
    hide Safe;
    SafeReads(w);
    hide ReadsHold;
    RegistryKeepsSafe(w, w.bindings.edit);
    VersionGrows(w.registry, w.bindings.edit);
    hide U.EnabledIds;
    hide U.Adopted;
    hide U.Desired;
    RowsWithinMore(w.world.db.rows, OpenToRows(w), U.EnabledIds(U.Adopted(w.registry, w.bindings.edit)));
    NewRegistryKeepsSafe(w, U.Adopted(w.registry, w.bindings.edit), Free);
  }

  lemma OtherKeepsSafe(w: Joint, e: U.Edit)
    requires Safe(w) && CanAct(w, OtherWrite(e))
    ensures Safe(Act(w, OtherWrite(e)))
  {
    hide Sound;
    hide RowsWithin;
    hide Bound;
    hide Safe;
    RegistryKeepsSafe(w, e);
    VersionGrows(w.registry, e);
    hide U.EnabledIds;
    hide U.Adopted;
    hide U.Desired;
    NewRegistryKeepsSafe(w, U.Adopted(w.registry, e), w.bindings);
  }

  lemma VersionGrows(r: U.Registry, e: U.Edit)
    requires U.Desired(r, e).Ok?
    ensures U.Adopted(r, e).version == r.version + 1
  {}

  lemma CheckKeepsSafe(w: Joint, a: Action)
    requires Safe(w) && CanAct(w, a) && (a.CheckTables? || a.CheckSnapshots?)
    ensures Safe(Act(w, a))
  {
    hide Sound;
    var target := Target(w.bindings.edit);
    if a.CheckTables? {
      forall g | g in Bound(w.world.db.sources) ensures g != target {}
    } else {
      forall i | 0 <= i < |w.world.db.rows| && Live(w.world.db.rows[i])
        ensures SnapshotWithin(w.world.db.rows[i].snapshot, OpenToRows(w) - {target})
      {
        assert !SnapshotNames(w.world.db.rows[i].snapshot, target);
      }
      hide SnapshotWithin;
      assert OpenToRows(Act(w, a)) == OpenToRows(w) - {target};
    }
  }

  lemma LockKeepsSafe(w: Joint, a: Action)
    requires Safe(w) && CanAct(w, a)
    requires a.BeginMutation? || a.ReadGroups? || a.EndMutation? || a.BeginReconcile? || a.ReadRules? || a.ReadSets?
      || a.EndReconcile? || a.BeginRegroup?
    ensures Safe(Act(w, a))
  {
    hide Sound;
    hide RowsWithin;
    hide Bound;
    hide AllRules;
    hide SubscriptionSets;
    hide U.EnabledIds;
    hide U.Desired;
  }

  lemma EndRegroupKeepsSafe(w: Joint)
    requires Safe(w) && CanAct(w, EndRegroup)
    ensures Safe(Act(w, EndRegroup))
  {
    hide Sound;
    hide Bound;
    hide U.EnabledIds;
    RowsWithinMore(w.world.db.rows, OpenToRows(w), U.EnabledIds(w.registry));
    hide RowsWithin;
  }

  /** Every registry call is decided before its writer lets go of the bindings lock. */
  ghost predicate Decided(actions: seq<Action>) {
    forall i | 0 <= i < |actions| :: !actions[i].LoseRegroup? && !actions[i].LandLate?
  }

  lemma ActKeepsSafe(w: Joint, a: Action)
    requires Safe(w) && !a.LoseRegroup? && !a.LandLate?
    ensures Safe(Next(w, a))
  {
    hide Safe;
    hide Act;
    hide CanAct;
    SafeIsLocked(w);
    if CanAct(w, a) {
      match a
      case InsertMutation(_, _, _, _) => MutationKeepsSafe(w, a);
      case InsertReconciled(_) => ReconcileKeepsSafe(w, a);
      case Progress(e) => ProgressKeepsSafe(w, e);
      case EditSources(s) => SourcesKeepSafe(w, s);
      case ApplyRegroup => RegroupKeepsSafe(w);
      case OtherWrite(e) => OtherKeepsSafe(w, e);
      case CheckTables => CheckKeepsSafe(w, a);
      case CheckSnapshots => CheckKeepsSafe(w, a);
      case EndRegroup => EndRegroupKeepsSafe(w);
      case _ => LockKeepsSafe(w, a);
    }
  }

  lemma SafeIsLocked(w: Joint)
    ensures Safe(w) ==> WellLocked(w)
  {}

  function Beginning(r0: U.Registry): Joint {
    Joint(World(Store.Db([], map[], 0, Sources(map[], map[], 0, 0)), None, {}, {}), r0, Free, Unlocked, {})
  }

  lemma BeginningIsSafe(r0: U.Registry)
    ensures Safe(Beginning(r0))
  {}

  lemma {:induction false} EveryRunKeepsSafe(r0: U.Registry, actions: seq<Action>)
    requires Decided(actions)
    ensures Safe(RunAll(Beginning(r0), actions))
    ensures var w := RunAll(Beginning(r0), actions);
      && (forall id | id in w.world.db.sources.bindings ::
            w.world.db.sources.bindings[id].groupId in U.EnabledIds(w.registry))
      && RowsWithin(w.world.db.rows, U.EnabledIds(w.registry))
  {
    hide Next;
    hide RowsWithin;
    hide Sound;
    if actions == [] {
      BeginningIsSafe(r0);
    } else {
      EveryRunKeepsSafe(r0, actions[..|actions| - 1]);
      ActKeepsSafe(RunAll(Beginning(r0), actions[..|actions| - 1]), actions[|actions| - 1]);
    }
    SafeMeans(RunAll(Beginning(r0), actions));
  }

  /** In every interleaving, as long as registry calls are decided before their writer lets go: every binding,
      enabled or not, and every enabled route rule and set of an active, pending or unknown snapshot names a
      group that exists and is enabled. */
  lemma EveryRunIsSafe(r0: U.Registry, actions: seq<Action>)
    requires Decided(actions)
    ensures Safe(RunAll(Beginning(r0), actions))
    ensures var w := RunAll(Beginning(r0), actions);
      && (forall id | id in w.world.db.sources.bindings :: Offered(w.registry, w.world.db.sources.bindings[id].groupId))
      && forall row | row in w.world.db.rows && row.status in {Pending, Unknown, Active} ::
           && (forall rule | rule in row.snapshot.rules && rule.category == "route" ::
                 Offered(w.registry, rule.groupId))
           && (forall set_ | set_ in row.snapshot.sets && set_.category == "route" ::
                 Offered(w.registry, set_.groupId))
  {
    EveryRunKeepsSafe(r0, actions);
    var w := RunAll(Beginning(r0), actions);
    hide *;
    RowsAreOffered(w.world.db.rows, w.registry);
    OfferedAre(w.registry);
  }

  lemma RowsAreOffered(rows: seq<Row>, r: U.Registry)
    requires RowsWithin(rows, U.EnabledIds(r))
    ensures forall row | row in rows && row.status in {Pending, Unknown, Active} ::
      && (forall rule | rule in row.snapshot.rules && rule.category == "route" :: Offered(r, rule.groupId))
      && (forall set_ | set_ in row.snapshot.sets && set_.category == "route" :: Offered(r, set_.groupId))
  {
    OfferedAre(r);
    hide U.EnabledIds;
    hide Offered;
    forall row | row in rows && row.status in {Pending, Unknown, Active}
      ensures SnapshotWithin(row.snapshot, U.EnabledIds(r))
    {
      var i :| 0 <= i < |rows| && rows[i] == row;
      assert Live(rows[i]);
    }
  }

  lemma OfferedAre(r: U.Registry)
    ensures forall id :: id in U.EnabledIds(r) <==> Offered(r, id)
  {
    U.EnabledIdsAre(r);
  }

  lemma SafeMeans(w: Joint)
    requires Safe(w)
    ensures forall id | id in w.world.db.sources.bindings ::
      w.world.db.sources.bindings[id].groupId in U.EnabledIds(w.registry)
    ensures RowsWithin(w.world.db.rows, U.EnabledIds(w.registry))
  {
    hide Sound;
    RowsWithinMore(w.world.db.rows, OpenToRows(w), U.EnabledIds(w.registry));
    forall id | id in w.world.db.sources.bindings
      ensures w.world.db.sources.bindings[id].groupId in U.EnabledIds(w.registry)
    {
      assert w.world.db.sources.bindings[id].groupId in Bound(w.world.db.sources);
    }
  }

  // ---- the service's writes are such actions ---------------------------------------------------------

  /** What a publish has checked is what InsertMutation asks for. */
  lemma ValidatedTargetsAreEnabled(libs: Libs, rules: seq<Rule>, view: O.RegistryView)
    requires NormalList(libs, rules) && O.RouteTargetsError(rules, None, Some(view)) == O.NoError
    ensures forall i | 0 <= i < |rules| && rules[i].category == "route" :: rules[i].groupId in view.enabled
  {
    hide DistinctKeys;
    hide NormalRule;
    hide TrimSpace;
    forall i | 0 <= i < |rules| && rules[i].category == "route" ensures rules[i].groupId in view.enabled {
      assert TrimSpace(rules[i].groupId) in O.TargetGroups(rules);
      NormalRouteIsTrimmed(libs, rules[i]);
    }
  }

  lemma NormalRouteIsTrimmed(libs: Libs, r: Rule)
    requires NormalRule(libs, r) && r.category == "route"
    ensures TrimSpace(r.groupId) == r.groupId
  {
    hide TrimSpace;
    hide Normalize;
    hide NormalizeIps;
    hide ByteLen;
    NormalizedGroupIsTrimmed(libs, r);
  }

  lemma NormalizedGroupIsTrimmed(libs: Libs, r: Rule)
    requires NormalizeRule(libs, r).Ok? && r.category == "route"
    ensures NormalizeRule(libs, r).value.groupId == TrimSpace(r.groupId)
  {
    hide TrimSpace;
    hide Normalize;
    hide NormalizeIps;
    hide ByteLen;
  }

  /** The one group a subscription edit can newly bind, which it validates first. */
  function NewlyBound(e: S.Edit): set<string> {
    match e
    case Create(_, Some(b)) => {b.groupId}
    case Rebind(_, group, _, _) => {group}
    case _ => {}
  }

  /** A subscription edit and each statement of its restore bind only groups that were bound when it began, or
      the one it validated: what EditSources asks for. */
  lemma EditBindsOnlyKnownGroups(s: Sources, e: S.Edit)
    requires SourcesOk(s) && S.Fits(s, e)
    ensures Bound(S.Edited(s, e)) <= Bound(s) + NewlyBound(e)
    ensures forall i | 0 <= i < |S.RestoreSteps(S.Edited(s, e), S.RestoreOf(s, e))| ::
      Bound(S.RestoreSteps(S.Edited(s, e), S.RestoreOf(s, e))[i]) <= Bound(s) + NewlyBound(e)
  {
    forall g | g in Bound(S.Edited(s, e)) ensures g in Bound(s) + NewlyBound(e) {
      var id :| id in S.Edited(s, e).bindings && S.Edited(s, e).bindings[id].groupId == g;
      assert id in s.bindings && s.bindings[id].groupId == g ==> g in Bound(s);
    }
    forall i | 0 <= i < |S.RestoreSteps(S.Edited(s, e), S.RestoreOf(s, e))|
      ensures Bound(S.RestoreSteps(S.Edited(s, e), S.RestoreOf(s, e))[i]) <= Bound(s) + NewlyBound(e)
    {
      RestoreBinds(s, e, i);
    }
  }

  lemma RestoreBinds(s: Sources, e: S.Edit, i: nat)
    requires SourcesOk(s) && S.Fits(s, e) && i < |S.RestoreSteps(S.Edited(s, e), S.RestoreOf(s, e))|
    ensures Bound(S.RestoreSteps(S.Edited(s, e), S.RestoreOf(s, e))[i]) <= Bound(s)
  {
    var steps := S.RestoreSteps(S.Edited(s, e), S.RestoreOf(s, e));
    S.RestoreUndoesEdit(s, e);
    S.HalfRestored(s, e);
    hide S.Edited;
    hide S.RestoreSteps;
    hide S.RestoreOf;
    if i == |steps| - 1 {
      assert steps[i].bindings == s.bindings;
    } else {
      assert steps[i].bindings == s.bindings - {e.id};
      forall g | g in Bound(steps[i]) ensures g in Bound(s) {
        var id :| id in steps[i].bindings && steps[i].bindings[id].groupId == g;
        assert id in s.bindings && s.bindings[id].groupId == g;
      }
    }
  }

  /** The joint action that performs a statement of a mutation, or lets the runtime move. */
  function ActionOf(e: Protocol.Event): Action {
    match e
    case WriteSources(s) => EditSources(s)
    case InsertCandidate(now, rules, sets, from) => InsertMutation(now, rules, sets, from)
    case _ => Progress(e)
  }

  function ActionsOf(events: seq<Protocol.Event>): seq<Action> {
    seq(|events|, i requires 0 <= i < |events| => ActionOf(events[i]))
  }

  /** What a mutation has checked before each of its statements: it binds groups that were bound or that it has
      read as enabled, and publishes the current sets and route rules towards groups it has read as enabled. */
  ghost predicate CheckedStatement(w: World, e: Protocol.Event, bound: set<string>, view: set<string>) {
    match e
    case WriteSources(s) => Bound(s) <= bound + view
    case InsertCandidate(_, rules, sets, _) =>
      && SubscriptionSets(w.db.sources) == Ok(sets)
      && forall i | 0 <= i < |rules| && rules[i].category == "route" :: rules[i].groupId in view
    case _ => true
  }

  ghost predicate CheckedRun(w: World, events: seq<Protocol.Event>, bound: set<string>, view: set<string>) {
    forall i | 0 <= i < |events| :: CheckedStatement(Protocol.Run(w, events[..i]), events[i], bound, view)
  }

  lemma StatementIsAction(w: Joint, e: Protocol.Event)
    requires w.mutex.Mutating? && w.bindings.Editing?
    requires CheckedStatement(w.world, e, w.bindings.bound, w.bindings.view)
    ensures Next(w, ActionOf(e)) == w.(world := Protocol.Step(w.world, e))
  {
    hide SubscriptionSets;
    hide Protocol.Effect;
    hide Bound;
  }

  /** A mutation's run of the publish protocol is a run of the joint machine: what EveryRunIsSafe says of the joint
      machine holds of the statements of the rule service, made under both locks after its checks. */
  lemma {:induction false} MutationIsJoint(w: Joint, events: seq<Protocol.Event>)
    requires w.mutex.Mutating? && w.bindings.Editing?
    requires CheckedRun(w.world, events, w.bindings.bound, w.bindings.view)
    ensures RunAll(w, ActionsOf(events)) == w.(world := Protocol.Run(w.world, events))
  {
    hide Next;
    hide Protocol.Step;
    hide CheckedStatement;
    var actions := ActionsOf(events);
    if events != [] {
      var n := |events| - 1;
      forall i | 0 <= i < n
        ensures CheckedStatement(
          Protocol.Run(w.world, events[..n][..i]), events[..n][i], w.bindings.bound, w.bindings.view)
      {
        assert events[..n][..i] == events[..i];
      }
      MutationIsJoint(w, events[..n]);
      assert actions[..n] == ActionsOf(events[..n]);
      StatementIsAction(w.(world := Protocol.Run(w.world, events[..n])), events[n]);
    }
  }

  /** The groups a registry read shows as enabled. */
  function ViewOf(registry: Option<O.RegistryView>): set<string> {
    if registry.Some? then registry.value.enabled else {}
  }

  /** What a publish has checked when it records a candidate is what the joint machine asks for. */
  lemma CheckedInsertIsChecked(
    libs: Libs, w: World, e: Protocol.Event, bound: set<string>, registry: Option<O.RegistryView>)
    requires e.InsertCandidate? && O.CheckedInsert(libs, w, e, registry)
    ensures CheckedStatement(w, e, bound, ViewOf(registry))
  {
    hide NormalList;
    hide SubscriptionSets;
    hide TrimSpace;
    if registry.Some? {
      ValidatedTargetsAreEnabled(libs, e.rules, registry.value);
    } else {
      RoutesAreTargets(e.rules);
    }
  }

  lemma RoutesAreTargets(rules: seq<Rule>)
    ensures forall i | 0 <= i < |rules| && rules[i].category == "route" ::
      TrimSpace(rules[i].groupId) in O.TargetGroups(rules)
  {
    hide TrimSpace;
  }

  lemma ServiceRunIsChecked(
    libs: Libs, a: seq<Protocol.Event>, b: seq<Protocol.Event>, bound: set<string>, registry: Option<O.RegistryView>)
    requires O.Checked(libs, a, b, registry)
    requires forall i | |a| <= i < |b| && b[i].WriteSources? :: Bound(b[i].sources) <= bound + ViewOf(registry)
    ensures CheckedRun(Protocol.Run(Initial(), a), b[|a|..], bound, ViewOf(registry))
    ensures Protocol.Run(Protocol.Run(Initial(), a), b[|a|..]) == Protocol.Run(Initial(), b)
  {
    hide Protocol.Run;
    hide O.CheckedInsert;
    hide Bound;
    var events := b[|a|..];
    assert a + events == b;
    RunConcat(Initial(), a, events);
    forall i | 0 <= i < |events|
      ensures CheckedStatement(
        Protocol.Run(Protocol.Run(Initial(), a), events[..i]), events[i], bound, ViewOf(registry))
    {
      assert a + events[..i] == b[..|a| + i];
      RunConcat(Initial(), a, events[..i]);
      if events[i].InsertCandidate? {
        CheckedInsertIsChecked(libs, Protocol.Run(Initial(), b[..|a| + i]), b[|a| + i], bound, registry);
      }
    }
  }

  /** A rule mutation of the service, from its trace: while it holds both locks and has read the groups it publishes
      under, its statements, and whatever happens to the runtime meanwhile, are a run of the joint machine. */
  lemma RuleMutationIsJoint(
    libs: Libs, w: Joint, a: seq<Protocol.Event>, b: seq<Protocol.Event>, n: nat, registry: Option<O.RegistryView>)
    requires w.mutex.Mutating? && w.bindings.Editing? && w.bindings.view == ViewOf(registry)
    requires w.world == Protocol.Run(Initial(), a)
    requires O.Quietly(a, b, n) && O.Checked(libs, a, b, registry)
    ensures RunAll(w, ActionsOf(b[|a|..])) == w.(world := Protocol.Run(Initial(), b))
  {
    ServiceRunIsChecked(libs, a, b, w.bindings.bound, registry);
    hide O.Checked;
    hide CheckedRun;
    MutationIsJoint(w, b[|a|..]);
    hide RunAll;
  }

  /** A subscription edit of the service, from its trace: its first write binds only what was bound when it began and
      the group it has validated; the rest, after the publish has read the groups again, is such a run too. */
  lemma SubscriptionEditIsJoint(
    libs: Libs, w: Joint, a: seq<Protocol.Event>, b: seq<Protocol.Event>, s: Sources, e: S.Edit, view: set<string>,
    registry: Option<O.RegistryView>)
    requires w.mutex.Mutating? && w.bindings == Editing(Bound(s), view) && NewlyBound(e) <= view
    requires w.world == Protocol.Run(Initial(), a)
    requires SourcesOk(s) && S.Fits(s, e) && S.EditTrace(libs, a, b, s, e, registry)
    ensures var edited := Next(w, EditSources(S.Edited(s, e)));
      var read := edited.(bindings := edited.bindings.(view := ViewOf(registry)));
      && edited == w.(world := Protocol.Run(Initial(), a + [WriteSources(S.Edited(s, e))]))
      && RunAll(read, ActionsOf(b[|a| + 1..])) == read.(world := Protocol.Run(Initial(), b))
  {
    var write := WriteSources(S.Edited(s, e));
    EditBindsOnlyKnownGroups(s, e);
    S.EditKeepsConstraints(s, e);
    StatementIsAction(w, write);
    RunOneMore(Initial(), a, write);
    var edited := w.(world := Protocol.Run(Initial(), a + [write]));
    RestOfEditIsChecked(libs, a, b, s, e, registry);
    hide S.EditTrace;
    hide S.Edited;
    hide Protocol.Run;
    hide CheckedRun;
    hide Next;
    hide RunAll;
    MutationIsJoint(edited.(bindings := Editing(Bound(s), ViewOf(registry))), b[|a| + 1..]);
  }

  lemma RestOfEditIsChecked(
    libs: Libs, a: seq<Protocol.Event>, b: seq<Protocol.Event>, s: Sources, e: S.Edit,
    registry: Option<O.RegistryView>)
    requires SourcesOk(s) && S.Fits(s, e) && S.EditTrace(libs, a, b, s, e, registry)
    ensures var written := a + [WriteSources(S.Edited(s, e))];
      && CheckedRun(Protocol.Run(Initial(), written), b[|a| + 1..], Bound(s), ViewOf(registry))
      && Protocol.Run(Protocol.Run(Initial(), written), b[|a| + 1..]) == Protocol.Run(Initial(), b)
  {
    hide S.Edited;
    hide Protocol.Run;
    hide CheckedRun;
    hide O.CheckedInsert;
    var written := a + [WriteSources(S.Edited(s, e))];
    assert O.Checked(libs, written, b, registry);
    forall i | |written| <= i < |b| && b[i].WriteSources? ensures Bound(b[i].sources) <= Bound(s) + ViewOf(registry) {
      RestoredBinds(s, e, b[i].sources);
    }
    ServiceRunIsChecked(libs, written, b, Bound(s), registry);
  }

  lemma RestoredBinds(s: Sources, e: S.Edit, t: Sources)
    requires SourcesOk(s) && S.TablesOf(t) in S.RestoredStates(s, e)
    ensures Bound(t) <= Bound(s)
  {
    forall g | g in Bound(t) ensures g in Bound(s) {
      var id :| id in t.bindings && t.bindings[id].groupId == g;
      assert id in s.bindings && s.bindings[id].groupId == g;
    }
  }

  /** An adopted registry call is an action of the joint machine: of a writer without the lock, of the update or
      deletion that still holds it, or of one that has let go of it. */
  lemma LandingIsAction(r0: U.Registry, s: U.State, q: U.Request, w: Joint)
    requires U.Sequential(r0, s) && U.Enabled(s, U.Land(q)) && w.registry == s.current && WellLocked(w)
    ensures !Locked(q.edit) ==> Next(w, OtherWrite(q.edit)).registry == U.Effect(s, U.Land(q)).current
    ensures w.bindings == Regrouping(q.edit, q.base, 2) ==>
      Next(w, ApplyRegroup).registry == U.Effect(s, U.Land(q)).current
    ensures q in w.late ==> Next(w, LandLate(q)).registry == U.Effect(s, U.Land(q)).current
  {
    U.LandIsSequential(r0, s, q);
    LandingAdopts(s, q);
    hide U.Sequential;
    hide U.Enabled;
    hide U.Effect;
    hide U.Desired;
    hide U.Adopted;
    hide Next;
    if !Locked(q.edit) { OtherLands(w, q.edit); }
    if w.bindings == Regrouping(q.edit, q.base, 2) { RegroupLands(w); }
    if q in w.late { LateLands(w, q); }
  }

  lemma OtherLands(w: Joint, e: U.Edit)
    requires WellLocked(w) && !Locked(e) && U.Desired(w.registry, e).Ok?
    ensures Next(w, OtherWrite(e)).registry == U.Adopted(w.registry, e)
  {
    hide U.Desired;
    hide U.Adopted;
  }

  lemma RegroupLands(w: Joint)
    requires WellLocked(w) && w.bindings.Regrouping? && w.bindings.phase == 2 && w.bindings.base == w.registry
    requires U.Desired(w.registry, w.bindings.edit).Ok?
    ensures Next(w, ApplyRegroup).registry == U.Adopted(w.registry, w.bindings.edit)
  {
    hide U.Desired;
    hide U.Adopted;
  }

  lemma LateLands(w: Joint, q: U.Request)
    requires WellLocked(w) && q in w.late && q.base == w.registry && U.Desired(q.base, q.edit).Ok?
    ensures Next(w, LandLate(q)).registry == U.Adopted(q.base, q.edit)
  {
    hide U.Desired;
    hide U.Adopted;
  }

  lemma LandingAdopts(s: U.State, q: U.Request)
    requires U.Enabled(s, U.Land(q))
    ensures U.Desired(q.base, q.edit).Ok? && U.Effect(s, U.Land(q)).current == U.Adopted(q.base, q.edit)
  {
    hide U.Desired;
    hide U.Adopted;
  }

  // ---- where the protection ends -----------------------------------------------------------------------

  /** A registry holding its default group and one more. */
  function TwoGroups(): U.Registry {
    U.Registry(1, 1, 0, "a", "", "", [U.Group("a", true, ""), U.Group("g", true, "")])
  }

  /** One enabled route source, bound to the group. */
  function BoundSource(group: string): Sources {
    Sources(map[1 := Source(1, "route", "upstream", "url", "s", "", 900, true, "", 0, 0, 0, "", 0, 0, [])],
            map[1 := Binding(1, 1, group, 100, 0, 0)], 1, 1)
  }

  /** A registry call without an answer that lands after its writer has let go of the lock strands a binding:
      the deletion of g is sent and lost, a source is then bound to g, and the deletion is adopted last. */
  lemma LateCallStrandsBinding()
    ensures U.WellFormed(TwoGroups())
    ensures var drop := U.DropGroup("g");
      Stranded(RunAll(Beginning(TwoGroups()),
        [BeginRegroup(drop), CheckTables, CheckSnapshots, LoseRegroup]
        + [BeginMutation, ReadGroups, EditSources(BoundSource("g")), EndMutation]
        + [LandLate(U.Request(TwoGroups(), drop))]))
  {
    var r0, drop := TwoGroups(), U.DropGroup("g");
    var w0 := Beginning(r0);
    TwoGroupsAre(r0);
    hide U.Desired;
    hide U.EnabledIds;
    hide U.WellFormed;
    hide Next;
    hide RunAll;
    hide Stranded;
    LostDeletion(r0, drop);
    var w1 := w0.(late := {U.Request(r0, drop)});
    OnlyBound(BoundSource("g"), 1);
    BoundAfter(w1, BoundSource("g"), "g");
    var w2 := w1.(world := w1.world.(db := w1.world.db.(sources := BoundSource("g"))));
    DeletionLands(w2, r0);
    var deletion := [BeginRegroup(drop), CheckTables, CheckSnapshots, LoseRegroup];
    var binding := [BeginMutation, ReadGroups, EditSources(BoundSource("g")), EndMutation];
    RunAllConcat(w0, deletion, binding);
    RunAllConcat(w0, deletion + binding, [LandLate(U.Request(r0, drop))]);
    OneAction(w2, LandLate(U.Request(r0, drop)));
  }

  lemma TwoGroupsAre(r0: U.Registry)
    requires r0 == TwoGroups()
    ensures U.WellFormed(r0) && U.Desired(r0, U.DropGroup("g")).Ok? && "g" in U.EnabledIds(r0)
  {
    assert r0.groups[0].id == "a" && r0.groups[1].id == "g" && r0.groups[1].enabled;
  }

  ghost predicate Stranded(w: Joint) {
    var bindings := w.world.db.sources.bindings;
    exists id :: id in bindings && bindings[id].groupId !in U.EnabledIds(w.registry)
  }

  lemma OnlyBound(s: Sources, id: int)
    requires s.bindings.Keys == {id}
    ensures Bound(s) == {s.bindings[id].groupId}
  {
    assert id in s.bindings && s.bindings[id].groupId in Bound(s);
  }

  lemma LostDeletion(r0: U.Registry, drop: U.Edit)
    requires drop.DropGroup? && U.Desired(r0, drop).Ok?
    ensures RunAll(Beginning(r0), [BeginRegroup(drop), CheckTables, CheckSnapshots, LoseRegroup])
         == Beginning(r0).(late := {U.Request(r0, drop)})
  {
    hide U.Desired;
    FourActions(Beginning(r0), BeginRegroup(drop), CheckTables, CheckSnapshots, LoseRegroup);
  }

  lemma BoundAfter(w: Joint, bound: Sources, g: string)
    requires w.bindings.Free? && w.mutex.Unlocked? && SourcesOk(bound) && Bound(bound) == {g}
    requires g in U.EnabledIds(w.registry)
    ensures RunAll(w, [BeginMutation, ReadGroups, EditSources(bound), EndMutation])
         == w.(world := w.world.(db := w.world.db.(sources := bound)))
  {
    FourActions(w, BeginMutation, ReadGroups, EditSources(bound), EndMutation);
  }

  lemma DeletionLands(w: Joint, r0: U.Registry)
    requires r0 == TwoGroups() && w.registry == r0
    requires U.Request(r0, U.DropGroup("g")) in w.late && WellLocked(w)
    requires 1 in w.world.db.sources.bindings && w.world.db.sources.bindings[1].groupId == "g"
    ensures Stranded(Next(w, LandLate(U.Request(r0, U.DropGroup("g")))))
  {
    var groups := r0.groups;
    assert U.GroupIndex(groups, "g") == 1;
    var after := Next(w, LandLate(U.Request(r0, U.DropGroup("g"))));
    assert after.registry.groups == [U.Group("a", true, "")];
    assert "g" !in U.EnabledIds(after.registry);
  }

  /** What was read of the registry at the version it holds now is what it holds; and it is well formed. */
  ghost predicate Versioned(w: Joint) {
    && WellLocked(w) && U.WellFormed(w.registry)
    && (w.bindings.Regrouping? ==> ReadBefore(w.bindings.base, w.registry))
    && forall q | q in w.late :: ReadBefore(q.base, w.registry)
  }

  predicate ReadBefore(base: U.Registry, now: U.Registry) {
    base.version <= now.version && (base.version == now.version ==> base == now)
  }

  lemma ActKeepsVersioned(w: Joint, a: Action)
    requires Versioned(w)
    ensures Versioned(Next(w, a))
  {
    hide U.WellFormed;
    hide U.Desired;
    hide Protocol.Step;
    if WellLocked(w) && CanAct(w, a) {
      match a
      case ApplyRegroup => NextRegistry(w.registry, w.bindings.edit);
      case LandLate(q) => NextRegistry(w.registry, q.edit);
      case OtherWrite(e) => NextRegistry(w.registry, e);
      case _ =>
    }
  }

  lemma NextRegistry(r: U.Registry, e: U.Edit)
    requires U.WellFormed(r) && U.Desired(r, e).Ok?
    ensures U.WellFormed(U.Adopted(r, e)) && U.Adopted(r, e).version == r.version + 1
  {
    U.AdoptedIsWellFormed(r, e);
    VersionGrows(r, e);
  }

  /** In every interleaving, calls that land late included, equal versions mean equal registries. */
  lemma {:induction false} EveryRunIsVersioned(r0: U.Registry, actions: seq<Action>)
    requires U.WellFormed(r0)
    ensures Versioned(RunAll(Beginning(r0), actions))
  {
    hide Next;
    hide Versioned;
    if actions == [] {
      BeginningIsVersioned(r0);
    } else {
      EveryRunIsVersioned(r0, actions[..|actions| - 1]);
      ActKeepsVersioned(RunAll(Beginning(r0), actions[..|actions| - 1]), actions[|actions| - 1]);
    }
  }

  lemma BeginningIsVersioned(r0: U.Registry)
    requires U.WellFormed(r0)
    ensures Versioned(Beginning(r0))
  {
    hide U.WellFormed;
  }

  /** An enabled route rule or a route set of a live snapshot names a group the edit takes away. */
  ghost predicate RowsThreatened(rows: seq<Row>, edit: U.Edit) {
    exists i :: 0 <= i < |rows| && Live(rows[i]) && SnapshotThreatened(rows[i].snapshot, edit)
  }

  predicate SnapshotThreatened(m: Snapshot, edit: U.Edit) {
    || (exists k :: 0 <= k < |m.rules| && m.rules[k].category == "route" && U.Threatens(edit, m.rules[k].groupId))
    || (exists k :: 0 <= k < |m.sets| && m.sets[k].category == "route" && U.Threatens(edit, m.sets[k].groupId))
  }

  /** A group enabled before the edit stays enabled exactly when the edit does not threaten it. */
  lemma StaysEnabledExactlyWhen(r: U.Registry, e: U.Edit, g: string)
    requires U.WellFormed(r) && U.Desired(r, e).Ok? && g in U.EnabledIds(r)
    ensures g in U.EnabledIds(U.Adopted(r, e)) <==> !U.Threatens(e, g)
  {
    if U.Threatens(e, g) {
      U.ThreatenedIsGone(r, e, g);
    } else {
      U.OthersStayEnabled(r, e, g);
    }
  }

  /** From a state in which every binding and every live snapshot names enabled groups only, a registry call that lands
      late breaks the one or the other exactly when a binding, or a route rule or set of a live snapshot, names the
      group it takes away. */
  lemma LateCallStrandsExactlyWhen(w: Joint, q: U.Request)
    requires Versioned(w) && CanAct(w, LandLate(q))
    requires Bound(w.world.db.sources) <= U.EnabledIds(w.registry)
    ensures Stranded(Act(w, LandLate(q))) <==>
      exists id :: id in w.world.db.sources.bindings && U.Threatens(q.edit, w.world.db.sources.bindings[id].groupId)
    ensures RowsWithin(w.world.db.rows, U.EnabledIds(w.registry)) ==>
      (RowsThreatened(w.world.db.rows, q.edit) <==>
        !RowsWithin(Act(w, LandLate(q)).world.db.rows, U.EnabledIds(Act(w, LandLate(q)).registry)))
  {
    LateLandingIs(w, q);
    hide CanAct;
    hide Act;
    hide U.Adopted;
    hide U.Desired;
    hide U.EnabledIds;
    hide U.Threatens;
    hide U.WellFormed;
    var bindings := w.world.db.sources.bindings;
    var e, e' := U.EnabledIds(w.registry), U.EnabledIds(U.Adopted(w.registry, q.edit));
    forall g | g in e ensures g in e' <==> !U.Threatens(q.edit, g) {
      StaysEnabledExactlyWhen(w.registry, q.edit, g);
    }
    forall id | id in bindings ensures bindings[id].groupId in e {
      assert bindings[id].groupId in Bound(w.world.db.sources);
    }
    if RowsWithin(w.world.db.rows, e) { ThreatenedRows(w.world.db.rows, e, e', q.edit); }
  }

  lemma LateLandingIs(w: Joint, q: U.Request)
    requires Versioned(w) && CanAct(w, LandLate(q))
    ensures U.WellFormed(w.registry) && U.Desired(w.registry, q.edit).Ok?
    ensures Act(w, LandLate(q)) == w.(registry := U.Adopted(w.registry, q.edit))
  {
    hide U.Desired;
    hide U.Adopted;
    hide U.WellFormed;
  }

  lemma ThreatenedRows(rows: seq<Row>, e: set<string>, e': set<string>, edit: U.Edit)
    requires RowsWithin(rows, e) && forall g | g in e :: g in e' <==> !U.Threatens(edit, g)
    ensures RowsThreatened(rows, edit) <==> !RowsWithin(rows, e')
  {
    forall i | 0 <= i < |rows| && Live(rows[i])
      ensures SnapshotThreatened(rows[i].snapshot, edit) <==> !SnapshotWithin(rows[i].snapshot, e')
    {
      ThreatenedSnapshot(rows[i].snapshot, e, e', edit);
    }
    hide SnapshotThreatened;
    hide SnapshotWithin;
  }

  lemma ThreatenedSnapshot(m: Snapshot, e: set<string>, e': set<string>, edit: U.Edit)
    requires SnapshotWithin(m, e) && forall g | g in e :: g in e' <==> !U.Threatens(edit, g)
    ensures SnapshotThreatened(m, edit) <==> !SnapshotWithin(m, e')
  {
    hide U.Threatens;
  }

  lemma OneAction(w: Joint, a: Action)
    ensures RunAll(w, [a]) == Next(w, a)
  {
    assert [a][..0] == [];
    assert RunAll(w, []) == w;
  }

  lemma FourActions(w: Joint, a: Action, b: Action, c: Action, d: Action)
    ensures RunAll(w, [a, b, c, d]) == Next(Next(Next(Next(w, a), b), c), d)
  {
    hide Next;
    OneAction(w, a);
    assert [a, b, c, d][..3] == [a, b, c] && [a, b, c][..2] == [a, b] && [a, b][..1] == [a];
    assert RunAll(w, [a, b]) == Next(RunAll(w, [a]), b);
    assert RunAll(w, [a, b, c]) == Next(RunAll(w, [a, b]), c);
  }

  lemma {:induction false} RunAllConcat(w: Joint, a: seq<Action>, b: seq<Action>)
    ensures RunAll(w, a + b) == RunAll(RunAll(w, a), b)
    decreases |b|
  {
    hide Next;
    if b == [] {
      assert a + b == a;
    } else {
      var front := b[..|b| - 1];
      assert (a + b)[..|a + b| - 1] == a + front;
      RunAllConcat(w, a, front);
    }
  }

  /** A candidate with one disabled route rule, recorded and sent to the runtime without an answer. */
  function DisabledCandidate(r: Rule): seq<Action> {
    [BeginMutation, ReadGroups, Progress(ReserveIds(1)), InsertMutation(0, [r], [], 0)]
      + [Progress(SendApply(1)), Progress(MarkUnknown(1)), EndMutation]
  }

  /** The group the rule names is deleted, after both queries of the reference check. */
  function CheckedDeletion(): seq<Action> {
    [BeginRegroup(U.DropGroup("g")), CheckTables, CheckSnapshots, ApplyRegroup]
  }

  /** The message arrives, and a reconcile finalises the candidate. */
  function LateFinish(): seq<Action> {
    [Progress(Deliver(Snapshot(1, 0, 0, [], []))), BeginReconcile, Progress(Finalize(1)), EndReconcile]
  }

  /** Snapshots hold enabled rules only, so a disabled rule of an open candidate does not protect its group: both
      queries pass, the group goes, and once the candidate is finalised every publish of the table fails on its
      route targets. Every registry call of this run is decided before its writer lets go of the lock. */
  lemma DisabledRuleIsUnprotected(r: Rule)
    requires r.id == 1 && !r.enabled && r.category == "route" && r.groupId == "g" && r.expectedRegistry == None
    requires !HiddenSource(r.source)
    ensures var actions := DisabledCandidate(r) + CheckedDeletion() + LateFinish();
      var w := RunAll(Beginning(TwoGroups()), actions);
      && Decided(actions)
      && AllRules(w.world.db) == [r] && "g" !in U.EnabledIds(w.registry)
      && O.RouteTargetsError(
           AllRules(w.world.db), None, Some(O.RegistryView(w.registry.version, U.EnabledIds(w.registry)))) != O.NoError
  {
    var w0 := Beginning(TwoGroups());
    CandidateRecorded(r);
    var w1 := w0.(world := CandidateWorld(r));
    UnprotectedGoes(w1, r);
    CandidateFinished(w1.(registry := WithoutG()), r);
    RunAllConcat(w0, DisabledCandidate(r), CheckedDeletion());
    RunAllConcat(w0, DisabledCandidate(r) + CheckedDeletion(), LateFinish());
    AllDecided(r);
    GIsGone();
    TargetIsGone(r);
    hide *;
  }

  lemma AllDecided(r: Rule)
    ensures Decided(DisabledCandidate(r) + CheckedDeletion() + LateFinish())
  {}

  lemma TargetIsGone(r: Rule)
    requires r.category == "route" && r.groupId == "g"
    ensures var view := O.RegistryView(WithoutG().version, U.EnabledIds(WithoutG()));
      O.RouteTargetsError([r], None, Some(view)) != O.NoError
  {
    GIsGone();
    TrimmedG();
    hide TrimSpace;
    hide U.EnabledIds;
    assert TrimSpace([r][0].groupId) in O.TargetGroups([r]);
  }

  lemma TrimmedG()
    ensures TrimSpace("g") == "g"
  {}

  /** The registry once the second group is deleted. */
  function WithoutG(): U.Registry {
    U.Registry(1, 2, 0, "a", "", "", [U.Group("a", true, "")])
  }

  lemma GIsGone()
    ensures "g" !in U.EnabledIds(WithoutG())
    ensures U.Desired(TwoGroups(), U.DropGroup("g")).Ok?
    ensures U.Adopted(TwoGroups(), U.DropGroup("g")) == WithoutG()
  {
    assert U.GroupIndex(TwoGroups().groups, "g") == 1;
  }

  /** The disabled rule is in the stored list, and not in the snapshot. */
  function CandidateWorld(r: Rule): World {
    var m := Snapshot(1, 0, 0, [], []);
    var row := Row(m, [r], Unknown, 0, 0, "PUBLISH_UNKNOWN");
    World(Store.Db([row], map[], 1, Sources(map[], map[], 0, 0)), None, {m}, {})
  }

  lemma CandidateRecorded(r: Rule)
    requires r.id == 1 && !r.enabled && r.groupId == "g" && r.expectedRegistry == None
    ensures RunAll(Beginning(TwoGroups()), DisabledCandidate(r)) == Beginning(TwoGroups()).(world := CandidateWorld(r))
  {
    var w0 := Beginning(TwoGroups());
    var a := [BeginMutation, ReadGroups, Progress(ReserveIds(1)), InsertMutation(0, [r], [], 0)];
    var b := [Progress(SendApply(1)), Progress(MarkUnknown(1)), EndMutation];
    RunAllConcat(w0, a, b);
    FourActions(w0, a[0], a[1], a[2], a[3]);
    CandidateInserted(r);
    var w := Next(Next(Next(Next(w0, a[0]), a[1]), a[2]), a[3]);
    ThreeActions(w, b[0], b[1], b[2]);
    CandidateLeftOpen(w, r);
  }

  function InsertedWorld(r: Rule): World {
    var row := Row(Snapshot(1, 0, 0, [], []), [r], Pending, 0, 0, "");
    World(Store.Db([row], map[], 1, Sources(map[], map[], 0, 0)), None, {}, {})
  }

  lemma CandidateInserted(r: Rule)
    requires r.id == 1 && !r.enabled && r.groupId == "g" && r.expectedRegistry == None
    ensures var w0 := Beginning(TwoGroups());
      Next(Next(Next(Next(w0, BeginMutation), ReadGroups), Progress(ReserveIds(1))), InsertMutation(0, [r], [], 0))
        == w0.(world := InsertedWorld(r), mutex := Mutating, bindings := Editing({}, U.EnabledIds(TwoGroups())))
  {
    TwoGroupsAre(TwoGroups());
    MutationBegun(TwoGroups());
    hide U.EnabledIds;
    InsertedNow(Next(Next(Beginning(TwoGroups()), BeginMutation), ReadGroups), r);
    hide Next;
  }

  lemma MutationBegun(r0: U.Registry)
    ensures Next(Next(Beginning(r0), BeginMutation), ReadGroups)
      == Beginning(r0).(mutex := Mutating, bindings := Editing({}, U.EnabledIds(r0)))
  {
    hide U.EnabledIds;
    assert Bound(Beginning(r0).world.db.sources) == {};
  }

  lemma InsertedNow(w: Joint, r: Rule)
    requires r.id == 1 && !r.enabled && r.groupId == "g" && r.expectedRegistry == None
    requires w.mutex.Mutating? && w.bindings.Editing? && "g" in w.bindings.view
    requires w.world == Beginning(w.registry).world
    ensures Next(Next(w, Progress(ReserveIds(1))), InsertMutation(0, [r], [], 0)) == w.(world := InsertedWorld(r))
  {
    NoSets();
    DisabledWire(r);
    hide Wire;
    hide SubscriptionSets;
    var w1 := Next(w, Progress(ReserveIds(1)));
    assert w1 == w.(world := w.world.(db := w.world.db.(lastRuleId := 1)));
    assert StoredList([r]) == [r];
    assert NewRow(w1.world.db, 0, [r], [], 0) == Row(Snapshot(1, 0, 0, [], []), [r], Pending, 0, 0, "");
  }

  lemma NoSets()
    ensures SubscriptionSets(Sources(map[], map[], 0, 0)) == Ok([])
  {
    var s := Sources(map[], map[], 0, 0);
    assert SortedIds(s.rows.Keys) == [];
  }

  lemma CandidateLeftOpen(w: Joint, r: Rule)
    requires w.world == InsertedWorld(r) && w.mutex.Mutating? && w.bindings.Editing?
    ensures Next(Next(Next(w, Progress(SendApply(1))), Progress(MarkUnknown(1))), EndMutation)
      == w.(world := CandidateWorld(r), mutex := Unlocked, bindings := Free)
  {}

  lemma NothingNamesG(r: Rule)
    ensures !TablesName(CandidateWorld(r).db, "g") && !LiveNames(CandidateWorld(r).db.rows, "g")
  {}

  lemma UnprotectedGoes(w: Joint, r: Rule)
    requires w.world == CandidateWorld(r) && w.registry == TwoGroups() && w.bindings.Free? && !w.mutex.Mutating?
    ensures RunAll(w, CheckedDeletion()) == w.(registry := WithoutG())
  {
    GIsGone();
    NothingNamesG(r);
    FourActions(w, BeginRegroup(U.DropGroup("g")), CheckTables, CheckSnapshots, ApplyRegroup);
    hide U.Desired;
    hide U.Adopted;
    hide RunAll;
    hide TablesName;
    hide LiveNames;
    hide CandidateWorld;
    hide Protocol.Step;
    hide TwoGroups;
    hide WithoutG;
  }

  lemma CandidateFinished(w: Joint, r: Rule)
    requires w.world == CandidateWorld(r) && w.mutex.Unlocked? && !w.bindings.Editing? && WellLocked(w)
    requires r.id == 1 && !HiddenSource(r.source)
    ensures var w' := RunAll(w, LateFinish()); AllRules(w'.world.db) == [r] && w'.registry == w.registry
  {
    hide HiddenSource;
    hide AllRules;
    hide TableOf;
    hide ActivatedRow;
    hide RunAll;
    hide TablesName;
    hide LiveNames;
    hide SubscriptionSets;
    var a := LateFinish();
    FourActions(w, a[0], a[1], a[2], a[3]);
    var w' := Next(Next(Next(Next(w, a[0]), a[1]), a[2]), a[3]);
    assert w'.world.db == Activate(CandidateWorld(r).db, 1);
    OneRuleListed(w'.world.db, r);
  }

  lemma ThreeActions(w: Joint, a: Action, b: Action, c: Action)
    ensures RunAll(w, [a, b, c]) == Next(Next(Next(w, a), b), c)
  {
    hide Next;
    OneAction(w, a);
    assert [a, b, c][..2] == [a, b] && [a, b][..1] == [a];
    assert RunAll(w, [a, b]) == Next(RunAll(w, [a]), b);
  }

  /** The stored rules and sets of a row that the reference check finds in its snapshot. */
  ghost predicate RowNames(row: Row, group: string) {
    || (exists r :: r in row.rules && r.enabled && r.groupId == group)
    || (exists k :: 0 <= k < |row.snapshot.sets| && row.snapshot.sets[k].groupId == group)
  }

  lemma SnapshotNamesEnabled(row: Row, group: string)
    requires row.snapshot.rules == Wire(row.rules) && DistinctIds(row.rules)
    ensures SnapshotNames(row.snapshot, group) <==> RowNames(row, group)
  {
    WireSortsEnabled(row.rules);
    hide Wire;
    var rules := row.snapshot.rules;
    if i :| 0 <= i < |rules| && rules[i].groupId == group {
      assert rules[i] in rules;
      var r :| r in row.rules && r.enabled && ToWire(r) == rules[i];
      assert r.groupId == group;
    }
    if r :| r in row.rules && r.enabled && r.groupId == group {
      EnabledRuleIsCarried(row, r);
    }
  }

  /** In every reachable state the query over the live snapshots finds a group exactly when an enabled stored rule, or
      a set, of a live version names it. */
  lemma LiveNamesExactlyWhen(w: World, group: string)
    requires Sound(w)
    ensures LiveNames(w.db.rows, group) <==>
      exists i :: 0 <= i < |w.db.rows| && Live(w.db.rows[i]) && RowNames(w.db.rows[i], group)
  {
    var rows := w.db.rows;
    forall i | 0 <= i < |rows| ensures SnapshotNames(rows[i].snapshot, group) <==> RowNames(rows[i], group) {
      assert RowOk(rows[i], i, w.db.lastRuleId);
      SnapshotNamesEnabled(rows[i], group);
    }
    hide Sound;
    hide SnapshotNames;
    hide RowNames;
  }

  /** The reference check refuses: one of its two queries finds the group. */
  ghost predicate Referenced(db: Store.Db, group: string) {
    TablesName(db, group) || LiveNames(db.rows, group)
  }

  ghost predicate LiveSetNames(rows: seq<Row>, group: string) {
    exists j, k :: 0 <= j < |rows| && Live(rows[j]) && 0 <= k < |rows[j].snapshot.sets|
      && rows[j].snapshot.sets[k].groupId == group
  }

  ghost predicate OtherRuleNames(rows: seq<Row>, i: nat, r: Rule) {
    exists j, other :: 0 <= j < |rows| && Live(rows[j]) && other in rows[j].rules && (j != i || other != r)
      && other.enabled && other.groupId == r.groupId
  }

  /** A binding or a row of the rule table names the rule's group, or a set of a live version, or another enabled
      rule of one. */
  ghost predicate NamedElsewhere(db: Store.Db, i: nat, r: Rule) {
    TablesName(db, r.groupId) || LiveSetNames(db.rows, r.groupId) || OtherRuleNames(db.rows, i, r)
  }

  /** So a rule of a live version makes the check refuse its group exactly when the rule is enabled or something else
      names the group. */
  lemma RuleProtectsExactlyWhenEnabled(w: World, i: nat, r: Rule)
    requires Sound(w) && i < |w.db.rows| && Live(w.db.rows[i]) && r in w.db.rows[i].rules
    ensures Referenced(w.db, r.groupId) <==> r.enabled || NamedElsewhere(w.db, i, r)
  {
    LiveNamesExactlyWhen(w, r.groupId);
    hide Sound;
    hide TablesName;
    hide LiveNames;
    var rows, g := w.db.rows, r.groupId;
    if LiveNames(rows, g) {
      var j :| 0 <= j < |rows| && Live(rows[j]) && RowNames(rows[j], g);
      if other :| other in rows[j].rules && other.enabled && other.groupId == g {
        assert r.enabled || j != i || other != r;
      }
    }
    if r.enabled {
      assert RowNames(rows[i], g);
    }
    if LiveSetNames(rows, g) {
      var j, k :| 0 <= j < |rows| && Live(rows[j]) && 0 <= k < |rows[j].snapshot.sets|
        && rows[j].snapshot.sets[k].groupId == g;
      assert RowNames(rows[j], g);
    }
    if OtherRuleNames(rows, i, r) {
      var j, other :| 0 <= j < |rows| && Live(rows[j]) && other in rows[j].rules && other.enabled && other.groupId == g;
      assert RowNames(rows[j], g);
    }
  }

  lemma DisabledWire(r: Rule)
    requires !r.enabled
    ensures Wire([r]) == []
  {
    EnabledWireAppend([], r);
    assert [] + [r] == [r];
  }

  lemma OneRuleListed(db: Store.Db, r: Rule)
    requires db.table == TableOf([r]) && !HiddenSource(r.source)
    ensures AllRules(db) == [r]
  {
    assert [r][..0] == [];
    assert TableOf([r]) == map[r.id := r];
    AllRulesAreTheVisibleRows(db);
    hide AllRules;
    hide HiddenSource;
    hide Like;
    hide TableOf;
    var all := AllRules(db);
    assert r in all;
    assert forall k | 0 <= k < |all| :: all[k] in all && all[k] == r;
    assert |all| > 1 ==> all[0].id != all[1].id;
  }
}
