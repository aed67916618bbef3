/** Subscription edits: each changes the source tables, publishes, and then keeps the change or takes it
    back, depending on what is known of the publish. */
module Subscriptions {
  import opened Ordering
  import opened Text
  import opened RuleModel
  import opened Validation
  import opened Store
  import opened Protocol
  import opened Publication
  import opened Outcomes
  import opened R = RuleService

  /** The two source tables, without their AUTOINCREMENT counters. */
  datatype Tables = Tables(rows: map<int, Source>, bindings: map<int, Binding>)

  function TablesOf(s: Sources): Tables { Tables(s.rows, s.bindings) }

  // ---- the statements -----------------------------------------------------------------------

  /** INSERT of a source, with its binding if it has one. */
  function WithSource(s: Sources, src: Source): Sources {
    s.(rows := s.rows[src.id := src], lastSource := if src.id > s.lastSource then src.id else s.lastSource)
  }

  function WithBinding(s: Sources, b: Binding): Sources {
    s.(bindings := s.bindings[b.subscriptionId := b],
       lastBinding := if b.id > s.lastBinding then b.id else s.lastBinding)
  }

  /** DELETE of a source: its binding goes with it. */
  function WithoutSource(s: Sources, id: int): Sources {
    s.(rows := s.rows - {id}, bindings := s.bindings - {id})
  }

  /** UPDATE of one source, or of one binding: nothing when the row is missing. */
  function UpdateSource(s: Sources, id: int, f: Source -> Source): Sources {
    if id in s.rows then s.(rows := s.rows[id := f(s.rows[id])]) else s
  }

  function UpdateBinding(s: Sources, id: int, groupId: string, priority: int, now: int): Sources {
    if id in s.bindings
    then s.(bindings := s.bindings[id := s.bindings[id].(groupId := groupId, priority := priority, updatedAt := now)])
    else s
  }

  /** What the downloaded or uploaded body gave. */
  datatype Content = Content(url: string, checksum: string, domains: seq<string>)

  /** The columns a refresh writes. */
  datatype Fetched = Fetched(
    url: string, contentChecksum: string, ruleCount: int, lastChecked: int, lastSuccess: int, lastError: string,
    updatedAt: int, domains: seq<string>)

  function PutFetched(src: Source, f: Fetched): Source {
    src.(url := f.url, contentChecksum := f.contentChecksum, ruleCount := f.ruleCount, lastChecked := f.lastChecked,
         lastSuccess := f.lastSuccess, lastError := f.lastError, updatedAt := f.updatedAt, domains := f.domains)
  }

  function FetchedOf(src: Source): Fetched {
    Fetched(src.url, src.contentChecksum, src.ruleCount, src.lastChecked, src.lastSuccess, src.lastError,
            src.updatedAt, src.domains)
  }

  /** Timestamps of a row move forward even when the clock does not. */
  function Later(now: int, was: int): int { if now <= was then was + 1 else now }

  // ---- the edits and their restores -----------------------------------------------------------

  datatype Edit =
    | Create(source: Source, binding: Option<Binding>)
    | Refresh(id: int, fetched: Fetched)
    | SetEnabled(id: int, enabled: bool, updatedAt: int)
    | Delete(id: int)
    | Rebind(id: int, groupId: string, priority: int, updatedAt: int)

  function Edited(s: Sources, e: Edit): Sources {
    match e
    case Create(src, None) => WithSource(s, src)
    case Create(src, Some(b)) => WithBinding(WithSource(s, src), b)
    case Refresh(id, f) => UpdateSource(s, id, src => PutFetched(src, f))
    case SetEnabled(id, on, at) => UpdateSource(s, id, (src: Source) => src.(enabled := on, updatedAt := at))
    case Delete(id) => WithoutSource(s, id)
    case Rebind(id, group, priority, at) => UpdateBinding(s, id, group, priority, at)
  }

  /** An edit the code makes: rows exist, and new rows carry the next AUTOINCREMENT ids. */
  predicate Fits(s: Sources, e: Edit) {
    match e
    case Create(src, b) =>
      && src.id == s.lastSource + 1
      && (b.Some? ==> b.value.subscriptionId == src.id && b.value.id == s.lastBinding + 1)
    case Refresh(id, _) => id in s.rows
    case SetEnabled(id, _, _) => id in s.rows
    case Delete(id) => id in s.rows
    case Rebind(id, _, _, _) => id in s.rows && id in s.bindings
  }

  /** The restore closure an edit captures: the values it writes back were read before the edit. */
  datatype Restore =
    | DropSource(id: int)
    | PutBackContent(id: int, fetched: Fetched)
    | PutBackEnabled(id: int, enabled: bool, updatedAt: int)
    | PutBackSource(source: Source, binding: Option<Binding>)
    | PutBackBinding(id: int, groupId: string, priority: int, updatedAt: int)

  function RestoreOf(s: Sources, e: Edit): Restore
    requires Fits(s, e)
  {
    match e
    case Create(src, _) => DropSource(src.id)
    case Refresh(id, _) => PutBackContent(id, FetchedOf(s.rows[id]))
    case SetEnabled(id, _, _) => PutBackEnabled(id, s.rows[id].enabled, s.rows[id].updatedAt)
    case Delete(id) => PutBackSource(s.rows[id], if id in s.bindings then Some(s.bindings[id]) else None)
    case Rebind(id, _, _, _) =>
      PutBackBinding(id, s.bindings[id].groupId, s.bindings[id].priority, s.bindings[id].updatedAt)
  }

  /** The source tables after each statement of a restore. */
  function RestoreSteps(s: Sources, r: Restore): (steps: seq<Sources>)
    ensures 1 <= |steps| <= 2
  {
    match r
    case DropSource(id) => [WithoutSource(s, id)]
    case PutBackContent(id, f) => [UpdateSource(s, id, src => PutFetched(src, f))]
    case PutBackEnabled(id, on, at) => [UpdateSource(s, id, (src: Source) => src.(enabled := on, updatedAt := at))]
    case PutBackSource(src, None) => [WithSource(s, src)]
    case PutBackSource(src, Some(b)) => [WithSource(s, src), WithBinding(WithSource(s, src), b)]
    case PutBackBinding(id, group, priority, at) => [UpdateBinding(s, id, group, priority, at)]
  }

  function LastStep(s: Sources, r: Restore): Sources {
    var steps := RestoreSteps(s, r);
    steps[|steps| - 1]
  }

  /** The source tables once the edit was made and n statements of its restore were. */
  function RestoredAfter(s: Sources, e: Edit, n: nat): Sources
    requires Fits(s, e)
  {
    var steps := RestoreSteps(Edited(s, e), RestoreOf(s, e));
    if n == 0 then Edited(s, e) else steps[(if n < |steps| then n else |steps|) - 1]
  }

  /** n statements are all that the restore takes. */
  predicate Completes(s: Sources, e: Edit, n: nat) {
    n >= if e.Delete? && e.id in s.bindings then 2 else 1
  }

  lemma EditKeepsConstraints(s: Sources, e: Edit)
    requires SourcesOk(s) && Fits(s, e)
    ensures SourcesOk(Edited(s, e))
  {}

  /** Every restore is an exact inverse of its edit, on the full rows: ids and timestamps included. Only the
      AUTOINCREMENT counters keep the numbers that were spent. */
  lemma RestoreUndoesEdit(s: Sources, e: Edit)
    requires SourcesOk(s) && Fits(s, e)
    ensures TablesOf(LastStep(Edited(s, e), RestoreOf(s, e))) == TablesOf(s)
  {
    var t := LastStep(Edited(s, e), RestoreOf(s, e));
    match e
    case Create(src, b) =>
      assert src.id !in s.rows && src.id !in s.bindings;
      assert t.rows == s.rows && t.bindings == s.bindings;
    case Refresh(id, f) =>
      assert PutFetched(PutFetched(s.rows[id], f), FetchedOf(s.rows[id])) == s.rows[id];
      assert t.rows == s.rows;
    case SetEnabled(id, on, at) => assert t.rows == s.rows;
    case Delete(id) => assert t.rows == s.rows && t.bindings == s.bindings;
    case Rebind(id, _, _, _) => assert t.bindings == s.bindings;
  }

  lemma RestoreKeepsConstraints(s: Sources, e: Edit, i: nat)
    requires SourcesOk(s) && Fits(s, e)
    ensures i < |RestoreSteps(Edited(s, e), RestoreOf(s, e))| ==>
      SourcesOk(RestoreSteps(Edited(s, e), RestoreOf(s, e))[i])
  {}

  /** Only a restore of a bound source takes two statements; in between the source is back without its binding. */
  lemma HalfRestored(s: Sources, e: Edit)
    requires SourcesOk(s) && Fits(s, e)
    ensures var steps := RestoreSteps(Edited(s, e), RestoreOf(s, e));
      |steps| == 2 <==> e.Delete? && e.id in s.bindings
    ensures e.Delete? && e.id in s.bindings ==>
      TablesOf(RestoreSteps(Edited(s, e), RestoreOf(s, e))[0]) == Tables(s.rows, s.bindings - {e.id})
  {
    if e.Delete? && e.id in s.bindings {
      assert RestoreSteps(Edited(s, e), RestoreOf(s, e))[0].rows == s.rows;
    }
  }

  lemma CompleteRestore(s: Sources, e: Edit, n: nat)
    requires SourcesOk(s) && Fits(s, e) && Completes(s, e, n)
    ensures TablesOf(RestoredAfter(s, e, n)) == TablesOf(s)
  {
    RestoreUndoesEdit(s, e);
    HalfRestored(s, e);
    hide Edited;
    hide RestoreOf;
    hide RestoreSteps;
  }

  /** Half restored, the sets query fails exactly when it failed before the edit or the source is an enabled route
      source. Then no later publish records anything and no reconcile succeeds, until the binding or the source is
      changed. */
  lemma HalfRestoredStopsPublishing(s: Sources, half: Sources, id: int)
    requires SourcesOk(s) && id in s.bindings && TablesOf(half) == Tables(s.rows, s.bindings - {id})
    ensures SubscriptionSets(half).Err? <==>
      SubscriptionSets(s).Err? || (s.rows[id].enabled && s.rows[id].category == "route")
    ensures SubscriptionSets(half).Err? ==>
      forall db: Db, observed | db.sources == half :: !Converged(db, observed)
    ensures SubscriptionSets(half).Err? ==>
      forall libs, rules, registry :: !Preparable(libs, half, rules, registry)
  {
    hide SubscriptionSets;
    hide RouteTargetsError;
    hide Accepted;
    SetsFailExactlyWhenUnbound(s);
    SetsFailExactlyWhenUnbound(half);
    if s.rows[id].enabled && s.rows[id].category == "route" {
      assert id in half.rows && id !in half.bindings;
    }
    if k :| k in s.rows && s.rows[k].enabled && s.rows[k].category == "route" && k !in s.bindings {
      assert k in half.rows && k !in half.bindings;
    }
  }

  // ---- crashes --------------------------------------------------------------------------------

  /** The states of the source tables a restore can leave: before the edit, and half restored. */
  ghost function RestoredStates(s: Sources, e: Edit): set<Tables> {
    {TablesOf(s)} + if e.Delete? && e.id in s.bindings then {Tables(s.rows, s.bindings - {e.id})} else {}
  }

  /** The states of the source tables an edit can leave: after it, and those of its restore. */
  ghost function EditStates(s: Sources, e: Edit): set<Tables> {
    {TablesOf(Edited(s, e))} + RestoredStates(s, e)
  }

  /** The trace grew, and every write to the source tables in it left one of the allowed states. */
  ghost predicate WritesAmong(a: seq<Event>, b: seq<Event>, allowed: set<Tables>) {
    a <= b && forall i | |a| <= i < |b| && b[i].WriteSources? :: TablesOf(b[i].sources) in allowed
  }

  /** Wherever the controller stops, the source tables are in one of the allowed states. */
  lemma {:induction false} CrashLeavesAllowed(a: seq<Event>, b: seq<Event>, k: nat, allowed: set<Tables>)
    requires WritesAmong(a, b, allowed) && |a| <= k <= |b|
    requires TablesOf(Run(Initial(), a).db.sources) in allowed
    ensures TablesOf(Run(Initial(), b[..k]).db.sources) in allowed
    decreases k
  {
    if k == |a| {
      assert b[..k] == a;
    } else {
      CrashLeavesAllowed(a, b, k - 1, allowed);
      assert b[..k][..k - 1] == b[..k - 1] && b[..k][k - 1] == b[k - 1];
      OtherEventsKeepSources(Run(Initial(), b[..k - 1]), b[k - 1]);
    }
  }

  lemma OtherEventsKeepSources(w: World, e: Event)
    ensures Step(w, e).db.sources == w.db.sources || (e.WriteSources? && Step(w, e).db.sources == e.sources)
  {}

  /** The trace grew by writes to the source tables alone, each of which left one of the allowed states. */
  ghost predicate OnlyWrites(a: seq<Event>, b: seq<Event>, allowed: set<Tables>) {
    a <= b && forall i | |a| <= i < |b| :: b[i].WriteSources? && TablesOf(b[i].sources) in allowed
  }

  /** What an edit does to the trace: it writes its change, then only what a restore writes; and every candidate it
      records is checked against the registry its publish has read. */
  ghost predicate EditTrace(
    libs: Libs, a: seq<Event>, b: seq<Event>, s: Sources, e: Edit, registry: Option<RegistryView>)
  {
    && a + [WriteSources(Edited(s, e))] <= b
    && WritesAmong(a + [WriteSources(Edited(s, e))], b, RestoredStates(s, e))
    && Checked(libs, a, b, registry)
  }

  lemma EditTraceIs(
    libs: Libs, start: seq<Event>, published: seq<Event>, kept: seq<Event>, end: seq<Event>, s: Sources, e: Edit,
    n: nat, registry: Option<RegistryView>)
    requires Quietly(start + [WriteSources(Edited(s, e))], published, n)
    requires Checked(libs, start + [WriteSources(Edited(s, e))], published, registry)
    requires Silent(published, kept) && OnlyWrites(kept, end, RestoredStates(s, e))
    ensures EditTrace(libs, start, end, s, e, registry)
  {
    hide Edited;
    hide RestoredStates;
    hide CheckedInsert;
    hide Run;
    var written := start + [WriteSources(Edited(s, e))];
    assert end[|start|] == written[|start|];
    forall i | |published| <= i < |end| ensures !end[i].InsertCandidate? {
      if i < |kept| { assert end[i] == kept[i]; }
    }
    forall i | |written| <= i < |kept| ensures !end[i].WriteSources? {
      assert end[i] == kept[i];
      if i < |published| { assert kept[i] == published[i]; }
    }
    forall i | |written| <= i < |published| && end[i].InsertCandidate?
      ensures CheckedInsert(libs, Run(Initial(), end[..i]), end[i], registry)
    {
      assert end[..i] == published[..i] && end[i] == published[i];
    }
  }

  /** So every write of an edit leaves one of its states. */
  lemma EditTraceWrites(
    libs: Libs, a: seq<Event>, b: seq<Event>, s: Sources, e: Edit, registry: Option<RegistryView>)
    requires EditTrace(libs, a, b, s, e, registry)
    ensures WritesAmong(a, b, EditStates(s, e))
  {
    hide Edited;
    hide RestoredStates;
    hide Checked;
    assert (a + [WriteSources(Edited(s, e))])[|a|] == b[|a|];
  }

  // ---- deciding whether to compensate -----------------------------------------------------------

  /** What one subscription edit meets outside the controller. statements: how many of the restore's
      statements succeed. */
  datatype EditEnv = EditEnv(
    now: int, registry: Option<RegistryView>, publish: PublishEnv, late: seq<Disturbance>, statusAnswers: bool,
    statements: nat)

  /** The restore runs: nothing was recorded, or the runtime is not seen holding the candidate and either the
      candidate was written off before or on Apply, or the runtime is seen at the candidate's predecessor. */
  predicate Compensates(w: World, p: Published, statusAnswers: bool) {
    p.version == 0
    || (HasVersion(w.db, p.version) &&
       var row := w.db.rows[p.version - 1];
       && !(statusAnswers && w.runtime == Some(row.snapshot))
       && (|| (row.status == Failed && FailedBeforeApply(row.errorCode))
           || (statusAnswers && VersionOf(w.runtime) == row.previous)))
  }

  /** For a candidate that a publish has left behind: the restore runs unless the runtime is seen holding it, when the
      failure is known and its cause is not an unreadable answer, or the runtime is seen at the predecessor. */
  lemma CompensatesExactly(w: World, p: Published, statusAnswers: bool)
    requires HasVersion(w.db, p.version)
    requires w.db.rows[p.version - 1].status == Failed ==>
      w.db.rows[p.version - 1].errorCode in {
        "VALIDATION_FAILED", "CHECKSUM_MISMATCH", "APPLY_FAILED", "APPLY_RESPONSE_INVALID", "APPLY_TIMEOUT_NOT_APPLIED"}
    ensures var row := w.db.rows[p.version - 1];
      var held := statusAnswers && w.runtime == Some(row.snapshot);
      var behind := statusAnswers && (if w.runtime.Some? then w.runtime.value.version else 0) == row.previous;
      var failed := row.status == Failed && row.errorCode != "APPLY_RESPONSE_INVALID";
      Compensates(w, p, statusAnswers) <==> !held && (failed || behind)
  {}

  /** When the restore runs on a status that was read, the runtime does not hold the candidate, and unless it has
      fallen back it has never adopted it. */
  lemma CompensationMeansNotAdopted(w: World, p: Published, statusAnswers: bool)
    requires Sound(w) && HasVersion(w.db, p.version) && !w.db.rows[p.version - 1].status.WasActive()
    requires Compensates(w, p, statusAnswers) && statusAnswers
    ensures VersionOf(w.runtime) != p.version
    ensures InStep(w) ==> p.version !in w.adopted
  {
    hide ActiveVersion;
    var v := p.version;
    assert RowOk(w.db.rows[v - 1], v - 1, w.db.lastRuleId);
    if InStep(w) {
      assert RowAdopted(w, v - 1) ==> v == VersionOf(w.runtime);
    }
  }

  /** The edit really changes the tables. */
  predicate Changes(s: Sources, e: Edit)
    requires Fits(s, e)
  {
    match e
    case Create(_, _) => true
    case Refresh(id, f) => f != FetchedOf(s.rows[id])
    case SetEnabled(id, on, at) => on != s.rows[id].enabled || at != s.rows[id].updatedAt
    case Delete(_) => true
    case Rebind(id, group, priority, at) =>
      group != s.bindings[id].groupId || priority != s.bindings[id].priority || at != s.bindings[id].updatedAt
  }

  lemma ChangesShow(s: Sources, e: Edit)
    requires SourcesOk(s) && Fits(s, e)
    ensures TablesOf(Edited(s, e)) != TablesOf(s) <==> Changes(s, e)
  {
    var t := Edited(s, e);
    match e
    case Create(src, b) => assert src.id in t.rows && src.id !in s.rows;
    case Refresh(id, f) =>
      assert FetchedOf(t.rows[id]) == f;
      if !Changes(s, e) { assert t.rows == s.rows; }
    case SetEnabled(id, on, at) =>
      assert t.rows[id].enabled == on && t.rows[id].updatedAt == at;
      if !Changes(s, e) { assert t.rows == s.rows; }
    case Delete(id) => assert id !in t.rows;
    case Rebind(id, group, priority, at) =>
      assert t.bindings[id].groupId == group && t.bindings[id].priority == priority && t.bindings[id].updatedAt == at;
      if !Changes(s, e) { assert t.bindings == s.bindings; }
  }

  /** An edit is reported as unknown although its tables have been put back in exactly two cases: the validation
      call itself gave no answer; or Apply gave none, the status read after it settled nothing, and the status read
      before the restore shows the runtime at the version that was active. */
  ghost predicate UnknownYetRestored(
    libs: Libs, before: World, after: World, e: Edit, env: EditEnv, seen: Option<Snapshot>)
  {
    && Preparable(libs, Edited(before.db.sources, e), AllRules(before.db), env.publish.registry)
    && (|| env.publish.validate == ValidateFailed(true)
        || (&& UnsettledByStatus(after, |before.db.rows| + 1, env.publish, seen)
            && env.statusAnswers && VersionOf(after.runtime) == ActiveVersion(before.db.rows)))
  }

  /** Apply gave no answer, and the status read after it shows neither the candidate nor its predecessor. */
  ghost predicate UnsettledByStatus(after: World, v: nat, env: PublishEnv, seen: Option<Snapshot>) {
    Lost(env) && !ShowsCandidate(after, v, env, seen) && !ShowsPredecessor(after, v, env, seen)
  }

  /** How a subscription edit ends: in its post-state with the candidate active, or in its pre-state, or, when
      the outcome is unknown, kept or put back as the last status tells. */
  ghost predicate EditEnds(
    libs: Libs, before: World, after: World, e: Edit, p: Published, env: EditEnv, seen: Option<Snapshot>)
    requires Fits(before.db.sources, e)
  {
    var s, now := before.db.sources, TablesOf(after.db.sources);
    var unknownYetRestored := p.error != NoError && p.error.unknown && now == TablesOf(s);
    && (p.error == NoError ==>
          && now == TablesOf(Edited(s, e))
          && ActiveVersion(after.db.rows) == p.version == |before.db.rows| + 1
          && Converged(after.db, SnapshotOf(after.db, p.version)))
    && (p.error != NoError ==> ActiveVersion(after.db.rows) == ActiveVersion(before.db.rows))
    && (p.error != NoError && !p.error.unknown && Completes(s, e, env.statements) ==> now == TablesOf(s))
    && (p.error != NoError ==>
          now == TablesOf(if Compensates(after, p, env.statusAnswers)
                          then RestoredAfter(s, e, env.statements) else Edited(s, e)))
    && (Completes(s, e, env.statements) && Changes(s, e) ==>
          (unknownYetRestored <==> UnknownYetRestored(libs, before, after, e, env, seen)))
    && now in EditStates(s, e)
    && Answers(libs, WithSources(before, Edited(s, e)), AllRules(before.db), env.publish, p)
  }

  function WithSources(w: World, s: Sources): World { w.(db := w.db.(sources := s)) }

  lemma RestoreStates(was: Sources, e: Edit)
    requires SourcesOk(was) && Fits(was, e)
    ensures var steps := RestoreSteps(Edited(was, e), RestoreOf(was, e));
      && TablesOf(steps[|steps| - 1]) == TablesOf(was)
      && forall i | 0 <= i < |steps| :: SourcesOk(steps[i]) && TablesOf(steps[i]) in RestoredStates(was, e)
    ensures TablesOf(Edited(was, e)) in EditStates(was, e) && RestoredStates(was, e) <= EditStates(was, e)
  {
    RestoreUndoesEdit(was, e);
    HalfRestored(was, e);
    RestoreKeepsConstraints(was, e, 0);
    RestoreKeepsConstraints(was, e, 1);
    hide Edited;
    hide RestoreOf;
    hide RestoreSteps;
    hide SourcesOk;
  }

  lemma RestoredSoFar(s: Sources, e: Edit, n: nat)
    requires SourcesOk(s) && Fits(s, e)
    ensures var steps := RestoreSteps(Edited(s, e), RestoreOf(s, e));
      && (n == 0 ==> RestoredAfter(s, e, n) == Edited(s, e))
      && (0 < n <= |steps| ==> RestoredAfter(s, e, n) == steps[n - 1])
      && (n >= |steps| ==> RestoredAfter(s, e, n) == steps[|steps| - 1])
    ensures TablesOf(RestoredAfter(s, e, n)) in EditStates(s, e)
  {
    RestoreStates(s, e);
    hide Edited;
    hide RestoreOf;
    hide RestoreSteps;
    hide EditStates;
  }

  /** The restore statements, as far as they succeed. */
  method RunRestore(s: RuleService, ghost was: Sources, ghost e: Edit, restore: Restore, statements: nat)
    requires s.Valid() && SourcesOk(was) && Fits(was, e)
    requires s.world.db.sources == Edited(was, e) && restore == RestoreOf(was, e)
    modifies s`world, s`trace
    ensures s.Valid() && OnlyWrites(old(s.trace), s.trace, RestoredStates(was, e))
    ensures s.world == old(s.world).(db := old(s.world).db.(sources := s.world.db.sources))
    ensures TablesOf(s.world.db.sources) in EditStates(was, e)
    ensures s.world.db.sources == RestoredAfter(was, e, statements)
  {
    hide Edited;
    hide RestoreOf;
    hide RestoreSteps;
    hide RestoredAfter;
    hide EditStates;
    hide RestoredStates;
    hide SourcesOk;
    hide Fits;
    hide RuleService.Valid;
    ghost var edited := s.world.db.sources;
    var steps := RestoreSteps(s.world.db.sources, restore);
    RestoreStates(was, e);
    for i := 0 to |steps|
      invariant s.Valid() && OnlyWrites(old(s.trace), s.trace, RestoredStates(was, e))
      invariant s.world == old(s.world).(db := old(s.world).db.(sources := s.world.db.sources))
      invariant s.world.db.sources == if i == 0 then edited else steps[i - 1]
      invariant i <= statements
    {
      if i >= statements {
        RestoredSoFar(was, e, statements);
        return;
      }
      s.Perform(WriteSources(steps[i]), s.world.(db := s.world.db.(sources := steps[i])));
    }
    RestoredSoFar(was, e, statements);
  }

  /** restoreSubscriptionMutation: compensate, or keep the change and report the outcome as unknown. */
  method RestoreMutation(
    s: RuleService, ghost was: Sources, ghost e: Edit, p: Published, restore: Restore, env: EditEnv)
    returns (err: Error)
    requires s.Valid() && SourcesOk(was) && Fits(was, e) && p.error != NoError
    requires s.world.db.sources == Edited(was, e) && restore == RestoreOf(was, e)
    requires p.version != 0 ==> HasVersion(s.world.db, p.version)
    modifies s`world, s`trace
    ensures s.Valid() && OnlyWrites(old(s.trace), s.trace, RestoredStates(was, e))
    ensures s.world == old(s.world).(db := old(s.world).db.(sources := s.world.db.sources))
    ensures err != NoError
    ensures Compensates(old(s.world), p, env.statusAnswers) ==>
      && err == p.error && TablesOf(s.world.db.sources) in EditStates(was, e)
      && s.world.db.sources == RestoredAfter(was, e, env.statements)
    ensures !Compensates(old(s.world), p, env.statusAnswers) ==> err.unknown && s.world == old(s.world)
  {
    hide Edited;
    hide RestoreOf;
    hide EditStates;
    hide RestoredStates;
    if p.version == 0 {
      RunRestore(s, was, e, restore, env.statements);
      return p.error;
    }
    var row := s.world.db.rows[p.version - 1];
    var failedBeforeApply := row.status == Failed && FailedBeforeApply(row.errorCode);
    var runtime := s.world.runtime;
    if env.statusAnswers && runtime == Some(row.snapshot) {
      return Error(true, p.error.code);
    }
    if failedBeforeApply || (env.statusAnswers && VersionOf(runtime) == row.previous) {
      RunRestore(s, was, e, restore, env.statements);
      return p.error;
    }
    err := Error(true, p.error.code);
  }

  /** The cause is unknown and the restore runs nevertheless in exactly those two cases. */
  lemma RestoredUnknown(middle: World, after: World, w: World, p: Published, env: EditEnv, seen: Option<Snapshot>)
    requires Sound(w) && SameController(after, w) && p.version != 0
    requires Recorded(middle.db, after.db, p) && RightCode(after, p.version, env.publish, p.error, seen)
    ensures var neverAsked := env.publish.validate == ValidateFailed(true);
      var shownBehind := env.statusAnswers && VersionOf(w.runtime) == ActiveVersion(middle.db.rows);
      var restored := p.error != NoError && p.error.unknown && Compensates(w, p, env.statusAnswers);
      restored <==> neverAsked || (UnsettledByStatus(after, p.version, env.publish, seen) && shownBehind)
  {
    hide ActiveVersion;
    hide Sound;
    hide RowOk;
    hide ShowsCandidate;
    hide ShowsPredecessor;
    var v := p.version;
    CandidateNotHeld(w, v, env);
    if p.error != NoError && p.error.unknown {
      assert p.error.code == "VALIDATION_FAILED" || p.error.code == "PUBLISH_UNKNOWN";
    }
  }

  /** The runtime cannot hold a candidate that was never sent, nor one whose predecessor it is at. */
  lemma CandidateNotHeld(w: World, v: nat, env: EditEnv)
    requires Sound(w) && HasVersion(w.db, v)
    ensures NeverSent(w.sent, v) ==> w.runtime != Some(w.db.rows[v - 1].snapshot)
    ensures VersionOf(w.runtime) == w.db.rows[v - 1].previous ==> w.runtime != Some(w.db.rows[v - 1].snapshot)
  {
    hide ActiveVersion;
    assert RowOk(w.db.rows[v - 1], v - 1, w.db.lastRuleId);
  }

  lemma SameRowsSameStatus(a: World, b: World, v: nat, env: PublishEnv, seen: Option<Snapshot>)
    requires a.db.rows == b.db.rows
    ensures UnsettledByStatus(a, v, env, seen) <==> UnsettledByStatus(b, v, env, seen)
  {}

  /** A publish that succeeded was not left open. */
  lemma SuccessIsSettled(after: World, v: nat, env: PublishEnv, seen: Option<Snapshot>)
    requires RightCode(after, v, env, NoError, seen)
    ensures env.validate != ValidateFailed(true) && !UnsettledByStatus(after, v, env, seen)
  {
    hide ShowsCandidate;
    hide ShowsPredecessor;
  }

  lemma SameRowsSameChoice(a: World, b: World, p: Published, q: Published, statusAnswers: bool)
    requires a.db.rows == b.db.rows && a.runtime == b.runtime && p.version == q.version
    ensures Compensates(a, p, statusAnswers) <==> Compensates(b, q, statusAnswers)
  {}

  /** The publish went through. */
  lemma EditSucceeds(
    libs: Libs, before: World, after: World, e: Edit, p: Published, env: EditEnv, seen: Option<Snapshot>)
    requires SourcesOk(before.db.sources) && Fits(before.db.sources, e)
    requires after.db.sources == Edited(before.db.sources, e) && p.error == NoError
    requires Recorded(WithSources(before, Edited(before.db.sources, e)).db, after.db, p)
    requires Converged(after.db, SnapshotOf(after.db, p.version))
    requires RightCode(after, p.version, env.publish, p.error, seen)
    requires Answers(libs, WithSources(before, Edited(before.db.sources, e)), AllRules(before.db), env.publish, p)
    ensures EditEnds(libs, before, after, e, p, env, seen)
  {
    RestoreStates(before.db.sources, e);
    SuccessIsSettled(after, p.version, env.publish, seen);
    hide Edited;
    hide EditStates;
    hide ActiveVersion;
    hide Changes;
    hide Converged;
    hide RightCode;
    hide UnsettledByStatus;
    hide AllRules;
    hide Answers;
    hide Preparable;
  }

  lemma StillAnswers(libs: Libs, before: World, rules: seq<Rule>, env: PublishEnv, q: Published, p: Published)
    requires Answers(libs, before, rules, env, q) && q.error != NoError && p.version == q.version
    ensures Answers(libs, before, rules, env, p)
  {
    hide Preparable;
    hide ActiveVersion;
  }

  lemma FailureKeepsActive(middle: World, after: World, q: Published)
    requires Recorded(middle.db, after.db, q) && q.error != NoError
    ensures ActiveVersion(after.db.rows) == ActiveVersion(middle.db.rows)
  {
    hide ActiveVersion;
  }

  lemma CauseStaysUnknown(
    libs: Libs, before: World, after: World, w: World, end: World, e: Edit, q: Published, env: EditEnv,
    seen: Option<Snapshot>)
    requires Recorded(WithSources(before, Edited(before.db.sources, e)).db, after.db, q) && q.error != NoError
    requires if q.version == 0 then !q.error.unknown else RightCode(after, q.version, env.publish, q.error, seen)
    requires Answers(libs, WithSources(before, Edited(before.db.sources, e)), AllRules(before.db), env.publish, q)
    requires Sound(w) && SameController(after, w) && end.db.rows == w.db.rows && end.runtime == w.runtime
    ensures q.error.unknown && Compensates(w, q, env.statusAnswers) <==>
      UnknownYetRestored(libs, before, end, e, env, seen)
  {
    hide Edited;
    hide ActiveVersion;
    hide RightCode;
    hide UnsettledByStatus;
    hide AllRules;
    hide Preparable;
    hide Sound;
    SameRowsSameStatus(after, end, q.version, env.publish, seen);
    if q.version != 0 {
      RestoredUnknown(WithSources(before, Edited(before.db.sources, e)), after, w, q, env, seen);
    }
    hide Compensates;
  }

  /** It did not: w is the state in which the restore was decided, q what the publish reported, p what the edit does. */
  lemma EditFails(
    libs: Libs, before: World, after: World, w: World, end: World, e: Edit, q: Published, p: Published, env: EditEnv,
    seen: Option<Snapshot>)
    requires SourcesOk(before.db.sources) && Fits(before.db.sources, e)
    requires Recorded(WithSources(before, Edited(before.db.sources, e)).db, after.db, q) && q.error != NoError
    requires after.db.sources == Edited(before.db.sources, e)
    requires if q.version == 0 then !q.error.unknown else RightCode(after, q.version, env.publish, q.error, seen)
    requires Answers(libs, WithSources(before, Edited(before.db.sources, e)), AllRules(before.db), env.publish, q)
    requires Sound(w) && SameController(after, w) && end.db.rows == w.db.rows && end.runtime == w.runtime
    requires p.version == q.version && p.error != NoError
    requires Compensates(w, q, env.statusAnswers) ==>
      && p.error == q.error && TablesOf(end.db.sources) in EditStates(before.db.sources, e)
      && end.db.sources == RestoredAfter(before.db.sources, e, env.statements)
    requires !Compensates(w, q, env.statusAnswers) ==> p.error.unknown && end == w
    ensures EditEnds(libs, before, end, e, p, env, seen)
  {
    hide Edited;
    hide EditStates;
    hide ActiveVersion;
    hide Changes;
    hide RightCode;
    hide AllRules;
    hide Preparable;
    hide Sound;
    hide UnknownYetRestored;
    hide Recorded;
    hide RestoredAfter;
    hide Completes;
    hide Fits;
    hide SourcesOk;
    hide Answers;
    if q.version == 0 { assert Compensates(w, q, env.statusAnswers); }
    hide Compensates;
    RestoreStates(before.db.sources, e);
    ChangesShow(before.db.sources, e);
    if Completes(before.db.sources, e, env.statements) {
      CompleteRestore(before.db.sources, e, env.statements);
    }
    CauseStaysUnknown(libs, before, after, w, end, e, q, env, seen);
    SameRowsSameChoice(end, w, p, q, env.statusAnswers);
    var middle := WithSources(before, Edited(before.db.sources, e));
    FailureKeepsActive(middle, after, q);
    StillAnswers(libs, middle, AllRules(before.db), env.publish, q, p);
  }

  /** A success, and the status read after a lost Apply, rest on what the runtime really held meanwhile. */
  ghost predicate Confirmed(
    start: seq<Event>, end: seq<Event>, after: World, p: Published, env: EditEnv, seen: Option<Snapshot>)
  {
    && (p.version != 0 && Lost(env.publish) ==> HeldDuring(start, end, seen))
    && (p.version != 0 && p.error == NoError ==>
          && HeldDuring(start, end, SnapshotOf(after.db, p.version))
          && (NoLoss(end) ==> after.runtime == SnapshotOf(after.db, p.version)))
  }

  lemma RecordedHasVersion(before: World, after: World, p: Published)
    requires Recorded(before.db, after.db, p) && p.version != 0
    ensures HasVersion(after.db, p.version)
  {
    hide ActiveVersion;
  }

  lemma SuccessHasVersion(before: World, after: World, p: Published)
    requires Recorded(before.db, after.db, p) && p.error == NoError
    ensures p.version != 0
  {
    hide ActiveVersion;
  }

  lemma SameTableSameRules(a: Db, b: Db)
    requires a.table == b.table
    ensures AllRules(a) == AllRules(b)
  {}

  lemma SoundSources(w: World)
    requires Sound(w)
    ensures SourcesOk(w.db.sources)
  {}

  /** The common course of the five edits: write the source tables, publish the rules as they are, and restore
      when the publish did not go through. seen is the runtime's content as read after a lost Apply. */
  method Commit(s: RuleService, e: Edit, env: EditEnv) returns (p: Published, ghost seen: Option<Snapshot>)
    requires s.Valid() && Fits(s.world.db.sources, e)
    modifies s`world, s`trace
    ensures s.Valid() && WritesAmong(old(s.trace), s.trace, EditStates(old(s.world).db.sources, e))
    ensures EditTrace(s.libs, old(s.trace), s.trace, old(s.world).db.sources, e, env.publish.registry)
    ensures EditEnds(s.libs, old(s.world), s.world, e, p, env, seen)
    ensures Confirmed(old(s.trace), s.trace, s.world, p, env, seen)
  {
    hide Edited;
    hide RestoreOf;
    hide EditStates;
    hide RestoredStates;
    hide EditTrace;
    hide Checked;
    hide RuleService.Valid;
    hide ActiveVersion;
    hide HeldDuring;
    hide Converged;
    hide RightCode;
    hide Sound;
    hide AllRules;
    hide Answers;
    hide Recorded;
    hide EditEnds;
    hide Compensates;
    hide Lost;
    s.Reachable();
    ghost var before := s.world;
    ghost var start := s.trace;
    ghost var was := s.world.db.sources;
    SoundSources(before);
    EditKeepsConstraints(was, e);
    RestoreStates(was, e);
    var edited, restore := Edited(s.world.db.sources, e), RestoreOf(s.world.db.sources, e);
    s.Perform(WriteSources(edited), s.world.(db := s.world.db.(sources := edited)));
    ghost var written := s.trace;
    SameTableSameRules(before.db, s.world.db);
    var published;
    published, seen := s.PublishCurrent(env.now, env.publish);
    ghost var after := s.world;
    ghost var marked := s.trace;
    if published.version != 0 && Lost(env.publish) { HeldWithin(start, written, marked, marked, seen); }
    if published.error == NoError {
      HeldWithin(start, written, marked, marked, SnapshotOf(s.world.db, published.version));
      SuccessHasVersion(WithSources(before, edited), after, published);
      EditSucceeds(s.libs, before, after, e, published, env, seen);
      EditTraceIs(s.libs, start, marked, marked, marked, was, e, |before.db.rows| + 1, env.publish.registry);
      EditTraceWrites(s.libs, start, marked, was, e, env.publish.registry);
      return published, seen;
    }
    s.Interfere(env.late);
    ghost var kept := s.trace;
    ghost var w := s.world;
    s.Reachable();
    if published.version != 0 { RecordedHasVersion(WithSources(before, edited), after, published); }
    var err := RestoreMutation(s, was, e, published, restore, env);
    EditTraceIs(s.libs, start, marked, kept, s.trace, was, e, |before.db.rows| + 1, env.publish.registry);
    EditTraceWrites(s.libs, start, s.trace, was, e, env.publish.registry);
    if published.version != 0 && Lost(env.publish) { HeldWithin(start, start, marked, s.trace, seen); }
    p := Published(published.version, err);
    EditFails(s.libs, before, after, w, s.world, e, published, p, env, seen);
  }

  /** A publish of no rules under the edited sources that ends with an unknown outcome: its Apply is lost and the
      status read after it fails, or its validation gives no answer. */
  function UnknownRun(s: Sources, e: Edit, sets: seq<SubscriptionSet>, lost: bool): seq<Event> {
    [WriteSources(s), WriteSources(Edited(s, e)), InsertCandidate(0, [], sets, 0)]
      + if lost then [SendApply(1), MarkUnknown(1)] else [MarkFailed(1, "VALIDATION_FAILED")]
  }

  lemma FirstRow(w: World, sets: seq<SubscriptionSet>)
    requires w.db.rows == []
    ensures var w' := Step(w, InsertCandidate(0, [], sets, 0));
      && |w'.db.rows| == 1 && w'.db.rows[0].status == Pending && w'.db.rows[0].previous == 0
      && w'.db.rows[0].snapshot.version == 1 && w'.db.rows[0].snapshot.expected == 0
      && w'.runtime == w.runtime && w'.db.sources == w.db.sources
  {}

  lemma FirstRowMarked(w: World, lost: bool)
    requires |w.db.rows| == 1 && w.db.rows[0].status == Pending && w.db.rows[0].previous == 0
    ensures var w' :=
        if lost then Step(Step(w, SendApply(1)), MarkUnknown(1)) else Step(w, MarkFailed(1, "VALIDATION_FAILED"));
      && |w'.db.rows| == 1 && w'.db.rows[0].previous == 0 && w'.runtime == w.runtime && w'.db.sources == w.db.sources
      && w'.db.rows[0].status == (if lost then Unknown else Failed)
      && (!lost ==> w'.db.rows[0].errorCode == "VALIDATION_FAILED")
      && w'.db.rows[0].snapshot == w.db.rows[0].snapshot && (lost ==> w.db.rows[0].snapshot in w'.sent)
  {}

  /** Both cases happen, for every edit of any source tables: the cause is unknown, the restore runs on it, and it
      puts back every row. */
  lemma UnknownIsRestored(s: Sources, e: Edit, sets: seq<SubscriptionSet>, lost: bool)
    requires SourcesOk(s) && Fits(s, e) && SubscriptionSets(Edited(s, e)) == Ok(sets)
    ensures var w := Run(Initial(), UnknownRun(s, e, sets, lost));
      var code := if lost then "PUBLISH_UNKNOWN" else "VALIDATION_FAILED";
      && w.db.sources == Edited(s, e)
      && Compensates(w, Published(1, Error(true, code)), true)
      && TablesOf(LastStep(w.db.sources, RestoreOf(s, e))) == TablesOf(s)
  {
    EditKeepsConstraints(s, e);
    RestoreUndoesEdit(s, e);
    hide Edited;
    hide SourcesOk;
    hide RestoreOf;
    hide LastStep;
    var events := UnknownRun(s, e, sets, lost);
    var w := Run(Initial(), events[..3]);
    assert events[..3] == [WriteSources(s), WriteSources(Edited(s, e)), InsertCandidate(0, [], sets, 0)];
    UpToCandidate(s, e, sets);
    FirstRowMarked(w, lost);
    hide Step;
    hide Run;
    if lost {
      RunOneMore(Initial(), events[..3], SendApply(1));
      RunOneMore(Initial(), events[..3] + [SendApply(1)], MarkUnknown(1));
      assert events == events[..3] + [SendApply(1)] + [MarkUnknown(1)];
    } else {
      RunOneMore(Initial(), events[..3], MarkFailed(1, "VALIDATION_FAILED"));
      assert events == events[..3] + [MarkFailed(1, "VALIDATION_FAILED")];
    }
  }

  lemma TwoWrites(s: Sources, t: Sources)
    requires SourcesOk(s) && SourcesOk(t)
    ensures var w := Run(Initial(), [WriteSources(s), WriteSources(t)]);
      w.db.rows == [] && w.runtime == None && w.db.sources == t
  {
    hide SourcesOk;
    var a, b := WriteSources(s), WriteSources(t);
    RunOneMore(Initial(), [], a);
    RunOneMore(Initial(), [a], b);
    assert [] + [a] == [a] && [a] + [b] == [a, b];
  }

  lemma UpToCandidate(s: Sources, e: Edit, sets: seq<SubscriptionSet>)
    requires SourcesOk(s) && SourcesOk(Edited(s, e))
    ensures var w := Run(Initial(), [WriteSources(s), WriteSources(Edited(s, e)), InsertCandidate(0, [], sets, 0)]);
      && |w.db.rows| == 1 && w.db.rows[0].status == Pending && w.db.rows[0].previous == 0
      && w.db.rows[0].snapshot.version == 1 && w.db.rows[0].snapshot.expected == 0
      && w.runtime == None && w.db.sources == Edited(s, e)
  {
    hide Edited;
    hide SourcesOk;
    hide Run;
    hide Step;
    var a, b, c := WriteSources(s), WriteSources(Edited(s, e)), InsertCandidate(0, [], sets, 0);
    TwoWrites(s, Edited(s, e));
    RunOneMore(Initial(), [a, b], c);
    assert [a, b] + [c] == [a, b, c];
    FirstRow(Run(Initial(), [a, b]), sets);
  }

  /** A compensated deletion of a bound source ends half restored exactly when the first statement of its restore was
      made and the second was not. */
  lemma DeleteEndsHalfExactlyWhen(
    libs: Libs, before: World, after: World, id: int, p: Published, env: EditEnv, seen: Option<Snapshot>)
    requires SourcesOk(before.db.sources) && id in before.db.sources.bindings
    requires EditEnds(libs, before, after, Delete(id), p, env, seen)
    requires p.error != NoError && Compensates(after, p, env.statusAnswers)
    ensures var s := before.db.sources;
      TablesOf(after.db.sources) == Tables(s.rows, s.bindings - {id}) <==> env.statements == 1
  {
    var s, e := before.db.sources, Delete(id);
    HalfRestored(s, e);
    RestoredSoFar(s, e, env.statements);
    RestoreUndoesEdit(s, e);
    assert id !in Edited(s, e).rows && id in s.rows;
    hide RestoreOf;
    hide RestoreSteps;
    hide Edited;
    hide RestoredAfter;
    hide Compensates;
    hide UnknownYetRestored;
    hide Answers;
    hide ActiveVersion;
    hide Changes;
    assert id in s.bindings && id !in (s.bindings - {id});
  }

  /** Such a run, for every bound source of any tables: the validation of the publish gives no answer, the restore
      begins, and its second statement is not made. */
  lemma DeleteStopsHalfway(s: Sources, id: int, sets: seq<SubscriptionSet>)
    requires SourcesOk(s) && id in s.bindings && SubscriptionSets(Edited(s, Delete(id))) == Ok(sets)
    ensures var e := Delete(id);
      var w := Run(Initial(), UnknownRun(s, e, sets, false) + [WriteSources(RestoredAfter(s, e, 1))]);
      && TablesOf(w.db.sources) == Tables(s.rows, s.bindings - {id})
      && (SubscriptionSets(w.db.sources).Err? <==> s.rows[id].enabled && s.rows[id].category == "route")
  {
    var e := Delete(id);
    var half, events := RestoredAfter(s, e, 1), UnknownRun(s, e, sets, false);
    HalfRestored(s, e);
    RestoredSoFar(s, e, 1);
    RestoreStates(s, e);
    RunOneMore(Initial(), events, WriteSources(half));
    OthersStayBound(s, half, id, sets);
    hide Run;
    hide RestoreOf;
    hide RestoreSteps;
    hide RestoredAfter;
    hide SubscriptionSets;
    hide SourcesOk;
  }

  /** If the sets can be read without the source, every other enabled route source is bound. */
  lemma OthersStayBound(s: Sources, half: Sources, id: int, sets: seq<SubscriptionSet>)
    requires SourcesOk(s) && id in s.bindings && SubscriptionSets(Edited(s, Delete(id))) == Ok(sets)
    requires TablesOf(half) == Tables(s.rows, s.bindings - {id})
    ensures SubscriptionSets(half).Err? <==> s.rows[id].enabled && s.rows[id].category == "route"
  {
    hide SubscriptionSets;
    var without := Edited(s, Delete(id));
    SetsFailExactlyWhenUnbound(s);
    SetsFailExactlyWhenUnbound(without);
    HalfRestoredStopsPublishing(s, half, id);
    forall k | k in s.rows && s.rows[k].enabled && s.rows[k].category == "route" ensures k in s.bindings {
      assert k == id || k in without.rows;
    }
  }

  /** A runtime that takes up the candidate late and then loses it again looks like one that never had it: the
      restore runs on a candidate that was adopted. */
  lemma AdoptedIsRestored(s: Sources, e: Edit, sets: seq<SubscriptionSet>)
    requires SourcesOk(s) && Fits(s, e) && SubscriptionSets(Edited(s, e)) == Ok(sets)
    ensures exists m ::
      var w := Run(Initial(), UnknownRun(s, e, sets, true) + [Deliver(m), FallBack(None)]);
      1 in w.adopted && Compensates(w, Published(1, Error(true, "PUBLISH_UNKNOWN")), true)
  {
    EditKeepsConstraints(s, e);
    hide Edited;
    hide SourcesOk;
    var events := UnknownRun(s, e, sets, true);
    assert events[..3] == [WriteSources(s), WriteSources(Edited(s, e)), InsertCandidate(0, [], sets, 0)];
    UpToCandidate(s, e, sets);
    var w0 := Run(Initial(), events[..3]);
    FirstRowMarked(w0, true);
    var m := w0.db.rows[0].snapshot;
    var w1 := Step(Step(w0, SendApply(1)), MarkUnknown(1));
    TakenAndLost(w1, m);
    hide Step;
    hide Run;
    hide Compensates;
    RunOneMore(Initial(), events[..3], SendApply(1));
    RunOneMore(Initial(), events[..3] + [SendApply(1)], MarkUnknown(1));
    assert events == events[..3] + [SendApply(1)] + [MarkUnknown(1)];
    RunOneMore(Initial(), events, Deliver(m));
    RunOneMore(Initial(), events + [Deliver(m)], FallBack(None));
    assert events + [Deliver(m), FallBack(None)] == events + [Deliver(m)] + [FallBack(None)];
  }

  lemma TakenAndLost(w: World, m: Snapshot)
    requires |w.db.rows| == 1 && w.db.rows[0].previous == 0 && w.runtime == None
    requires m in w.sent && m.version == 1 && m.expected == 0
    ensures var w' := Step(Step(w, Deliver(m)), FallBack(None));
      1 in w'.adopted && Compensates(w', Published(1, Error(true, "PUBLISH_UNKNOWN")), true)
  {}

  // ---- the five edits -----------------------------------------------------------------------------

  datatype SubscriptionInput = SubscriptionInput(
    category: string, action: string, name: string, url: string, interval: int, enabled: bool,
    groupId: string, priority: Option<int>, expected: Option<nat>)

  /** validateBinding: the priority range, the caller's registry version, an existing enabled group. */
  function BindingError(groupId: string, priority: int, expected: nat, registry: Option<RegistryView>): Error {
    if priority < 0 || priority > 1000 then Error(false, "priority must be between 0 and 1000")
    else match registry
      case None => Error(false, "registry unavailable")
      case Some(view) =>
        if view.version != expected then Error(false, "conflict")
        else if TrimSpace(groupId) in view.enabled then NoError
        else Error(false, "upstream group must exist and be enabled")
  }

  /** validateSubscriptionBinding. */
  function InputBindingError(input: SubscriptionInput, registry: Option<RegistryView>): Error {
    if input.category == "access" then
      if TrimSpace(input.groupId) != "" || input.priority.Some? || input.expected.Some?
      then Error(false, "access subscriptions must not include a binding") else NoError
    else if input.priority.None? || input.expected.None? || TrimSpace(input.groupId) == "" then
      Error(false, "route subscriptions require upstream_group_id, priority, and expected_upstream_registry_version")
    else BindingError(input.groupId, input.priority.value, input.expected.value, registry)
  }

  /** The CHECK constraints of rule_subscriptions on a new row. */
  predicate SourceCheck(src: Source) {
    && ((src.category == "access" && (src.action == "allow" || src.action == "block"))
        || (src.category == "route" && src.action == "upstream"))
    && (src.kind == "url" || src.kind == "upload")
    && 900 <= src.interval <= 2592000
  }

  function NewSource(s: Sources, input: SubscriptionInput, kind: string, content: Content, now: int): Source {
    Source(s.lastSource + 1, input.category, input.action, kind, TrimSpace(input.name), content.url, input.interval,
           input.enabled, content.checksum, |content.domains|, now, now, "", now, now, content.domains)
  }

  function CreateEdit(s: Sources, input: SubscriptionInput, kind: string, content: Content, now: int): Edit {
    var src := NewSource(s, input, kind, content, now);
    Create(src,
      if input.category == "route" && input.priority.Some?
      then Some(Binding(s.lastBinding + 1, src.id, TrimSpace(input.groupId), input.priority.value, now, now)) else None)
  }

  function RefreshEdit(src: Source, content: Content, now: int): Edit {
    Refresh(src.id, Fetched(content.url, content.checksum, |content.domains|, Later(now, src.updatedAt),
                            Later(now, src.updatedAt), "", Later(now, src.updatedAt), content.domains))
  }

  /** A refresh that found the same content: only the bookkeeping columns. */
  function MarkChecked(src: Source, url: string, now: int): Source {
    src.(url := url, lastChecked := Later(now, src.updatedAt), lastError := "", updatedAt := Later(now, src.updatedAt))
  }

  /** The binding may be made: a priority in range, and an enabled group of the registry version the caller names. */
  predicate MayBind(groupId: string, priority: int, expected: nat, registry: Option<RegistryView>) {
    && 0 <= priority <= 1000
    && registry.Some? && registry.value.version == expected && TrimSpace(groupId) in registry.value.enabled
  }

  /** An access source names no binding at all, any other one a whole one that may be made. */
  predicate MayCreate(input: SubscriptionInput, registry: Option<RegistryView>) {
    if input.category == "access" then TrimSpace(input.groupId) == "" && input.priority.None? && input.expected.None?
    else
      && input.priority.Some? && input.expected.Some? && TrimSpace(input.groupId) != ""
      && MayBind(input.groupId, input.priority.value, input.expected.value, registry)
  }

  lemma BindingExactly(groupId: string, priority: int, expected: nat, registry: Option<RegistryView>)
    ensures BindingError(groupId, priority, expected, registry) == NoError <==>
      MayBind(groupId, priority, expected, registry)
  {
    hide TrimSpace;
  }

  lemma InputBindingExactly(input: SubscriptionInput, registry: Option<RegistryView>)
    ensures InputBindingError(input, registry) == NoError <==> MayCreate(input, registry)
  {
    hide TrimSpace;
    if input.priority.Some? && input.expected.Some? {
      BindingExactly(input.groupId, input.priority.value, input.expected.value, registry);
    }
    hide BindingError;
    hide MayBind;
  }

  lemma SourceExactly(s: Sources, input: SubscriptionInput, kind: string, content: Content, clock: int)
    ensures SourceCheck(NewSource(s, input, kind, content, clock)) <==>
      && (|| (input.category == "access" && input.action in {"allow", "block"})
          || (input.category == "route" && input.action == "upstream"))
      && kind in {"url", "upload"} && 900 <= input.interval <= 2592000
  {
    hide TrimSpace;
  }

  // ---- what the edits leave, column by column ------------------------------------------------------

  predicate SameTables(was: Sources, now: Sources) { now.rows == was.rows && now.bindings == was.bindings }

  /** All other sources, and all bindings, are as they were. */
  predicate OnlyRow(was: Sources, now: Sources, id: int) {
    && id in was.rows && now.rows.Keys == was.rows.Keys && now.bindings == was.bindings
    && forall k | k in was.rows && k != id :: now.rows[k] == was.rows[k]
  }

  /** Later than the last change of the row: the clock's time, or the next moment if the clock is behind. */
  predicate MovesOn(was: int, clock: int, now: int) { was < now && now == if was < clock then clock else was + 1 }

  /** A refresh took over the content: address, checksum, domains and their number, no error, one new time. */
  predicate Refreshed(was: Sources, now: Sources, id: int, content: Content, clock: int) {
    && OnlyRow(was, now, id)
    && var old_, new_ := was.rows[id], now.rows[id];
    && new_.url == content.url && new_.contentChecksum == content.checksum && new_.domains == content.domains
    && new_.ruleCount == |content.domains| && new_.lastError == ""
    && new_.lastChecked == new_.lastSuccess == new_.updatedAt && MovesOn(old_.updatedAt, clock, new_.updatedAt)
    && new_.id == old_.id && new_.category == old_.category && new_.action == old_.action && new_.kind == old_.kind
    && new_.name == old_.name && new_.interval == old_.interval && new_.enabled == old_.enabled
    && new_.createdAt == old_.createdAt
  }

  /** A refresh found the content it had: only address, time of the check, error and time stamp are written. */
  predicate FoundSame(was: Sources, now: Sources, id: int, content: Content, clock: int) {
    && OnlyRow(was, now, id)
    && var old_, new_ := was.rows[id], now.rows[id];
    && new_ == old_.(url := content.url, lastChecked := new_.updatedAt, lastError := "", updatedAt := new_.updatedAt)
    && MovesOn(old_.updatedAt, clock, new_.updatedAt)
  }

  /** The source was switched on or off. */
  predicate Switched(was: Sources, now: Sources, id: int, enabled: bool, clock: int) {
    && OnlyRow(was, now, id)
    && now.rows[id] == was.rows[id].(enabled := enabled, updatedAt := now.rows[id].updatedAt)
    && MovesOn(was.rows[id].updatedAt, clock, now.rows[id].updatedAt)
  }

  /** The source is gone, and its binding with it. */
  predicate Removed(was: Sources, now: Sources, id: int) {
    && now.rows.Keys == was.rows.Keys - {id} && (forall k | k in now.rows :: now.rows[k] == was.rows[k])
    && now.bindings.Keys == was.bindings.Keys - {id}
    && (forall k | k in now.bindings :: now.bindings[k] == was.bindings[k])
  }

  /** The binding of the source names another group or priority; nothing else has changed. */
  predicate Rebound(was: Sources, now: Sources, id: int, groupId: string, priority: int, clock: int) {
    && now.rows == was.rows && now.bindings.Keys == was.bindings.Keys && id in was.bindings
    && (forall k | k in was.bindings && k != id :: now.bindings[k] == was.bindings[k])
    && var old_, new_ := was.bindings[id], now.bindings[id];
    && new_.groupId == TrimSpace(groupId) && new_.priority == priority && new_.updatedAt == clock
    && new_.id == old_.id && new_.subscriptionId == old_.subscriptionId && new_.createdAt == old_.createdAt
  }

  /** The source joined the others under the next id, with the caller's columns and the content, and a route source
      with the binding the caller names. */
  predicate Added(
    was: Sources, now: Sources, input: SubscriptionInput, kind: string, content: Content, clock: int)
  {
    var id := was.lastSource + 1;
    && now.rows.Keys == was.rows.Keys + {id} && (forall k | k in was.rows && k != id :: now.rows[k] == was.rows[k])
    && var row := now.rows[id];
    && row.id == id && row.category == input.category && row.action == input.action && row.kind == kind
    && row.name == TrimSpace(input.name) && row.interval == input.interval && row.enabled == input.enabled
    && row.url == content.url && row.contentChecksum == content.checksum && row.domains == content.domains
    && row.ruleCount == |content.domains| && row.lastError == ""
    && row.lastChecked == row.lastSuccess == row.createdAt == row.updatedAt == clock
    && now.bindings.Keys == was.bindings.Keys + (if input.category == "route" then {id} else {})
    && (forall k | k in was.bindings && k != id :: now.bindings[k] == was.bindings[k])
    && (input.category == "route" ==>
          && input.priority.Some?
          && now.bindings[id] == Binding(
               was.lastBinding + 1, id, TrimSpace(input.groupId), input.priority.value, clock, clock))
  }

  /** The sets that were published hold one of the source exactly when it is enabled and not empty, and that set has its
      domains and its binding. */
  ghost predicate SetOfSource(sets: seq<SubscriptionSet>, s: Sources, id: int) {
    && ((exists i :: 0 <= i < |sets| && sets[i].sourceId == id) <==>
          id in s.rows && s.rows[id].enabled && s.rows[id].domains != [])
    && forall i | 0 <= i < |sets| && sets[i].sourceId == id ::
         && multiset(sets[i].domains) == multiset(s.rows[id].domains)
         && (s.rows[id].category == "route" ==>
               && id in s.bindings && sets[i].groupId == s.bindings[id].groupId
               && sets[i].priority == s.bindings[id].priority)
  }

  /** After a success the version is active, and the set of the source in it is the source's. */
  ghost predicate SetIsActive(db: Db, p: Published, id: int) {
    && HasVersion(db, p.version) && ActiveVersion(db.rows) == p.version
    && SetOfSource(db.rows[p.version - 1].snapshot.sets, db.sources, id)
  }

  lemma ShownIsSet(sets: seq<SubscriptionSet>, s: Sources, id: int)
    requires ShowSources(sets, s)
    ensures SetOfSource(sets, s, id)
  {
    if i :| 0 <= i < |sets| && sets[i].sourceId == id { assert Shows(sets[i], s); }
    forall i | 0 <= i < |sets| && sets[i].sourceId == id
      ensures multiset(sets[i].domains) == multiset(s.rows[id].domains)
        && (s.rows[id].category == "route" ==>
              && id in s.bindings && sets[i].groupId == s.bindings[id].groupId
              && sets[i].priority == s.bindings[id].priority)
    {
      assert Shows(sets[i], s);
    }
  }

  /** What the end of an edit says about the tables alone. */
  lemma EndsInState(
    libs: Libs, before: World, after: World, e: Edit, p: Published, env: EditEnv, seen: Option<Snapshot>, id: int)
    requires Fits(before.db.sources, e) && EditEnds(libs, before, after, e, p, env, seen)
    ensures p.error == NoError ==> SameTables(Edited(before.db.sources, e), after.db.sources)
    ensures p.error == NoError ==> SetIsActive(after.db, p, id)
    ensures
      || SameTables(Edited(before.db.sources, e), after.db.sources)
      || SameTables(before.db.sources, after.db.sources)
      || (&& e.Delete? && e.id in before.db.sources.bindings
          && after.db.sources.rows == before.db.sources.rows
          && after.db.sources.bindings == before.db.sources.bindings - {e.id})
  {
    hide Edited;
    hide ActiveVersion;
    hide ShowSources;
    hide SetOfSource;
    hide WireOfTable;
    hide CarriesTable;
    hide SubscriptionSets;
    hide Answers;
    hide UnknownYetRestored;
    hide Compensates;
    hide RestoredAfter;
    hide Completes;
    hide Changes;
    if p.error == NoError {
      ShownIsSet(after.db.rows[p.version - 1].snapshot.sets, after.db.sources, id);
    }
  }

  // Each edit writes just those columns.

  lemma RefreshWrites(s: Sources, now: Sources, id: int, content: Content, clock: int)
    requires SourcesOk(s) && id in s.rows
    requires SameTables(Edited(s, RefreshEdit(s.rows[id], content, clock)), now)
    ensures Refreshed(s, now, id, content, clock)
  {}

  lemma MarkWrites(s: Sources, id: int, content: Content, clock: int)
    requires SourcesOk(s) && id in s.rows
    ensures FoundSame(s, UpdateSource(s, id, src => MarkChecked(src, content.url, clock)), id, content, clock)
  {}

  lemma SwitchWrites(s: Sources, now: Sources, id: int, enabled: bool, clock: int)
    requires SourcesOk(s) && id in s.rows
    requires SameTables(Edited(s, SetEnabled(id, enabled, Later(clock, s.rows[id].updatedAt))), now)
    ensures Switched(s, now, id, enabled, clock)
  {}

  lemma DeleteWrites(s: Sources, now: Sources, id: int)
    requires SameTables(Edited(s, Delete(id)), now)
    ensures Removed(s, now, id)
  {}

  lemma RebindWrites(s: Sources, now: Sources, id: int, groupId: string, priority: int, clock: int)
    requires id in s.bindings && SameTables(Edited(s, Rebind(id, TrimSpace(groupId), priority, clock)), now)
    ensures Rebound(s, now, id, groupId, priority, clock)
  {
    hide TrimSpace;
  }

  lemma CreateWrites(
    s: Sources, now: Sources, input: SubscriptionInput, kind: string, content: Content, clock: int)
    requires SourcesOk(s) && SameTables(Edited(s, CreateEdit(s, input, kind, content, clock)), now)
    requires input.category == "route" ==> input.priority.Some?
    ensures Added(s, now, input, kind, content, clock)
  {
    hide TrimSpace;
  }

  /** An edit that was attempted ends as it should, and one that was not attempted changed nothing. */
  ghost predicate Concluded(
    libs: Libs, before: World, after: World, e: Edit, attempted: bool, p: Published, env: EditEnv,
    seen: Option<Snapshot>)
  {
    if attempted
    then Fits(before.db.sources, e) && Changes(before.db.sources, e) && EditEnds(libs, before, after, e, p, env, seen)
    else after == before
  }

  method CreateSubscription(s: RuleService, input: SubscriptionInput, kind: string, content: Content, env: EditEnv)
    returns (p: Published, attempted: bool, ghost seen: Option<Snapshot>)
    requires s.Valid()
    modifies s`world, s`trace
    ensures s.Valid() && Confirmed(old(s.trace), s.trace, s.world, p, env, seen)
    ensures var e := CreateEdit(old(s.world).db.sources, input, kind, content, env.now);
      && WritesAmong(old(s.trace), s.trace, EditStates(old(s.world).db.sources, e))
      && (attempted ==> EditTrace(s.libs, old(s.trace), s.trace, old(s.world).db.sources, e, env.publish.registry))
      && Concluded(s.libs, old(s.world), s.world, e, attempted, p, env, seen)
    ensures p.error == NoError ==> attempted
    ensures attempted && p.error == NoError ==>
      && Added(old(s.world).db.sources, s.world.db.sources, input, kind, content, env.now)
      && SetIsActive(s.world.db, p, old(s.world).db.sources.lastSource + 1)
    ensures p.error != NoError ==>
      || SameTables(old(s.world).db.sources, s.world.db.sources)
      || Added(old(s.world).db.sources, s.world.db.sources, input, kind, content, env.now)
    ensures attempted <==>
      && MayCreate(input, env.registry)
      && (|| (input.category == "access" && input.action in {"allow", "block"})
          || (input.category == "route" && input.action == "upstream"))
      && kind in {"url", "upload"} && 900 <= input.interval <= 2592000
  {
    InputBindingExactly(input, env.registry);
    SourceExactly(s.world.db.sources, input, kind, content, env.now);
    hide Added;
    hide SetIsActive;
    hide MayCreate;
    hide EditStates;
    hide EditEnds;
    hide EditTrace;
    hide HeldDuring;
    hide Lost;
    hide Edited;
    var err := InputBindingError(input, env.registry);
    if err != NoError {
      return Published(0, err), false, None;
    }
    var src := NewSource(s.world.db.sources, input, kind, content, env.now);
    if !SourceCheck(src) {
      return Published(0, Error(false, "constraint")), false, None;
    }
    s.Reachable();
    ghost var before := s.world;
    var e := CreateEdit(s.world.db.sources, input, kind, content, env.now);
    p, seen := Commit(s, e, env);
    attempted := true;
    EndsInState(s.libs, before, s.world, e, p, env, seen, src.id);
    if SameTables(Edited(before.db.sources, e), s.world.db.sources) {
      CreateWrites(before.db.sources, s.world.db.sources, input, kind, content, env.now);
    }
  }

  /** The source can be refreshed and has not changed since it was read before the download. */
  predicate Refreshable(s: Sources, id: int, readAt: int) {
    id in s.rows && s.rows[id].kind == "url" && s.rows[id].updatedAt == readAt
  }

  method RefreshSubscription(s: RuleService, id: int, readAt: int, content: Content, env: EditEnv)
    returns (p: Published, attempted: bool, ghost seen: Option<Snapshot>)
    requires s.Valid()
    modifies s`world, s`trace
    ensures s.Valid() && Confirmed(old(s.trace), s.trace, s.world, p, env, seen)
    ensures attempted <==>
      (&& Refreshable(old(s.world).db.sources, id, readAt)
       && old(s.world).db.sources.rows[id].contentChecksum != content.checksum)
    ensures attempted ==>
      var e := RefreshEdit(old(s.world).db.sources.rows[id], content, env.now);
      && EditTrace(s.libs, old(s.trace), s.trace, old(s.world).db.sources, e, env.publish.registry)
      && Concluded(s.libs, old(s.world), s.world, e, true, p, env, seen)
      && WritesAmong(old(s.trace), s.trace, EditStates(old(s.world).db.sources, e))
    ensures attempted && p.error == NoError ==>
      && Refreshed(old(s.world).db.sources, s.world.db.sources, id, content, env.now)
      && SetIsActive(s.world.db, p, id)
    ensures attempted && p.error != NoError ==>
      || SameTables(old(s.world).db.sources, s.world.db.sources)
      || Refreshed(old(s.world).db.sources, s.world.db.sources, id, content, env.now)
    ensures !attempted && p.error == NoError ==>
      FoundSame(old(s.world).db.sources, s.world.db.sources, id, content, env.now)
    ensures !attempted && p.error == NoError <==>
      (&& Refreshable(old(s.world).db.sources, id, readAt)
       && old(s.world).db.sources.rows[id].contentChecksum == content.checksum)
    ensures !attempted ==> s.world.db == old(s.world).db.(sources :=
      if p.error == NoError
      then UpdateSource(old(s.world).db.sources, id, src => MarkChecked(src, content.url, env.now))
      else old(s.world).db.sources)
  {
    hide Refreshed;
    hide FoundSame;
    hide SetIsActive;
    hide EditStates;
    hide EditEnds;
    hide EditTrace;
    hide HeldDuring;
    hide Lost;
    hide Edited;
    hide RuleService.Valid;
    s.Reachable();
    if id !in s.world.db.sources.rows {
      return Published(0, Error(false, "no rows")), false, None;
    }
    var item := s.world.db.sources.rows[id];
    if item.kind != "url" {
      return Published(0, Error(false, "uploaded subscriptions cannot be refreshed")), false, None;
    }
    if item.updatedAt != readAt {
      return Published(0, Error(false, "conflict")), false, None;
    }
    if content.checksum == item.contentChecksum {
      var checked := UpdateSource(s.world.db.sources, id, src => MarkChecked(src, content.url, env.now));
      MarkWrites(s.world.db.sources, id, content, env.now);
      s.Perform(WriteSources(checked), s.world.(db := s.world.db.(sources := checked)));
      return Published(0, NoError), false, None;
    }
    ghost var before := s.world;
    var e := RefreshEdit(item, content, env.now);
    p, seen := Commit(s, e, env);
    attempted := true;
    EndsInState(s.libs, before, s.world, e, p, env, seen, id);
    if SameTables(Edited(before.db.sources, e), s.world.db.sources) {
      RefreshWrites(before.db.sources, s.world.db.sources, id, content, env.now);
    }
  }

  method SetSubscriptionEnabled(s: RuleService, id: int, enabled: bool, env: EditEnv)
    returns (p: Published, attempted: bool, ghost seen: Option<Snapshot>)
    requires s.Valid()
    modifies s`world, s`trace
    ensures s.Valid() && Confirmed(old(s.trace), s.trace, s.world, p, env, seen)
    ensures attempted <==> id in old(s.world).db.sources.rows && old(s.world).db.sources.rows[id].enabled != enabled
    ensures !attempted ==> s.world == old(s.world) && (p.error == NoError <==> id in s.world.db.sources.rows)
    ensures attempted && p.error == NoError ==>
      && Switched(old(s.world).db.sources, s.world.db.sources, id, enabled, env.now)
      && SetIsActive(s.world.db, p, id)
    ensures attempted && p.error != NoError ==>
      || SameTables(old(s.world).db.sources, s.world.db.sources)
      || Switched(old(s.world).db.sources, s.world.db.sources, id, enabled, env.now)
    ensures attempted ==>
      var e := SetEnabled(id, enabled, Later(env.now, old(s.world).db.sources.rows[id].updatedAt));
      && EditTrace(s.libs, old(s.trace), s.trace, old(s.world).db.sources, e, env.publish.registry)
      && Concluded(s.libs, old(s.world), s.world, e, true, p, env, seen)
      && WritesAmong(old(s.trace), s.trace, EditStates(old(s.world).db.sources, e))
  {
    hide Switched;
    hide SetIsActive;
    hide EditStates;
    hide EditEnds;
    hide EditTrace;
    hide HeldDuring;
    hide Lost;
    hide Edited;
    if id !in s.world.db.sources.rows {
      return Published(0, Error(false, "no rows")), false, None;
    }
    var item := s.world.db.sources.rows[id];
    if item.enabled == enabled {
      return Published(0, NoError), false, None;
    }
    s.Reachable();
    ghost var before := s.world;
    var e := SetEnabled(id, enabled, Later(env.now, item.updatedAt));
    p, seen := Commit(s, e, env);
    attempted := true;
    EndsInState(s.libs, before, s.world, e, p, env, seen, id);
    if SameTables(Edited(before.db.sources, e), s.world.db.sources) {
      SwitchWrites(before.db.sources, s.world.db.sources, id, enabled, env.now);
    }
  }

  method DeleteSubscription(s: RuleService, id: int, env: EditEnv)
    returns (p: Published, attempted: bool, ghost seen: Option<Snapshot>)
    requires s.Valid()
    modifies s`world, s`trace
    ensures s.Valid() && Confirmed(old(s.trace), s.trace, s.world, p, env, seen)
    ensures attempted <==> id in old(s.world).db.sources.rows
    ensures attempted && p.error == NoError ==>
      Removed(old(s.world).db.sources, s.world.db.sources, id) && SetIsActive(s.world.db, p, id)
    ensures attempted && p.error != NoError ==>
      || SameTables(old(s.world).db.sources, s.world.db.sources)
      || Removed(old(s.world).db.sources, s.world.db.sources, id)
      || (&& id in old(s.world).db.sources.bindings
          && s.world.db.sources.rows == old(s.world).db.sources.rows
          && s.world.db.sources.bindings == old(s.world).db.sources.bindings - {id})
    ensures Concluded(s.libs, old(s.world), s.world, Delete(id), attempted, p, env, seen)
    ensures attempted ==>
      EditTrace(s.libs, old(s.trace), s.trace, old(s.world).db.sources, Delete(id), env.publish.registry)
    ensures WritesAmong(old(s.trace), s.trace, EditStates(old(s.world).db.sources, Delete(id)))
    ensures p.error == NoError ==> attempted
  {
    hide Removed;
    hide SetIsActive;
    hide EditStates;
    hide EditEnds;
    hide EditTrace;
    hide HeldDuring;
    hide Lost;
    hide Edited;
    if id !in s.world.db.sources.rows {
      return Published(0, Error(false, "no rows")), false, None;
    }
    ghost var before := s.world;
    p, seen := Commit(s, Delete(id), env);
    attempted := true;
    EndsInState(s.libs, before, s.world, Delete(id), p, env, seen, id);
    if SameTables(Edited(before.db.sources, Delete(id)), s.world.db.sources) {
      DeleteWrites(before.db.sources, s.world.db.sources, id);
    }
  }

  predicate Rebindable(s: Sources, id: int) {
    id in s.rows && s.rows[id].category == "route" && id in s.bindings
  }

  predicate BoundTo(s: Sources, id: int, groupId: string, priority: int) {
    id in s.bindings && s.bindings[id].groupId == groupId && s.bindings[id].priority == priority
  }

  method UpdateSubscriptionBinding(s: RuleService, id: int, groupId: string, priority: int, expected: nat, env: EditEnv)
    returns (p: Published, attempted: bool, ghost seen: Option<Snapshot>)
    requires s.Valid()
    modifies s`world, s`trace
    ensures s.Valid() && Confirmed(old(s.trace), s.trace, s.world, p, env, seen)
    ensures var e := Rebind(id, TrimSpace(groupId), priority, env.now);
      && (attempted ==> EditTrace(s.libs, old(s.trace), s.trace, old(s.world).db.sources, e, env.publish.registry))
      && Concluded(s.libs, old(s.world), s.world, e, attempted, p, env, seen)
      && WritesAmong(old(s.trace), s.trace, EditStates(old(s.world).db.sources, e))
    ensures attempted <==>
      Rebindable(old(s.world).db.sources, id) && MayBind(groupId, priority, expected, env.registry)
        && !BoundTo(old(s.world).db.sources, id, TrimSpace(groupId), priority)
    ensures attempted && p.error == NoError ==>
      && Rebound(old(s.world).db.sources, s.world.db.sources, id, groupId, priority, env.now)
      && SetIsActive(s.world.db, p, id)
    ensures attempted && p.error != NoError ==>
      || SameTables(old(s.world).db.sources, s.world.db.sources)
      || Rebound(old(s.world).db.sources, s.world.db.sources, id, groupId, priority, env.now)
    ensures !attempted && p.error == NoError <==>
      Rebindable(old(s.world).db.sources, id) && MayBind(groupId, priority, expected, env.registry)
        && BoundTo(old(s.world).db.sources, id, TrimSpace(groupId), priority)
  {
    hide Rebound;
    hide SetIsActive;
    hide EditStates;
    hide EditEnds;
    hide EditTrace;
    hide HeldDuring;
    hide Lost;
    hide Edited;
    BindingExactly(groupId, priority, expected, env.registry);
    hide BindingError;
    hide MayBind;
    hide RuleService.Valid;
    s.Reachable();
    if id !in s.world.db.sources.rows {
      return Published(0, Error(false, "no rows")), false, None;
    }
    if s.world.db.sources.rows[id].category != "route" || id !in s.world.db.sources.bindings {
      return Published(0, Error(false, "subscription is not a route subscription")), false, None;
    }
    var err := BindingError(groupId, priority, expected, env.registry);
    if err != NoError {
      return Published(0, err), false, None;
    }
    var binding := s.world.db.sources.bindings[id];
    if binding.groupId == TrimSpace(groupId) && binding.priority == priority {
      return Published(0, NoError), false, None;
    }
    ghost var before := s.world;
    var e := Rebind(id, TrimSpace(groupId), priority, env.now);
    p, seen := Commit(s, e, env);
    attempted := true;
    EndsInState(s.libs, before, s.world, e, p, env, seen, id);
    if SameTables(Edited(before.db.sources, e), s.world.db.sources) {
      RebindWrites(before.db.sources, s.world.db.sources, id, groupId, priority, env.now);
    }
  }
}
