/** The publish protocol as a state machine: the controller's statements, the runtime, and the Apply
    messages between them, which may be lost, delayed past the call that sent them, or delivered twice.
    A controller crash is simply a run in which the next statement of the interrupted call never comes. The
    runtime may lose its snapshot, or come back with one it has held before.

    Hypothesis on the runtime (mosdns): it adopts a snapshot exactly when the snapshot's expected version
    equals the version it holds. */
module Protocol {
  import opened RuleModel
  import opened Validation
  import opened Store

  /** The runtime's snapshot (None: it holds none, version 0), every Apply message ever sent, and,
      as history, the versions the runtime has adopted. */
  datatype World = World(db: Db, runtime: Option<Snapshot>, sent: set<Snapshot>, adopted: set<nat>)

  datatype Event =
    | Deliver(message: Snapshot)
    | FallBack(to: Option<Snapshot>)
    | ReserveIds(count: nat)
    | WriteSources(sources: Sources)
    | InsertCandidate(now: int, rules: seq<Rule>, sets: seq<SubscriptionSet>, rollbackFrom: nat)
    | SendApply(version: nat)
    | MarkUnknown(version: nat)
    | MarkFailed(version: nat, code: string)
    | Finalize(version: nat)

  function VersionOf(runtime: Option<Snapshot>): nat {
    if runtime.None? then 0 else runtime.value.version
  }

  predicate Adopts(runtime: Option<Snapshot>, message: Snapshot) {
    message.expected == VersionOf(runtime)
  }

  function Initial(): World {
    World(Db([], map[], 0, Sources(map[], map[], 0, 0)), None, {}, {})
  }

  predicate HasVersion(db: Db, v: nat) { 1 <= v <= |db.rows| }

  /** A candidate whose outcome is open: the only rows the controller still changes. */
  predicate Open(db: Db, v: nat) {
    HasVersion(db, v) && db.rows[v - 1].status.Open()
  }

  ghost predicate KnownIds(rules: seq<Rule>, last: int) {
    DistinctIds(rules) && forall i | 0 <= i < |rules| :: 1 <= rules[i].id <= last
  }

  /** The source tables' own constraints: keys, foreign key, AUTOINCREMENT counters. */
  ghost predicate SourcesOk(s: Sources) {
    && (forall id | id in s.rows :: s.rows[id].id == id && id <= s.lastSource)
    && (forall id | id in s.bindings ::
          id in s.rows && s.bindings[id].subscriptionId == id && s.bindings[id].id <= s.lastBinding)
  }

  /** When a statement of the controller, or a delivery, can happen. */
  ghost predicate Enabled(w: World, e: Event) {
    match e
    case Deliver(m) => m in w.sent && Adopts(w.runtime, m)
    case FallBack(to) => to.Some? ==> to.value in w.sent && to.value.version in w.adopted
    case ReserveIds(n) => true
    case WriteSources(s) => SourcesOk(s)
    case InsertCandidate(_, rules, _, _) => KnownIds(rules, w.db.lastRuleId)
    case SendApply(v) => HasVersion(w.db, v) && w.db.rows[v - 1].status == Pending
    case MarkUnknown(v) => HasVersion(w.db, v) && w.db.rows[v - 1].status == Pending
    case MarkFailed(v, _) => Open(w.db, v)
    case Finalize(v) => Open(w.db, v) && v in w.adopted
  }

  ghost function Effect(w: World, e: Event): World
    requires Enabled(w, e)
  {
    match e
    case Deliver(m) => w.(runtime := Some(m), adopted := w.adopted + {m.version})
    case FallBack(to) => w.(runtime := to)
    case ReserveIds(n) => w.(db := w.db.(lastRuleId := w.db.lastRuleId + n))
    case WriteSources(s) => w.(db := w.db.(sources := s))
    case InsertCandidate(now, rules, sets, from) => w.(db := InsertRow(w.db, now, rules, sets, from))
    case SendApply(v) => w.(sent := w.sent + {w.db.rows[v - 1].snapshot})
    case MarkUnknown(v) => w.(db := SetStatus(w.db, v, Unknown, "PUBLISH_UNKNOWN"))
    case MarkFailed(v, code) => w.(db := SetStatus(w.db, v, Failed, code))
    case Finalize(v) => w.(db := Activate(w.db, v))
  }

  /** A delivery the runtime refuses, or a statement that cannot happen, changes nothing. */
  ghost function Step(w: World, e: Event): World {
    if Enabled(w, e) then Effect(w, e) else w
  }

  ghost function Run(w: World, events: seq<Event>): World {
    if events == [] then w else Step(Run(w, events[..|events| - 1]), events[|events| - 1])
  }

  lemma RunOneMore(w: World, events: seq<Event>, e: Event)
    ensures Run(w, events + [e]) == Step(Run(w, events), e)
  {
    assert (events + [e])[..|events|] == events;
  }

  lemma {:induction false} RunConcat(w: World, a: seq<Event>, b: seq<Event>)
    ensures Run(w, a + b) == Run(Run(w, a), b)
    decreases |b|
  {
    if b == [] {
      assert a + b == a;
    } else {
      var front := b[..|b| - 1];
      assert (a + b)[..|a + b| - 1] == a + front;
      RunConcat(w, a, front);
    }
  }

  // ---- what every run keeps, even one in which the runtime falls back ---------------------------

  ghost predicate RowOk(row: Row, i: nat, lastRuleId: int) {
    && row.snapshot.version == i + 1
    && row.snapshot.expected == row.previous
    && row.previous <= i
    && row.snapshot.rules == Wire(row.rules)
    && KnownIds(row.rules, lastRuleId)
  }

  ghost predicate RowsOk(db: Db) {
    && 0 <= db.lastRuleId
    && OneActive(db.rows)
    && forall i | 0 <= i < |db.rows| :: RowOk(db.rows[i], i, db.lastRuleId)
  }

  /** The rule table holds exactly the list stored with the active version. */
  ghost predicate TableMatchesActive(db: Db) {
    var a := ActiveVersion(db.rows);
    db.table == if a == 0 then map[] else TableOf(db.rows[a - 1].rules)
  }

  ghost predicate MessagesOk(w: World) {
    && (forall m | m in w.sent :: HasVersion(w.db, m.version) && m == w.db.rows[m.version - 1].snapshot)
    && (w.runtime.Some? ==> w.runtime.value in w.sent && w.runtime.value.version in w.adopted)
    && (forall v | v in w.adopted :: HasVersion(w.db, v))
  }

  /** The version of row i has been adopted. */
  predicate RowAdopted(w: World, i: int) { i + 1 in w.adopted }

  /** A version that is, or ever was, active has been adopted by the runtime. */
  ghost predicate ActivatedWereAdopted(w: World) {
    forall i | 0 <= i < |w.db.rows| :: w.db.rows[i].status.WasActive() ==> RowAdopted(w, i)
  }

  ghost predicate Sound(w: World) {
    && RowsOk(w.db)
    && TableMatchesActive(w.db)
    && MessagesOk(w)
    && ActivatedWereAdopted(w)
    && SourcesOk(w.db.sources)
  }

  lemma InitialIsSound()
    ensures Sound(Initial())
  {}

  lemma KnownIdsGrow(rules: seq<Rule>, a: int, b: int)
    requires KnownIds(rules, a) && a <= b
    ensures KnownIds(rules, b)
  {}

  lemma InsertKeepsSound(w: World, e: Event)
    requires Sound(w) && e.InsertCandidate? && Enabled(w, e)
    ensures Sound(Effect(w, e))
  {
    hide ActiveVersion;
    hide Wire;
    hide TableOf;
    hide SourcesOk;
    var db := w.db;
    StoredListKeepsWire(e.rules);
    var row := NewRow(db, e.now, e.rules, e.sets, e.rollbackFrom);
    assert RowOk(row, |db.rows|, db.lastRuleId);
    var rows' := db.rows + [row];
    assert forall i | 0 <= i < |db.rows| :: rows'[i] == db.rows[i];
    InsertKeepsActive(db.rows, row);
  }

  lemma InsertKeepsActive(rows: seq<Row>, row: Row)
    requires OneActive(rows) && row.status != Active
    ensures OneActive(rows + [row])
    ensures ActiveVersion(rows + [row]) == ActiveVersion(rows)
  {
    assert (rows + [row])[..|rows|] == rows;
  }

  /** Writing Pending, Unknown or Failed over an open row moves no activation. */
  lemma SetStatusKeepsActive(db: Db, v: nat, status: Status, code: string)
    requires RowsOk(db) && Open(db, v) && status != Active
    ensures RowsOk(SetStatus(db, v, status, code))
    ensures ActiveVersion(SetStatus(db, v, status, code).rows) == ActiveVersion(db.rows)
  {
    hide Wire;
    var rows, rows' := db.rows, SetStatus(db, v, status, code).rows;
    assert forall i | 0 <= i < |rows| && i != v - 1 :: rows'[i] == rows[i];
    var a := ActiveVersion(rows);
    if a == 0 {
      NoneActive(rows');
    } else {
      assert a != v;
      ActiveIs(rows', a);
    }
  }

  lemma SetStatusKeepsSound(w: World, v: nat, status: Status, code: string)
    requires Sound(w) && Open(w.db, v) && !status.WasActive()
    ensures Sound(w.(db := SetStatus(w.db, v, status, code)))
  {
    hide ActiveVersion;
    hide Wire;
    hide TableOf;
    hide KnownIds;
    hide OneActive;
    hide SourcesOk;
    hide RowOk;
    SetStatusKeepsActive(w.db, v, status, code);
    var rows, rows' := w.db.rows, SetStatus(w.db, v, status, code).rows;
    assert forall i | 0 <= i < |rows| && i != v - 1 :: rows'[i] == rows[i];
    var a := ActiveVersion(rows);
    assert a > 0 ==> rows'[a - 1] == rows[a - 1];
  }

  /** Finalising rewrites statuses only. */
  lemma ActivatedKeeps(rows: seq<Row>, v: nat)
    ensures |ActivatedRows(rows, v)| == |rows|
    ensures forall i | 0 <= i < |rows| :: var r := ActivatedRows(rows, v)[i];
      && r.snapshot == rows[i].snapshot && r.rules == rows[i].rules && r.previous == rows[i].previous
      && (r.status.WasActive() ==> i + 1 == v || rows[i].status.WasActive())
  {
    forall i | 0 <= i < |rows| ensures ActivatedRows(rows, v)[i] == ActivatedRow(rows[i], i + 1 == v) {}
  }

  lemma SameRowOk(row: Row, copy: Row, i: nat, lastRuleId: int)
    requires RowOk(row, i, lastRuleId)
    requires copy.snapshot == row.snapshot && copy.rules == row.rules && copy.previous == row.previous
    ensures RowOk(copy, i, lastRuleId)
  {}

  lemma FinalizeKeepsRows(db: Db, v: nat)
    requires RowsOk(db) && HasVersion(db, v)
    ensures RowsOk(Activate(db, v)) && TableMatchesActive(Activate(db, v))
    ensures ActiveVersion(Activate(db, v).rows) == v
  {
    var rows' := ActivatedRows(db.rows, v);
    ActivateMakesActive(db.rows, v);
    ActivatedKeeps(db.rows, v);
    hide ActiveVersion;
    hide OneActive;
    hide ActivatedRows;
    hide ActivatedRow;
    hide RowOk;
    ActivateKeepsTable(db, v);
    hide TableMatchesActive;
    hide TableOf;
    forall i | 0 <= i < |rows'| ensures RowOk(rows'[i], i, db.lastRuleId) {
      SameRowOk(db.rows[i], rows'[i], i, db.lastRuleId);
    }
  }

  lemma ActivateKeepsTable(db: Db, v: nat)
    requires HasVersion(db, v)
    ensures TableMatchesActive(Activate(db, v))
  {
    ActivateMakesActive(db.rows, v);
    ActivatedKeeps(db.rows, v);
    hide ActiveVersion;
    hide TableOf;
    hide ActivatedRows;
  }

  lemma FinalizeKeepsMessages(w: World, v: nat)
    requires MessagesOk(w) && HasVersion(w.db, v)
    ensures MessagesOk(w.(db := Activate(w.db, v)))
  {
    ActivatedKeeps(w.db.rows, v);
    hide TableOf;
    hide ActivatedRows;
    hide ActivatedRow;
  }

  lemma FinalizeKeepsHistory(w: World, v: nat)
    requires ActivatedWereAdopted(w) && HasVersion(w.db, v) && v in w.adopted
    ensures ActivatedWereAdopted(w.(db := Activate(w.db, v)))
  {
    ActivatedKeeps(w.db.rows, v);
    hide TableOf;
    hide ActivatedRows;
    hide ActivatedRow;
  }

  lemma FinalizeKeepsSound(w: World, v: nat)
    requires Sound(w) && Enabled(w, Finalize(v))
    ensures Sound(Effect(w, Finalize(v)))
    ensures ActiveVersion(Effect(w, Finalize(v)).db.rows) == v
  {
    FinalizeKeepsRows(w.db, v);
    FinalizeKeepsMessages(w, v);
    FinalizeKeepsHistory(w, v);
    hide ActiveVersion;
    hide Activate;
    hide RowsOk;
    hide TableMatchesActive;
    hide SourcesOk;
    hide MessagesOk;
    hide ActivatedWereAdopted;
    assert Activate(w.db, v).sources == w.db.sources by { ActivateKeepsSources(w.db, v); }
  }

  lemma ActivateKeepsSources(db: Db, v: nat)
    requires HasVersion(db, v)
    ensures Activate(db, v).sources == db.sources
  {}

  lemma ReserveKeepsSound(w: World, count: nat)
    requires Sound(w)
    ensures Sound(Effect(w, ReserveIds(count)))
  {
    hide Wire;
    hide ActiveVersion;
    hide TableOf;
    hide OneActive;
    hide SourcesOk;
    var db := Effect(w, ReserveIds(count)).db;
    forall i | 0 <= i < |db.rows| ensures RowOk(db.rows[i], i, db.lastRuleId) {
      assert RowOk(w.db.rows[i], i, w.db.lastRuleId);
      KnownIdsGrow(db.rows[i].rules, w.db.lastRuleId, db.lastRuleId);
    }
  }

  lemma SendKeepsSound(w: World, v: nat)
    requires Sound(w) && Enabled(w, SendApply(v))
    ensures Sound(Effect(w, SendApply(v)))
  {
    hide ActiveVersion;
    hide Wire;
    hide TableOf;
    hide OneActive;
    hide KnownIds;
    hide SourcesOk;
    assert RowOk(w.db.rows[v - 1], v - 1, w.db.lastRuleId);
  }

  lemma StepKeepsSound(w: World, e: Event)
    requires Sound(w)
    ensures Sound(Step(w, e))
  {
    hide ActiveVersion;
    hide Wire;
    hide TableOf;
    hide KnownIds;
    hide OneActive;
    hide RowOk;
    if Enabled(w, e) {
      match e
      case ReserveIds(n) => ReserveKeepsSound(w, n);
      case SendApply(v) => SendKeepsSound(w, v);
      case InsertCandidate(_, _, _, _) => InsertKeepsSound(w, e);
      case MarkUnknown(v) => SetStatusKeepsSound(w, v, Unknown, "PUBLISH_UNKNOWN");
      case MarkFailed(v, code) => SetStatusKeepsSound(w, v, Failed, code);
      case Finalize(v) => FinalizeKeepsSound(w, v);
      case _ =>
    }
  }

  /** In every reachable state, whatever is lost, delayed, repeated or interrupted: at most one version is
      active, the rule table is the active version's list, every version that ever became active was
      adopted by the runtime, and no stored rule id exceeds the persisted counter. */
  lemma {:induction false} EveryRunIsSound(w: World, events: seq<Event>)
    requires Sound(w)
    ensures Sound(Run(w, events))
  {
    if events != [] {
      EveryRunIsSound(w, events[..|events| - 1]);
      StepKeepsSound(Run(w, events[..|events| - 1]), events[|events| - 1]);
    }
  }

  /** Every reserved id is above every id stored in any version. */
  lemma ReservedIdsAreNew(w: World, id: int)
    requires Sound(w) && id > w.db.lastRuleId
    ensures forall i, k | 0 <= i < |w.db.rows| && 0 <= k < |w.db.rows[i].rules| :: w.db.rows[i].rules[k].id != id
  {
    hide ActiveVersion;
    hide Wire;
    hide TableOf;
    forall i, k | 0 <= i < |w.db.rows| && 0 <= k < |w.db.rows[i].rules| ensures w.db.rows[i].rules[k].id != id {
      assert RowOk(w.db.rows[i], i, w.db.lastRuleId);
    }
  }

  lemma StepKeepsCounter(w: World, e: Event)
    ensures w.db.lastRuleId <= Step(w, e).db.lastRuleId
  {
    hide ActiveVersion;
    hide Wire;
    hide TableOf;
  }

  /** The counter never falls, so an id is reserved at most once, whether or not a publish follows. */
  lemma {:induction false} CounterOnlyGrows(w: World, events: seq<Event>)
    ensures w.db.lastRuleId <= Run(w, events).db.lastRuleId
  {
    hide Step;
    if events != [] {
      CounterOnlyGrows(w, events[..|events| - 1]);
      StepKeepsCounter(Run(w, events[..|events| - 1]), events[|events| - 1]);
    }
  }

  // ---- what runs keep as long as the runtime does not lose its snapshot -----------------------

  /** The runtime never loses its snapshot and never comes back with an older one. */
  ghost predicate NoLoss(events: seq<Event>) {
    forall i | 0 <= i < |events| :: !events[i].FallBack?
  }

  /** The runtime is at the active version, or at a newer candidate whose recorded predecessor is
      exactly the active version. */
  ghost predicate RuntimeFollows(w: World) {
    var a, r := ActiveVersion(w.db.rows), VersionOf(w.runtime);
    r == a || (a < r && HasVersion(w.db, r) && w.db.rows[r - 1].previous == a)
  }

  /** Recorded predecessors and superseded versions lie behind the active version. */
  ghost predicate HistoryIsBehind(db: Db) {
    forall i | 0 <= i < |db.rows| ::
      && db.rows[i].previous <= ActiveVersion(db.rows)
      && (db.rows[i].status == Superseded ==> i + 1 < ActiveVersion(db.rows))
  }

  /** An adopted version has been activated, or is the one the runtime holds, ahead of the active version. */
  ghost predicate AdoptedAreSettled(w: World) {
    forall i | 0 <= i < |w.db.rows| && RowAdopted(w, i) ::
      || w.db.rows[i].status.WasActive()
      || (i + 1 == VersionOf(w.runtime) && ActiveVersion(w.db.rows) < i + 1)
  }

  ghost predicate InStep(w: World) {
    Sound(w) && RuntimeFollows(w) && HistoryIsBehind(w.db) && AdoptedAreSettled(w)
  }

  lemma InitialIsInStep()
    ensures InStep(Initial())
  {}

  lemma DeliverKeepsInStep(w: World, m: Snapshot)
    requires InStep(w) && Enabled(w, Deliver(m))
    ensures InStep(Effect(w, Deliver(m)))
    ensures VersionOf(w.runtime) == ActiveVersion(w.db.rows) < m.version
  {
    hide ActiveVersion;
    hide Wire;
    hide TableOf;
    hide KnownIds;
    hide OneActive;
    StepKeepsSound(w, Deliver(m));
    assert m == w.db.rows[m.version - 1].snapshot;
    assert RowOk(w.db.rows[m.version - 1], m.version - 1, w.db.lastRuleId);
  }

  lemma FinalizeIsNext(w: World, v: nat)
    requires InStep(w) && Enabled(w, Finalize(v))
    ensures VersionOf(w.runtime) == v && w.db.rows[v - 1].previous == ActiveVersion(w.db.rows) < v
  {
    hide ActiveVersion;
    hide Wire;
    hide TableOf;
    hide KnownIds;
    hide OneActive;
    hide RowOk;
    hide RowsOk;
    assert !w.db.rows[v - 1].status.WasActive();
  }

  lemma FinalizeKeepsInStep(w: World, v: nat)
    requires InStep(w) && Enabled(w, Finalize(v))
    ensures InStep(Effect(w, Finalize(v)))
    ensures VersionOf(w.runtime) == v && w.db.rows[v - 1].previous == ActiveVersion(w.db.rows) < v
  {
    hide ActiveVersion;
    hide TableOf;
    hide Sound;
    hide RuntimeFollows;
    hide AdoptedAreSettled;
    hide HistoryIsBehind;
    FinalizeKeepsSound(w, v);
    FinalizeIsNext(w, v);
    FinalizedRuntimeFollows(Effect(w, Finalize(v)));
    FinalizedHistory(w.db, v);
    FinalizedAdopted(w, v);
  }

  lemma FinalizedHistory(db: Db, v: nat)
    requires HistoryIsBehind(db) && HasVersion(db, v) && ActiveVersion(db.rows) < v
    ensures HistoryIsBehind(Activate(db, v))
  {
    ActivateMakesActive(db.rows, v);
    hide ActiveVersion;
    hide TableOf;
    var rows' := ActivatedRows(db.rows, v);
    forall i | 0 <= i < |rows'| ensures rows'[i].previous <= v && (rows'[i].status == Superseded ==> i + 1 < v) {
      assert rows'[i] == ActivatedRow(db.rows[i], i + 1 == v);
      assert db.rows[i].status == Active ==> i < ActiveVersion(db.rows);
    }
  }

  lemma FinalizedAdopted(w: World, v: nat)
    requires AdoptedAreSettled(w) && HasVersion(w.db, v) && VersionOf(w.runtime) == v
    ensures AdoptedAreSettled(w.(db := Activate(w.db, v)))
  {
    hide ActiveVersion;
    hide TableOf;
    var rows' := ActivatedRows(w.db.rows, v);
    forall i | 0 <= i < |rows'| && RowAdopted(w, i) ensures rows'[i].status.WasActive() {
      assert rows'[i] == ActivatedRow(w.db.rows[i], i + 1 == v);
    }
  }

  lemma FinalizedRuntimeFollows(w: World)
    requires VersionOf(w.runtime) == ActiveVersion(w.db.rows)
    ensures RuntimeFollows(w)
  {}

  lemma InsertKeepsInStep(w: World, e: Event)
    requires InStep(w) && e.InsertCandidate? && Enabled(w, e)
    ensures InStep(Effect(w, e))
  {
    hide ActiveVersion;
    hide Wire;
    hide TableOf;
    hide KnownIds;
    hide OneActive;
    hide RowOk;
    InsertKeepsSound(w, e);
    var row := NewRow(w.db, e.now, e.rules, e.sets, e.rollbackFrom);
    InsertKeepsActive(w.db.rows, row);
    var rows' := w.db.rows + [row];
    assert forall i | 0 <= i < |w.db.rows| :: rows'[i] == w.db.rows[i];
  }

  lemma SetStatusKeepsInStep(w: World, v: nat, status: Status, code: string)
    requires InStep(w) && Open(w.db, v) && !status.WasActive()
    ensures InStep(w.(db := SetStatus(w.db, v, status, code)))
  {
    hide ActiveVersion;
    hide Sound;
    hide RowsOk;
    hide RuntimeFollows;
    hide HistoryIsBehind;
    hide AdoptedAreSettled;
    hide SetStatus;
    SetStatusKeepsSound(w, v, status, code);
    SoundRowsOk(w);
    SetStatusKeepsActive(w.db, v, status, code);
    SetStatusFollows(w, v, status, code);
    SetStatusHistory(w.db, v, status, code);
    SetStatusSettled(w, v, status, code);
  }

  lemma SetStatusFollows(w: World, v: nat, status: Status, code: string)
    requires RuntimeFollows(w) && Open(w.db, v)
    requires ActiveVersion(SetStatus(w.db, v, status, code).rows) == ActiveVersion(w.db.rows)
    ensures RuntimeFollows(w.(db := SetStatus(w.db, v, status, code)))
  {
    hide ActiveVersion;
    var rows' := SetStatus(w.db, v, status, code).rows;
    assert forall i | 0 <= i < |rows'| :: rows'[i].previous == w.db.rows[i].previous;
  }

  lemma SetStatusHistory(db: Db, v: nat, status: Status, code: string)
    requires HistoryIsBehind(db) && Open(db, v) && !status.WasActive()
    requires ActiveVersion(SetStatus(db, v, status, code).rows) == ActiveVersion(db.rows)
    ensures HistoryIsBehind(SetStatus(db, v, status, code))
  {
    hide ActiveVersion;
  }

  lemma SoundRowsOk(w: World)
    requires Sound(w)
    ensures RowsOk(w.db)
  {}

  lemma SetStatusSettled(w: World, v: nat, status: Status, code: string)
    requires AdoptedAreSettled(w) && Open(w.db, v)
    requires ActiveVersion(SetStatus(w.db, v, status, code).rows) == ActiveVersion(w.db.rows)
    ensures AdoptedAreSettled(w.(db := SetStatus(w.db, v, status, code)))
  {
    hide ActiveVersion;
    var rows' := SetStatus(w.db, v, status, code).rows;
    assert forall i | 0 <= i < |rows'| && i != v - 1 :: rows'[i] == w.db.rows[i];
  }

  /** Only finalising changes the active version. */
  lemma OnlyFinalizeActivates(w: World, e: Event)
    requires Sound(w)
    ensures ActiveVersion(Step(w, e).db.rows)
         == if e.Finalize? && Enabled(w, e) then e.version else ActiveVersion(w.db.rows)
  {
    hide ActiveVersion;
    hide Wire;
    hide TableOf;
    hide KnownIds;
    hide RowOk;
    hide RowsOk;
    if Enabled(w, e) {
      match e
      case InsertCandidate(now, rules, sets, from) => InsertLeavesActive(w, e);
      case MarkUnknown(v) => SetStatusKeepsActive(w.db, v, Unknown, "PUBLISH_UNKNOWN");
      case MarkFailed(v, code) => SetStatusKeepsActive(w.db, v, Failed, code);
      case Finalize(v) => ActivateMakesActive(w.db.rows, v);
      case _ =>
    }
  }

  /** The one step that takes the active version back is finalising an adopted open candidate below it. */
  lemma ActiveFallsExactlyWhen(w: World, e: Event)
    requires Sound(w)
    ensures ActiveVersion(Step(w, e).db.rows) < ActiveVersion(w.db.rows)
      <==> e.Finalize? && Enabled(w, e) && e.version < ActiveVersion(w.db.rows)
  {
    OnlyFinalizeActivates(w, e);
    hide ActiveVersion;
    hide Sound;
    hide Step;
  }

  lemma InsertLeavesActive(w: World, e: Event)
    requires Sound(w) && e.InsertCandidate? && Enabled(w, e)
    ensures ActiveVersion(Effect(w, e).db.rows) == ActiveVersion(w.db.rows)
  {
    hide Wire;
    InsertKeepsActive(w.db.rows, NewRow(w.db, e.now, e.rules, e.sets, e.rollbackFrom));
  }

  lemma StepKeepsInStep(w: World, e: Event)
    requires InStep(w) && !e.FallBack?
    ensures InStep(Step(w, e))
  {
    hide ActiveVersion;
    hide Wire;
    hide TableOf;
    hide KnownIds;
    hide OneActive;
    hide RowOk;
    hide RowsOk;
    if Enabled(w, e) {
      match e
      case Deliver(m) => DeliverKeepsInStep(w, m);
      case InsertCandidate(_, _, _, _) => InsertKeepsInStep(w, e);
      case MarkUnknown(v) => SetStatusKeepsInStep(w, v, Unknown, "PUBLISH_UNKNOWN");
      case MarkFailed(v, code) => SetStatusKeepsInStep(w, v, Failed, code);
      case Finalize(v) => FinalizeKeepsInStep(w, v);
      case _ => StepKeepsSound(w, e);
    }
  }

  /** Activation never skips: the version it replaces is the one the new row recorded as its predecessor,
      and the runtime holds the new version when it happens. */
  lemma ActivationFollowsTheChain(w: World, e: Event)
    requires InStep(w)
    requires ActiveVersion(Step(w, e).db.rows) != ActiveVersion(w.db.rows)
    ensures e.Finalize? && Open(w.db, e.version)
    ensures w.db.rows[e.version - 1].previous == ActiveVersion(w.db.rows) < e.version
    ensures w.runtime == Some(w.db.rows[e.version - 1].snapshot)
    ensures ActiveVersion(Step(w, e).db.rows) == e.version
  {
    hide ActiveVersion;
    hide Wire;
    hide TableOf;
    hide KnownIds;
    hide RowOk;
    hide RowsOk;
    OnlyFinalizeActivates(w, e);
    FinalizeKeepsInStep(w, e.version);
  }

  lemma ActiveMovesForward(w: World, e: Event)
    requires InStep(w)
    ensures ActiveVersion(w.db.rows) <= ActiveVersion(Step(w, e).db.rows)
  {
    hide ActiveVersion;
    hide Step;
    hide InStep;
    if ActiveVersion(Step(w, e).db.rows) != ActiveVersion(w.db.rows) {
      ActivationFollowsTheChain(w, e);
    }
  }

  /** In every reachable state without snapshot loss the runtime is at the active version or exactly one
      candidate ahead of it, and the active version has only moved forward. */
  lemma {:induction false} EveryRunStaysInStep(w: World, events: seq<Event>)
    requires InStep(w) && NoLoss(events)
    ensures InStep(Run(w, events))
    ensures ActiveVersion(w.db.rows) <= ActiveVersion(Run(w, events).db.rows)
  {
    hide ActiveVersion;
    hide Step;
    hide InStep;
    if events != [] {
      var front := events[..|events| - 1];
      EveryRunStaysInStep(w, front);
      StepKeepsInStep(Run(w, front), events[|events| - 1]);
      ActiveMovesForward(Run(w, front), events[|events| - 1]);
    }
  }
}
