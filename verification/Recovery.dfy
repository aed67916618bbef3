/** When the controller and the runtime can come together again, and when they never do. */
module Recovery {
  import opened RuleModel
  import opened Store
  import opened Protocol

  ghost predicate Caught(w: World) {
    VersionOf(w.runtime) == ActiveVersion(w.db.rows)
  }

  /** The runtime holds a candidate the controller has already written off as failed. */
  ghost predicate HoldsFailed(w: World) {
    var r := VersionOf(w.runtime);
    HasVersion(w.db, r) && w.db.rows[r - 1].status == Failed
  }

  /** Nothing sent or still to be sent expects the runtime's version, and nothing adopted is left to finalise. */
  ghost predicate Wedged(w: World) {
    !Caught(w) && NoneExpects(w.db.rows, VersionOf(w.runtime)) && AdoptedAreClosed(w)
  }

  ghost predicate NoneExpects(rows: seq<Row>, version: nat) {
    forall i | 0 <= i < |rows| :: rows[i].previous != version
  }

  ghost predicate AdoptedAreClosed(w: World) {
    forall i | 0 <= i < |w.db.rows| && RowAdopted(w, i) :: !w.db.rows[i].status.Open()
  }

  lemma WedgedRefusesDelivery(w: World, m: Snapshot)
    requires Sound(w) && Wedged(w) && m in w.sent
    ensures !Adopts(w.runtime, m)
  {
    hide ActiveVersion;
    assert RowOk(w.db.rows[m.version - 1], m.version - 1, w.db.lastRuleId);
  }

  lemma WedgedInsert(w: World, e: Event)
    requires Sound(w) && Wedged(w) && e.InsertCandidate? && Enabled(w, e)
    ensures Wedged(Effect(w, e))
  {
    InsertLeavesActive(w, e);
    AdoptedExist(w);
    hide ActiveVersion;
    hide Sound;
    hide BuildSnapshot;
    hide StoredList;
    hide KnownIds;
    var w' := Effect(w, e);
    assert w'.db.rows == w.db.rows + [NewRow(w.db, e.now, e.rules, e.sets, e.rollbackFrom)];
    assert NoneExpects(w'.db.rows, VersionOf(w.runtime));
    forall i | 0 <= i < |w'.db.rows| && RowAdopted(w', i) ensures !w'.db.rows[i].status.Open() {
      assert RowAdopted(w, i);
      assert i < |w.db.rows|;
    }
  }

  lemma AdoptedExist(w: World)
    requires Sound(w)
    ensures forall i :: RowAdopted(w, i) ==> i < |w.db.rows|
  {
    forall i | RowAdopted(w, i) ensures i < |w.db.rows| {
      assert i + 1 in w.adopted;
    }
  }

  lemma StatusKeepsExpectations(rows: seq<Row>, k: nat, row: Row, version: nat)
    requires NoneExpects(rows, version) && k < |rows| && row.previous == rows[k].previous
    ensures NoneExpects(rows[k := row], version)
  {}

  lemma StatusKeepsClosed(w: World, k: nat, row: Row)
    requires AdoptedAreClosed(w) && k < |w.db.rows| && w.db.rows[k].status.Open()
    ensures AdoptedAreClosed(w.(db := w.db.(rows := w.db.rows[k := row])))
  {
    assert !RowAdopted(w, k);
    var w' := w.(db := w.db.(rows := w.db.rows[k := row]));
    forall i | 0 <= i < |w'.db.rows| && RowAdopted(w', i) ensures !w'.db.rows[i].status.Open() {
      assert RowAdopted(w, i);
    }
  }

  lemma WedgedSetStatus(w: World, v: nat, status: Status, code: string)
    requires Sound(w) && Wedged(w) && Open(w.db, v) && !status.WasActive()
    ensures Wedged(w.(db := SetStatus(w.db, v, status, code)))
  {
    hide ActiveVersion;
    hide RowsOk;
    hide Sound;
    hide NoneExpects;
    hide AdoptedAreClosed;
    SoundRowsOk(w);
    SetStatusKeepsActive(w.db, v, status, code);
    var row := w.db.rows[v - 1].(status := status, errorCode := code);
    StatusKeepsExpectations(w.db.rows, v - 1, row, VersionOf(w.runtime));
    StatusKeepsClosed(w, v - 1, row);
  }

  lemma WedgedStep(w: World, e: Event)
    requires Sound(w) && Wedged(w) && !e.FallBack?
    ensures Wedged(Step(w, e))
    ensures Step(w, e).runtime == w.runtime
    ensures ActiveVersion(Step(w, e).db.rows) == ActiveVersion(w.db.rows)
  {
    hide ActiveVersion;
    OnlyFinalizeActivates(w, e);
    hide Sound;
    if Enabled(w, e) {
      match e
      case Deliver(m) => WedgedRefusesDelivery(w, m);
      case InsertCandidate(_, _, _, _) => WedgedInsert(w, e);
      case MarkUnknown(v) => WedgedSetStatus(w, v, Unknown, "PUBLISH_UNKNOWN");
      case MarkFailed(v, code) => WedgedSetStatus(w, v, Failed, code);
      case _ =>
    }
  }

  /** A wedged pair stays wedged whatever the controller publishes and whatever is still delivered: neither
      the runtime nor the active version ever moves again. */
  lemma {:induction false} WedgedForever(w: World, events: seq<Event>)
    requires Sound(w) && Wedged(w) && NoLoss(events)
    ensures Sound(Run(w, events)) && Wedged(Run(w, events))
    ensures Run(w, events).runtime == w.runtime
    ensures ActiveVersion(Run(w, events).db.rows) == ActiveVersion(w.db.rows)
  {
    hide ActiveVersion;
    hide Sound;
    hide Wedged;
    hide Step;
    if events != [] {
      var front := events[..|events| - 1];
      WedgedForever(w, front);
      StepKeepsSound(Run(w, front), events[|events| - 1]);
      WedgedStep(Run(w, front), events[|events| - 1]);
    }
  }

  /** The runtime's version is one the controller knows, unless it is 0. */
  lemma RuntimeIsAdopted(w: World)
    requires InStep(w) && !Caught(w)
    ensures var r := VersionOf(w.runtime);
      HasVersion(w.db, r) && r in w.adopted && ActiveVersion(w.db.rows) < r && !w.db.rows[r - 1].status.WasActive()
  {
    hide ActiveVersion;
    hide RowsOk;
    var r := VersionOf(w.runtime);
    assert w.db.rows[r - 1].status == Superseded ==> (r - 1) + 1 < ActiveVersion(w.db.rows);
  }

  /** In step, the only wedge is a failed candidate that landed after all. */
  lemma WedgedExactlyWhenFailedLanded(w: World)
    requires InStep(w)
    ensures Wedged(w) <==> !Caught(w) && HoldsFailed(w)
  {
    hide ActiveVersion;
    hide RowsOk;
    if !Caught(w) {
      RuntimeIsAdopted(w);
      var r := VersionOf(w.runtime);
      var i := r - 1;
      assert RowAdopted(w, i);
      forall k | 0 <= k < |w.db.rows| ensures w.db.rows[k].previous != VersionOf(w.runtime) {
        assert w.db.rows[k].previous <= ActiveVersion(w.db.rows);
      }
      forall k | 0 <= k < |w.db.rows| && RowAdopted(w, k) && k != i ensures w.db.rows[k].status.WasActive() {}
      assert w.db.rows[i].status.Open() || w.db.rows[i].status == Failed;
    }
  }

  /** Finalising the candidate the runtime holds brings the two together. */
  lemma FinalizingCatchesUp(w: World)
    requires InStep(w) && !Caught(w) && !HoldsFailed(w)
    ensures Enabled(w, Finalize(VersionOf(w.runtime)))
    ensures Caught(Step(w, Finalize(VersionOf(w.runtime))))
  {
    hide ActiveVersion;
    RuntimeIsAdopted(w);
    OnlyFinalizeActivates(w, Finalize(VersionOf(w.runtime)));
  }

  /** The controller and the runtime can agree again exactly when the runtime does not hold a candidate
      that was marked failed. */
  lemma RecoverableExactlyWhenNotFailed(w: World)
    requires InStep(w)
    ensures (exists events :: NoLoss(events) && Caught(Run(w, events))) <==> Caught(w) || !HoldsFailed(w)
  {
    hide ActiveVersion;
    hide InStep;
    if Caught(w) {
      assert NoLoss([]) && Run(w, []) == w;
      assert exists events :: NoLoss(events) && Caught(Run(w, events));
    } else if !HoldsFailed(w) {
      FinalizingCatchesUp(w);
      var events := [Finalize(VersionOf(w.runtime))];
      RunOneMore(w, [], events[0]);
      assert [] + events == events && NoLoss(events) && Run(w, []) == w;
    } else {
      WedgedExactlyWhenFailedLanded(w);
      InStepIsSound(w);
      forall events | NoLoss(events) ensures !Caught(Run(w, events)) {
        WedgedForever(w, events);
      }
    }
  }

  // ---- recovery from any reachable state, also after the runtime has fallen back ----------------

  /** Messages that were sent and that the runtime can take up one after the other, starting from a version. */
  ghost predicate Chain(sent: set<Snapshot>, from: nat, messages: seq<Snapshot>)
    decreases |messages|
  {
    messages != [] ==>
      messages[0] in sent && messages[0].expected == from && Chain(sent, messages[0].version, messages[1..])
  }

  function EndOf(from: nat, messages: seq<Snapshot>): nat
    decreases |messages|
  {
    if messages == [] then from else EndOf(messages[0].version, messages[1..])
  }

  /** Versions from which the two come together: the active one, an open candidate, and the predecessor of a
      candidate still to be sent. */
  ghost predicate GoodEnd(db: Db, x: nat) {
    || x == ActiveVersion(db.rows)
    || Open(db, x)
    || exists i :: 0 <= i < |db.rows| && db.rows[i].status == Pending && db.rows[i].previous == x
  }

  ghost predicate CanRecover(w: World) {
    var held := VersionOf(w.runtime);
    exists messages :: Chain(w.sent, held, messages) && GoodEnd(w.db, EndOf(held, messages))
  }

  /** Delivering a chain takes the runtime to its end. */
  lemma {:induction false} ChainIsDelivered(w: World, messages: seq<Snapshot>) returns (events: seq<Event>)
    requires Sound(w) && Chain(w.sent, VersionOf(w.runtime), messages)
    ensures NoLoss(events) && Sound(Run(w, events))
    ensures Run(w, events).db == w.db && Run(w, events).sent == w.sent
    ensures VersionOf(Run(w, events).runtime) == EndOf(VersionOf(w.runtime), messages)
    ensures w.runtime.Some? || messages != [] ==> VersionOf(Run(w, events).runtime) in Run(w, events).adopted
    decreases |messages|
  {
    hide Sound;
    hide ActiveVersion;
    if messages == [] {
      events := [];
      if w.runtime.Some? { RuntimeWasAdopted(w); }
    } else {
      var e := Deliver(messages[0]);
      StepKeepsSound(w, e);
      var rest := ChainIsDelivered(Step(w, e), messages[1..]);
      events := [e] + rest;
      RunOneMore(w, [], e);
      assert [] + [e] == [e];
      RunConcat(w, [e], rest);
    }
  }

  lemma RuntimeWasAdopted(w: World)
    requires Sound(w) && w.runtime.Some?
    ensures w.runtime.value.version in w.adopted
  {}

  /** At a good end at most three more steps bring the two together. */
  lemma GoodEndCatches(w: World, x: nat) returns (events: seq<Event>)
    requires Sound(w) && VersionOf(w.runtime) == x && GoodEnd(w.db, x) && (Open(w.db, x) ==> x in w.adopted)
    ensures NoLoss(events) && Caught(Run(w, events))
  {
    hide ActiveVersion;
    hide Sound;
    if x == ActiveVersion(w.db.rows) {
      events := [];
    } else if Open(w.db, x) {
      OnlyFinalizeActivates(w, Finalize(x));
      events := [Finalize(x)];
      RunOneMore(w, [], Finalize(x));
      assert [] + events == events;
    } else {
      var i :| 0 <= i < |w.db.rows| && w.db.rows[i].status == Pending && w.db.rows[i].previous == x;
      PendingCatches(w, i + 1);
      events := [SendApply(i + 1), Deliver(w.db.rows[i].snapshot), Finalize(i + 1)];
      RunTwo(w, events[0], events[1]);
      RunOneMore(w, [events[0], events[1]], events[2]);
      assert [events[0], events[1]] + [events[2]] == events;
    }
  }

  lemma PendingCatches(w: World, v: nat)
    requires Sound(w) && HasVersion(w.db, v) && w.db.rows[v - 1].status == Pending
    requires w.db.rows[v - 1].previous == VersionOf(w.runtime)
    ensures Caught(Step(Step(Step(w, SendApply(v)), Deliver(w.db.rows[v - 1].snapshot)), Finalize(v)))
  {
    PendingSnapshot(w, v);
    hide ActiveVersion;
    hide Sound;
    hide TableOf;
    var m := w.db.rows[v - 1].snapshot;
    StepKeepsSound(w, SendApply(v));
    var w1 := Step(w, SendApply(v));
    StepKeepsSound(w1, Deliver(m));
    var w2 := Step(w1, Deliver(m));
    assert Enabled(w1, Deliver(m)) && Enabled(w2, Finalize(v));
    OnlyFinalizeActivates(w2, Finalize(v));
  }

  lemma PendingSnapshot(w: World, v: nat)
    requires Sound(w) && HasVersion(w.db, v)
    ensures w.db.rows[v - 1].snapshot.version == v && w.db.rows[v - 1].snapshot.expected == w.db.rows[v - 1].previous
  {
    hide ActiveVersion;
    assert RowOk(w.db.rows[v - 1], v - 1, w.db.lastRuleId);
  }

  /** An open version the runtime is at has been adopted. */
  lemma OpenIsHeld(w: World)
    requires Sound(w) && Open(w.db, VersionOf(w.runtime))
    ensures w.runtime.Some? && VersionOf(w.runtime) in w.adopted
  {
    hide ActiveVersion;
  }

  lemma RecoverableRuns(w: World) returns (events: seq<Event>)
    requires Sound(w) && CanRecover(w)
    ensures NoLoss(events) && Caught(Run(w, events))
  {
    hide ActiveVersion;
    hide Sound;
    hide GoodEnd;
    var held := VersionOf(w.runtime);
    var messages :| Chain(w.sent, held, messages) && GoodEnd(w.db, EndOf(held, messages));
    var first := ChainIsDelivered(w, messages);
    var w' := Run(w, first);
    if Open(w'.db, VersionOf(w'.runtime)) { OpenIsHeld(w'); }
    var second := GoodEndCatches(w', VersionOf(w'.runtime));
    RunConcat(w, first, second);
    events := first + second;
  }

  /** A chain after one more message was sent: it was one before, or it passes the predecessor of that message. */
  lemma {:induction false} ChainWithOneMore(sent: set<Snapshot>, s: Snapshot, from: nat, messages: seq<Snapshot>)
    returns (prefix: seq<Snapshot>)
    requires Chain(sent + {s}, from, messages)
    ensures Chain(sent, from, prefix)
    ensures prefix == messages || EndOf(from, prefix) == s.expected
    decreases |messages|
  {
    if messages == [] {
      prefix := [];
    } else if messages[0] !in sent {
      prefix := [];
    } else {
      var rest := ChainWithOneMore(sent, s, messages[0].version, messages[1..]);
      prefix := [messages[0]] + rest;
      assert prefix[1..] == rest;
    }
  }

  lemma {:induction false} ChainEndsExist(w: World, messages: seq<Snapshot>, from: nat)
    requires Sound(w) && Chain(w.sent, from, messages) && from <= |w.db.rows|
    ensures EndOf(from, messages) <= |w.db.rows|
    decreases |messages|
  {
    hide ActiveVersion;
    if messages != [] { ChainEndsExist(w, messages[1..], messages[0].version); }
  }

  lemma RuntimeVersionExists(w: World)
    requires Sound(w)
    ensures VersionOf(w.runtime) <= |w.db.rows|
  {}

  /** What each step leaves of the good ends: none is gained but by a send, a delivery or a new row. */
  lemma StuckSend(w: World, v: nat)
    requires Sound(w) && !CanRecover(w) && Enabled(w, SendApply(v))
    ensures !CanRecover(Effect(w, SendApply(v)))
  {
    hide ActiveVersion;
    hide KnownIds;
    hide Wire;
    var s := w.db.rows[v - 1].snapshot;
    assert RowOk(w.db.rows[v - 1], v - 1, w.db.lastRuleId);
    hide Sound;
    var from := VersionOf(w.runtime);
    forall messages | Chain(w.sent + {s}, from, messages) ensures !GoodEnd(w.db, EndOf(from, messages)) {
      var prefix := ChainWithOneMore(w.sent, s, from, messages);
      assert GoodEnd(w.db, s.expected);
    }
  }

  lemma StuckDeliver(w: World, m: Snapshot)
    requires !CanRecover(w) && Enabled(w, Deliver(m))
    ensures !CanRecover(Effect(w, Deliver(m)))
  {
    hide GoodEnd;
    forall messages | Chain(w.sent, m.version, messages) ensures !GoodEnd(w.db, EndOf(m.version, messages)) {
      var all := [m] + messages;
      assert all[1..] == messages;
      assert Chain(w.sent, VersionOf(w.runtime), all) && EndOf(VersionOf(w.runtime), all) == EndOf(m.version, messages);
    }
  }

  lemma StuckInsert(w: World, e: Event)
    requires Sound(w) && !CanRecover(w) && e.InsertCandidate? && Enabled(w, e)
    ensures !CanRecover(Effect(w, e))
  {
    InsertLeavesActive(w, e);
    RuntimeVersionExists(w);
    hide ActiveVersion;
    hide Sound;
    hide BuildSnapshot;
    hide StoredList;
    hide KnownIds;
    var w' := Effect(w, e);
    var row := NewRow(w.db, e.now, e.rules, e.sets, e.rollbackFrom);
    assert w'.db.rows == w.db.rows + [row];
    forall messages | Chain(w'.sent, VersionOf(w'.runtime), messages)
      ensures !GoodEnd(w'.db, EndOf(VersionOf(w'.runtime), messages))
    {
      ChainEndsExist(w, messages, VersionOf(w.runtime));
      NewRowAddsNoEnd(w.db, w'.db, row, EndOf(VersionOf(w.runtime), messages));
    }
  }

  lemma NewRowAddsNoEnd(db: Db, db': Db, row: Row, x: nat)
    requires db'.rows == db.rows + [row] && row.previous == ActiveVersion(db.rows) == ActiveVersion(db'.rows)
    requires x <= |db.rows| && !GoodEnd(db, x)
    ensures !GoodEnd(db', x)
  {
    hide ActiveVersion;
    forall i | 0 <= i < |db'.rows| && db'.rows[i].status == Pending ensures db'.rows[i].previous != x {
      if i < |db.rows| { assert db'.rows[i] == db.rows[i]; }
    }
  }

  /** Rows in which only statuses were rewritten, none of them to an open status that was not open before. */
  ghost predicate OnlyCloses(rows: seq<Row>, rows': seq<Row>) {
    && |rows'| == |rows|
    && (forall i | 0 <= i < |rows| :: rows'[i].previous == rows[i].previous)
    && (forall i | 0 <= i < |rows| :: rows'[i].status.Open() ==> rows[i].status.Open())
    && (forall i | 0 <= i < |rows| :: rows'[i].status == Pending ==> rows[i].status == Pending)
  }

  /** Such a rewriting gives no good end that was none, if the active version stays or was open. */
  lemma ClosingAddsNoEnd(db: Db, db': Db, x: nat)
    requires OnlyCloses(db.rows, db'.rows) && !GoodEnd(db, x)
    requires ActiveVersion(db'.rows) == ActiveVersion(db.rows) || Open(db, ActiveVersion(db'.rows))
    ensures !GoodEnd(db', x)
  {
    hide ActiveVersion;
  }

  lemma StuckStatus(w: World, db: Db)
    requires !CanRecover(w) && OnlyCloses(w.db.rows, db.rows)
    requires ActiveVersion(db.rows) == ActiveVersion(w.db.rows) || Open(w.db, ActiveVersion(db.rows))
    ensures !CanRecover(w.(db := db))
  {
    hide ActiveVersion;
    hide GoodEnd;
    hide OnlyCloses;
    forall messages | Chain(w.sent, VersionOf(w.runtime), messages)
      ensures !GoodEnd(db, EndOf(VersionOf(w.runtime), messages))
    {
      ClosingAddsNoEnd(w.db, db, EndOf(VersionOf(w.runtime), messages));
    }
  }

  lemma FinalizeOnlyCloses(rows: seq<Row>, v: nat)
    ensures OnlyCloses(rows, ActivatedRows(rows, v))
  {
    var rows' := ActivatedRows(rows, v);
    assert forall i | 0 <= i < |rows'| :: rows'[i] == ActivatedRow(rows[i], i + 1 == v);
  }

  lemma MarkOnlyCloses(db: Db, v: nat, status: Status, code: string)
    requires Open(db, v) && status != Pending
    ensures OnlyCloses(db.rows, SetStatus(db, v, status, code).rows)
  {
    var rows' := SetStatus(db, v, status, code).rows;
    assert forall i | 0 <= i < |rows'| && i != v - 1 :: rows'[i] == db.rows[i];
  }

  lemma StuckFinalize(w: World, v: nat)
    requires !CanRecover(w) && Enabled(w, Finalize(v))
    ensures !CanRecover(Effect(w, Finalize(v)))
  {
    ActivateMakesActive(w.db.rows, v);
    FinalizeOnlyCloses(w.db.rows, v);
    hide ActiveVersion;
    hide OnlyCloses;
    hide CanRecover;
    hide ActivatedRows;
    hide TableOf;
    StuckStatus(w, Activate(w.db, v));
  }

  lemma StuckMark(w: World, v: nat, status: Status, code: string)
    requires Sound(w) && !CanRecover(w) && Open(w.db, v) && !status.WasActive() && status != Pending
    ensures !CanRecover(w.(db := SetStatus(w.db, v, status, code)))
  {
    hide ActiveVersion;
    hide Sound;
    hide RowsOk;
    hide OnlyCloses;
    hide CanRecover;
    SoundRowsOk(w);
    SetStatusKeepsActive(w.db, v, status, code);
    MarkOnlyCloses(w.db, v, status, code);
    StuckStatus(w, SetStatus(w.db, v, status, code));
  }

  lemma StuckStep(w: World, e: Event)
    requires Sound(w) && !CanRecover(w) && !e.FallBack?
    ensures !CanRecover(Step(w, e))
  {
    hide ActiveVersion;
    hide Sound;
    hide CanRecover;
    if Enabled(w, e) {
      match e
      case Deliver(m) => StuckDeliver(w, m);
      case SendApply(v) => StuckSend(w, v);
      case InsertCandidate(_, _, _, _) => StuckInsert(w, e);
      case Finalize(v) => StuckFinalize(w, v);
      case MarkUnknown(v) => StuckMark(w, v, Unknown, "PUBLISH_UNKNOWN");
      case MarkFailed(v, code) => StuckMark(w, v, Failed, code);
      case ReserveIds(n) => StuckStatus(w, Effect(w, e).db);
      case WriteSources(s) => StuckStatus(w, Effect(w, e).db);
    }
  }

  lemma {:induction false} StuckForever(w: World, events: seq<Event>)
    requires Sound(w) && !CanRecover(w) && NoLoss(events)
    ensures Sound(Run(w, events)) && !CanRecover(Run(w, events))
  {
    hide ActiveVersion;
    hide Sound;
    hide CanRecover;
    hide Step;
    if events != [] {
      var front := events[..|events| - 1];
      StuckForever(w, front);
      StepKeepsSound(Run(w, front), events[|events| - 1]);
      StuckStep(Run(w, front), events[|events| - 1]);
    }
  }

  lemma CaughtCanRecover(w: World)
    requires Caught(w)
    ensures CanRecover(w)
  {
    hide ActiveVersion;
    assert Chain(w.sent, VersionOf(w.runtime), []) && GoodEnd(w.db, EndOf(VersionOf(w.runtime), []));
  }

  /** From any reachable state, whatever the runtime has lost: the two can come together, without another fall
      back, exactly when messages already sent lead the runtime, one after the other, to the active version, to an
      open candidate, or to the predecessor of a candidate that is still to be sent. */
  lemma RecoverableExactlyWhenChained(w: World)
    requires Sound(w)
    ensures (exists events :: NoLoss(events) && Caught(Run(w, events))) <==> CanRecover(w)
  {
    hide ActiveVersion;
    hide Sound;
    hide CanRecover;
    hide Caught;
    if CanRecover(w) {
      var events := RecoverableRuns(w);
    }
    forall events | NoLoss(events) && Caught(Run(w, events)) ensures CanRecover(w) {
      if !CanRecover(w) {
        StuckForever(w, events);
        CaughtCanRecover(Run(w, events));
      }
    }
  }

  lemma InStepIsSound(w: World)
    requires InStep(w)
    ensures Sound(w)
  {}

  // ---- runs that show the limits ------------------------------------------------------------

  /** Publishing the empty rule list, with the Apply message sent but not yet handled. */
  ghost function Candidate(v: nat): seq<Event> {
    [InsertCandidate(0, [], [], 0), SendApply(v)]
  }

  ghost function EmptySnapshot(version: nat, expected: nat): Snapshot {
    BuildSnapshot(version, expected, 0, [], [])
  }

  /** One candidate of an idle controller: inserted, sent, not handled. */
  lemma CandidateSent(w: World)
    requires Sound(w)
    ensures var v := |w.db.rows| + 1;
      var w' := Step(Step(w, InsertCandidate(0, [], [], 0)), SendApply(v));
      && w' == w.(db := InsertRow(w.db, 0, [], [], 0), sent := w.sent + {EmptySnapshot(v, ActiveVersion(w.db.rows))})
      && Sound(w')
      && ActiveVersion(w'.db.rows) == ActiveVersion(w.db.rows)
      && |w'.db.rows| == v && w'.db.rows[v - 1].status == Pending
  {
    hide ActiveVersion;
    hide Sound;
    hide BuildSnapshot;
    var e := InsertCandidate(0, [], [], 0);
    var w1 := Step(w, e);
    var v := |w.db.rows| + 1;
    StepKeepsSound(w, e);
    StepKeepsSound(w1, SendApply(v));
    assert Enabled(w, e);
    InsertLeavesActive(w, e);
  }

  /** Marking the lone candidate failed, and then its message arriving. */
  lemma FailedThenDelivered(w: World, code: string)
    requires Sound(w) && |w.db.rows| == 1 && w.db.rows[0].status == Pending
    requires w.db.rows[0].snapshot == EmptySnapshot(1, 0) && EmptySnapshot(1, 0) in w.sent
    requires ActiveVersion(w.db.rows) == 0 && w.runtime == None
    ensures var w' := Step(Step(w, MarkFailed(1, code)), Deliver(EmptySnapshot(1, 0)));
      HoldsFailed(w') && !Caught(w')
  {
    hide ActiveVersion;
    hide Sound;
    hide BuildSnapshot;
    OnlyFinalizeActivates(w, MarkFailed(1, code));
    StepKeepsSound(w, MarkFailed(1, code));
    var w1 := Step(w, MarkFailed(1, code));
    assert Enabled(w, MarkFailed(1, code));
    OnlyFinalizeActivates(w1, Deliver(EmptySnapshot(1, 0)));
    assert EmptySnapshot(1, 0).version == 1 && EmptySnapshot(1, 0).expected == 0 by { EmptySnapshotFields(1, 0); }
  }

  lemma EmptySnapshotFields(version: nat, expected: nat)
    ensures EmptySnapshot(version, expected).version == version
    ensures EmptySnapshot(version, expected).expected == expected
  {}

  lemma FirstCandidate()
    ensures var w := Run(Initial(), Candidate(1));
      && Sound(w) && |w.db.rows| == 1 && w.db.rows[0].status == Pending
      && w.db.rows[0].snapshot == EmptySnapshot(1, 0) && EmptySnapshot(1, 0) in w.sent
      && ActiveVersion(w.db.rows) == 0 && w.runtime == None
  {
    var w0 := Initial();
    InitialIsSound();
    CandidateSent(w0);
    RunTwo(w0, Candidate(1)[0], Candidate(1)[1]);
  }

  lemma RunTwo(w: World, a: Event, b: Event)
    ensures Run(w, [a, b]) == Step(Step(w, a), b)
  {
    assert [a, b] == [a] + [b] && [a] == [] + [a];
    RunOneMore(w, [], a);
    RunOneMore(w, [a], b);
  }

  /** A failed candidate can land: its Apply times out, the runtime still reports the old version, the row
      is marked failed, and then the delayed message arrives. */
  lemma FailedCandidateCanLand()
    ensures exists events :: NoLoss(events) && HoldsFailed(Run(Initial(), events)) && !Caught(Run(Initial(), events))
  {
    hide Run;
    hide Step;
    hide HoldsFailed;
    hide Caught;
    hide Sound;
    hide BuildSnapshot;
    var code := "APPLY_TIMEOUT_NOT_APPLIED";
    FirstCandidate();
    var w := Run(Initial(), Candidate(1));
    FailedThenDelivered(w, code);
    var tail := [MarkFailed(1, code), Deliver(EmptySnapshot(1, 0))];
    RunTwo(w, tail[0], tail[1]);
    RunConcat(Initial(), Candidate(1), tail);
    assert NoLoss(Candidate(1) + tail);
  }

  /** Losing its snapshot lets the runtime take up an old open candidate again. If the controller then
      finalises that candidate, the active version goes back from 2 to 1. */
  lemma ActiveCanGoBackAfterLoss()
    ensures exists events, e ::
      ActiveVersion(Step(Run(Initial(), events), e).db.rows) < ActiveVersion(Run(Initial(), events).db.rows)
  {
    hide Run;
    hide Step;
    hide Sound;
    hide BuildSnapshot;
    hide ActiveVersion;
    FirstCandidate();
    var w := Run(Initial(), Candidate(1));
    SecondCandidateWins(w);
    var c2 := Candidate(2);
    var w2 := Step(Step(w, c2[0]), c2[1]);
    RunTwo(w, c2[0], c2[1]);
    RunConcat(Initial(), Candidate(1), c2);
    var win := [Deliver(EmptySnapshot(2, 0)), Finalize(2)];
    var w3 := Step(Step(w2, win[0]), win[1]);
    RunTwo(w2, win[0], win[1]);
    RunConcat(Initial(), Candidate(1) + c2, win);
    LossThenOldCandidate(w3);
    var back := [FallBack(None), Deliver(EmptySnapshot(1, 0))];
    RunTwo(w3, back[0], back[1]);
    RunConcat(Initial(), Candidate(1) + c2 + win, back);
    var events := Candidate(1) + c2 + win + back;
    var last := Run(Initial(), events);
    assert ActiveVersion(Step(last, Finalize(1)).db.rows) < ActiveVersion(last.db.rows);
  }

  /** Candidate 2, sent from the same predecessor, is handled first and becomes active. */
  lemma SecondCandidateWins(w: World)
    requires Sound(w) && |w.db.rows| == 1 && w.db.rows[0].status == Pending
    requires EmptySnapshot(1, 0) in w.sent && ActiveVersion(w.db.rows) == 0 && w.runtime == None
    ensures var c2 := Candidate(2);
      var w' := Step(Step(Step(Step(w, c2[0]), c2[1]), Deliver(EmptySnapshot(2, 0))), Finalize(2));
      && Sound(w') && |w'.db.rows| == 2 && w'.db.rows[0].status == Pending
      && EmptySnapshot(1, 0) in w'.sent && ActiveVersion(w'.db.rows) == 2
  {
    CandidateSent(w);
    hide ActiveVersion;
    hide Sound;
    hide BuildSnapshot;
    hide TableOf;
    EmptySnapshotFields(2, 0);
    var c2 := Candidate(2);
    var w2 := Step(Step(w, c2[0]), c2[1]);
    assert w2.db.rows[0] == w.db.rows[0];
    var m := EmptySnapshot(2, 0);
    var w3 := Step(w2, Deliver(m));
    StepKeepsSound(w2, Deliver(m));
    StepKeepsSound(w3, Finalize(2));
    assert 2 in w3.adopted && w3.db == w2.db;
    OnlyFinalizeActivates(w3, Finalize(2));
    ActivatedKeepsPending(w3.db.rows);
  }

  lemma ActivatedKeepsPending(rows: seq<Row>)
    requires |rows| == 2 && rows[0].status == Pending
    ensures ActivatedRows(rows, 2)[0].status == Pending
  {}

  lemma LossThenOldCandidate(w: World)
    requires Sound(w) && |w.db.rows| == 2 && w.db.rows[0].status == Pending
    requires EmptySnapshot(1, 0) in w.sent && ActiveVersion(w.db.rows) == 2
    ensures var w' := Step(Step(w, FallBack(None)), Deliver(EmptySnapshot(1, 0)));
      && ActiveVersion(w'.db.rows) == 2
      && ActiveVersion(Step(w', Finalize(1)).db.rows) == 1
  {
    hide ActiveVersion;
    hide Sound;
    hide BuildSnapshot;
    EmptySnapshotFields(1, 0);
    var w1 := Step(w, FallBack(None));
    var w2 := Step(w1, Deliver(EmptySnapshot(1, 0)));
    StepKeepsSound(w, FallBack(None));
    StepKeepsSound(w1, Deliver(EmptySnapshot(1, 0)));
    assert w2.db == w.db && 1 in w2.adopted;
    OnlyFinalizeActivates(w2, Finalize(1));
  }

  /** A new candidate expects the active version: the runtime takes it up exactly when it is there, so one that has
      fallen behind refuses the republish. */
  lemma RepublishBelowActiveIsRefused(w: World, now: int, rules: seq<Rule>, sets: seq<SubscriptionSet>, from: nat)
    ensures Adopts(w.runtime, NewRow(w.db, now, rules, sets, from).snapshot)
      <==> VersionOf(w.runtime) == ActiveVersion(w.db.rows)
    ensures KnownIds(rules, w.db.lastRuleId) ==>
      var v := |w.db.rows| + 1;
      var w' := Step(Step(w, InsertCandidate(now, rules, sets, from)), SendApply(v));
      VersionOf(Step(w', Deliver(w'.db.rows[v - 1].snapshot)).runtime)
        == if VersionOf(w.runtime) == ActiveVersion(w.db.rows) then v else VersionOf(w.runtime)
  {
    hide ActiveVersion;
    hide Wire;
    hide KnownIds;
  }
}
