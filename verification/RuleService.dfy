/** The rule service: publishing, reconciling and the rule mutations, statement by statement. Every
    statement of the object is a step of the publish protocol, so its state is always a reachable one. */
module RuleService {
  import opened Ordering
  import opened Text
  import opened RuleModel
  import opened Validation
  import opened Store
  import opened Protocol
  import opened Publication
  import opened Outcomes

  class RuleService {
    const libs: Libs
    var world: World
    ghost var trace: seq<Event>

    ghost predicate Valid()
      reads this
    {
      && SoundLibs(libs)
      && world == Run(Initial(), trace)
      && RowsClean(libs, world.db.rows)
    }

    /** The object's state is a reachable state of the protocol. */
    lemma Reachable()
      requires Valid()
      ensures Sound(world) && 0 <= world.db.lastRuleId
    {
      InitialIsSound();
      EveryRunIsSound(Initial(), trace);
    }

    /** While the runtime has never fallen back, the object stays in step with it. */
    lemma ReachableInStep()
      requires Valid() && NoLoss(trace)
      ensures InStep(world)
    {
      InitialIsInStep();
      EveryRunStaysInStep(Initial(), trace);
    }

    constructor (libs: Libs)
      requires SoundLibs(libs)
      ensures Valid() && this.libs == libs && world == Initial() && trace == []
    {
      this.libs := libs;
      world := World(Db([], map[], 0, Sources(map[], map[], 0, 0)), None, {}, {});
      trace := [];
      new;
    }

    // ---- single statements ------------------------------------------------------------------

    /** One statement, or one thing that happens to the runtime: the object moves by one step of the protocol. */
    method Perform(ghost e: Event, next: World)
      requires Valid() && Enabled(world, e) && next == Effect(world, e)
      requires e.InsertCandidate? ==> NormalList(libs, e.rules)
      modifies this`world, this`trace
      ensures Valid() && world == next && trace == old(trace) + [e]
    {
      hide RowsClean;
      hide Enabled;
      hide Effect;
      RunOneMore(Initial(), trace, e);
      RowsCleanAfter(libs, world, e);
      world := next;
      trace := trace + [e];
    }

    /** What happens to the runtime between two statements. */
    method Interfere(late: seq<Disturbance>)
      requires Valid()
      modifies this`world, this`trace
      ensures Valid() && Silent(old(trace), trace) && SameController(old(world), world)
      ensures late == [] ==> world == old(world) && trace == old(trace)
    {
      hide RowsClean;
      for i := 0 to |late|
        invariant Valid() && Silent(old(trace), trace) && SameController(old(world), world)
        invariant i == 0 ==> world == old(world) && trace == old(trace)
      {
        match late[i]
        case Arrives(m) =>
          if m in world.sent && Adopts(world.runtime, m) {
            Perform(Deliver(m), world.(runtime := Some(m), adopted := world.adopted + {m.version}));
          }
        case FallsBack(to) =>
          if to.None? || (to.value in world.sent && to.value.version in world.adopted) {
            Perform(FallBack(to), world.(runtime := to));
          }
      }
    }

    /** UPDATE rule_versions SET status. */
    method SetRowStatus(v: nat, status: Status, code: string)
      requires Valid()
      requires status == Unknown ==>
        code == "PUBLISH_UNKNOWN" && HasVersion(world.db, v) && world.db.rows[v - 1].status == Pending
      requires status == Failed ==> Open(world.db, v)
      requires status in {Unknown, Failed}
      modifies this`world, this`trace
      ensures Valid() && Silent(old(trace), trace)
      ensures world == old(world).(db := SetStatus(old(world).db, v, status, code))
      ensures ActiveVersion(world.db.rows) == ActiveVersion(old(world).db.rows)
    {
      hide RowsClean;
      hide ActiveVersion;
      hide Sound;
      Reachable();
      var e := if status == Unknown then MarkUnknown(v) else MarkFailed(v, code);
      OnlyFinalizeActivates(world, e);
      Perform(e, world.(db := SetStatus(world.db, v, status, code)));
    }

    /** finalizeWithRules: the transaction that activates v and replaces the rule table, or nothing when an
        INSERT violates a constraint. */
    method FinalizeWithRules(v: nat, rules: seq<Rule>) returns (err: Error)
      requires Valid() && Enabled(world, Finalize(v)) && ListOf(world.db, v) == StoredList(rules)
      modifies this`world, this`trace
      ensures Valid() && Closing(old(trace), trace, v)
      ensures err == NoError <==> InsertAll(libs, rules).Ok?
      ensures err != NoError ==> world == old(world) && trace == old(trace)
      ensures err == NoError ==>
        && world == old(world).(db := Activate(old(world).db, v))
        && ActiveVersion(world.db.rows) == v
      ensures err == NoError && NoLoss(trace) ==> world.runtime == SnapshotOf(world.db, v)
    {
      hide RowsClean;
      hide ActiveVersion;
      hide InStep;
      hide Sound;
      hide InsertAll;
      Reachable();
      var inserted := InsertAll(libs, rules);
      if inserted.Err? {
        return Error(false, inserted.code);
      }
      if NoLoss(trace) {
        ReachableInStep();
        RuntimeHoldsFinalized(world, v);
      }
      OnlyFinalizeActivates(world, Finalize(v));
      ActivatedKeeps(world.db.rows, v);
      Perform(Finalize(v), world.(db := Activate(world.db, v)));
      assert trace[..|old(trace)|] == old(trace);
      assert NoLoss(trace) ==> NoLoss(old(trace));
      err := NoError;
    }

    /** The Apply call: the message is out from now on, whatever the caller learns of it. Other messages, a copy of
        this one among them, may reach the runtime before the call does. */
    method CallApply(v: nat, wire: Wire, late: seq<Disturbance>) returns (reply: ApplyReply)
      requires Valid() && HasVersion(world.db, v) && world.db.rows[v - 1].status == Pending
      modifies this`world, this`trace
      ensures Valid() && Silent(old(trace), trace)
      ensures world.db == old(world).db && old(world).adopted <= world.adopted
      ensures ReplyFits(wire, reply)
      ensures reply == Applied ==> v in world.adopted && HeldDuring(old(trace), trace, SnapshotOf(world.db, v))
      ensures wire.Answered? && late == [] ==>
        (reply == Applied <==> Adopts(old(world).runtime, world.db.rows[v - 1].snapshot))
      ensures late == [] && (wire.Answered? || wire.AnswerLost?) ==>
        (Adopts(old(world).runtime, world.db.rows[v - 1].snapshot) ==> world.runtime == SnapshotOf(world.db, v))
    {
      hide RowsClean;
      hide Sound;
      hide HeldDuring;
      Reachable();
      SnapshotVersionIs(world, v);
      var m := world.db.rows[v - 1].snapshot;
      Perform(SendApply(v), world.(sent := world.sent + {m}));
      if wire == RequestLost { return NoAnswer; }
      if wire == Refused { return RejectedAnswer; }
      Interfere(late);
      var adopts := Adopts(world.runtime, m);
      if adopts {
        Perform(Deliver(m), world.(runtime := Some(m), adopted := world.adopted + {m.version}));
      }
      HeldAtEnd(old(trace), trace);
      reply := if wire == AnswerLost then NoAnswer
               else if !adopts then ConflictAnswer
               else if wire == Garbled then BadAnswer
               else Applied;
    }

    // ---- publish ----------------------------------------------------------------------------

    /** fail: write the candidate off and return the cause. */
    method Fail(v: nat, unknown: bool, code: string) returns (err: Error)
      requires Valid() && Open(world.db, v) && code != "PUBLISH_UNKNOWN"
      modifies this`world, this`trace
      ensures Valid() && Silent(old(trace), trace)
      ensures err == Error(unknown, code)
      ensures world == old(world).(db := SetStatus(old(world).db, v, Failed, code))
    {
      hide RowsClean;
      hide ActiveVersion;
      SetRowStatus(v, Failed, code);
      err := Error(unknown, code);
    }

    /** The decision on the status read after a lost Apply: activate, write off, or leave open. */
    method DecideOn(v: nat, rules: seq<Rule>, env: PublishEnv, runtime: Option<Snapshot>, ghost before: Db)
      returns (err: Error)
      requires Valid() && InsertAll(libs, rules).Ok? && HasVersion(before, v) && ListOf(before, v) == StoredList(rules)
      requires world.db == SetStatus(before, v, Unknown, "PUBLISH_UNKNOWN") && Lost(env)
      requires runtime == SnapshotOf(world.db, v) ==> v in world.adopted
      modifies this`world, this`trace
      ensures Valid() && Closing(old(trace), trace, v)
      ensures Settled(before, world, v, err)
      ensures RightCode(world, v, env, err, runtime)
      ensures err == NoError <==> ShowsCandidate(world, v, env, runtime)
      ensures err == NoError && NoLoss(trace) ==> world.runtime == SnapshotOf(world.db, v)
    {
      hide RowsClean;
      hide ActiveVersion;
      hide InsertAll;
      hide Sound;
      hide RightCode;
      UnknownRow(before, v);
      if env.statusAnswers && runtime == SnapshotOf(world.db, v) {
        err := FinalizeWithRules(v, rules);
        ActivateForgetsStatus(before, v, Unknown, "PUBLISH_UNKNOWN");
      } else if env.statusAnswers && VersionOf(runtime) == PreviousOf(world.db, v) {
        err := Fail(v, false, "APPLY_TIMEOUT_NOT_APPLIED");
      } else {
        err := Error(true, "PUBLISH_UNKNOWN");
      }
      SettledKeepsSnapshot(before, world, v, err);
      LostIsRight(world, v, env, runtime);
    }

    /** The Apply gave no answer: record that, ask the runtime once, and decide only on a clear reply. */
    method SettleUnknown(v: nat, rules: seq<Rule>, env: PublishEnv) returns (err: Error, ghost seen: Option<Snapshot>)
      requires Valid() && InsertAll(libs, rules).Ok? && ListOf(world.db, v) == StoredList(rules)
      requires HasVersion(world.db, v) && world.db.rows[v - 1].status == Pending
      requires Lost(env)
      modifies this`world, this`trace
      ensures Valid() && Closing(old(trace), trace, v)
      ensures Settled(old(world).db, world, v, err)
      ensures RightCode(world, v, env, err, seen)
      ensures HeldDuring(old(trace), trace, seen)
      ensures err == NoError <==> ShowsCandidate(world, v, env, seen)
      ensures err == NoError && NoLoss(trace) ==> world.runtime == SnapshotOf(world.db, v)
      ensures env.late(3) == [] ==> seen == old(world).runtime
    {
      hide RowsClean;
      hide ActiveVersion;
      hide InsertAll;
      hide Sound;
      hide RightCode;
      hide HeldDuring;
      ghost var before := world.db;
      ghost var start := trace;
      SetRowStatus(v, Unknown, "PUBLISH_UNKNOWN");
      ghost var marked := world.db;
      UnknownRow(before, v);
      Interfere(env.late(3));
      var runtime := world.runtime;
      seen := runtime;
      ghost var reading := trace;
      Reachable();
      HeldIsAdopted(world, v);
      HeldAtEnd(start, trace);
      Interfere(env.late(4));
      assert world.db == marked;
      err := DecideOn(v, rules, env, runtime, before);
      HeldWithin(start, start, reading, trace, seen);
    }

    /** What each Apply reply means for the candidate. */
    method SettleReply(v: nat, rules: seq<Rule>, reply: ApplyReply, env: PublishEnv)
      returns (err: Error, ghost seen: Option<Snapshot>)
      requires Valid() && InsertAll(libs, rules).Ok? && ListOf(world.db, v) == StoredList(rules)
      requires HasVersion(world.db, v) && world.db.rows[v - 1].status == Pending
      requires reply == Applied ==> v in world.adopted
      requires env.validate.ValidateOk? && ReplyFits(env.wire, reply)
      modifies this`world, this`trace
      ensures Valid() && Closing(old(trace), trace, v)
      ensures Settled(old(world).db, world, v, err)
      ensures RightCode(world, v, env, err, seen)
      ensures reply == NoAnswer ==> HeldDuring(old(trace), trace, seen)
      ensures err == NoError <==> reply == Applied || (reply == NoAnswer && ShowsCandidate(world, v, env, seen))
      ensures err == NoError && NoLoss(trace) ==> world.runtime == SnapshotOf(world.db, v)
      ensures reply == NoAnswer && env.late(3) == [] ==> seen == old(world).runtime
    {
      hide RowsClean;
      hide ActiveVersion;
      hide InsertAll;
      hide Sound;
      hide RightCode;
      hide HeldDuring;
      seen := None;
      if reply == NoAnswer {
        err, seen := SettleUnknown(v, rules, env);
        return;
      }
      if reply == ConflictAnswer || reply == RejectedAnswer {
        err := Fail(v, false, "APPLY_FAILED");
        RefusedIsRight(world, v, env, seen);
        return;
      }
      if reply == BadAnswer {
        err := Fail(v, false, "APPLY_RESPONSE_INVALID");
        RefusedIsRight(world, v, env, seen);
        return;
      }
      err := FinalizeWithRules(v, rules);
      RefusedIsRight(world, v, env, seen);
    }

    /** From a recorded candidate to its outcome: validate, apply, and settle what the reply leaves open. seen is the
        runtime's content as read after a lost Apply. */
    method Settle(v: nat, rules: seq<Rule>, env: PublishEnv) returns (err: Error, ghost seen: Option<Snapshot>)
      requires Valid() && InsertAll(libs, rules).Ok? && ListOf(world.db, v) == StoredList(rules)
      requires HasVersion(world.db, v) && world.db.rows[v - 1].status == Pending
      requires NeverSent(world.sent, v)
      modifies this`world, this`trace
      ensures Valid() && Closing(old(trace), trace, v)
      ensures Settled(old(world).db, world, v, err)
      ensures RightCode(world, v, env, err, seen)
      ensures Lost(env) ==> HeldDuring(old(trace), trace, seen)
      ensures err == NoError ==> HeldDuring(old(trace), trace, SnapshotOf(world.db, v))
      ensures err == NoError && NoLoss(trace) ==> world.runtime == SnapshotOf(world.db, v)
      ensures Smooth(env) && Adopts(old(world).runtime, old(world).db.rows[v - 1].snapshot) ==> err == NoError
    {
      hide RowsClean;
      hide ActiveVersion;
      hide InsertAll;
      hide Sound;
      hide RightCode;
      hide HeldDuring;
      ghost var before := world.db;
      ghost var start := trace;
      seen := None;
      Interfere(env.late(1));
      if env.validate.ValidateFailed? {
        err := Fail(v, env.validate.unknown, "VALIDATION_FAILED");
        RejectedIsRight(world, v, env, seen);
        return;
      }
      if env.validate.ValidateOtherChecksum? {
        err := Fail(v, false, "CHECKSUM_MISMATCH");
        MismatchIsRight(world, v, env, seen);
        return;
      }
      ghost var calling := trace;
      var reply := CallApply(v, env.wire, env.late(5));
      ghost var called := trace;
      Interfere(env.late(2));
      ghost var settling := trace;
      assert world.db == before;
      err, seen := SettleReply(v, rules, reply, env);
      if reply == Applied { HeldWithin(start, calling, called, trace, SnapshotOf(before, v)); }
      if reply == NoAnswer {
        HeldWithin(start, settling, trace, trace, seen);
      }
      assert SnapshotOf(world.db, v) == SnapshotOf(before, v) by { SettledKeepsSnapshot(before, world, v, err); }
    }

    /** The checks a publish makes before it records anything. */
    method Prepare(rules: seq<Rule>, env: PublishEnv)
      returns (err: Error, normal: seq<Rule>, sets: seq<SubscriptionSet>)
      requires Valid()
      ensures err == NoError <==> Preparable(libs, world.db.sources, rules, env.registry)
      ensures err != NoError ==> !err.unknown
      ensures err == NoError ==> normal == NormalizedList(libs, rules) && SubscriptionSets(world.db.sources) == Ok(sets)
    {
      hide RowsClean;
      hide NormalizeRule;
      normal, sets := [], [];
      var read := ReadSubscriptionSets(world.db.sources);
      if read.Err? {
        err := Error(false, read.code);
        return;
      }
      sets := read.value;
      var edited := new Rule[|rules|](i requires 0 <= i < |rules| => rules[i]);
      assert edited[..] == rules;
      var invalid := ValidateRules(libs, edited);
      if invalid.Some? {
        err := Error(false, invalid.value);
        return;
      }
      normal := edited[..];
      err := RouteTargetsError(normal, None, env.registry);
    }

    /** INSERT of the pending candidate, under the next version number. */
    method RecordCandidate(
      rules: seq<Rule>, sets: seq<SubscriptionSet>, now: int, from: nat, ghost registry: Option<RegistryView>)
      returns (version: nat)
      requires Valid() && KnownIds(rules, world.db.lastRuleId)
      requires CheckedInsert(libs, world, InsertCandidate(now, rules, sets, from), registry)
      modifies this`world, this`trace
      ensures Valid() && Quietly(old(trace), trace, |old(world).db.rows| + 1)
      ensures Checked(libs, old(trace), trace, registry)
      ensures version == |old(world).db.rows| + 1 && NeverSent(world.sent, version)
      ensures world == old(world).(db := InsertRow(old(world).db, now, rules, sets, from))
    {
      hide RowsClean;
      hide ActiveVersion;
      hide NormalList;
      hide InsertRow;
      hide KnownIds;
      hide Sound;
      hide Checked;
      hide SubscriptionSets;
      hide RouteTargetsError;
      Reachable();
      NextIsNeverSent(world);
      OneInsertIsChecked(libs, trace, InsertCandidate(now, rules, sets, from), registry);
      version := |world.db.rows| + 1;
      Perform(InsertCandidate(now, rules, sets, from), world.(db := InsertRow(world.db, now, rules, sets, from)));
    }

    /** publish: check, record a candidate, apply it, and report its version (0 when none was recorded). */
    method Publish(rules: seq<Rule>, now: int, from: nat, env: PublishEnv)
      returns (r: Published, ghost seen: Option<Snapshot>)
      requires Valid() && KnownIds(rules, world.db.lastRuleId)
      modifies this`world, this`trace
      ensures Valid() && Quietly(old(trace), trace, |old(world).db.rows| + 1)
      ensures Checked(libs, old(trace), trace, env.registry)
      ensures r.version == 0 ==> r.error.Error? && !r.error.unknown && world.db == old(world).db
      ensures r.version != 0 ==>
        && r.version == |old(world).db.rows| + 1
        && Accepted(libs, rules) && SubscriptionSets(old(world).db.sources).Ok?
        && Settled(CandidateDb(libs, old(world).db, now, rules, from), world, r.version, r.error)
        && RightCode(world, r.version, env, r.error, seen)
        && (Lost(env) ==> HeldDuring(old(trace), trace, seen))
      ensures r.version != 0 ==>
        && HasVersion(world.db, r.version)
        && BuiltFrom(world.db.rows[r.version - 1], old(world).db, now, NormalizedList(libs, rules), from)
        && KeepsRows(old(world).db, world.db, r.error == NoError)
      ensures r.version != 0 <==>
        && (forall id | id in old(world).db.sources.rows && old(world).db.sources.rows[id].enabled
              && old(world).db.sources.rows[id].category == "route" :: id in old(world).db.sources.bindings)
        && Accepted(libs, rules) && TargetsEnabled(rules, env.registry)
      ensures Answers(libs, old(world), rules, env, r)
      ensures r.error == NoError ==> HeldDuring(old(trace), trace, SnapshotOf(world.db, r.version))
      ensures r.error == NoError && NoLoss(trace) ==> world.runtime == SnapshotOf(world.db, r.version)
    {
      hide RowsClean;
      hide ActiveVersion;
      hide NormalList;
      hide InsertAll;
      hide InsertRow;
      hide StorableList;
      hide RouteTargetsError;
      hide DistinctKeys;
      hide RegexpCount;
      hide EachAccepted;
      hide KnownIds;
      hide Settled;
      hide RightCode;
      hide Sound;
      hide NeverSent;
      hide Preparable;
      hide Checked;
      hide SubscriptionSets;
      hide HeldDuring;
      hide TargetsEnabled;
      hide BuiltFrom;
      hide KeepsRows;
      hide NormalizedList;
      seen := None;
      ghost var start := trace;
      Reachable();
      SourcesAreKeyed(world);
      PreparableExactly(libs, world.db.sources, rules, env.registry);
      ghost var began := world;
      Interfere(env.late(0));
      ghost var before := world.db;
      var err, normal, sets := Prepare(rules, env);
      if err != NoError {
        SilentIsChecked(libs, start, trace, env.registry);
        return Published(0, err), None;
      }
      PreparedIsAccepted(libs, world.db.sources, rules, env.registry);
      ReadyToInsert(libs, rules, world.db.lastRuleId);
      InsertedRow(before, now, normal, sets, from);
      ghost var checking := trace;
      var version := RecordCandidate(normal, sets, now, from, env.registry);
      ghost var recorded := trace;
      err, seen := Settle(version, normal, env);
      if Lost(env) { HeldWithin(start, recorded, trace, trace, seen); }
      if err == NoError { HeldWithin(start, recorded, trace, trace, SnapshotOf(world.db, version)); }
      CheckedWithin(libs, start, checking, recorded, trace, version, env.registry);
      r := Published(version, err);
      SettledIsBuilt(libs, began, world, now, rules, from, r);
    }

    // ---- reconcile --------------------------------------------------------------------------

    /** finalize: activate a candidate from its stored list. */
    method FinalizeStored(v: nat) returns (err: Error)
      requires Valid() && Enabled(world, Finalize(v))
      modifies this`world, this`trace
      ensures Valid() && Closing(old(trace), trace, v)
      ensures err == NoError
      ensures world == old(world).(db := Activate(old(world).db, v))
      ensures ActiveVersion(world.db.rows) == v
      ensures NoLoss(trace) ==> world.runtime == SnapshotOf(world.db, v)
    {
      hide ActiveVersion;
      hide Sound;
      Reachable();
      var rules := world.db.rows[v - 1].rules;
      StoredRowsInsert(libs, world, v);
      hide RowsClean;
      hide InsertAll;
      err := FinalizeWithRules(v, rules);
    }

    /** Publish the rule table as it is read back. On success the content the runtime confirmed is what the tables
        produce. */
    method PublishCurrent(now: int, env: PublishEnv) returns (p: Published, ghost seen: Option<Snapshot>)
      requires Valid()
      modifies this`world, this`trace
      ensures Valid() && Quietly(old(trace), trace, |old(world).db.rows| + 1)
      ensures Checked(libs, old(trace), trace, env.registry)
      ensures world.db.sources == old(world).db.sources && world.db.lastRuleId == old(world).db.lastRuleId
      ensures p.error == NoError ==> Converged(world.db, SnapshotOf(world.db, p.version))
      ensures p.error == NoError ==> HeldDuring(old(trace), trace, SnapshotOf(world.db, p.version))
      ensures p.error == NoError && NoLoss(trace) ==> world.runtime == SnapshotOf(world.db, p.version)
      ensures Recorded(old(world).db, world.db, p)
      ensures p.version == 0 ==> !p.error.unknown
      ensures p.version != 0 ==> RightCode(world, p.version, env, p.error, seen)
      ensures p.version != 0 && Lost(env) ==> HeldDuring(old(trace), trace, seen)
      ensures Answers(libs, old(world), AllRules(old(world).db), env, p)
    {
      hide RowsClean;
      hide Answers;
      hide ActiveVersion;
      hide Sound;
      hide AllRules;
      hide Recorded;
      hide RightCode;
      hide Settled;
      hide Converged;
      hide EachAccepted;
      hide KnownIds;
      hide HeldDuring;
      hide Checked;
      Reachable();
      ListIsDistinct(libs, world);
      ghost var before := world.db;
      var current := AllRules(world.db);
      p, seen := Publish(current, now, 0, env);
      Reachable();
      CandidateIsRecorded(libs, before, world, now, current, p);
    }

    /** The republishing branches of Reconcile. before and start are the state and the trace when it began. */
    method Republish(now: int, env: PublishEnv, ghost before: World, ghost start: seq<Event>)
      returns (state: string, err: Error, observed: Option<Snapshot>)
      requires Valid() && before.db == world.db && start <= trace
      modifies this`world, this`trace
      ensures Valid() && Quietly(old(trace), trace, |before.db.rows| + 1)
      ensures world.db.sources == before.db.sources && world.db.lastRuleId == before.db.lastRuleId
      ensures state == "republished" && Republished(libs, before, world, env)
      ensures err == NoError ==> Converged(world.db, observed) && HeldDuring(start, trace, observed)
      ensures err == NoError && NoLoss(trace) ==> observed == world.runtime
      ensures ActiveVersion(world.db.rows)
        == if err == NoError then |before.db.rows| + 1 else ActiveVersion(before.db.rows)
    {
      hide RowsClean;
      hide ActiveVersion;
      hide Converged;
      hide Answers;
      hide Republished;
      hide AllRules;
      hide HeldDuring;
      ghost var was := world;
      ghost var begun := trace;
      ghost var seen;
      var p;
      p, seen := PublishCurrent(now, env);
      RepublishedBy(libs, before, was, world, env, p);
      if p.error == NoError { HeldWithin(start, begun, trace, trace, SnapshotOf(world.db, p.version)); }
      return "republished", p.error, SnapshotOf(world.db, p.version);
    }

    /** The candidate just finalised is what the tables give, or the sources have moved on. */
    method AfterFinalize(v: nat, sets: seq<SubscriptionSet>, now: int, env: PublishEnv)
      returns (state: string, err: Error, observed: Option<Snapshot>)
      requires Valid() && HasVersion(world.db, v) && ActiveVersion(world.db.rows) == v
      requires SubscriptionSets(world.db.sources) == Ok(sets)
      modifies this`world, this`trace
      ensures Valid() && Quietly(old(trace), trace, |old(world).db.rows| + 1)
      ensures world.db.sources == old(world).db.sources && world.db.lastRuleId == old(world).db.lastRuleId
      ensures err == NoError ==> Converged(world.db, observed)
      ensures sets == old(world).db.rows[v - 1].snapshot.sets ==>
        && state == "matched_candidate" && err == NoError && observed == SnapshotOf(world.db, v)
        && world == old(world) && trace == old(trace)
      ensures sets != old(world).db.rows[v - 1].snapshot.sets ==>
        && state == "republished" && Republished(libs, old(world), world, env)
        && ActiveVersion(world.db.rows) == (if err == NoError then |old(world).db.rows| + 1 else v)
        && (err == NoError ==> HeldDuring(old(trace), trace, observed))
        && (err == NoError && NoLoss(trace) ==> observed == world.runtime)
    {
      hide RowsClean;
      hide ActiveVersion;
      hide Sound;
      hide Converged;
      hide Answers;
      hide SubscriptionSets;
      hide Republished;
      hide AllRules;
      hide HeldDuring;
      if world.db.rows[v - 1].snapshot.sets == sets {
        Reachable();
        ObservedContentConverges(world, v);
        return "matched_candidate", NoError, Some(world.db.rows[v - 1].snapshot);
      }
      state, err, observed := Republish(now, env, world, trace);
    }

    /** The candidate the runtime was seen holding is finalised; if the sources have moved on since, publish once
        more. */
    method FinishCandidate(v: nat, now: int, late: seq<Disturbance>, env: PublishEnv)
      returns (state: string, err: Error, observed: Option<Snapshot>)
      requires Valid() && Enabled(world, Finalize(v)) && world.runtime == SnapshotOf(world.db, v)
      modifies this`world, this`trace
      ensures Valid() && Quietly(old(trace), trace, v)
      ensures world.db.sources == old(world).db.sources && world.db.lastRuleId == old(world).db.lastRuleId
      ensures err == NoError ==> Converged(world.db, observed) && HeldDuring(old(trace), trace, observed)
      ensures err == NoError && NoLoss(trace) ==> observed == world.runtime
      ensures state in {"matched_candidate", "republished"}
      ensures SubscriptionSets(old(world).db.sources).Ok? ==>
        LowDuring(old(trace), trace, v + 1) && ActiveVersion(world.db.rows)
          == if state == "republished" && err == NoError then |old(world).db.rows| + 1 else v
      ensures SubscriptionSets(old(world).db.sources).Err? ==>
        err != NoError && world.db == old(world).db && Silent(old(trace), trace)
      ensures SubscriptionSets(old(world).db.sources) == Ok(old(world).db.rows[v - 1].snapshot.sets) ==>
        err == NoError && state == "matched_candidate" && ActiveVersion(world.db.rows) == v
    {
      hide RowsClean;
      hide ActiveVersion;
      hide Sound;
      hide Converged;
      hide SubscriptionSets;
      hide HeldDuring;
      hide LowDuring;
      hide Republished;
      hide Enabled;
      hide Activate;
      hide InStep;
      state, observed := "matched_candidate", world.runtime;
      ghost var before := world.db;
      ghost var start := trace;
      HeldAtEnd(start, trace);
      Interfere(late);
      var sets := ReadSubscriptionSets(world.db.sources);
      if sets.Err? {
        err := Error(false, sets.code);
        return;
      }
      StillEnabled(old(world), world, v);
      ActivateKeepsRows(before, v);
      err := FinalizeStored(v);
      ghost var finalized := trace;
      LowAtEnd(start, trace, v + 1);
      state, err, observed := AfterFinalize(v, sets.value, now, env);
      LowLater(start, finalized, trace, v + 1);
      if err == NoError {
        if state == "republished" {
          HeldWithin(start, finalized, trace, trace, observed);
        } else {
          HeldWithin(start, start, start, trace, observed);
        }
      }
    }

    /** The part of Reconcile for a runtime that holds no open candidate: compare it with the active version. */
    method ReconcileActive(runtime: Option<Snapshot>, now: int, late: seq<Disturbance>, env: PublishEnv)
      returns (state: string, err: Error, observed: Option<Snapshot>)
      requires Valid() && runtime == world.runtime
      modifies this`world, this`trace
      ensures Valid() && Quietly(old(trace), trace, |old(world).db.rows| + 1)
      ensures world.db.sources == old(world).db.sources && world.db.lastRuleId == old(world).db.lastRuleId
      ensures err == NoError ==> Converged(world.db, observed) && HeldDuring(old(trace), trace, observed)
      ensures err == NoError ==> state in {"unchanged", "republished"}
      ensures err == NoError && state != "unchanged" && NoLoss(trace) ==> observed == world.runtime
      ensures state != "republished" ==> world.db == old(world).db
      ensures ActiveVersion(world.db.rows) >= ActiveVersion(old(world).db.rows)
      ensures ActiveVersion(old(world).db.rows) < VersionOf(runtime) ==> err != NoError && world.db == old(world).db
      ensures HoldsActive(old(world)) ==> state == "unchanged" && err == NoError
      ensures VersionOf(runtime) < ActiveVersion(old(world).db.rows) ==> Republished(libs, old(world), world, env)
    {
      hide RowsClean;
      hide ActiveVersion;
      hide Sound;
      hide Converged;
      hide SubscriptionSets;
      hide AllRules;
      hide Republished;
      hide HeldDuring;
      hide HoldsActive;
      hide SnapshotOf;
      observed := runtime;
      ghost var before := world;
      ghost var start := trace;
      Reachable();
      HeldActiveVersion(world);
      HeldAtEnd(start, trace);
      var active, version := ActiveVersion(world.db.rows), VersionOf(runtime);
      Interfere(late);
      if active == 0 && version == 0 {
        state, err, observed := Republish(now, env, before, start);
        return;
      }
      if active == 0 {
        return "", Error(false, "no active version"), observed;
      }
      if version > active {
        return "degraded", Error(false, "runtime version is not a known candidate"), observed;
      }
      if version < active {
        state, err, observed := Republish(now, env, before, start);
        return;
      }
      if runtime != SnapshotOf(world.db, active) {
        return "degraded", Error(false, "runtime checksum does not match active version"), observed;
      }
      var sets := ReadSubscriptionSets(world.db.sources);
      if sets.Err? {
        return "", Error(false, sets.code), observed;
      }
      if world.db.rows[active - 1].snapshot.sets != sets.value {
        state, err, observed := Republish(now, env, before, start);
        return;
      }
      Reachable();
      ObservedContentConverges(world, active);
      HeldWithin(start, start, start, trace, observed);
      return "unchanged", NoError, observed;
    }

    /** Reconcile: settle an open candidate, or republish, from the runtime's status alone. Without an error the
        content the runtime was last seen with is exactly what the current tables produce. The active version goes
        back in between exactly when the runtime has fallen back to an open candidate and the sources can be read. */
    method Reconcile(statusAnswers: bool, now: int, late: seq<Disturbance>, env: PublishEnv)
      returns (state: string, err: Error, observed: Option<Snapshot>)
      requires Valid()
      modifies this`world, this`trace
      ensures Valid() && Quietly(old(trace), trace, 0)
      ensures world.db.sources == old(world).db.sources && world.db.lastRuleId == old(world).db.lastRuleId
      ensures err == NoError ==> Converged(world.db, observed) && HeldDuring(old(trace), trace, observed)
      ensures err == NoError ==> state in {"unchanged", "matched_candidate", "republished"}
      ensures err == NoError && state != "unchanged" && NoLoss(trace) ==> observed == world.runtime
      ensures state in {"unchanged", "degraded"} ==> world.db == old(world).db
      ensures statusAnswers && AheadOfFailed(old(world)) ==> err != NoError && world.db == old(world).db
      ensures statusAnswers && HoldsOpen(old(world)) && SubscriptionSets(old(world).db.sources).Ok? ==>
        ActiveVersion(world.db.rows) >= VersionOf(old(world).runtime)
      ensures statusAnswers && HoldsActive(old(world)) ==> state == "unchanged" && err == NoError
      ensures statusAnswers && VersionOf(old(world).runtime) < ActiveVersion(old(world).db.rows) ==>
        HoldsOpen(old(world)) || Republished(libs, old(world), world, env)
      ensures LowDuring(old(trace), trace, ActiveVersion(old(world).db.rows)) <==>
        statusAnswers && FellBackToOpen(old(world))
      ensures ActiveVersion(world.db.rows) < ActiveVersion(old(world).db.rows) <==>
        statusAnswers && FellBackToOpen(old(world)) && !(state == "republished" && err == NoError)
    {
      hide RowsClean;
      hide ActiveVersion;
      hide Sound;
      hide Converged;
      hide SubscriptionSets;
      hide Republished;
      hide HeldDuring;
      hide LowDuring;
      hide HoldsOpen;
      hide HoldsActive;
      hide AheadOfFailed;
      hide Enabled;
      hide SnapshotOf;
      state, observed := "", None;
      ghost var start := trace;
      if !statusAnswers {
        NotLow(start, trace, ActiveVersion(world.db.rows));
        err := Error(false, "status");
        return;
      }
      Reachable();
      var version := VersionOf(world.runtime);
      ghost var active := ActiveVersion(world.db.rows);
      OpenIsNotActive(world);
      HeldCanFinish(world);
      if Open(world.db, version) && world.runtime == SnapshotOf(world.db, version) {
        ghost var before := world;
        state, err, observed := FinishCandidate(version, now, late, env);
        if FellBackToOpen(before) {
          LowerIsLow(start, trace, version + 1, active);
        } else {
          NotLow(start, trace, active);
        }
        return;
      }
      state, err, observed := ReconcileActive(world.runtime, now, late, env);
      NotLow(start, trace, active);
    }

    // ---- rule mutations ---------------------------------------------------------------------

    /** reserveRuleIDs: a contiguous range above the persisted counter, never handed out again. */
    method ReserveRuleIds(count: nat) returns (first: int, err: Error)
      requires Valid()
      modifies this`world, this`trace
      ensures Valid() && Silent(old(trace), trace)
      ensures err == NoError <==> count >= 1
      ensures first == old(world).db.lastRuleId + 1
      ensures world.db == old(world).db.(lastRuleId := old(world).db.lastRuleId + if count >= 1 then count else 0)
      ensures world.runtime == old(world).runtime
    {
      hide RowsClean;
      first := world.db.lastRuleId + 1;
      if count < 1 {
        return first, Error(false, "rule ID count must be greater than zero");
      }
      Perform(ReserveIds(count), world.(db := world.db.(lastRuleId := world.db.lastRuleId + count)));
      err := NoError;
    }

    /** validateRouteWrite: one expected registry version for all route rules, and valid targets under it. */
    method ValidateRouteWrite(rules: seq<Rule>, registry: Option<RegistryView>) returns (err: Error)
      ensures err == NoError <==> RouteWriteOk(rules, registry)
    {
      hide RouteTargetsError;
      hide RouteWriteOk;
      var expected: Option<nat> := None;
      for i := 0 to |rules|
        invariant OneExpectedVersion(rules[..i], expected)
      {
        if rules[i].category == "route" {
          if rules[i].expectedRegistry.None? {
            NoOneVersion(rules, i, expected, registry);
            return Error(false, "route rules require expected_upstream_registry_version");
          }
          if expected.Some? && expected != rules[i].expectedRegistry {
            NoOneVersion(rules, i, expected, registry);
            return Error(false, "route rules must use one expected_upstream_registry_version");
          }
          ghost var was := expected;
          expected := rules[i].expectedRegistry;
          ExpectedStep(rules, i, was);
        } else {
          ExpectedSkip(rules, i, expected);
        }
      }
      assert rules[..|rules|] == rules;
      OneVersionDecides(rules, expected, registry);
      err := RouteTargetsError(rules, expected, registry);
    }

    /** publish, with what the mutations need to know of it. */
    method PublishList(rules: seq<Rule>, now: int, from: nat, env: PublishEnv) returns (p: Published)
      requires Valid() && KnownIds(rules, world.db.lastRuleId)
      modifies this`world, this`trace
      ensures Valid() && Quietly(old(trace), trace, |old(world).db.rows| + 1)
      ensures Checked(libs, old(trace), trace, env.registry)
      ensures p.error == NoError ==> EachAccepted(libs, rules)
      ensures world.db.lastRuleId == old(world).db.lastRuleId
      ensures Mutated(old(world).db, world.db, p, PublishedTable(libs, rules))
      ensures Answers(libs, old(world), rules, env, p)
    {
      hide RowsClean;
      hide Checked;
      hide ActiveVersion;
      hide Answers;
      hide RightCode;
      hide Settled;
      hide Mutated;
      hide NormalizeRule;
      hide PublishedTable;
      ghost var before := world.db;
      ghost var seen;
      p, seen := Publish(rules, now, from, env);
      PublishedOutcome(libs, before, world, now, rules, from, p);
    }

    /** Create: the new rule, under a fresh id and in normal form, joins the visible rows. */
    method Create(r: Rule, env: MutationEnv) returns (p: Published)
      requires Valid()
      modifies this`world, this`trace
      ensures Valid() && Quietly(old(trace), trace, |old(world).db.rows| + 1)
      ensures Checked(libs, old(trace), trace, env.publish.registry)
      ensures world.db.lastRuleId == old(world).db.lastRuleId
        + if !SubscriptionSource(r.source) && RouteWriteOk([r], env.registry) then 1 else 0
      ensures p.error == NoError ==> !SubscriptionSource(r.source)
      ensures p.error == NoError ==> NormalizeRule(libs, CreatedRule(r, old(world).db.lastRuleId + 1, env.now)).Ok?
      ensures Mutated(old(world).db, world.db, p,
        CreatedTable(libs, old(world).db.table, CreatedRule(r, old(world).db.lastRuleId + 1, env.now)))
      ensures p.error == NoError ==>
        && !("subscription:" <= r.source)
        && RowShows(libs, world.db.table, r, "manual", old(world).db.lastRuleId + 1, env.now)
        && KeepsOthers(old(world).db.table, world.db.table, {old(world).db.lastRuleId + 1})
      ensures if !SubscriptionSource(r.source) && RouteWriteOk([r], env.registry)
        then Answers(libs, old(world),
          AllRules(old(world).db) + [CreatedRule(r, old(world).db.lastRuleId + 1, env.now)], env.publish, p)
        else p.version == 0
    {
      hide RowsClean;
      hide Checked;
      hide Answers;
      hide RouteWriteOk;
      hide ActiveVersion;
      hide Sound;
      hide AllRules;
      hide NormalizeRule;
      hide CreatedTable;
      hide PublishedTable;
      hide KnownIds;
      hide RowShows;
      hide KeepsOthers;
      hide CreatedRule;
      SilentIsChecked(libs, trace, trace, env.publish.registry);
      ghost var before := world;
      ghost var start := trace;
      if SubscriptionSource(r.source) {
        return Published(0, Error(false, "subscription rules must be managed through their source"));
      }
      var err := ValidateRouteWrite([r], env.registry);
      if err != NoError {
        return Published(0, err);
      }
      Reachable();
      ReadBack(libs, world);
      var rules := AllRules(world.db);
      var id;
      id, err := ReserveRuleIds(1);
      var added := CreatedRule(r, id, env.now);
      CreatedRuleHasId(r, id, env.now);
      NewIdsKnown(rules, [added], before.db.lastRuleId, world.db.lastRuleId);
      ghost var reserved := world;
      ghost var spent := trace;
      p := PublishList(rules + [added], env.now, 0, env.publish);
      CheckedAfter(libs, start, spent, trace, env.publish.registry);
      SameAnswers(libs, before, reserved, rules + [added], env.publish, p);
      if p.error == NoError {
        CreatedTableIs(libs, before, added);
        CreatedTableShows(libs, before.db.table, r, id, env.now);
      }
    }

    /** The loop of Update: the rule with the id is replaced, if the caller saw its latest version. */
    method ReplaceRule(all: seq<Rule>, id: int, patch: Rule, now: int)
      returns (err: Error, edited: seq<Rule>, ghost at: nat)
      requires DistinctIds(all)
      ensures err == NoError ==> at < |all| && all[at].id == id && edited == all[at := PatchedRule(all[at], patch, now)]
      ensures err == NoError ==>
        && at < |all| == |edited| && Patched(all[at], patch, now, edited[at])
        && forall k | 0 <= k < |all| && k != at :: edited[k] == all[k]
      ensures err == NoError <==> exists k :: 0 <= k < |all| && all[k].id == id && Editable(all[k], patch)
    {
      hide SubscriptionSource;
      var rules, found := all, false;
      at, edited := 0, all;
      for i := 0 to |rules|
        invariant |rules| == |all|
        invariant forall k | i <= k < |all| :: rules[k] == all[k]
        invariant !found ==> rules == all && forall k | 0 <= k < i :: all[k].id != id
        invariant found ==> at < i && all[at].id == id && Editable(all[at], patch)
        invariant found ==> rules == all[at := PatchedRule(all[at], patch, now)]
      {
        if rules[i].id == id {
          OneIdOnce(all, at, i, found, id);
          if SubscriptionSource(rules[i].source) {
            return Error(false, "subscription rules must be managed through their source"), all, at;
          }
          if patch.updatedAt == 0 || patch.updatedAt != rules[i].updatedAt {
            return Error(false, "rule changed since it was loaded"), all, at;
          }
          rules := rules[i := PatchedRule(rules[i], patch, now)];
          found, at := true, i;
        }
      }
      if !found {
        return Error(false, "no rows"), all, at;
      }
      err, edited := NoError, rules;
    }

    /** Update: the patch replaces the visible rule with its id, provided the caller saw its latest version. */
    method Update(id: int, patch: Rule, env: MutationEnv) returns (p: Published)
      requires Valid()
      modifies this`world, this`trace
      ensures Valid() && Quietly(old(trace), trace, |old(world).db.rows| + 1)
      ensures Checked(libs, old(trace), trace, env.publish.registry)
      ensures world.db.lastRuleId == old(world).db.lastRuleId
      ensures p.error == NoError ==> MayUpdate(old(world).db.table, id, patch)
      ensures Mutated(old(world).db, world.db, p, UpdatedTable(libs, old(world).db.table, id, patch, env.now))
      ensures p.error == NoError ==>
        UpdateDone(libs, old(world).db.table, world.db.table, id, patch, env.now)
      ensures if RouteWriteOk([patch], env.registry) && MayUpdate(old(world).db.table, id, patch)
        then Answers(libs, old(world), UpdatedList(AllRules(old(world).db), id, patch, env.now), env.publish, p)
        else p.version == 0
    {
      hide RowsClean;
      hide Checked;
      hide ActiveVersion;
      hide Sound;
      hide AllRules;
      hide EachAccepted;
      hide CleanList;
      hide IsTableOf;
      hide KnownIds;
      hide UpdatedTable;
      hide UpdateDone;
      hide MayUpdate;
      hide PublishedTable;
      hide Answers;
      hide RouteWriteOk;
      SilentIsChecked(libs, trace, trace, env.publish.registry);
      ghost var before := world;
      var err := ValidateRouteWrite([patch], env.registry);
      if err != NoError {
        return Published(0, err);
      }
      Reachable();
      ListIsDistinct(libs, world);
      EditableIsListed(libs, world, id, patch);
      var rules;
      ghost var at;
      err, rules, at := ReplaceRule(AllRules(world.db), id, patch, env.now);
      if err != NoError {
        return Published(0, err);
      }
      EditedListIs(libs, before, at, patch, env.now);
      UpdatedListIs(AllRules(world.db), at, patch, env.now);
      p := PublishList(rules, env.now, 0, env.publish);
    }

    /** The loop of Delete. */
    method DropRule(all: seq<Rule>, id: int) returns (err: Error, kept: seq<Rule>)
      ensures err == NoError ==> kept == BatchList("delete", {id}, all)
      ensures err == NoError <==> Droppable(all, id)
    {
      hide SubscriptionSource;
      hide BatchList;
      var found := false;
      kept := [];
      DropStart(all, id);
      for i := 0 to |all|
        invariant kept == BatchList("delete", {id}, all[..i])
        invariant found <==> exists k :: 0 <= k < i && all[k].id == id
        invariant forall k | 0 <= k < i && all[k].id == id :: !SubscriptionSource(all[k].source)
      {
        DropStep(all, i, id);
        if all[i].id == id {
          if SubscriptionSource(all[i].source) {
            return Error(false, "subscription rules must be managed through their source"), [];
          }
          found := true;
          continue;
        }
        kept := kept + [all[i]];
      }
      assert all[..|all|] == all;
      err := if found then NoError else Error(false, "no rows");
    }

    /** Delete: the visible rule with the id leaves the table, and no other visible rule does. */
    method Delete(id: int, env: MutationEnv) returns (p: Published)
      requires Valid()
      modifies this`world, this`trace
      ensures Valid() && Quietly(old(trace), trace, |old(world).db.rows| + 1)
      ensures Checked(libs, old(trace), trace, env.publish.registry)
      ensures world.db.lastRuleId == old(world).db.lastRuleId
      ensures p.error == NoError ==> id in VisibleTable(old(world).db.table)
      ensures Mutated(old(world).db, world.db, p, BatchTable("delete", {id}, VisibleTable(old(world).db.table)))
      ensures p.error == NoError ==>
        && id in old(world).db.table && id !in world.db.table
        && KeepsOthers(old(world).db.table, world.db.table, {id})
      ensures if Droppable(AllRules(old(world).db), id)
        then Answers(libs, old(world), BatchList("delete", {id}, AllRules(old(world).db)), env.publish, p)
        else p.version == 0
    {
      hide RowsClean;
      hide Checked;
      hide Answers;
      hide Droppable;
      hide ActiveVersion;
      hide Sound;
      hide AllRules;
      hide EachAccepted;
      hide KnownIds;
      hide BatchTable;
      hide BatchList;
      hide VisibleTable;
      hide PublishedTable;
      hide KeepsOthers;
      SilentIsChecked(libs, trace, trace, env.publish.registry);
      Reachable();
      var err, rules := DropRule(AllRules(world.db), id);
      if err != NoError {
        return Published(0, err);
      }
      DroppableIsListed(AllRules(world.db), id);
      ListedIdIsVisible(libs, world, id);
      DeletedIsGone(world.db.table, id);
      BatchListIs(libs, world, "delete", {id});
      p := PublishList(rules, env.now, 0, env.publish);
    }

    /** The loop of Batch: count, check and rewrite the selected rules. */
    method SelectRules(all: seq<Rule>, operation: string, selected: set<int>)
      returns (err: Error, edited: seq<Rule>, routes: seq<Rule>)
      requires DistinctIds(all)
      ensures err == NoError ==>
        edited == BatchList(operation, selected, all) && routes == SelectedRoutes(selected, all)
      ensures err == NoError <==> Selectable(all, operation, selected)
    {
      hide SubscriptionSource;
      var found := 0;
      ghost var seen: set<int> := {};
      edited, routes := [], [];
      for i := 0 to |all|
        invariant edited == BatchList(operation, selected, all[..i])
        invariant routes == SelectedRoutes(selected, all[..i])
        invariant found == |seen| && seen <= selected
        invariant forall id :: id in seen <==> id in selected && exists k :: 0 <= k < i && all[k].id == id
        invariant forall k | 0 <= k < i && all[k].id in selected ::
          !SubscriptionSource(all[k].source) && Supported(operation)
      {
        var r := all[i];
        assert all[..i + 1][..i] == all[..i] && all[..i + 1][i] == r;
        if r.id !in selected {
          edited := edited + [r];
          continue;
        }
        if SubscriptionSource(r.source) {
          return Error(false, "subscription rules must be managed through their source"), [], [];
        }
        assert r.id !in seen;
        found := found + 1;
        seen := seen + {r.id};
        if r.category == "route" {
          routes := routes + [r];
        }
        match operation
        case "enable" => edited := edited + [r.(enabled := true)];
        case "disable" => edited := edited + [r.(enabled := false)];
        case "delete" =>
        case _ => return Error(false, "unsupported batch operation"), [], [];
      }
      assert all[..|all|] == all;
      FullSubset(seen, selected);
      AllSelectedSeen(all, operation, selected, seen);
      err := if found != |selected| then Error(false, "no rows") else NoError;
    }

    /** Batch: the operation reaches exactly the selected rows, all of which are visible; route rows only under
        the registry version the caller named. */
    method Batch(operation: string, ids: seq<int>, expected: Option<nat>, env: MutationEnv) returns (p: Published)
      requires Valid()
      modifies this`world, this`trace
      ensures Valid() && Quietly(old(trace), trace, |old(world).db.rows| + 1)
      ensures Checked(libs, old(trace), trace, env.publish.registry)
      ensures world.db.lastRuleId == old(world).db.lastRuleId
      ensures p.error == NoError ==> ids != [] && Supported(operation)
      ensures p.error == NoError ==> Elements(ids) <= VisibleTable(old(world).db.table).Keys
      ensures p.error == NoError ==>
        RoutesGuarded(SelectedRoutes(Elements(ids), AllRules(old(world).db)), expected, env.registry)
      ensures Mutated(old(world).db, world.db, p,
        BatchTable(operation, Elements(ids), VisibleTable(old(world).db.table)))
      ensures p.error == NoError ==> BatchDone(old(world).db.table, world.db.table, operation, Elements(ids))
      ensures if ids != [] && Selectable(AllRules(old(world).db), operation, Elements(ids))
            && RoutesGuarded(SelectedRoutes(Elements(ids), AllRules(old(world).db)), expected, env.registry)
        then Answers(libs, old(world), BatchList(operation, Elements(ids), AllRules(old(world).db)), env.publish, p)
        else p.version == 0
    {
      hide RowsClean;
      hide Checked;
      hide Answers;
      hide ActiveVersion;
      hide Sound;
      hide AllRules;
      hide EachAccepted;
      hide KnownIds;
      hide BatchTable;
      hide BatchList;
      hide VisibleTable;
      hide PublishedTable;
      hide RouteTargetsError;
      hide SelectedRoutes;
      hide Selectable;
      hide BatchDone;
      SilentIsChecked(libs, trace, trace, env.publish.registry);
      if |ids| == 0 {
        return Published(0, Error(false, "ids must not be empty"));
      }
      Reachable();
      ListIsDistinct(libs, world);
      var selected := set id | id in ids;
      assert selected == Elements(ids) && ids[0] in selected;
      var err, rules, routes := SelectRules(AllRules(world.db), operation, selected);
      if err != NoError {
        return Published(0, err);
      }
      SelectedAreVisible(libs, world, operation, selected);
      BatchTableShows(world.db.table, operation, selected);
      AllRoutes(selected, AllRules(world.db));
      if |routes| != 0 {
        if expected.None? {
          return Published(0, Error(false, "route batch operations require expected_upstream_registry_version"));
        }
        err := RouteTargetsError(routes, expected, env.registry);
        GuardedRoutes(routes, expected, env.registry);
        if err != NoError {
          return Published(0, err);
        }
      }
      BatchListIs(libs, world, operation, selected);
      p := PublishList(rules, env.now, 0, env.publish);
    }

    /** The loop of Import. */
    method StampImported(incoming: seq<Rule>, first: int, clock: nat -> int) returns (err: Error, added: seq<Rule>)
      ensures err == NoError ==> added == ImportedList(incoming, first, clock)
      ensures err == NoError <==> NoSubscriptionRules(incoming)
    {
      hide SubscriptionSource;
      added := [];
      for i := 0 to |incoming|
        invariant added == ImportedList(incoming[..i], first, clock)
        invariant forall k | 0 <= k < i :: !SubscriptionSource(incoming[k].source)
      {
        assert incoming[..i + 1][..i] == incoming[..i] && incoming[..i + 1][i] == incoming[i];
        if SubscriptionSource(incoming[i].source) {
          return Error(false, "subscription rules must be managed through their source"), [];
        }
        added := added + [ImportedRule(incoming[i], first + i, clock(i))];
      }
      assert incoming[..|incoming|] == incoming;
      err := NoError;
    }

    /** Import: the incoming rules, under fresh contiguous ids and in normal form, join the visible rows. The ids
        are spent even when the publish that follows fails. */
    method Import(incoming: seq<Rule>, clock: nat -> int, env: MutationEnv) returns (p: Published)
      requires Valid()
      modifies this`world, this`trace
      ensures Valid() && Quietly(old(trace), trace, |old(world).db.rows| + 1)
      ensures Checked(libs, old(trace), trace, env.publish.registry)
      ensures p.error == NoError ==> incoming != [] && NoSubscriptionRules(incoming)
      ensures world.db.lastRuleId
        == old(world).db.lastRuleId + if RouteWriteOk(incoming, env.registry) then |incoming| else 0
      ensures Mutated(old(world).db, world.db, p,
        ImportedTable(libs, old(world).db.table, ImportedList(incoming, old(world).db.lastRuleId + 1, clock)))
      ensures p.error == NoError ==>
        ImportDone(libs, old(world).db.table, world.db.table, incoming, old(world).db.lastRuleId + 1, clock)
      ensures if RouteWriteOk(incoming, env.registry) && incoming != [] && NoSubscriptionRules(incoming)
        then Answers(libs, old(world),
          AllRules(old(world).db) + ImportedList(incoming, old(world).db.lastRuleId + 1, clock), env.publish, p)
        else p.version == 0
    {
      hide RowsClean;
      hide Checked;
      hide Answers;
      hide RouteWriteOk;
      hide ActiveVersion;
      hide Sound;
      hide AllRules;
      hide EachAccepted;
      hide KnownIds;
      hide PublishedTable;
      hide ImportedTable;
      hide ImportDone;
      SilentIsChecked(libs, trace, trace, env.publish.registry);
      ghost var before := world;
      ghost var start := trace;
      var err := ValidateRouteWrite(incoming, env.registry);
      if err != NoError {
        return Published(0, err);
      }
      Reachable();
      ListIsDistinct(libs, world);
      var current := AllRules(world.db);
      var first;
      first, err := ReserveRuleIds(|incoming|);
      SilentIsChecked(libs, start, trace, env.publish.registry);
      if err != NoError {
        return Published(0, err);
      }
      var added;
      err, added := StampImported(incoming, first, clock);
      if err != NoError {
        return Published(0, err);
      }
      NewIdsKnown(current, added, before.db.lastRuleId, world.db.lastRuleId);
      ImportedTableIs(libs, before, added);
      ImportIsDone(libs, before.db.table, AllRules(before.db), incoming, first, clock);
      ghost var reserved := world;
      ghost var spent := trace;
      p := PublishList(current + added, env.now, 0, env.publish);
      CheckedAfter(libs, start, spent, trace, env.publish.registry);
      SameAnswers(libs, before, reserved, current + added, env.publish, p);
    }

    /** Rollback: the table becomes an old version's list again, under a strictly newer version number. */
    method Rollback(from: nat, expected: Option<nat>, env: MutationEnv) returns (p: Published)
      requires Valid()
      modifies this`world, this`trace
      ensures Valid() && Quietly(old(trace), trace, |old(world).db.rows| + 1)
      ensures Checked(libs, old(trace), trace, env.publish.registry)
      ensures world.db.lastRuleId == old(world).db.lastRuleId
      ensures p.error == NoError ==> HasVersion(old(world).db, from) && from < p.version
      ensures p.error == NoError ==> RoutesGuarded(ListOf(old(world).db, from), expected, env.registry)
      ensures Mutated(old(world).db, world.db, p, TableOf(ListOf(old(world).db, from)))
      ensures p.error == NoError ==>
        IsTableOf(world.db.table, ListOf(old(world).db, from)) && DistinctIds(ListOf(old(world).db, from))
      ensures if HasVersion(old(world).db, from) && RoutesGuarded(ListOf(old(world).db, from), expected, env.registry)
        then Answers(libs, old(world), ListOf(old(world).db, from), env.publish, p)
        else p.version == 0
    {
      hide RowsClean;
      hide Checked;
      hide Answers;
      hide ActiveVersion;
      hide Sound;
      hide EachAccepted;
      hide KnownIds;
      hide PublishedTable;
      hide TableOf;
      hide IsTableOf;
      hide DistinctIds;
      hide RouteTargetsError;
      SilentIsChecked(libs, trace, trace, env.publish.registry);
      if !HasVersion(world.db, from) {
        return Published(0, Error(false, "no rows"));
      }
      Reachable();
      StoredVersionIs(libs, world, from);
      var rules := world.db.rows[from - 1].rules;
      KnownListTable(rules, world.db.lastRuleId);
      if HasRouteRules(rules) && expected.None? {
        return Published(0, Error(false, "route rollback requires expected_upstream_registry_version"));
      }
      NoRoutesNoError(rules, expected, env.registry);
      var err := RouteTargetsError(rules, expected, env.registry);
      GuardedRoutes(rules, expected, env.registry);
      if err != NoError {
        return Published(0, err);
      }
      p := PublishList(rules, env.now, from, env.publish);
    }
  }
}
