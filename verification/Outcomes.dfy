/** What the calls of the rule service meet, what they report, and what that says about the tables. */
module Outcomes {
  import opened Ordering
  import opened Text
  import opened RuleModel
  import opened Validation
  import opened Store
  import opened Protocol
  import opened Publication

  /** NoError, or an error: unknown tells whether it wraps the unknown-outcome error of the client. */
  datatype Error = NoError | Error(unknown: bool, code: string) {
    predicate Failed(code: string) { this.Error? && this.code == code }
  }

  /** One registry read: its version and the enabled groups; None when the call fails. */
  datatype RegistryView = RegistryView(version: nat, enabled: set<string>)

  datatype ValidateReply = ValidateOk | ValidateOtherChecksum | ValidateFailed(unknown: bool)

  /** What happens to one Apply call on the wire. */
  datatype Wire = Answered | AnswerLost | RequestLost | Refused | Garbled

  datatype ApplyReply = Applied | BadAnswer | ConflictAnswer | RejectedAnswer | NoAnswer

  /** What may happen to the runtime between two statements: a message arrives, or it falls back. */
  datatype Disturbance = Arrives(message: Snapshot) | FallsBack(to: Option<Snapshot>)

  /** Everything outside the controller that one publish meets: late(k) is what happens to the runtime at the
      k-th point between its statements. */
  datatype PublishEnv = PublishEnv(
    registry: Option<RegistryView>, validate: ValidateReply, wire: Wire, statusAnswers: bool,
    late: nat -> seq<Disturbance>)

  datatype Published = Published(version: nat, error: Error)

  /** The trace grew, by events that neither write the source tables nor record or finalise anything. */
  ghost predicate Silent(a: seq<Event>, b: seq<Event>) {
    a <= b && forall i | |a| <= i < |b| :: !b[i].WriteSources? && !b[i].InsertCandidate? && !b[i].Finalize?
  }

  /** The trace grew, by events that neither write the source tables nor record anything, and finalise only versions
      from n on. */
  ghost predicate Closing(a: seq<Event>, b: seq<Event>, n: nat) {
    && a <= b
    && forall i | |a| <= i < |b| ::
         !b[i].WriteSources? && !b[i].InsertCandidate? && (b[i].Finalize? ==> b[i].version >= n)
  }

  /** The trace grew, by events that do not write the source tables and finalise only versions from n on. */
  ghost predicate Quietly(a: seq<Event>, b: seq<Event>, n: nat) {
    a <= b && forall i | |a| <= i < |b| :: !b[i].WriteSources? && (b[i].Finalize? ==> b[i].version >= n)
  }

  /** The runtime held s at some moment while the trace grew from a to b. */
  ghost predicate HeldDuring(a: seq<Event>, b: seq<Event>, s: Option<Snapshot>) {
    a <= b && exists k :: |a| <= k <= |b| && Run(Initial(), b[..k]).runtime == s
  }

  /** The active version was below n at some moment while the trace grew from a to b. */
  ghost predicate LowDuring(a: seq<Event>, b: seq<Event>, n: nat) {
    a <= b && exists k :: |a| <= k <= |b| && ActiveVersion(Run(Initial(), b[..k]).db.rows) < n
  }

  lemma HeldAtEnd(a: seq<Event>, b: seq<Event>)
    requires a <= b
    ensures HeldDuring(a, b, Run(Initial(), b).runtime)
  {
    hide Run;
    assert b[..|b|] == b;
  }

  lemma HeldWithin(a: seq<Event>, b: seq<Event>, c: seq<Event>, d: seq<Event>, s: Option<Snapshot>)
    requires a <= b && HeldDuring(b, c, s) && c <= d
    ensures HeldDuring(a, d, s)
  {
    hide Run;
    var k :| |b| <= k <= |c| && Run(Initial(), c[..k]).runtime == s;
    assert d[..k] == c[..k];
  }

  lemma LowAtEnd(a: seq<Event>, b: seq<Event>, n: nat)
    requires a <= b && ActiveVersion(Run(Initial(), b).db.rows) < n
    ensures LowDuring(a, b, n)
  {
    hide Run;
    hide ActiveVersion;
    assert b[..|b|] == b;
  }

  lemma LowLater(a: seq<Event>, b: seq<Event>, c: seq<Event>, n: nat)
    requires LowDuring(a, b, n) && b <= c
    ensures LowDuring(a, c, n)
  {
    hide Run;
    hide ActiveVersion;
    var k :| |a| <= k <= |b| && ActiveVersion(Run(Initial(), b[..k]).db.rows) < n;
    assert c[..k] == b[..k];
  }

  lemma LowerIsLow(a: seq<Event>, b: seq<Event>, m: nat, n: nat)
    requires LowDuring(a, b, m) && m <= n
    ensures LowDuring(a, b, n)
  {
    hide Run;
    hide ActiveVersion;
  }

  /** Finalising only versions from n on never takes the active version below n. */
  lemma {:induction false} NeverLow(a: seq<Event>, b: seq<Event>, n: nat, k: nat)
    requires Quietly(a, b, n) && |a| <= k <= |b| && ActiveVersion(Run(Initial(), a).db.rows) >= n
    ensures ActiveVersion(Run(Initial(), b[..k]).db.rows) >= n
    decreases k
  {
    hide ActiveVersion;
    hide Step;
    if k == |a| {
      assert b[..k] == a;
    } else {
      NeverLow(a, b, n, k - 1);
      assert b[..k][..k - 1] == b[..k - 1] && b[..k][k - 1] == b[k - 1];
      InitialIsSound();
      EveryRunIsSound(Initial(), b[..k - 1]);
      OnlyFinalizeActivates(Run(Initial(), b[..k - 1]), b[k - 1]);
    }
  }

  lemma NotLow(a: seq<Event>, b: seq<Event>, n: nat)
    requires Quietly(a, b, n) && ActiveVersion(Run(Initial(), a).db.rows) >= n
    ensures !LowDuring(a, b, n)
  {
    hide ActiveVersion;
    hide Run;
    forall k | |a| <= k <= |b| ensures ActiveVersion(Run(Initial(), b[..k]).db.rows) >= n {
      NeverLow(a, b, n, k);
    }
  }

  /** What late deliveries and falling back cannot change. */
  ghost predicate SameController(a: World, b: World) {
    a.db == b.db && a.sent == b.sent && a.adopted <= b.adopted
  }

  function SnapshotOf(db: Db, v: nat): Option<Snapshot> {
    if 1 <= v <= |db.rows| then Some(db.rows[v - 1].snapshot) else None
  }

  function ListOf(db: Db, v: nat): seq<Rule> {
    if 1 <= v <= |db.rows| then db.rows[v - 1].rules else []
  }

  function TargetGroups(rules: seq<Rule>): set<string> {
    set i | 0 <= i < |rules| && rules[i].category == "route" :: TrimSpace(rules[i].groupId)
  }

  /** validateRouteTargets: every route rule, enabled or not, must name an enabled group. */
  function RouteTargetsError(rules: seq<Rule>, expected: Option<nat>, registry: Option<RegistryView>): Error {
    if TargetGroups(rules) == {} then NoError
    else match registry
      case None => Error(false, "registry unavailable")
      case Some(view) =>
        if expected.Some? && view.version != expected.value then Error(false, "conflict")
        else if TargetGroups(rules) <= view.enabled then NoError
        else Error(false, "upstream group must exist and be enabled")
  }

  /** Every route rule of the list, enabled or not, names an enabled group of the registry that was read; a list without
      route rules needs no registry. */
  predicate TargetsEnabled(rules: seq<Rule>, registry: Option<RegistryView>) {
    forall i | 0 <= i < |rules| && rules[i].category == "route" ::
      registry.Some? && TrimSpace(rules[i].groupId) in registry.value.enabled
  }

  predicate HasRouteRules(rules: seq<Rule>) {
    exists i :: 0 <= i < |rules| && rules[i].category == "route"
  }

  /** The check of the targets passes exactly when they are enabled, in the version the caller expects; a list without
      route rules always passes. */
  lemma RouteTargetsExactly(rules: seq<Rule>, expected: Option<nat>, registry: Option<RegistryView>)
    ensures RouteTargetsError(rules, expected, registry) == NoError <==>
      && TargetsEnabled(rules, registry)
      && (HasRouteRules(rules) && expected.Some? ==> registry.value.version == expected.value)
  {
    hide TrimSpace;
    if i :| 0 <= i < |rules| && rules[i].category == "route" {
      assert TrimSpace(rules[i].groupId) in TargetGroups(rules);
      if TargetsEnabled(rules, registry) && registry.Some? {
        assert TargetGroups(rules) <= registry.value.enabled;
      }
      if registry.Some? && TargetGroups(rules) <= registry.value.enabled {
        forall k | 0 <= k < |rules| && rules[k].category == "route"
          ensures TrimSpace(rules[k].groupId) in registry.value.enabled
        {
          assert TrimSpace(rules[k].groupId) in TargetGroups(rules);
        }
      }
    } else {
      assert TargetGroups(rules) == {};
    }
  }

  // ---- what a publish leaves behind ---------------------------------------------------------

  /** The tables once the candidate built from a list is recorded as pending. */
  ghost function CandidateDb(libs: Libs, db: Db, now: int, rules: seq<Rule>, from: nat): Db
    requires EachAccepted(libs, rules) && SubscriptionSets(db.sources).Ok?
  {
    InsertRow(db, now, NormalizedList(libs, rules), SubscriptionSets(db.sources).value, from)
  }

  /** What a publish has checked when it records a candidate: the list is normal and carries the sets of the sources
      as they are, and its route rules passed the check against the registry it has read. */
  ghost predicate CheckedInsert(libs: Libs, w: World, e: Event, registry: Option<RegistryView>)
    requires e.InsertCandidate?
  {
    && NormalList(libs, e.rules) && SubscriptionSets(w.db.sources) == Ok(e.sets)
    && RouteTargetsError(e.rules, None, registry) == NoError
  }

  /** Every candidate recorded while the trace grew from a to b was checked so. */
  ghost predicate Checked(libs: Libs, a: seq<Event>, b: seq<Event>, registry: Option<RegistryView>) {
    && a <= b
    && forall i | |a| <= i < |b| && b[i].InsertCandidate? ::
         CheckedInsert(libs, Run(Initial(), b[..i]), b[i], registry)
  }

  lemma SilentIsChecked(libs: Libs, a: seq<Event>, b: seq<Event>, registry: Option<RegistryView>)
    requires Silent(a, b)
    ensures Checked(libs, a, b, registry)
  {}

  lemma CheckedWithin(
    libs: Libs, a: seq<Event>, b: seq<Event>, c: seq<Event>, d: seq<Event>, n: nat, registry: Option<RegistryView>)
    requires Silent(a, b) && Checked(libs, b, c, registry) && Closing(c, d, n)
    ensures Checked(libs, a, d, registry)
  {
    hide CheckedInsert;
    hide Run;
    forall i | |a| <= i < |d| && d[i].InsertCandidate?
      ensures CheckedInsert(libs, Run(Initial(), d[..i]), d[i], registry)
    {
      assert d[..i] == c[..i] && d[i] == c[i];
    }
  }

  lemma CheckedAfter(libs: Libs, a: seq<Event>, b: seq<Event>, c: seq<Event>, registry: Option<RegistryView>)
    requires Silent(a, b) && Checked(libs, b, c, registry)
    ensures Checked(libs, a, c, registry)
  {
    CheckedWithin(libs, a, b, c, c, 0, registry);
    hide Checked;
  }

  lemma OneInsertIsChecked(libs: Libs, a: seq<Event>, e: Event, registry: Option<RegistryView>)
    requires e.InsertCandidate? && CheckedInsert(libs, Run(Initial(), a), e, registry)
    ensures Checked(libs, a, a + [e], registry)
  {
    hide CheckedInsert;
    hide Run;
    assert (a + [e])[..|a|] == a;
  }

  /** How a recorded candidate ends: activated, or written off, or left open as unknown. */
  ghost predicate Settled(before: Db, after: World, v: nat, error: Error) {
    && HasVersion(before, v)
    && (error == NoError ==>
          && after.db == Activate(before, v)
          && ActiveVersion(after.db.rows) == v)
    && (error != NoError ==>
          after.db == SetStatus(before, v, if error.code == "PUBLISH_UNKNOWN" then Unknown else Failed, error.code))
    && (error != NoError && error.code == "PUBLISH_UNKNOWN" ==> error.unknown)
  }

  predicate ReplyFits(wire: Wire, reply: ApplyReply) {
    match reply
    case Applied => wire == Answered
    case BadAnswer => wire == Garbled
    case ConflictAnswer => wire == Answered || wire == Garbled
    case RejectedAnswer => wire == Refused
    case NoAnswer => NoReply(wire)
  }

  /** The calls all work, and nothing from earlier is still on its way. */
  ghost predicate Smooth(env: PublishEnv) {
    && env.validate.ValidateOk? && (env.wire.Answered? || (env.wire.AnswerLost? && env.statusAnswers))
    && forall k: nat :: env.late(k) == []
  }

  /** The checks a publish makes before it records a candidate. */
  ghost predicate Preparable(libs: Libs, sources: Sources, rules: seq<Rule>, registry: Option<RegistryView>) {
    && SubscriptionSets(sources).Ok? && Accepted(libs, rules)
    && RouteTargetsError(NormalizedList(libs, rules), None, registry) == NoError
  }

  /** In terms of the list and the tables: a candidate is recorded exactly when every enabled route source is bound, the
      list is accepted, and the targets of its route rules are enabled. */
  lemma PreparableExactly(libs: Libs, sources: Sources, rules: seq<Rule>, registry: Option<RegistryView>)
    requires SourcesKeyed(sources)
    ensures Preparable(libs, sources, rules, registry) <==>
      && (forall id | id in sources.rows && sources.rows[id].enabled && sources.rows[id].category == "route" ::
            id in sources.bindings)
      && Accepted(libs, rules) && TargetsEnabled(rules, registry)
  {
    SetsFailExactlyWhenUnbound(sources);
    hide SubscriptionSets;
    hide DistinctKeys;
    hide RegexpCount;
    if Accepted(libs, rules) {
      var n := NormalizedList(libs, rules);
      RouteTargetsExactly(n, None, registry);
      hide RouteTargetsError;
      hide NormalizeRule;
      forall i | 0 <= i < |rules|
        ensures n[i].category == rules[i].category
          && (n[i].category == "route" ==> TrimSpace(n[i].groupId) == TrimSpace(rules[i].groupId))
      {
        NormalizeRuleWrites(libs, rules[i]);
        TrimSpaceIsIdempotent(rules[i].groupId);
      }
    }
  }

  lemma SourcesAreKeyed(w: World)
    requires Sound(w)
    ensures SourcesKeyed(w.db.sources)
  {}

  /** When a publish of the list gets through: a candidate is recorded exactly when the checks pass, and it
      becomes active when the runtime is in step and the calls work. */
  ghost predicate Answers(libs: Libs, before: World, rules: seq<Rule>, env: PublishEnv, p: Published) {
    && (p.version != 0 <==> Preparable(libs, before.db.sources, rules, env.registry))
    && (p.version != 0 && Smooth(env) && VersionOf(before.runtime) == ActiveVersion(before.db.rows) ==>
          p.error == NoError)
  }

  predicate NoReply(wire: Wire) { wire.AnswerLost? || wire.RequestLost? }

  function PreviousOf(db: Db, v: nat): nat {
    if 1 <= v <= |db.rows| then db.rows[v - 1].previous else 0
  }

  /** Apply brought no answer. */
  predicate Lost(env: PublishEnv) { env.validate.ValidateOk? && NoReply(env.wire) }

  /** The status read after a lost Apply shows the candidate, or its predecessor. */
  predicate ShowsCandidate(after: World, v: nat, env: PublishEnv, seen: Option<Snapshot>) {
    env.statusAnswers && seen == SnapshotOf(after.db, v)
  }

  predicate ShowsPredecessor(after: World, v: nat, env: PublishEnv, seen: Option<Snapshot>) {
    env.statusAnswers && seen != SnapshotOf(after.db, v) && VersionOf(seen) == PreviousOf(after.db, v)
  }

  /** Which outcome belongs to which replies. seen is the runtime's content as read after a lost Apply. */
  ghost predicate RightCode(after: World, v: nat, env: PublishEnv, e: Error, seen: Option<Snapshot>) {
    && (e.Failed("VALIDATION_FAILED") <==> env.validate.ValidateFailed?)
    && (e.Failed("VALIDATION_FAILED") ==> e.unknown == env.validate.unknown)
    && (e.Failed("CHECKSUM_MISMATCH") <==> env.validate.ValidateOtherChecksum?)
    && (e.Failed("APPLY_FAILED") ==> env.validate.ValidateOk? && !NoReply(env.wire))
    && (e.Failed("APPLY_RESPONSE_INVALID") ==> env.validate.ValidateOk? && env.wire == Garbled)
    && (e.Failed("APPLY_TIMEOUT_NOT_APPLIED") <==> Lost(env) && ShowsPredecessor(after, v, env, seen))
    && (e.Failed("PUBLISH_UNKNOWN") <==>
          Lost(env) && !ShowsCandidate(after, v, env, seen) && !ShowsPredecessor(after, v, env, seen))
    && (e.Error? && e.unknown ==> e.Failed("VALIDATION_FAILED") || e.Failed("PUBLISH_UNKNOWN"))
    && (e.Failed("PUBLISH_UNKNOWN") ==> e.unknown)
    && (!env.validate.ValidateOk? ==> NeverSent(after.sent, v))
  }

  // Each way a candidate can end fits the replies that led to it.

  lemma RejectedIsRight(after: World, v: nat, env: PublishEnv, seen: Option<Snapshot>)
    requires env.validate.ValidateFailed? && NeverSent(after.sent, v)
    ensures RightCode(after, v, env, Error(env.validate.unknown, "VALIDATION_FAILED"), seen)
  {
    hide NeverSent;
  }

  lemma MismatchIsRight(after: World, v: nat, env: PublishEnv, seen: Option<Snapshot>)
    requires env.validate.ValidateOtherChecksum? && NeverSent(after.sent, v)
    ensures RightCode(after, v, env, Error(false, "CHECKSUM_MISMATCH"), seen)
  {
    hide NeverSent;
  }

  lemma RefusedIsRight(after: World, v: nat, env: PublishEnv, seen: Option<Snapshot>)
    requires env.validate.ValidateOk? && !NoReply(env.wire)
    ensures RightCode(after, v, env, Error(false, "APPLY_FAILED"), seen)
    ensures env.wire == Garbled ==> RightCode(after, v, env, Error(false, "APPLY_RESPONSE_INVALID"), seen)
    ensures RightCode(after, v, env, NoError, seen)
  {}

  lemma LostIsRight(after: World, v: nat, env: PublishEnv, seen: Option<Snapshot>)
    requires Lost(env)
    ensures ShowsCandidate(after, v, env, seen) ==> RightCode(after, v, env, NoError, seen)
    ensures ShowsPredecessor(after, v, env, seen) ==>
      RightCode(after, v, env, Error(false, "APPLY_TIMEOUT_NOT_APPLIED"), seen)
    ensures !ShowsCandidate(after, v, env, seen) && !ShowsPredecessor(after, v, env, seen) ==>
      RightCode(after, v, env, Error(true, "PUBLISH_UNKNOWN"), seen)
  {
    hide SnapshotOf;
    hide PreviousOf;
  }

  /** No Apply message carries version v. */
  ghost predicate NeverSent(sent: set<Snapshot>, v: nat) {
    forall m | m in sent :: m.version != v
  }

  /** The codes a failed publish writes when the runtime is known not to have taken the call. */
  predicate FailedBeforeApply(code: string) {
    code in {"VALIDATION_FAILED", "CHECKSUM_MISMATCH", "APPLY_FAILED", "APPLY_TIMEOUT_NOT_APPLIED"}
  }

  /** Runtime content that is exactly what the current tables would produce: the enabled rules of the table, and the
      sets of the sources. */
  ghost predicate Converged(db: Db, observed: Option<Snapshot>) {
    && observed.Some?
    && observed.value.version == ActiveVersion(db.rows)
    && observed.value.rules == WireOfTable(db.table)
    && CarriesTable(observed.value.rules, db.table)
    && Ok(observed.value.sets) == SubscriptionSets(db.sources)
    && ShowSources(observed.value.sets, db.sources)
  }

  /** The row of a candidate built from a validated list: what its snapshot carries, what it stores, and where it
      comes from. */
  ghost predicate BuiltFrom(row: Row, before: Db, now: int, rules: seq<Rule>, from: nat) {
    && row.snapshot.version == |before.rows| + 1
    && row.snapshot.expected == row.previous == ActiveVersion(before.rows)
    && row.snapshot.generatedAt == now && row.rollbackFrom == from
    && CarriesEnabled(row.snapshot.rules, rules)
    && ShowSources(row.snapshot.sets, before.sources)
    && |row.rules| == |rules|
    && forall i | 0 <= i < |rules| :: row.rules[i] == rules[i].(expectedRegistry := None)
  }

  lemma CandidateIsBuilt(libs: Libs, db: Db, now: int, rules: seq<Rule>, from: nat)
    requires EachAccepted(libs, rules) && SubscriptionSets(db.sources).Ok?
    requires DistinctIds(NormalizedList(libs, rules)) && SourcesKeyed(db.sources)
    ensures |CandidateDb(libs, db, now, rules, from).rows| == |db.rows| + 1
    ensures BuiltFrom(
      CandidateDb(libs, db, now, rules, from).rows[|db.rows|], db, now, NormalizedList(libs, rules), from)
  {
    WireIsSortedEnabledRules(NormalizedList(libs, rules));
    SetsShowSources(db.sources);
    hide RuleModel.Wire;
    hide NormalizedList;
    hide SubscriptionSets;
    hide ActiveVersion;
    hide ShowSources;
    hide CarriesEnabled;
  }

  /** The older rows stay as they were, except that the active one is superseded when a new one takes its place. */
  ghost predicate KeepsRows(before: Db, after: Db, activated: bool) {
    && |before.rows| <= |after.rows|
    && forall i | 0 <= i < |before.rows| ::
         after.rows[i] == if activated && before.rows[i].status == Active then before.rows[i].(status := Superseded)
                          else before.rows[i]
  }

  /** However the candidate ends, its row holds what it was built from. */
  lemma SettledIsBuilt(libs: Libs, before: World, after: World, now: int, rules: seq<Rule>, from: nat, p: Published)
    requires Sound(before) && KnownIds(rules, before.db.lastRuleId)
    requires EachAccepted(libs, rules) && SubscriptionSets(before.db.sources).Ok?
    requires p.version == |before.db.rows| + 1
    requires Settled(CandidateDb(libs, before.db, now, rules, from), after, p.version, p.error)
    ensures HasVersion(after.db, p.version)
    ensures BuiltFrom(after.db.rows[p.version - 1], before.db, now, NormalizedList(libs, rules), from)
    ensures KeepsRows(before.db, after.db, p.error == NoError)
  {
    NormalizedKeepsIds(libs, rules, before.db.lastRuleId);
    CandidateIsBuilt(libs, before.db, now, rules, from);
    hide NormalizedList;
    hide SubscriptionSets;
    hide ActiveVersion;
    hide ShowSources;
    hide CarriesEnabled;
    hide TableOf;
    var mid := CandidateDb(libs, before.db, now, rules, from);
    assert mid.rows[..|before.db.rows|] == before.db.rows;
    hide CandidateDb;
    ActivatedKeeps(mid.rows, p.version);
  }

  /** The row a publish leaves behind: none for version 0, and otherwise the last one, activated or marked with
      the code of the error. */
  ghost predicate Recorded(before: Db, after: Db, p: Published) {
    && (p.version == 0 ==> p.error != NoError && after.rows == before.rows)
    && (p.version != 0 ==>
          && p.version == |before.rows| + 1 == |after.rows|
          && after.rows[p.version - 1].previous == ActiveVersion(before.rows)
          && (p.error == NoError ==> ActiveVersion(after.rows) == p.version)
          && (p.error != NoError ==>
                && ActiveVersion(after.rows) == ActiveVersion(before.rows)
                && after.rows[p.version - 1].errorCode == p.error.code
                && after.rows[p.version - 1].status == if p.error.code == "PUBLISH_UNKNOWN" then Unknown else Failed))
  }

  /** The runtime holds a candidate whose outcome is still open. */
  ghost predicate HoldsOpen(w: World) {
    Open(w.db, VersionOf(w.runtime)) && w.runtime == SnapshotOf(w.db, VersionOf(w.runtime))
  }

  /** The runtime has fallen back to an open candidate below the active version, and the sources can be read. */
  ghost predicate FellBackToOpen(w: World) {
    HoldsOpen(w) && VersionOf(w.runtime) < ActiveVersion(w.db.rows) && SubscriptionSets(w.db.sources).Ok?
  }

  /** The runtime holds the active version, and the sources still give its sets. */
  ghost predicate HoldsActive(w: World) {
    var a := ActiveVersion(w.db.rows);
    a > 0 && w.runtime == SnapshotOf(w.db, a) && SubscriptionSets(w.db.sources) == Ok(w.db.rows[a - 1].snapshot.sets)
  }

  /** The rule table was sent out again under a new version, if it passes the checks of a publish. */
  ghost predicate Republished(libs: Libs, before: World, after: World, env: PublishEnv) {
    var recorded := if Preparable(libs, before.db.sources, AllRules(before.db), env.registry) then 1 else 0;
    |after.db.rows| == |before.db.rows| + recorded
  }

  // ---- what the rule mutations check and report ---------------------------------------------

  /** What one mutation meets outside the controller: its own registry read, then the publish. */
  datatype MutationEnv = MutationEnv(registry: Option<RegistryView>, now: int, publish: PublishEnv)

  /** Every route rule of the list names the same expected registry version. */
  ghost predicate OneExpectedVersion(rules: seq<Rule>, expected: Option<nat>) {
    && (forall i | 0 <= i < |rules| && rules[i].category == "route" ::
          rules[i].expectedRegistry.Some? && rules[i].expectedRegistry == expected)
    && (expected.Some? ==> exists i :: 0 <= i < |rules| && rules[i].category == "route")
  }

  /** Each route rule names the version of the registry that was read, and a group enabled in it. */
  predicate RouteWriteOk(rules: seq<Rule>, registry: Option<RegistryView>) {
    forall i | 0 <= i < |rules| && rules[i].category == "route" ::
      && registry.Some? && rules[i].expectedRegistry == Some(registry.value.version)
      && TrimSpace(rules[i].groupId) in registry.value.enabled
  }

  /** The rule table before and after a mutation: a published edit, or nothing. */
  ghost predicate Mutated(before: Db, after: Db, r: Published, edited: map<int, Rule>) {
    && after.sources == before.sources
    && before.lastRuleId <= after.lastRuleId
    && (r.error == NoError ==>
          && after.table == edited
          && ActiveVersion(after.rows) == r.version == |before.rows| + 1)
    && (r.error != NoError ==> after.table == before.table && ActiveVersion(after.rows) == ActiveVersion(before.rows))
    && (r.version == 0 ==> r.error != NoError && after.rows == before.rows)
  }

  // ---- what the mutations edit --------------------------------------------------------------

  predicate Supported(operation: string) {
    operation == "enable" || operation == "disable" || operation == "delete"
  }

  predicate NoSubscriptionRules(rules: seq<Rule>) {
    forall i | 0 <= i < |rules| :: !SubscriptionSource(rules[i].source)
  }

  /** Reserving ids changes nothing a publish depends on. */
  lemma SameAnswers(libs: Libs, a: World, b: World, rules: seq<Rule>, env: PublishEnv, p: Published)
    requires Answers(libs, b, rules, env, p)
    requires a.db.sources == b.db.sources && a.db.rows == b.db.rows && a.runtime == b.runtime
    ensures Answers(libs, a, rules, env, p)
  {
    hide Preparable;
    hide ActiveVersion;
  }

  /** Route rules are touched only under the registry version the caller named, and only towards groups
      enabled in it. */
  predicate RoutesGuarded(routes: seq<Rule>, expected: Option<nat>, registry: Option<RegistryView>) {
    HasRouteRules(routes) ==>
      && expected.Some? && registry.Some? && registry.value.version == expected.value
      && TargetsEnabled(routes, registry)
  }

  ghost predicate Droppable(all: seq<Rule>, id: int) {
    && (exists k :: 0 <= k < |all| && all[k].id == id)
    && (forall k | 0 <= k < |all| && all[k].id == id :: !SubscriptionSource(all[k].source))
  }

  lemma DroppableIsListed(all: seq<Rule>, id: int)
    requires Droppable(all, id)
    ensures exists k :: 0 <= k < |all| && all[k].id == id
  {}

  ghost predicate Selectable(all: seq<Rule>, operation: string, selected: set<int>) {
    && (forall id | id in selected :: exists k :: 0 <= k < |all| && all[k].id == id)
    && (forall k | 0 <= k < |all| && all[k].id in selected ::
          !SubscriptionSource(all[k].source) && Supported(operation))
  }

  function SelectedRoutes(selected: set<int>, rules: seq<Rule>): seq<Rule> {
    if rules == [] then []
    else
      var front := SelectedRoutes(selected, rules[..|rules| - 1]);
      if Last(rules).id in selected && Last(rules).category == "route" then front + [Last(rules)] else front
  }

  lemma DropStart(all: seq<Rule>, id: int)
    ensures BatchList("delete", {id}, all[..0]) == []
  {}

  lemma DropStep(all: seq<Rule>, i: nat, id: int)
    requires i < |all|
    ensures BatchList("delete", {id}, all[..i + 1])
      == BatchList("delete", {id}, all[..i]) + (if all[i].id == id then [] else [all[i]])
  {
    assert all[..i + 1][..i] == all[..i] && all[..i + 1][i] == all[i];
  }

  lemma {:induction false} AllRoutes(selected: set<int>, rules: seq<Rule>)
    ensures SelectedRoutes(selected, rules) != [] <==> HasRouteRules(SelectedRoutes(selected, rules))
    ensures forall r | r in SelectedRoutes(selected, rules) :: r.category == "route"
  {
    if rules != [] { AllRoutes(selected, rules[..|rules| - 1]); }
    var routes := SelectedRoutes(selected, rules);
    if routes != [] { assert routes[0] in routes; }
  }

  lemma {:induction false} FullSubset(a: set<int>, b: set<int>)
    requires a <= b
    ensures |a| == |b| <==> a == b
    ensures |a| <= |b|
  {
    if a == b {
    } else {
      assert |b - a| > 0 && a + (b - a) == b;
    }
  }

  lemma AllSelectedSeen(all: seq<Rule>, operation: string, selected: set<int>, seen: set<int>)
    requires seen <= selected
    requires forall id :: id in seen <==> id in selected && exists k :: 0 <= k < |all| && all[k].id == id
    requires forall k | 0 <= k < |all| && all[k].id in selected ::
      !SubscriptionSource(all[k].source) && Supported(operation)
    ensures Selectable(all, operation, selected) <==> seen == selected
  {
    hide SubscriptionSource;
    hide Supported;
    if Selectable(all, operation, selected) {
      forall id | id in selected ensures id in seen {}
    }
  }

  lemma NoRoutesNoError(rules: seq<Rule>, expected: Option<nat>, registry: Option<RegistryView>)
    ensures !HasRouteRules(rules) ==> RouteTargetsError(rules, expected, registry) == NoError
  {
    hide TrimSpace;
    if !HasRouteRules(rules) { assert TargetGroups(rules) == {}; }
  }

  lemma GuardedRoutes(routes: seq<Rule>, expected: Option<nat>, registry: Option<RegistryView>)
    ensures HasRouteRules(routes) ==>
      (RoutesGuarded(routes, expected, registry) <==>
        expected.Some? && RouteTargetsError(routes, expected, registry) == NoError)
  {
    RouteTargetsExactly(routes, expected, registry);
    hide TrimSpace;
    hide RouteTargetsError;
  }

  lemma ListedIdIsVisible(libs: Libs, w: World, id: int)
    requires Sound(w) && RowsClean(libs, w.db.rows)
    ensures id in VisibleTable(w.db.table) <==> exists k :: 0 <= k < |AllRules(w.db)| && AllRules(w.db)[k].id == id
  {
    ReadBack(libs, w);
    hide Sound;
    hide RowsClean;
    hide AllRules;
    hide CleanList;
    hide KnownIds;
    hide VisibleTable;
    var all, table := AllRules(w.db), VisibleTable(w.db.table);
    if id in table {
      assert table[id] in all;
      var k :| 0 <= k < |all| && all[k] == table[id];
      assert all[k].id == id;
    }
    if k :| 0 <= k < |all| && all[k].id == id {
      assert all[k] in all;
    }
  }

  lemma SelectedAreVisible(libs: Libs, w: World, operation: string, selected: set<int>)
    requires Sound(w) && RowsClean(libs, w.db.rows) && selected != {}
    requires Selectable(AllRules(w.db), operation, selected)
    ensures selected <= VisibleTable(w.db.table).Keys && Supported(operation)
  {
    hide Sound;
    hide RowsClean;
    hide AllRules;
    hide VisibleTable;
    forall id | id in selected ensures id in VisibleTable(w.db.table) && Supported(operation) {
      ListedIdIsVisible(libs, w, id);
    }
  }

  lemma BatchListIs(libs: Libs, w: World, operation: string, selected: set<int>)
    requires SoundLibs(libs) && Sound(w) && RowsClean(libs, w.db.rows)
    ensures var b := BatchList(operation, selected, AllRules(w.db));
      && KnownIds(b, w.db.lastRuleId)
      && PublishedTable(libs, b) == BatchTable(operation, selected, VisibleTable(w.db.table))
  {
    PublishedBatch(libs, w, operation, selected);
  }

  function ImportedRule(r: Rule, id: int, now: int): Rule {
    r.(id := id, createdAt := now, updatedAt := now, source := if r.source == "" then "import" else r.source)
  }

  function ImportedList(incoming: seq<Rule>, first: int, clock: nat -> int): (more: seq<Rule>)
    ensures |more| == |incoming| && forall i | 0 <= i < |more| :: more[i].id == first + i
  {
    if incoming == [] then []
    else
      var last := |incoming| - 1;
      ImportedList(incoming[..last], first, clock) + [ImportedRule(incoming[last], first + last, clock(last))]
  }

  ghost function ImportedTable(libs: Libs, table: map<int, Rule>, more: seq<Rule>): map<int, Rule> {
    if EachAccepted(libs, more) then VisibleTable(table) + TableOf(StoredList(NormalizedList(libs, more))) else map[]
  }

  lemma ImportedTableIs(libs: Libs, w: World, more: seq<Rule>)
    requires SoundLibs(libs) && Sound(w) && RowsClean(libs, w.db.rows)
    requires forall i | 0 <= i < |more| :: more[i].id == w.db.lastRuleId + 1 + i
    ensures EachAccepted(libs, AllRules(w.db) + more) ==>
      PublishedTable(libs, AllRules(w.db) + more) == ImportedTable(libs, w.db.table, more)
  {
    hide Sound;
    hide RowsClean;
    hide AllRules;
    hide NormalizeRule;
    hide VisibleTable;
    hide TableOf;
    hide DistinctIds;
    NewIdIsDistinct(libs, w, more);
    if EachAccepted(libs, AllRules(w.db) + more) {
      PublishedAppend(libs, w, more);
    }
  }

  lemma KnownListTable(rules: seq<Rule>, last: int)
    requires KnownIds(rules, last)
    ensures DistinctIds(rules) && IsTableOf(TableOf(rules), rules)
  {
    TableHolds(rules);
  }

  lemma StoredVersionIs(libs: Libs, w: World, v: nat)
    requires SoundLibs(libs) && Sound(w) && RowsClean(libs, w.db.rows) && HasVersion(w.db, v)
    ensures KnownIds(w.db.rows[v - 1].rules, w.db.lastRuleId)
    ensures PublishedTable(libs, w.db.rows[v - 1].rules) == TableOf(w.db.rows[v - 1].rules)
  {
    hide ActiveVersion;
    hide NormalRule;
    hide Stored;
    hide DistinctKeys;
    hide NormalizeRule;
    var rules := w.db.rows[v - 1].rules;
    assert RowOk(w.db.rows[v - 1], v - 1, w.db.lastRuleId);
    assert CleanList(libs, rules);
    NormalizedSame(libs, rules);
    StoredListFixes(rules);
  }

  function PatchedRule(was: Rule, patch: Rule, now: int): Rule {
    patch.(id := was.id, createdAt := was.createdAt,
           updatedAt := if now <= was.updatedAt then was.updatedAt + 1 else now,
           source := if patch.source == "" then was.source else patch.source)
  }

  /** Not a subscription's rule, and the patch carries its current timestamp. */
  predicate Editable(r: Rule, patch: Rule) {
    !SubscriptionSource(r.source) && patch.updatedAt != 0 && patch.updatedAt == r.updatedAt
  }

  ghost predicate MayUpdate(table: map<int, Rule>, id: int, patch: Rule) {
    id in table && !HiddenSource(table[id].source) && Editable(table[id], patch)
  }

  ghost function UpdatedTable(libs: Libs, table: map<int, Rule>, id: int, patch: Rule, now: int): map<int, Rule> {
    if id in table && NormalizeRule(libs, PatchedRule(table[id], patch, now)).Ok?
    then VisibleTable(table)[id := Stored(NormalizeRule(libs, PatchedRule(table[id], patch, now)).value)]
    else map[]
  }

  lemma OneIdOnce(rules: seq<Rule>, at: nat, i: nat, found: bool, id: int)
    requires DistinctIds(rules) && i < |rules| && rules[i].id == id
    requires found ==> at < i && rules[at].id == id
    ensures !found
  {}

  lemma ReplacedKnown(rules: seq<Rule>, i: nat, r: Rule, last: int)
    requires KnownIds(rules, last) && i < |rules| && r.id == rules[i].id
    ensures KnownIds(rules[i := r], last)
  {}

  function UpdatedList(rules: seq<Rule>, id: int, patch: Rule, now: int): seq<Rule> {
    seq(|rules|, i requires 0 <= i < |rules| =>
      if rules[i].id == id then PatchedRule(rules[i], patch, now) else rules[i])
  }

  lemma UpdatedListIs(rules: seq<Rule>, at: nat, patch: Rule, now: int)
    requires DistinctIds(rules) && at < |rules|
    ensures UpdatedList(rules, rules[at].id, patch, now) == rules[at := PatchedRule(rules[at], patch, now)]
  {
    var list := UpdatedList(rules, rules[at].id, patch, now);
    forall i | 0 <= i < |rules| ensures list[i] == rules[at := PatchedRule(rules[at], patch, now)][i] {
      assert i < at ==> rules[i].id != rules[at].id;
      assert at < i ==> rules[at].id != rules[i].id;
    }
  }

  lemma EditableIsListed(libs: Libs, w: World, id: int, patch: Rule)
    requires Sound(w) && RowsClean(libs, w.db.rows)
    ensures MayUpdate(w.db.table, id, patch) <==>
      exists k :: 0 <= k < |AllRules(w.db)| && AllRules(w.db)[k].id == id && Editable(AllRules(w.db)[k], patch)
  {
    ActiveRulesAreTheTable(libs, w);
    AllRulesAreTheVisibleRows(w.db);
    hide Sound;
    hide RowsClean;
    hide Like;
    hide AllRules;
    hide HiddenSource;
    hide Editable;
    hide IsTableOf;
    hide CleanList;
    hide KnownIds;
    var all := AllRules(w.db);
    if MayUpdate(w.db.table, id, patch) {
      assert w.db.table[id] in all;
      var k :| 0 <= k < |all| && all[k] == w.db.table[id];
      assert all[k].id == id;
    }
    if k :| 0 <= k < |all| && all[k].id == id && Editable(all[k], patch) {
      assert all[k] in all;
    }
  }

  lemma ListIsDistinct(libs: Libs, w: World)
    requires Sound(w) && RowsClean(libs, w.db.rows)
    ensures DistinctIds(AllRules(w.db)) && KnownIds(AllRules(w.db), w.db.lastRuleId)
  {
    ReadBack(libs, w);
    hide Sound;
    hide RowsClean;
    hide AllRules;
    hide CleanList;
    hide IsTableOf;
  }

  /** The edited list may be published, and publishing it edits the table as specified. */
  lemma EditedListIs(libs: Libs, w: World, at: nat, patch: Rule, now: int)
    requires SoundLibs(libs) && Sound(w) && RowsClean(libs, w.db.rows)
    requires at < |AllRules(w.db)| && Editable(AllRules(w.db)[at], patch)
    ensures var was := AllRules(w.db)[at];
      var list := AllRules(w.db)[at := PatchedRule(was, patch, now)];
      && KnownIds(list, w.db.lastRuleId)
      && MayUpdate(w.db.table, was.id, patch)
      && (EachAccepted(libs, list) ==>
            && PublishedTable(libs, list) == UpdatedTable(libs, w.db.table, was.id, patch, now)
            && UpdateDone(libs, w.db.table, PublishedTable(libs, list), was.id, patch, now))
  {
    ActiveRulesAreTheTable(libs, w);
    AllRulesAreTheVisibleRows(w.db);
    ReadBack(libs, w);
    hide Sound;
    hide RowsClean;
    hide AllRules;
    hide NormalizeRule;
    hide VisibleTable;
    hide TableOf;
    hide CleanList;
    hide KnownIds;
    hide HiddenSource;
    hide IsTableOf;
    hide Like;
    hide UpdateDone;
    var was := AllRules(w.db)[at];
    assert was in AllRules(w.db);
    var p := PatchedRule(was, patch, now);
    ReplacedKnown(AllRules(w.db), at, p, w.db.lastRuleId);
    if EachAccepted(libs, AllRules(w.db)[at := p]) {
      PublishedReplace(libs, w, at, p);
      UpdatedTableShows(libs, w.db.table, was.id, patch, now);
    }
  }

  // ---- what the edited tables hold, column by column ------------------------------------------

  /** The row of a new rule: fresh id and time, the caller's source or the default one, and the caller's columns in
      normal form. */
  ghost predicate NewRuleRow(libs: Libs, given: Rule, defaultSource: string, id: int, now: int, row: Rule) {
    && row.id == id && row.createdAt == now && row.updatedAt == now
    && row.source == (if given.source == "" then defaultSource else given.source)
    && row.expectedRegistry == None
    && NormalColumns(libs, given, row)
  }

  ghost predicate RowShows(libs: Libs, table: map<int, Rule>, given: Rule, defaultSource: string, id: int, now: int) {
    id in table && NewRuleRow(libs, given, defaultSource, id, now, table[id])
  }

  /** The row an update leaves: identity and creation time of the old row, a later time, the patch's source unless it
      is empty, and the patch's columns in normal form. */
  ghost predicate UpdatedRow(libs: Libs, was: Rule, patch: Rule, now: int, row: Rule) {
    && row.id == was.id && row.createdAt == was.createdAt
    && was.updatedAt < row.updatedAt && row.updatedAt == (if was.updatedAt < now then now else was.updatedAt + 1)
    && row.source == (if patch.source == "" then was.source else patch.source)
    && row.expectedRegistry == None
    && NormalColumns(libs, patch, row)
  }

  /** What an update leaves: it was made from the current version of a row the list query shows, and changed that row
      alone. */
  ghost predicate UpdateDone(
    libs: Libs, before: map<int, Rule>, after: map<int, Rule>, id: int, patch: Rule, now: int)
  {
    && id in before && !Like("subscription:%", before[id].source) && patch.updatedAt == before[id].updatedAt != 0
    && id in after && UpdatedRow(libs, before[id], patch, now, after[id])
    && KeepsOthers(before, after, {id})
  }

  /** The old rule with the patch applied, before it is normalised. */
  predicate Patched(was: Rule, patch: Rule, now: int, r: Rule) {
    && r.id == was.id && r.createdAt == was.createdAt
    && was.updatedAt < r.updatedAt && r.updatedAt == (if was.updatedAt < now then now else was.updatedAt + 1)
    && r.source == (if patch.source == "" then was.source else patch.source)
    && r.category == patch.category && r.action == patch.action && r.groupId == patch.groupId
    && r.matchType == patch.matchType && r.pattern == patch.pattern && r.priority == patch.priority
    && r.comment == patch.comment && r.enabled == patch.enabled && r.expectedRegistry == patch.expectedRegistry
    && r.ipv4 == patch.ipv4 && r.ipv6 == patch.ipv6 && r.ttl == patch.ttl
  }

  lemma UpdatedTableShows(libs: Libs, table: map<int, Rule>, id: int, patch: Rule, now: int)
    requires MayUpdate(table, id, patch) && table[id].id == id
    requires NormalizeRule(libs, PatchedRule(table[id], patch, now)).Ok?
    ensures UpdateDone(libs, table, UpdatedTable(libs, table, id, patch, now), id, patch, now)
  {
    HiddenSourceIs(table[id].source);
    NormalizeRuleWrites(libs, PatchedRule(table[id], patch, now));
    VisibleKeepsOthers(table);
    hide NormalizeRule;
    hide Normalize;
    hide NormalizeIps;
    hide TrimSpace;
    hide VisibleTable;
    hide Like;
    hide HiddenSource;
    hide SubscriptionSource;
  }

  lemma CreatedTableShows(libs: Libs, table: map<int, Rule>, r: Rule, id: int, now: int)
    requires NormalizeRule(libs, CreatedRule(r, id, now)).Ok?
    ensures var t := CreatedTable(libs, table, CreatedRule(r, id, now));
      RowShows(libs, t, r, "manual", id, now) && KeepsOthers(table, t, {id})
  {
    NormalizeRuleWrites(libs, CreatedRule(r, id, now));
    VisibleKeepsOthers(table);
    hide NormalizeRule;
    hide Normalize;
    hide NormalizeIps;
    hide TrimSpace;
    hide VisibleTable;
    hide Like;
  }

  lemma {:induction false} ImportedListIs(incoming: seq<Rule>, first: int, clock: nat -> int, i: nat)
    requires i < |incoming|
    ensures ImportedList(incoming, first, clock)[i] == ImportedRule(incoming[i], first + i, clock(i))
  {
    hide ImportedRule;
    if i < |incoming| - 1 { ImportedListIs(incoming[..|incoming| - 1], first, clock, i); }
  }

  lemma ImportedRuleIs(libs: Libs, r: Rule, id: int, now: int)
    requires NormalizeRule(libs, ImportedRule(r, id, now)).Ok?
    ensures var row := Stored(NormalizeRule(libs, ImportedRule(r, id, now)).value);
      row.id == id && NewRuleRow(libs, r, "import", id, now, row)
  {
    NormalizeRuleWrites(libs, ImportedRule(r, id, now));
    hide NormalizeRule;
    hide Normalize;
    hide NormalizeIps;
    hide TrimSpace;
  }

  /** Rows under fresh consecutive ids join the visible ones, each under its id. */
  lemma JoinedRowsAre(table: map<int, Rule>, rows: seq<Rule>, first: int)
    requires forall i | 0 <= i < |rows| :: rows[i].id == first + i
    ensures var t := VisibleTable(table) + TableOf(rows);
      && (forall r | r in rows :: r.id in t && t[r.id] == r)
      && forall id | !(first <= id < first + |rows|) :: KeptAt(table, t, id)
  {
    hide VisibleTable;
    hide Like;
    VisibleKeepsOthers(table);
    TableHolds(rows);
    hide TableOf;
    forall id | id in TableOf(rows) ensures first <= id < first + |rows| {
      var k :| 0 <= k < |rows| && rows[k] == TableOf(rows)[id];
    }
    forall id | !(first <= id < first + |rows|) ensures KeptAt(table, VisibleTable(table) + TableOf(rows), id) {
      assert KeptAt(table, VisibleTable(table), id);
    }
  }

  lemma StoredAt(libs: Libs, rules: seq<Rule>, i: nat)
    requires i < |rules| && EachAccepted(libs, rules)
    ensures NormalizeRule(libs, rules[i]).Ok?
    ensures StoredList(NormalizedList(libs, rules))[i] == Stored(NormalizeRule(libs, rules[i]).value)
  {
    hide NormalizeRule;
    hide Stored;
  }

  lemma ImportedRowIs(libs: Libs, incoming: seq<Rule>, first: int, clock: nat -> int, i: nat)
    requires i < |incoming| && EachAccepted(libs, ImportedList(incoming, first, clock))
    ensures var row := StoredList(NormalizedList(libs, ImportedList(incoming, first, clock)))[i];
      row.id == first + i && NewRuleRow(libs, incoming[i], "import", first + i, clock(i), row)
  {
    hide *;
    ImportedListIs(incoming, first, clock, i);
    StoredAt(libs, ImportedList(incoming, first, clock), i);
    ImportedRuleIs(libs, incoming[i], first + i, clock(i));
  }

  /** What an import leaves: a new row for each incoming rule, under consecutive fresh ids. */
  ghost predicate ImportDone(
    libs: Libs, before: map<int, Rule>, after: map<int, Rule>, incoming: seq<Rule>, first: int, clock: nat -> int)
  {
    && (forall i | 0 <= i < |incoming| :: RowShows(libs, after, incoming[i], "import", first + i, clock(i)))
    && forall id | !(first <= id < first + |incoming|) :: KeptAt(before, after, id)
  }

  lemma JoinIsImport(
    libs: Libs, before: map<int, Rule>, after: map<int, Rule>, rows: seq<Rule>, incoming: seq<Rule>, first: int,
    clock: nat -> int)
    requires |rows| == |incoming|
    requires forall i | 0 <= i < |rows| ::
      rows[i].id == first + i && NewRuleRow(libs, incoming[i], "import", first + i, clock(i), rows[i])
    requires forall r | r in rows :: r.id in after && after[r.id] == r
    requires forall id | !(first <= id < first + |rows|) :: KeptAt(before, after, id)
    ensures ImportDone(libs, before, after, incoming, first, clock)
  {
    hide NewRuleRow;
    hide KeptAt;
    forall i | 0 <= i < |incoming| ensures RowShows(libs, after, incoming[i], "import", first + i, clock(i)) {
      var row := rows[i];
      assert row in rows;
    }
  }

  lemma ImportedTableShows(libs: Libs, table: map<int, Rule>, incoming: seq<Rule>, first: int, clock: nat -> int)
    requires EachAccepted(libs, ImportedList(incoming, first, clock))
    ensures ImportDone(
      libs, table, ImportedTable(libs, table, ImportedList(incoming, first, clock)), incoming, first, clock)
  {
    var more := ImportedList(incoming, first, clock);
    var n := NormalizedList(libs, more);
    var rows := StoredList(n);
    ImportedTableJoins(libs, table, more);
    assert |rows| == |n|;
    hide *;
    forall i | 0 <= i < |rows|
      ensures rows[i].id == first + i && NewRuleRow(libs, incoming[i], "import", first + i, clock(i), rows[i])
    {
      ImportedRowIs(libs, incoming, first, clock, i);
    }
    JoinedRowsAre(table, rows, first);
    JoinIsImport(libs, table, ImportedTable(libs, table, more), rows, incoming, first, clock);
  }

  lemma ImportedTableJoins(libs: Libs, table: map<int, Rule>, more: seq<Rule>)
    requires EachAccepted(libs, more)
    ensures ImportedTable(libs, table, more) == VisibleTable(table) + TableOf(StoredList(NormalizedList(libs, more)))
  {}

  lemma ImportIsDone(
    libs: Libs, table: map<int, Rule>, rules: seq<Rule>, incoming: seq<Rule>, first: int, clock: nat -> int)
    ensures var more := ImportedList(incoming, first, clock);
      EachAccepted(libs, rules + more) ==>
        ImportDone(libs, table, ImportedTable(libs, table, more), incoming, first, clock)
  {
    var more := ImportedList(incoming, first, clock);
    if EachAccepted(libs, rules + more) {
      NormalizedAppend(libs, rules, more);
      hide *;
      ImportedTableShows(libs, table, incoming, first, clock);
    }
  }

  /** A batch operation, row by row: the selected rows are switched or gone, and nothing else about them changes. */
  ghost predicate BatchDone(before: map<int, Rule>, after: map<int, Rule>, operation: string, selected: set<int>) {
    && (operation == "enable" ==>
          forall id | id in selected :: id in before && id in after && after[id] == before[id].(enabled := true))
    && (operation == "disable" ==>
          forall id | id in selected :: id in before && id in after && after[id] == before[id].(enabled := false))
    && (operation == "delete" ==> forall id | id in selected :: id !in after)
    && KeepsOthers(before, after, selected)
  }

  lemma BatchTableShows(table: map<int, Rule>, operation: string, selected: set<int>)
    requires selected <= VisibleTable(table).Keys && Supported(operation)
    ensures BatchDone(table, BatchTable(operation, selected, VisibleTable(table)), operation, selected)
  {
    VisibleKeepsOthers(table);
    hide Like;
    hide HiddenSource;
    var visible := VisibleTable(table);
    var after := BatchTable(operation, selected, visible);
    forall id | id !in selected ensures KeptAt(table, after, id) {
      assert KeptAt(table, visible, id);
    }
  }

  lemma DeletedIsGone(table: map<int, Rule>, id: int)
    requires id in VisibleTable(table)
    ensures id in table && id !in BatchTable("delete", {id}, VisibleTable(table))
    ensures KeepsOthers(table, BatchTable("delete", {id}, VisibleTable(table)), {id})
  {
    BatchTableShows(table, "delete", {id});
    hide KeepsOthers;
    hide HiddenSource;
  }

  /** A successful update moves the rule's timestamp forward, so of two updates made from the same version
      of a rule at most one can succeed. */
  lemma StaleUpdateIsRefused(libs: Libs, table: map<int, Rule>, id: int, first: Rule, second: Rule, now: int)
    requires MayUpdate(table, id, first) && NormalizeRule(libs, PatchedRule(table[id], first, now)).Ok?
    requires second.updatedAt == first.updatedAt
    ensures !MayUpdate(UpdatedTable(libs, table, id, first, now), id, second)
  {
    NormalizeRuleWrites(libs, PatchedRule(table[id], first, now));
    hide NormalColumns;
    hide SubscriptionSource;
    hide NormalizeRule;
    hide HiddenSource;
    hide VisibleTable;
  }

  /** Update tests the source of the rule it replaces, and not that of the patch: the updated rule stays visible to the
      next mutation exactly when the patch keeps the source or names one the list query does not hide. */
  lemma UpdatedStaysVisibleExactlyWhen(libs: Libs, table: map<int, Rule>, id: int, patch: Rule, now: int)
    requires MayUpdate(table, id, patch) && NormalizeRule(libs, PatchedRule(table[id], patch, now)).Ok?
    ensures id in VisibleTable(UpdatedTable(libs, table, id, patch, now))
      <==> patch.source == "" || !Like("subscription:%", patch.source)
  {
    NormalizeRuleWrites(libs, PatchedRule(table[id], patch, now));
    HiddenSourceIs(patch.source);
    hide NormalColumns;
    hide SubscriptionSource;
    hide Like;
    hide NormalizeRule;
    hide HiddenSource;
  }

  /** The rule table a successful publish of a list leaves. */
  ghost function PublishedTable(libs: Libs, rules: seq<Rule>): map<int, Rule> {
    if EachAccepted(libs, rules) then TableOf(StoredList(NormalizedList(libs, rules))) else map[]
  }

  ghost function CreatedTable(libs: Libs, table: map<int, Rule>, added: Rule): map<int, Rule> {
    if NormalizeRule(libs, added).Ok?
    then VisibleTable(table)[added.id := Stored(NormalizeRule(libs, added).value)]
    else map[]
  }

  lemma NewIdIsDistinct(libs: Libs, w: World, more: seq<Rule>)
    requires Sound(w) && RowsClean(libs, w.db.rows)
    requires forall i | 0 <= i < |more| :: more[i].id == w.db.lastRuleId + 1 + i
    ensures DistinctIds(AllRules(w.db) + more)
  {
    ReadBack(libs, w);
    hide Sound;
    hide RowsClean;
    hide AllRules;
    hide CleanList;
    hide IsTableOf;
    NewIdsDistinct(AllRules(w.db), more, w.db.lastRuleId);
  }

  lemma NewIdsDistinct(rules: seq<Rule>, more: seq<Rule>, was: int)
    requires KnownIds(rules, was)
    requires forall i | 0 <= i < |more| :: more[i].id == was + 1 + i
    ensures DistinctIds(rules + more)
  {
    var all := rules + more;
    assert forall i | 0 <= i < |rules| :: all[i] == rules[i];
    assert forall i | |rules| <= i < |all| :: all[i] == more[i - |rules|];
  }

  lemma CreatedTableIs(libs: Libs, w: World, added: Rule)
    requires SoundLibs(libs) && Sound(w) && RowsClean(libs, w.db.rows)
    requires added.id == w.db.lastRuleId + 1 && EachAccepted(libs, AllRules(w.db) + [added])
    ensures NormalizeRule(libs, added).Ok?
    ensures PublishedTable(libs, AllRules(w.db) + [added]) == CreatedTable(libs, w.db.table, added)
  {
    hide Sound;
    hide RowsClean;
    hide AllRules;
    hide NormalizeRule;
    hide VisibleTable;
    hide TableOf;
    hide DistinctIds;
    NewIdIsDistinct(libs, w, [added]);
    PublishedAppend(libs, w, [added]);
    assert [added][0] == added;
    SingleTable(libs, added);
    AcceptedRuleKinds(libs, added);
    AddOne(VisibleTable(w.db.table), Stored(NormalizeRule(libs, added).value));
  }

  function CreatedRule(r: Rule, id: int, now: int): Rule {
    r.(id := id, createdAt := now, updatedAt := now, source := if r.source == "" then "manual" else r.source)
  }

  lemma CreatedRuleHasId(r: Rule, id: int, now: int)
    ensures CreatedRule(r, id, now).id == id
  {}

  lemma ExpectedStep(rules: seq<Rule>, i: nat, expected: Option<nat>)
    requires i < |rules| && OneExpectedVersion(rules[..i], expected) && rules[i].category == "route"
    requires rules[i].expectedRegistry.Some? && (expected.Some? ==> expected == rules[i].expectedRegistry)
    ensures OneExpectedVersion(rules[..i + 1], rules[i].expectedRegistry)
  {
    var front, all := rules[..i], rules[..i + 1];
    assert all[i] == rules[i] && forall k | 0 <= k < i :: all[k] == front[k];
  }

  lemma OneVersionDecides(rules: seq<Rule>, expected: Option<nat>, registry: Option<RegistryView>)
    requires OneExpectedVersion(rules, expected)
    ensures RouteTargetsError(rules, expected, registry) == NoError <==> RouteWriteOk(rules, registry)
  {
    RouteTargetsExactly(rules, expected, registry);
    hide RouteTargetsError;
    hide TrimSpace;
    if k :| 0 <= k < |rules| && rules[k].category == "route" {
      assert rules[k].expectedRegistry == expected;
    }
  }

  lemma NoOneVersion(rules: seq<Rule>, i: nat, expected: Option<nat>, registry: Option<RegistryView>)
    requires i < |rules| && rules[i].category == "route" && OneExpectedVersion(rules[..i], expected)
    requires rules[i].expectedRegistry.None? || (expected.Some? && expected != rules[i].expectedRegistry)
    ensures !RouteWriteOk(rules, registry)
  {
    var front := rules[..i];
    if rules[i].expectedRegistry.Some? {
      var k :| 0 <= k < |front| && front[k].category == "route";
      assert front[k].expectedRegistry == expected && rules[k] == front[k];
    }
  }

  lemma ExpectedSkip(rules: seq<Rule>, i: nat, expected: Option<nat>)
    requires i < |rules| && OneExpectedVersion(rules[..i], expected) && rules[i].category != "route"
    ensures OneExpectedVersion(rules[..i + 1], expected)
  {
    var front, all := rules[..i], rules[..i + 1];
    assert all[i] == rules[i] && forall k | 0 <= k < i :: all[k] == front[k];
  }

  lemma NewIdsKnown(rules: seq<Rule>, more: seq<Rule>, was: int, last: int)
    requires KnownIds(rules, was) && 0 <= was && last == was + |more|
    requires forall i | 0 <= i < |more| :: more[i].id == was + 1 + i
    ensures KnownIds(rules + more, last)
  {
    var all := rules + more;
    assert forall i | 0 <= i < |rules| :: all[i] == rules[i];
    assert forall i | |rules| <= i < |all| :: all[i] == more[i - |rules|];
  }

  /** What every mutation learns from its publish. */
  lemma PublishedOutcome(libs: Libs, before: Db, after: World, now: int, rules: seq<Rule>, from: nat, r: Published)
    requires r.version == 0 ==> r.error != NoError && after.db == before
    requires r.version != 0 ==>
      && r.version == |before.rows| + 1
      && Accepted(libs, rules) && SubscriptionSets(before.sources).Ok?
      && Settled(CandidateDb(libs, before, now, rules, from), after, r.version, r.error)
    ensures r.error == NoError ==> EachAccepted(libs, rules)
    ensures after.db.lastRuleId == before.lastRuleId
    ensures Mutated(before, after.db, r, PublishedTable(libs, rules))
  {
    hide NormalizeRule;
    if r.version != 0 {
      SettledKeepsTables(libs, before, after, now, rules, from, r);
    }
  }

  lemma SingleTable(libs: Libs, r: Rule)
    requires NormalizeRule(libs, r).Ok?
    ensures EachAccepted(libs, [r])
    ensures TableOf(StoredList(NormalizedList(libs, [r]))) == map[r.id := Stored(NormalizeRule(libs, r).value)]
  {
    hide NormalizeRule;
    AcceptedRuleKinds(libs, r);
    var list := StoredList(NormalizedList(libs, [r]));
    assert list == [Stored(NormalizeRule(libs, r).value)];
    assert TableOf(list[..0]) == map[];
  }

  lemma AddOne(table: map<int, Rule>, r: Rule)
    ensures table + map[r.id := r] == table[r.id := r]
  {}

  /** The runtime is ahead of the active version, holding a candidate written off as failed. */
  ghost predicate AheadOfFailed(w: World) {
    var r := VersionOf(w.runtime);
    HasVersion(w.db, r) && ActiveVersion(w.db.rows) < r && w.db.rows[r - 1].status == Failed
  }

  lemma StoredRowsInsert(libs: Libs, w: World, v: nat)
    requires SoundLibs(libs) && Sound(w) && RowsClean(libs, w.db.rows) && HasVersion(w.db, v)
    ensures InsertAll(libs, ListOf(w.db, v)).Ok? && StoredList(ListOf(w.db, v)) == ListOf(w.db, v)
  {
    hide ActiveVersion;
    hide NormalRule;
    hide Stored;
    hide DistinctKeys;
    var rules := ListOf(w.db, v);
    assert RowOk(w.db.rows[v - 1], v - 1, w.db.lastRuleId);
    assert CleanList(libs, w.db.rows[v - 1].rules);
    assert StoredList(rules) == rules;
    NormalListIsStorable(libs, rules);
    StorableListInserts(libs, rules);
  }

  /** In every reachable state the snapshot of the active version carries exactly the enabled rows of the rule table. */
  lemma ActiveCarriesTable(w: World, v: nat)
    requires Sound(w) && HasVersion(w.db, v) && ActiveVersion(w.db.rows) == v
    ensures w.db.rows[v - 1].snapshot.rules == WireOfTable(w.db.table)
    ensures CarriesTable(w.db.rows[v - 1].snapshot.rules, w.db.table)
    ensures w.db.rows[v - 1].snapshot.version == v
  {
    hide RuleModel.Wire;
    hide TableOf;
    hide WireOfTable;
    hide CarriesTable;
    hide ActiveVersion;
    hide OneActive;
    hide MessagesOk;
    hide ActivatedWereAdopted;
    hide SourcesOk;
    var row := w.db.rows[v - 1];
    assert RowOk(row, v - 1, w.db.lastRuleId);
    assert w.db.table == TableOf(row.rules) && row.snapshot.rules == RuleModel.Wire(row.rules);
    assert DistinctIds(row.rules);
    hide *;
    WireOfTableIsWireOfList(row.rules);
    WireIsSortedEnabledRules(row.rules);
    TableHolds(row.rules);
    ListCarriesTable(row.snapshot.rules, row.rules, w.db.table);
  }

  /** The active version's stored snapshot is what the tables produce, once the sets agree. */
  lemma ObservedContentConverges(w: World, v: nat)
    requires Sound(w) && HasVersion(w.db, v) && ActiveVersion(w.db.rows) == v
    requires SubscriptionSets(w.db.sources) == Ok(w.db.rows[v - 1].snapshot.sets)
    ensures Converged(w.db, SnapshotOf(w.db, v))
  {
    hide ActiveVersion;
    hide WireOfTable;
    hide CarriesTable;
    hide ShowSources;
    hide SubscriptionSets;
    ActiveCarriesTable(w, v);
    SetsShowSources(w.db.sources);
    hide RowsOk;
    hide TableMatchesActive;
    hide MessagesOk;
    hide ActivatedWereAdopted;
  }

  /** Publishing writes no table but rule_versions and the rule table, and a successful one leaves the
      published list, with the sets of the current sources. */
  lemma SettledKeepsTables(libs: Libs, before: Db, after: World, now: int, rules: seq<Rule>, from: nat, r: Published)
    requires EachAccepted(libs, rules) && SubscriptionSets(before.sources).Ok?
    requires r.version == |before.rows| + 1
    requires Settled(CandidateDb(libs, before, now, rules, from), after, r.version, r.error)
    ensures after.db.sources == before.sources && after.db.lastRuleId == before.lastRuleId
    ensures |after.db.rows| == |before.rows| + 1
    ensures r.error == NoError ==>
      && after.db.rows[r.version - 1].snapshot.sets == SubscriptionSets(before.sources).value
      && after.db.rows[r.version - 1].rules == StoredList(NormalizedList(libs, rules))
      && after.db.table == TableOf(StoredList(NormalizedList(libs, rules)))
    ensures r.error != NoError ==> after.db.table == before.table
    ensures ActiveVersion(after.db.rows) == if r.error == NoError then r.version else ActiveVersion(before.rows)
  {
    var n, sets := NormalizedList(libs, rules), SubscriptionSets(before.sources).value;
    var mid := CandidateDb(libs, before, now, rules, from);
    hide ActiveVersion;
    hide TableOf;
    hide NormalizedList;
    hide BuildSnapshot;
    hide StoredList;
    hide SubscriptionSets;
    hide EachAccepted;
    InsertKeepsActiveVersion(before, now, n, sets, from);
    InsertedCandidate(before, now, n, sets, from);
    hide InsertRow;
    hide NewRow;
    if r.error == NoError {
      ActivatedKeeps(mid.rows, r.version);
    } else {
      var status := if r.error.code == "PUBLISH_UNKNOWN" then Unknown else Failed;
      FailedRowLeavesActive(mid, r.version, status, r.error.code);
    }
  }

  lemma InsertedCandidate(db: Db, now: int, rules: seq<Rule>, sets: seq<SubscriptionSet>, from: nat)
    ensures var db' := InsertRow(db, now, rules, sets, from);
      && |db'.rows| == |db.rows| + 1
      && db'.rows[|db.rows|].snapshot.sets == sets && db'.rows[|db.rows|].rules == StoredList(rules)
      && db'.table == db.table && db'.sources == db.sources && db'.lastRuleId == db.lastRuleId
  {
    SnapshotKeepsSets(|db.rows| + 1, ActiveVersion(db.rows), now, rules, sets);
    hide ActiveVersion;
    hide BuildSnapshot;
    hide StoredList;
  }

  lemma CandidateIsRecorded(libs: Libs, before: Db, after: World, now: int, rules: seq<Rule>, p: Published)
    requires Sound(after)
    requires p.version == 0 ==> p.error != NoError && after.db == before
    requires p.version != 0 ==>
      && p.version == |before.rows| + 1
      && EachAccepted(libs, rules) && SubscriptionSets(before.sources).Ok?
      && Settled(CandidateDb(libs, before, now, rules, 0), after, p.version, p.error)
    ensures after.db.sources == before.sources && after.db.lastRuleId == before.lastRuleId
    ensures p.error == NoError ==> Converged(after.db, SnapshotOf(after.db, p.version))
    ensures Recorded(before, after.db, p)
  {
    hide EachAccepted;
    hide StoredList;
    hide NormalizedList;
    hide SubscriptionSets;
    hide Sound;
    if p.version != 0 {
      SettledKeepsTables(libs, before, after, now, rules, 0, p);
      var mid := CandidateDb(libs, before, now, rules, 0);
      CandidateRow(libs, before, now, rules);
      hide ActiveVersion;
      hide InsertRow;
      hide Converged;
      ActivatedKeeps(mid.rows, p.version);
      if p.error == NoError {
        ObservedContentConverges(after, p.version);
      }
    }
  }

  lemma RepublishedBy(libs: Libs, before: World, start: World, after: World, env: PublishEnv, p: Published)
    requires start.db == before.db && Recorded(start.db, after.db, p)
    requires Answers(libs, start, AllRules(start.db), env, p)
    ensures Republished(libs, before, after, env)
  {
    hide Preparable;
    hide AllRules;
    hide ActiveVersion;
  }

  lemma HeldActiveVersion(w: World)
    requires Sound(w)
    ensures HoldsActive(w) ==>
      && 0 < ActiveVersion(w.db.rows) == VersionOf(w.runtime)
      && w.runtime == SnapshotOf(w.db, ActiveVersion(w.db.rows))
      && SubscriptionSets(w.db.sources) == Ok(w.db.rows[ActiveVersion(w.db.rows) - 1].snapshot.sets)
  {
    hide ActiveVersion;
    hide SubscriptionSets;
    hide Sound;
    if HoldsActive(w) { SnapshotVersionIs(w, ActiveVersion(w.db.rows)); }
  }

  /** The runtime cannot hold an open candidate and the active version at once. */
  lemma OpenIsNotActive(w: World)
    requires Sound(w)
    ensures HoldsOpen(w) ==> !HoldsActive(w) && !AheadOfFailed(w) && VersionOf(w.runtime) != ActiveVersion(w.db.rows)
  {
    hide Sound;
    hide HoldsActive;
    hide ActiveVersion;
    hide SnapshotOf;
    HeldActiveVersion(w);
    OpenIsNotActiveVersion(w.db, VersionOf(w.runtime));
  }

  /** What the status shows decides the branch: an open candidate that is held can be finalised. */
  lemma HeldCanFinish(w: World)
    requires Sound(w)
    ensures var v := VersionOf(w.runtime); HoldsOpen(w) <==> Open(w.db, v) && w.runtime == SnapshotOf(w.db, v)
    ensures HoldsOpen(w) ==> Enabled(w, Finalize(VersionOf(w.runtime)))
    ensures AheadOfFailed(w) ==> ActiveVersion(w.db.rows) < VersionOf(w.runtime)
  {
    hide ActiveVersion;
    if HoldsOpen(w) { HeldIsAdopted(w, VersionOf(w.runtime)); }
  }

  lemma OpenIsNotActiveVersion(db: Db, v: nat)
    ensures Open(db, v) ==> v != ActiveVersion(db.rows)
  {
    hide ActiveVersion;
  }

  lemma CandidateRow(libs: Libs, before: Db, now: int, rules: seq<Rule>)
    requires EachAccepted(libs, rules) && SubscriptionSets(before.sources).Ok?
    ensures var mid := CandidateDb(libs, before, now, rules, 0);
      |mid.rows| == |before.rows| + 1 && mid.rows[|before.rows|].previous == ActiveVersion(before.rows)
  {}

  lemma SnapshotKeepsSets(version: nat, current: nat, now: int, rules: seq<Rule>, sets: seq<SubscriptionSet>)
    ensures BuildSnapshot(version, current, now, rules, sets).sets == sets
  {}

  lemma InsertKeepsActiveVersion(db: Db, now: int, rules: seq<Rule>, sets: seq<SubscriptionSet>, from: nat)
    ensures ActiveVersion(InsertRow(db, now, rules, sets, from).rows) == ActiveVersion(db.rows)
    ensures InsertRow(db, now, rules, sets, from).rows[|db.rows|].status == Pending
  {
    var row := NewRow(db, now, rules, sets, from);
    assert (db.rows + [row])[..|db.rows|] == db.rows;
  }

  lemma FailedRowLeavesActive(db: Db, v: nat, status: Status, code: string)
    requires v == |db.rows| && v > 0 && db.rows[v - 1].status == Pending && status != Active
    ensures ActiveVersion(SetStatus(db, v, status, code).rows) == ActiveVersion(db.rows)
  {
    var rows := SetStatus(db, v, status, code).rows;
    assert rows[..v - 1] == db.rows[..v - 1];
  }

  lemma PreparedIsAccepted(libs: Libs, sources: Sources, rules: seq<Rule>, registry: Option<RegistryView>)
    requires Preparable(libs, sources, rules, registry)
    ensures Accepted(libs, rules) && SubscriptionSets(sources).Ok?
    ensures RouteTargetsError(NormalizedList(libs, rules), None, registry) == NoError
  {}

  lemma ReadyToInsert(libs: Libs, rules: seq<Rule>, last: int)
    requires SoundLibs(libs) && KnownIds(rules, last) && Accepted(libs, rules)
    ensures var n := NormalizedList(libs, rules);
      KnownIds(n, last) && NormalList(libs, n) && InsertAll(libs, n).Ok?
  {
    hide NormalizeRule;
    NormalizedKeepsIds(libs, rules, last);
    ValidatedListIsNormal(libs, rules);
    NormalListIsStorable(libs, NormalizedList(libs, rules));
    StorableListInserts(libs, NormalizedList(libs, rules));
  }

  lemma NormalizedKeepsIds(libs: Libs, rules: seq<Rule>, last: int)
    requires KnownIds(rules, last) && EachAccepted(libs, rules)
    ensures KnownIds(NormalizedList(libs, rules), last)
  {
    hide NormalizeRule;
    var n := NormalizedList(libs, rules);
    forall i | 0 <= i < |n| ensures n[i].id == rules[i].id {
      AcceptedRuleKinds(libs, rules[i]);
    }
  }

  lemma NextIsNeverSent(w: World)
    requires Sound(w)
    ensures NeverSent(w.sent, |w.db.rows| + 1)
  {}

  lemma InsertedRow(db: Db, now: int, rules: seq<Rule>, sets: seq<SubscriptionSet>, from: nat)
    ensures var db' := InsertRow(db, now, rules, sets, from);
      var v := |db.rows| + 1;
      && HasVersion(db', v) && db'.rows[v - 1].status == Pending && ListOf(db', v) == StoredList(rules)
      && db'.rows[v - 1].snapshot.expected == ActiveVersion(db.rows)
  {}

  lemma UnknownRow(db: Db, v: nat)
    requires HasVersion(db, v)
    ensures var db' := SetStatus(db, v, Unknown, "PUBLISH_UNKNOWN");
      && HasVersion(db', v) && Open(db', v)
      && ListOf(db', v) == ListOf(db, v) && SnapshotOf(db', v) == SnapshotOf(db, v)
      && forall code :: SetStatus(db', v, Failed, code) == SetStatus(db, v, Failed, code)
  {
    var db' := SetStatus(db, v, Unknown, "PUBLISH_UNKNOWN");
    forall code ensures SetStatus(db', v, Failed, code) == SetStatus(db, v, Failed, code) {
      assert SetStatus(db', v, Failed, code).rows == SetStatus(db, v, Failed, code).rows;
    }
  }

  lemma ActivateForgetsStatus(db: Db, v: nat, status: Status, code: string)
    requires HasVersion(db, v) && status != Active
    ensures Activate(SetStatus(db, v, status, code), v) == Activate(db, v)
  {
    var a, b := ActivatedRows(SetStatus(db, v, status, code).rows, v), ActivatedRows(db.rows, v);
    forall i | 0 <= i < |a| ensures a[i] == b[i] {}
    assert a == b;
  }

  lemma ActivateKeepsRows(db: Db, v: nat)
    requires HasVersion(db, v)
    ensures |Activate(db, v).rows| == |db.rows|
    ensures SnapshotOf(Activate(db, v), v) == SnapshotOf(db, v)
    ensures Activate(db, v).rows[v - 1].snapshot == db.rows[v - 1].snapshot
    ensures Activate(db, v).sources == db.sources && Activate(db, v).lastRuleId == db.lastRuleId
  {
    hide TableOf;
    ActivatedKeeps(db.rows, v);
  }

  lemma StillEnabled(before: World, w: World, v: nat)
    requires Enabled(before, Finalize(v)) && SameController(before, w)
    ensures Enabled(w, Finalize(v)) && HasVersion(w.db, v)
  {}

  lemma SettledKeepsSnapshot(before: Db, after: World, v: nat, error: Error)
    requires Settled(before, after, v, error)
    ensures SnapshotOf(after.db, v) == SnapshotOf(before, v) && PreviousOf(after.db, v) == PreviousOf(before, v)
  {
    hide ActiveVersion;
    hide TableOf;
    ActivatedKeeps(before.rows, v);
  }

  /** A candidate the runtime is seen holding has been adopted. */
  lemma HeldIsAdopted(w: World, v: nat)
    requires Sound(w) && HasVersion(w.db, v)
    ensures w.runtime == SnapshotOf(w.db, v) ==> v in w.adopted
  {
    hide ActiveVersion;
    SnapshotVersionIs(w, v);
  }

  lemma SnapshotVersionIs(w: World, v: nat)
    requires Sound(w) && HasVersion(w.db, v)
    ensures w.db.rows[v - 1].snapshot.version == v
  {
    assert RowOk(w.db.rows[v - 1], v - 1, w.db.lastRuleId);
  }

  /** As long as the runtime has not fallen back, only the candidate it holds can be finalised. */
  lemma RuntimeHoldsFinalized(w: World, v: nat)
    requires InStep(w) && Enabled(w, Finalize(v))
    ensures w.runtime == SnapshotOf(w.db, v)
  {
    hide ActiveVersion;
    hide RowsOk;
    FinalizeIsNext(w, v);
  }
}
