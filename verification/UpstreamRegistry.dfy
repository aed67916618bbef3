/** The versioned registry of upstream groups, and the edits its writers make by compare-and-swap.

    Hypothesis on the runtime (mosdns): it adopts a registry exactly when the expected version it carries
    equals the version it holds, and answers an adopted call with the adopted registry. */
module UpstreamRegistry {
  import opened Text
  import opened RuleModel
  import opened Validation

  /** rest: the name, upstreams, limits and cache of a group, which no check here looks at. */
  datatype Group = Group(id: string, enabled: bool, rest: string)

  datatype Registry = Registry(
    schema: nat, version: nat, expected: nat, defaultId: string, cache: string, protection: string, groups: seq<Group>)

  predicate UniqueIds(groups: seq<Group>) {
    forall i, j | 0 <= i < j < |groups| :: groups[i].id != groups[j].id
  }

  predicate NamedIds(groups: seq<Group>) {
    forall i | 0 <= i < |groups| :: groups[i].id != ""
  }

  predicate HasEnabled(groups: seq<Group>, id: string) {
    exists i :: 0 <= i < |groups| && groups[i].id == id && groups[i].enabled
  }

  predicate WellFormed(r: Registry) {
    && (r.schema == 1 || r.schema == 2) && r.version > 0 && r.expected == 0
    && r.defaultId != "" && NamedIds(r.groups) && UniqueIds(r.groups) && HasEnabled(r.groups, r.defaultId)
  }

  // ---- the two checks on a registry received --------------------------------------------------

  /** validRegistrySnapshot accepts exactly the well-formed registries of the expected version. */
  method ValidRegistrySnapshot(r: Registry, expectedVersion: nat) returns (ok: bool)
    ensures ok <==> WellFormed(r) && r.version == expectedVersion
  {
    if (r.schema != 1 && r.schema != 2) || r.version != expectedVersion || r.version == 0 || r.expected != 0
      || r.defaultId == "" || |r.groups| == 0 {
      return false;
    }
    var seen: set<string> := {};
    var defaultEnabled := false;
    for i := 0 to |r.groups|
      invariant NamedIds(r.groups[..i]) && UniqueIds(r.groups[..i])
      invariant forall id :: id in seen <==> exists k :: 0 <= k < i && r.groups[k].id == id
      invariant defaultEnabled <==> HasEnabled(r.groups[..i], r.defaultId)
    {
      var group := r.groups[i];
      OneMoreGroup(r.groups, i, r.defaultId);
      if group.id == "" {
        return false;
      }
      if group.id in seen {
        return false;
      }
      seen := seen + {group.id};
      if group.id == r.defaultId {
        defaultEnabled := group.enabled;
      }
    }
    assert r.groups[..|r.groups|] == r.groups;
    ok := defaultEnabled;
  }

  lemma OneMoreGroup(groups: seq<Group>, i: nat, id: string)
    requires i < |groups|
    ensures NamedIds(groups[..i + 1]) <==> NamedIds(groups[..i]) && groups[i].id != ""
    ensures UniqueIds(groups[..i + 1]) <==>
      UniqueIds(groups[..i]) && forall k | 0 <= k < i :: groups[k].id != groups[i].id
    ensures HasEnabled(groups[..i + 1], id) <==>
      HasEnabled(groups[..i], id) || (groups[i].id == id && groups[i].enabled)
  {
    var a, b := groups[..i], groups[..i + 1];
    assert b == a + [groups[i]];
    assert forall k | 0 <= k < i :: b[k] == a[k];
    assert UniqueIds(b) ==> forall k | 0 <= k < i :: b[k].id != b[i].id;
    if k :| 0 <= k < |a| && a[k].id == id && a[k].enabled { assert b[k].id == id; }
    if groups[i].id == id && groups[i].enabled { assert b[i].id == id; }
  }

  /** validAppliedRegistry stops at the default group, so it looks at no group behind it. */
  predicate AppliedAt(r: Registry, version: nat, d: int) {
    && (r.schema == 1 || r.schema == 2) && r.version == version && r.expected == 0 && r.defaultId != ""
    && 0 <= d < |r.groups| && r.groups[d].id == r.defaultId && r.groups[d].enabled
    && NamedIds(r.groups[..d + 1]) && UniqueIds(r.groups[..d + 1])
  }

  method ValidAppliedRegistry(r: Registry, version: nat) returns (ok: bool)
    ensures ok <==> exists d :: AppliedAt(r, version, d)
  {
    if (r.schema != 1 && r.schema != 2) || r.version != version || r.expected != 0 || r.defaultId == ""
      || |r.groups| == 0 {
      return false;
    }
    var seen: set<string> := {};
    for i := 0 to |r.groups|
      invariant NamedIds(r.groups[..i]) && UniqueIds(r.groups[..i])
      invariant forall id :: id in seen <==> exists k :: 0 <= k < i && r.groups[k].id == id
      invariant r.defaultId !in seen
    {
      var group := r.groups[i];
      OneMoreGroup(r.groups, i, r.defaultId);
      if group.id == "" {
        NotAppliedWithout(r, version, i, false);
        return false;
      }
      if group.id in seen {
        NotAppliedWithout(r, version, i, false);
        return false;
      }
      seen := seen + {group.id};
      if group.id == r.defaultId {
        NotAppliedWithout(r, version, i, true);
        assert group.enabled ==> AppliedAt(r, version, i);
        return group.enabled;
      }
    }
    ok := false;
  }

  /** No earlier group is the default; so only group i can be, and only when the groups up to it are sound. */
  lemma NotAppliedWithout(r: Registry, version: nat, i: nat, sound: bool)
    requires i < |r.groups| && forall k | 0 <= k < i :: r.groups[k].id != r.defaultId
    requires sound <==> NamedIds(r.groups[..i + 1]) && UniqueIds(r.groups[..i + 1])
    requires sound ==> r.groups[i].id == r.defaultId
    ensures forall d | AppliedAt(r, version, d) :: sound && d == i
  {
    forall d | AppliedAt(r, version, d) ensures sound && d == i {
      PrefixIsSound(r.groups, i, d);
    }
  }

  lemma PrefixIsSound(groups: seq<Group>, i: nat, d: nat)
    requires i <= d < |groups| && NamedIds(groups[..d + 1]) && UniqueIds(groups[..d + 1])
    ensures NamedIds(groups[..i + 1]) && UniqueIds(groups[..i + 1])
    ensures groups[i].id == groups[d].id ==> i == d
  {
    var a, b := groups[..i + 1], groups[..d + 1];
    assert forall k | 0 <= k < |a| :: a[k] == b[k];
    assert i < d ==> b[i].id != b[d].id;
  }

  /** The check on an unknown outcome is weaker than the check on every status read: it accepts each
      well-formed registry of the version, and also one with a repeated id behind the default group. Since the
      registry it looks at was read through the first check, both together accept exactly the well-formed ones. */
  lemma AppliedCheckIsWeaker(r: Registry)
    ensures WellFormed(r) ==> exists d :: AppliedAt(r, r.version, d)
    ensures var groups := [Group("a", true, ""), Group("b", true, ""), Group("b", true, "")];
      var twice := Registry(1, 1, 0, "a", "", "", groups);
      AppliedAt(twice, 1, 0) && !WellFormed(twice)
  {
    if WellFormed(r) {
      var d :| 0 <= d < |r.groups| && r.groups[d].id == r.defaultId && r.groups[d].enabled;
      assert AppliedAt(r, r.version, d);
    }
    var twice := [Group("a", true, ""), Group("b", true, ""), Group("b", true, "")];
    assert twice[1].id == twice[2].id;
    assert twice[..1] == [Group("a", true, "")];
  }

  // ---- the edits -------------------------------------------------------------------------------

  datatype Edit =
    | AddGroup(group: Group)
    | PutGroup(group: Group)
    | DropGroup(id: string)
    | PutSettings(defaultId: string, cache: string, protection: string)
    | SyncSettings(persistedDefault: Option<string>, cache: string)

  /** `^[a-z0-9][a-z0-9_-]{0,63}$`. */
  predicate GroupIdOk(id: string) {
    && 1 <= |id| <= 64 && IdStart(id[0]) && forall i | 0 <= i < |id| :: IdStart(id[i]) || id[i] == '_' || id[i] == '-'
  }

  predicate IdStart(c: char) { 'a' <= c <= 'z' || '0' <= c <= '9' }

  /** One to 64 lower-case letters, digits, _ and -, the first a letter or a digit. */
  lemma GroupIdExactly(id: string)
    ensures GroupIdOk(id) <==>
      && 1 <= |id| <= 64 && ('a' <= id[0] <= 'z' || '0' <= id[0] <= '9')
      && forall c | c in id :: 'a' <= c <= 'z' || '0' <= c <= '9' || c == '_' || c == '-'
  {
    if 1 <= |id| <= 64 && forall c | c in id :: 'a' <= c <= 'z' || '0' <= c <= '9' || c == '_' || c == '-' {
      forall i | 0 <= i < |id| ensures IdStart(id[i]) || id[i] == '_' || id[i] == '-' {
        assert id[i] in id;
      }
    }
  }

  /** A group id is its own trimmed lower-case form, so what a rule or a binding names after trimming can be it. */
  lemma GroupIdsAreTrimmed(id: string)
    requires GroupIdOk(id)
    ensures TrimSpace(id) == id && ToLower(id) == id && AllAscii(id) && 1 <= ByteLen(id) <= 64
  {
    forall i | 0 <= i < |id| ensures ToLower(id)[i] == id[i] && id[i] < '\U{0080}' && !IsSpace(id[i]) {}
    ByteLenIs(id);
    assert Trimmed(id);
  }

  function GroupIndex(groups: seq<Group>, id: string): (index: int)
    ensures -1 <= index < |groups|
    ensures index >= 0 ==> groups[index].id == id
    ensures index < 0 <==> forall k | 0 <= k < |groups| :: groups[k].id != id
  {
    if groups == [] then -1
    else if groups[0].id == id then 0
    else
      var rest := GroupIndex(groups[1..], id);
      assert forall k | 1 <= k < |groups| :: groups[k] == groups[1..][k - 1];
      if rest < 0 then -1 else rest + 1
  }

  /** What each writer sends, or refuses to send, for the registry it has read. The caller's expected version
      and the reference check come on top. */
  function Desired(r: Registry, e: Edit): Result<Registry> {
    match e
    case AddGroup(g) =>
      if |r.groups| >= 32 then Err("upstream group limit exceeded")
      else if !GroupIdOk(g.id) then Err("invalid upstream group id")
      else if GroupIndex(r.groups, g.id) >= 0 then Err("upstream group id already exists")
      else Ok(r.(groups := r.groups + [g]))
    case PutGroup(g) =>
      var index := GroupIndex(r.groups, g.id);
      if index < 0 then Err("upstream group not found")
      else if g.id == r.defaultId && !g.enabled then Err("protected upstream group")
      else Ok(r.(groups := r.groups[index := g]))
    case DropGroup(id) =>
      var index := GroupIndex(r.groups, id);
      if id == r.defaultId then Err("protected upstream group")
      else if index < 0 then Err("upstream group not found")
      else Ok(r.(groups := r.groups[..index] + r.groups[index + 1..]))
    case PutSettings(id, cache, protection) =>
      if !HasEnabled(r.groups, id) then Err("default upstream group must exist and be enabled")
      else Ok(r.(defaultId := id, cache := cache, protection := protection))
    case SyncSettings(persisted, cache) =>
      var id := if persisted.Some? then persisted.value else r.defaultId;
      if !HasEnabled(r.groups, id) then Err("default upstream group must exist and be enabled")
      else Ok(r.(defaultId := id, cache := cache))
  }

  predicate Named(groups: seq<Group>, id: string) { exists k :: 0 <= k < |groups| && groups[k].id == id }

  /** When each edit is allowed: room and a fresh, well-formed id for a new group; a group that is there, and the
      default one neither disabled nor removed; a default group that is there and enabled. */
  lemma DesiredExactly(r: Registry, e: Edit)
    ensures e.AddGroup? ==>
      (Desired(r, e).Ok? <==> |r.groups| < 32 && GroupIdOk(e.group.id) && !Named(r.groups, e.group.id))
    ensures e.PutGroup? ==>
      (Desired(r, e).Ok? <==> Named(r.groups, e.group.id) && (e.group.id == r.defaultId ==> e.group.enabled))
    ensures e.DropGroup? ==> (Desired(r, e).Ok? <==> Named(r.groups, e.id) && e.id != r.defaultId)
    ensures e.PutSettings? ==> (Desired(r, e).Ok? <==> HasEnabled(r.groups, e.defaultId))
    ensures e.SyncSettings? ==>
      (Desired(r, e).Ok? <==>
        HasEnabled(r.groups, if e.persistedDefault.Some? then e.persistedDefault.value else r.defaultId))
  {
    hide GroupIdOk;
    hide HasEnabled;
  }

  /** Everything but the groups is as before. */
  predicate SameSettings(a: Registry, b: Registry) {
    a.schema == b.schema && a.defaultId == b.defaultId && a.cache == b.cache && a.protection == b.protection
  }

  /** The group with the id of g is g now, and the others are what they were. */
  predicate GroupPut(was: seq<Group>, now: seq<Group>, g: Group) {
    && |now| == |was| && Named(was, g.id)
    && forall k | 0 <= k < |was| :: now[k] == if was[k].id == g.id then g else was[k]
  }

  /** One group, the one with the id, is gone. */
  predicate GroupDropped(was: seq<Group>, now: seq<Group>, id: string) {
    exists k :: 0 <= k < |was| && was[k].id == id && now == was[..k] + was[k + 1..]
  }

  /** b is a with the edit made, apart from the version. */
  predicate Made(a: Registry, b: Registry, e: Edit) {
    match e
    case AddGroup(g) => SameSettings(a, b) && b.groups == a.groups + [g]
    case PutGroup(g) => SameSettings(a, b) && GroupPut(a.groups, b.groups, g)
    case DropGroup(id) => SameSettings(a, b) && GroupDropped(a.groups, b.groups, id)
    case PutSettings(id, cache, protection) =>
      && b.groups == a.groups && b.schema == a.schema
      && b.defaultId == id && b.cache == cache && b.protection == protection
    case SyncSettings(persisted, cache) =>
      && b.groups == a.groups && b.schema == a.schema && b.protection == a.protection && b.cache == cache
      && b.defaultId == if persisted.Some? then persisted.value else a.defaultId
  }

  /** What each edit writes. */
  lemma DesiredIsMade(r: Registry, e: Edit)
    requires WellFormed(r) && Desired(r, e).Ok?
    ensures Made(r, Desired(r, e).value, e) && Made(r, Adopted(r, e), e)
    ensures Adopted(r, e).version == r.version + 1 && Desired(r, e).value.version == r.version
  {
    hide GroupIdOk;
    hide HasEnabled;
    hide NamedIds;
    if e.PutGroup? && GroupIndex(r.groups, e.group.id) >= 0 { PutIsMade(r.groups, e.group); }
    if e.DropGroup? && GroupIndex(r.groups, e.id) >= 0 { DropIsMade(r.groups, e.id); }
    hide GroupPut;
    hide GroupDropped;
    hide UniqueIds;
    hide GroupIndex;
  }

  lemma PutIsMade(groups: seq<Group>, g: Group)
    requires UniqueIds(groups) && GroupIndex(groups, g.id) >= 0
    ensures GroupPut(groups, groups[GroupIndex(groups, g.id) := g], g)
  {
    assert groups[GroupIndex(groups, g.id)].id == g.id;
  }

  lemma DropIsMade(groups: seq<Group>, id: string)
    requires GroupIndex(groups, id) >= 0
    ensures var index := GroupIndex(groups, id);
      GroupDropped(groups, groups[..index] + groups[index + 1..], id)
  {
    assert groups[GroupIndex(groups, id)].id == id;
  }

  /** The registry once the edit is adopted. */
  function Adopted(r: Registry, e: Edit): Registry
    requires Desired(r, e).Ok?
  {
    Desired(r, e).value.(version := r.version + 1)
  }

  /** A group list a registry may hold, with an enabled default group. */
  ghost predicate SoundGroups(groups: seq<Group>, defaultId: string) {
    NamedIds(groups) && UniqueIds(groups) && HasEnabled(groups, defaultId)
  }

  lemma AppendedGroups(groups: seq<Group>, g: Group, id: string)
    requires SoundGroups(groups, id) && GroupIdOk(g.id) && GroupIndex(groups, g.id) < 0
    ensures SoundGroups(groups + [g], id)
  {
    var groups' := groups + [g];
    assert forall k | 0 <= k < |groups| :: groups'[k] == groups[k];
    var d :| 0 <= d < |groups| && groups[d].id == id && groups[d].enabled;
    assert groups'[d] == groups[d];
  }

  lemma ReplacedGroups(groups: seq<Group>, g: Group, id: string)
    requires SoundGroups(groups, id) && GroupIndex(groups, g.id) >= 0 && (g.id == id ==> g.enabled)
    ensures SoundGroups(groups[GroupIndex(groups, g.id) := g], id)
  {
    var index := GroupIndex(groups, g.id);
    var groups' := groups[index := g];
    var d :| 0 <= d < |groups| && groups[d].id == id && groups[d].enabled;
    assert groups'[d] == if index == d then g else groups[d];
  }

  lemma RemovedGroups(groups: seq<Group>, index: nat, id: string)
    requires SoundGroups(groups, id) && index < |groups| && groups[index].id != id
    ensures SoundGroups(groups[..index] + groups[index + 1..], id)
  {
    var groups' := groups[..index] + groups[index + 1..];
    assert forall k | 0 <= k < |groups'| :: groups'[k] == if k < index then groups[k] else groups[k + 1];
    var d :| 0 <= d < |groups| && groups[d].id == id && groups[d].enabled;
    assert groups'[if d < index then d else d - 1] == groups[d];
  }

  /** Every edit keeps the registry well formed, and none takes it above 32 groups. */
  lemma AdoptedIsWellFormed(r: Registry, e: Edit)
    requires WellFormed(r) && Desired(r, e).Ok?
    ensures WellFormed(Adopted(r, e))
    ensures |Adopted(r, e).groups| <= if |r.groups| < 32 then 32 else |r.groups|
  {
    assert SoundGroups(r.groups, r.defaultId);
    hide NamedIds;
    hide UniqueIds;
    hide HasEnabled;
    hide GroupIdOk;
    match e
    case AddGroup(g) => AppendedGroups(r.groups, g, r.defaultId);
    case PutGroup(g) => ReplacedGroups(r.groups, g, r.defaultId);
    case DropGroup(id) => RemovedGroups(r.groups, GroupIndex(r.groups, id), r.defaultId);
    case PutSettings(id, _, _) => NamedDefault(r.groups, id);
    case SyncSettings(p, _) => NamedDefault(r.groups, if p.Some? then p.value else r.defaultId);
  }

  lemma NamedDefault(groups: seq<Group>, id: string)
    requires NamedIds(groups) && HasEnabled(groups, id)
    ensures id != ""
  {}

  function EnabledIds(r: Registry): set<string> {
    set i | 0 <= i < |r.groups| && r.groups[i].enabled :: r.groups[i].id
  }

  lemma EnabledIdsAre(r: Registry)
    ensures forall id :: id in EnabledIds(r) <==> exists g :: g in r.groups && g.id == id && g.enabled
  {
    forall id | id in EnabledIds(r) ensures exists g :: g in r.groups && g.id == id && g.enabled {
      var i :| 0 <= i < |r.groups| && r.groups[i].enabled && r.groups[i].id == id;
      assert r.groups[i] in r.groups;
    }
  }

  /** The one group an edit may take away or disable. */
  predicate Threatens(e: Edit, id: string) {
    match e
    case PutGroup(g) => g.id == id && !g.enabled
    case DropGroup(d) => d == id
    case _ => false
  }

  /** No edit disables or removes any other group, whoever makes it. */
  lemma OthersStayEnabled(r: Registry, e: Edit, id: string)
    requires Desired(r, e).Ok? && id in EnabledIds(r) && !Threatens(e, id)
    ensures id in EnabledIds(Adopted(r, e))
  {
    hide HasEnabled;
    hide GroupIdOk;
    var groups, a := r.groups, Adopted(r, e);
    var i :| 0 <= i < |groups| && groups[i].enabled && groups[i].id == id;
    hide EnabledIds;
    var at := if e.DropGroup? && i > GroupIndex(groups, e.id) then i - 1 else i;
    match e
    case AddGroup(g) => assert a.groups[i] == groups[i];
    case PutGroup(g) => assert a.groups[i] == if i == GroupIndex(groups, g.id) then g else groups[i];
    case DropGroup(d) => assert a.groups[at] == groups[i];
    case PutSettings(_, _, _) =>
    case SyncSettings(_, _) =>
    EnabledAt(a, at);
  }

  lemma EnabledAt(r: Registry, i: nat)
    requires i < |r.groups| && r.groups[i].enabled
    ensures r.groups[i].id in EnabledIds(r)
  {}

  lemma DisabledGroupIsGone(groups: seq<Group>, g: Group)
    requires UniqueIds(groups) && GroupIndex(groups, g.id) >= 0 && !g.enabled
    ensures !HasEnabled(groups[GroupIndex(groups, g.id) := g], g.id)
  {
    var index := GroupIndex(groups, g.id);
    var groups' := groups[index := g];
    forall i | 0 <= i < |groups'| && i != index ensures groups'[i].id != g.id {
      assert groups'[i] == groups[i];
    }
  }

  lemma DroppedGroupIsGone(groups: seq<Group>, index: nat)
    requires UniqueIds(groups) && index < |groups|
    ensures !HasEnabled(groups[..index] + groups[index + 1..], groups[index].id)
  {
    var rest := groups[..index] + groups[index + 1..];
    assert forall k | 0 <= k < |rest| :: rest[k] == if k < index then groups[k] else groups[k + 1];
  }

  lemma EnabledIdsHave(r: Registry, id: string)
    ensures id in EnabledIds(r) <==> HasEnabled(r.groups, id)
  {}

  /** The group an edit disables or removes is enabled no more: together with OthersStayEnabled, an enabled group
      stays so exactly when the edit does not threaten it. */
  lemma ThreatenedIsGone(r: Registry, e: Edit, id: string)
    requires UniqueIds(r.groups) && Desired(r, e).Ok? && Threatens(e, id)
    ensures id !in EnabledIds(Adopted(r, e))
  {
    EnabledIdsHave(Adopted(r, e), id);
    match e
    case PutGroup(g) => DisabledGroupIsGone(r.groups, g);
    case DropGroup(d) => DroppedGroupIsGone(r.groups, GroupIndex(r.groups, d));
  }

  // ---- concurrent writers ------------------------------------------------------------------------

  /** A call on its way: the registry its writer read, and the edit. */
  datatype Request = Request(base: Registry, edit: Edit)

  /** current: what the runtime holds. log: the adopted edits in version order. seen: what it ever held. */
  datatype State = State(current: Registry, log: seq<Edit>, seen: set<Registry>, requests: set<Request>)

  datatype Event = Send(base: Registry, edit: Edit) | Land(request: Request)

  function Start(r0: Registry): State { State(r0, [], {r0}, {}) }

  /** A writer sends an edit of some registry it read, now or long ago; a request lands when its version fits. */
  predicate Enabled(s: State, e: Event) {
    match e
    case Send(base, edit) => base in s.seen && Desired(base, edit).Ok? && Desired(base, edit).value != base
    case Land(q) => q in s.requests && q.base.version == s.current.version && Desired(q.base, q.edit).Ok?
  }

  function Effect(s: State, e: Event): State
    requires Enabled(s, e)
  {
    match e
    case Send(base, edit) => s.(requests := s.requests + {Request(base, edit)})
    case Land(q) =>
      var next := Adopted(q.base, q.edit);
      s.(current := next, log := s.log + [q.edit], seen := s.seen + {next})
  }

  function Step(s: State, e: Event): State {
    if Enabled(s, e) then Effect(s, e) else s
  }

  function Run(s: State, events: seq<Event>): State {
    if events == [] then s else Step(Run(s, events[..|events| - 1]), events[|events| - 1])
  }

  /** The edits applied one after the other, from r0. */
  ghost function Replay(r0: Registry, log: seq<Edit>): Registry {
    if log == [] then r0
    else
      var before := Replay(r0, log[..|log| - 1]);
      var e := log[|log| - 1];
      if Desired(before, e).Ok? then Adopted(before, e) else before
  }

  /** The registry is the sequential application of the adopted edits, one version each; and everything a
      writer may have read is the registry at one of those versions. */
  ghost predicate Sequential(r0: Registry, s: State) {
    && s.current == Replay(r0, s.log) && s.current.version == r0.version + |s.log|
    && (forall r | r in s.seen :: ReadAt(r0, s, r))
    && (forall q | q in s.requests :: q.base in s.seen && Desired(q.base, q.edit).Ok?)
  }

  ghost predicate ReadAt(r0: Registry, s: State, r: Registry) {
    && r0.version <= r.version <= s.current.version && r.version - r0.version <= |s.log|
    && r == Replay(r0, s.log[..r.version - r0.version])
  }

  ghost predicate Healthy(r0: Registry, s: State) {
    && WellFormed(s.current) && |s.current.groups| <= if |r0.groups| < 32 then 32 else |r0.groups|
  }

  lemma LandIsSequential(r0: Registry, s: State, q: Request)
    requires Sequential(r0, s) && Enabled(s, Land(q))
    ensures q.base == s.current
    ensures Sequential(r0, Effect(s, Land(q)))
  {
    hide Desired;
    var s' := Effect(s, Land(q));
    assert ReadAt(r0, s, q.base);
    assert s.log[..|s.log|] == s.log;
    assert s'.log[..|s.log|] == s.log && s'.log[..|s'.log|] == s'.log;
    forall r | r in s'.seen ensures ReadAt(r0, s', r) {
      if r in s.seen {
        assert ReadAt(r0, s, r);
        assert s'.log[..r.version - r0.version] == s.log[..r.version - r0.version];
      }
    }
  }

  /** No edit is ever lost or merged: whatever order requests are sent and land in, and although some writers
      take no lock, the registry at each version is the adopted edits applied in version order. It stays well
      formed, and creation never takes it above 32 groups. */
  lemma {:induction false} EveryRunIsSequential(r0: Registry, events: seq<Event>)
    requires WellFormed(r0)
    ensures Sequential(r0, Run(Start(r0), events))
    ensures Healthy(r0, Run(Start(r0), events))
  {
    hide Desired;
    if events != [] {
      var front, e := events[..|events| - 1], events[|events| - 1];
      EveryRunIsSequential(r0, front);
      var s := Run(Start(r0), front);
      if e.Land? && Enabled(s, e) {
        LandIsSequential(r0, s, e.request);
        AdoptedIsWellFormed(s.current, e.request.edit);
      }
    }
  }

  /** The registry a run has at some version is the prefix of its log up to that version, for good. */
  lemma VersionsAreFinal(r0: Registry, events: seq<Event>, r: Registry)
    requires WellFormed(r0) && r in Run(Start(r0), events).seen
    ensures r0.version <= r.version <= r0.version + |Run(Start(r0), events).log|
    ensures r == Replay(r0, Run(Start(r0), events).log[..r.version - r0.version])
  {
    EveryRunIsSequential(r0, events);
    assert ReadAt(r0, Run(Start(r0), events), r);
  }

  // ---- which request lands first --------------------------------------------------------------------

  /** The requests adopted while the events happen, in order. */
  function Landings(s: State, events: seq<Event>): seq<Request> {
    if events == [] then []
    else
      var front, e := events[..|events| - 1], events[|events| - 1];
      var landed := Landings(s, front);
      if e.Land? && Enabled(Run(s, front), e) then landed + [e.request] else landed
  }

  lemma {:induction false} RunConcat(s: State, a: seq<Event>, b: seq<Event>)
    ensures Run(s, a + b) == Run(Run(s, a), b)
    ensures Landings(s, a + b) == Landings(s, a) + Landings(Run(s, a), b)
    decreases |b|
  {
    hide Step;
    if b == [] {
      assert a + b == a;
    } else {
      var front := b[..|b| - 1];
      assert (a + b)[..|a + b| - 1] == a + front;
      RunConcat(s, a, front);
    }
  }

  lemma RunOneMore(s: State, events: seq<Event>, e: Event)
    ensures Run(s, events + [e]) == Step(Run(s, events), e)
  {
    assert (events + [e])[..|events|] == events;
  }

  /** Each landing adds its edit to the log and one to the version it was made from. */
  lemma {:induction false} LandingsAreLogged(s: State, events: seq<Event>)
    ensures var t, landed := Run(s, events), Landings(s, events);
      && |t.log| == |s.log| + |landed| && s.log <= t.log
      && t.current.version == s.current.version + |landed|
      && forall i | 0 <= i < |landed| ::
           t.log[|s.log| + i] == landed[i].edit && landed[i].base.version == s.current.version + i
  {
    hide Desired;
    if events != [] {
      LandingsAreLogged(s, events[..|events| - 1]);
    }
  }

  /** The edit that replaces base in a run from s: the one that did so before, or the first to land. */
  ghost function ReplacedBy(r0: Registry, s: State, base: Registry, events: seq<Event>): Option<Edit> {
    var n := base.version - r0.version;
    if 0 <= n < |s.log| then Some(s.log[n])
    else if Landings(s, events) == [] then None
    else Some(Landings(s, events)[0].edit)
  }

  lemma FirstLandingReplaces(r0: Registry, s: State, base: Registry, events: seq<Event>)
    requires Sequential(r0, s) && base in s.seen
    ensures var n, t := base.version - r0.version, Run(s, events);
      && 0 <= n <= |s.log|
      && (n < |t.log| <==> ReplacedBy(r0, s, base, events).Some?)
      && (n < |t.log| ==> Some(t.log[n]) == ReplacedBy(r0, s, base, events))
  {
    assert ReadAt(r0, s, base);
    LandingsAreLogged(s, events);
    hide Landings;
    hide Run;
    hide Replay;
  }
}
