/** The writers of the upstream registry, call by call, among other writers that take no lock. */
module UpstreamService {
  import opened RuleModel
  import opened Validation
  import opened UpstreamRegistry

  /** What happens to one ApplyRegistry call on the wire. */
  datatype Call = Answered | AnswerLost | RequestLost | Rejected

  /** What a write meets outside the controller: whether the status calls answer, the other writers' events
      before the call and before the second status read, and the fate of the call. */
  datatype WriteEnv = WriteEnv(
    statusAnswers: bool, before: seq<Event>, call: Call, after: seq<Event>, secondAnswers: bool)

  /** No other writer comes between the read and the call, and the call is answered. */
  predicate Calm(env: WriteEnv) { env.before == [] && env.call.Answered? }

  /** The events of one write that changes something: the other writers' before the call, the call itself, as far as it
      gets, and those before the second status read, which follows only when the call brings no answer. */
  function Happening(base: Registry, edit: Edit, env: WriteEnv): seq<Event> {
    match env.call
    case Rejected => env.before
    case RequestLost => env.before + [Send(base, edit)] + env.after
    case AnswerLost => env.before + [Send(base, edit), Land(Request(base, edit))] + env.after
    case Answered => env.before + [Send(base, edit), Land(Request(base, edit))]
  }

  /** The statements of the call, one by one. */
  lemma CallIs(s: State, base: Registry, edit: Edit, env: WriteEnv)
    ensures var w, upTo := Run(s, env.before), Happening(base, edit, env.(after := []));
      Run(s, upTo) == if env.call.Rejected? then w
                      else if env.call.RequestLost? then Step(w, Send(base, edit))
                      else Step(Step(w, Send(base, edit)), Land(Request(base, edit)))
  {
    hide Step;
    hide Run;
    var a, send, land := env.before, Send(base, edit), Land(Request(base, edit));
    RunOneMore(s, a, send);
    RunOneMore(s, a + [send], land);
    assert a + [send] + [land] == a + [send, land];
    assert a + [send] + [] == a + [send] && a + [send, land] + [] == a + [send, land];
  }

  lemma AfterIs(s: State, base: Registry, edit: Edit, env: WriteEnv)
    requires env.call.RequestLost? || env.call.AnswerLost?
    ensures Run(s, Happening(base, edit, env)) == Run(Run(s, Happening(base, edit, env.(after := []))), env.after)
  {
    hide Run;
    var a, send, land := env.before, Send(base, edit), Land(Request(base, edit));
    assert a + [send] + [] == a + [send] && a + [send, land] + [] == a + [send, land];
    RunConcat(s, Happening(base, edit, env.(after := [])), env.after);
  }

  /** The call reaches the runtime before the caller goes on. */
  predicate Arrives(env: WriteEnv) { env.call.Answered? || env.call.AnswerLost? }

  /** r is the registry that replaced base: the one right after it in the history. */
  ghost predicate AdoptedAfter(r0: Registry, s: State, base: Registry, r: Registry) {
    && base.version >= r0.version && base.version - r0.version < |s.log|
    && base == Replay(r0, s.log[..base.version - r0.version])
    && r == Replay(r0, s.log[..base.version - r0.version + 1])
    && r.version == base.version + 1 && WellFormed(r)
  }

  /** The edit itself is the one that replaced base. */
  ghost predicate LandedEdit(r0: Registry, s: State, base: Registry, e: Edit) {
    Desired(base, e).Ok? && AdoptedAfter(r0, s, base, Adopted(base, e)) && s.log[base.version - r0.version] == e
  }

  lemma LandedIsAdopted(r0: Registry, s: State, base: Registry, e: Edit)
    requires LandedEdit(r0, s, base, e)
    ensures Desired(base, e).Ok? && AdoptedAfter(r0, s, base, Adopted(base, e))
  {}

  lemma LandedStays(r0: Registry, s: State, t: State, base: Registry, e: Edit)
    requires LandedEdit(r0, s, base, e) && s.log <= t.log
    ensures LandedEdit(r0, t, base, e)
  {
    hide Desired;
    AdoptedStays(r0, s, t, base, Adopted(base, e));
  }

  lemma NothingAfter(base: Registry, edit: Edit, env: WriteEnv)
    requires env.call.Rejected? || env.call.Answered?
    ensures Happening(base, edit, env) == Happening(base, edit, env.(after := []))
  {}

  /** A registry that replaced base is the work of the edit exactly when the edit is what replaced it. */
  lemma ReplacedIsLanded(r0: Registry, s: State, base: Registry, edit: Edit, events: seq<Event>, r: Registry)
    requires Sequential(r0, s) && base in s.seen && Desired(base, edit).Ok?
    requires AdoptedAfter(r0, Run(s, events), base, r)
    ensures LandedEdit(r0, Run(s, events), base, edit) <==> ReplacedBy(r0, s, base, events) == Some(edit)
  {
    FirstLandingReplaces(r0, s, base, events);
    hide Sequential;
    hide ReplacedBy;
    hide Run;
    hide Desired;
    var t := Run(s, events);
    var n := base.version - r0.version;
    assert t.log[..n + 1][..n] == t.log[..n] && t.log[..n + 1][n] == t.log[n];
  }

  /** The requests that land around one call made from the registry held now. A call that arrives lands exactly when
      no other request of that registry landed before it. */
  lemma LandingsAround(s: State, edit: Edit, env: WriteEnv)
    requires s.current in s.seen && Desired(s.current, edit).Ok? && Desired(s.current, edit).value != s.current
    ensures var base, w := s.current, Run(s, env.before);
      var around := Landings(s, Happening(base, edit, env.(after := [])));
      && around == Landings(s, env.before)
           + (if Arrives(env) && Landings(s, env.before) == [] then [Request(base, edit)] else [])
      && (env.call.RequestLost? || env.call.AnswerLost? ==>
            Landings(s, Happening(base, edit, env))
              == around + Landings(Run(s, Happening(base, edit, env.(after := []))), env.after))
  {
    hide Desired;
    hide Run;
    var base, a, send, land := s.current, env.before, Send(s.current, edit), Land(Request(s.current, edit));
    var w := Run(s, a);
    LandingsAreLogged(s, a);
    RunConcat(s, Happening(base, edit, env.(after := [])), env.after);
    RunConcat(s, a, [send]);
    RunConcat(s, a, [send, land]);
    assert a + [send] + [] == a + [send] && a + [send, land] + [] == a + [send, land];
    SeenStays(s, a, base);
    CallLands(w, base, edit);
  }

  lemma CallLands(w: State, base: Registry, edit: Edit)
    requires Desired(base, edit).Ok? && Desired(base, edit).value != base && base in w.seen
    ensures Landings(w, [Send(base, edit)]) == []
    ensures Landings(w, [Send(base, edit), Land(Request(base, edit))])
      == if w.current.version == base.version then [Request(base, edit)] else []
  {
    hide Desired;
    var send, land := Send(base, edit), Land(Request(base, edit));
    assert [send, land][..1] == [send] && [send][..0] == [];
    RunOneMore(w, [], send);
    assert [] + [send] == [send];
  }

  lemma {:induction false} SeenStays(s: State, events: seq<Event>, r: Registry)
    requires r in s.seen
    ensures r in Run(s, events).seen
  {
    hide Desired;
    if events != [] { SeenStays(s, events[..|events| - 1], r); }
  }

  /** An enabled group may be disabled only when the reference check found nothing. */
  predicate MayDisable(base: Registry, group: Group, referenced: Option<bool>) {
    group.id in EnabledIds(base) && !group.enabled ==> referenced == Some(false)
  }

  /** The caller names the version read, and the edit is one the registry allows. */
  predicate Permitted(base: Registry, e: Edit, expected: nat) {
    expected == base.version && Desired(base, e).Ok?
  }

  /** The status is read and the edit is permitted. */
  predicate Allowed(env: WriteEnv, base: Registry, e: Edit, expected: nat) {
    env.statusAnswers && Permitted(base, e, expected)
  }

  /** A write made under the caller's version that changed the registry. */
  ghost predicate Wrote(r0: Registry, s: State, base: Registry, e: Edit, expected: nat, r: Registry) {
    && expected == base.version && Desired(base, e).Ok? && AdoptedAfter(r0, s, base, r)
  }

  /** The same, for writes that may find nothing to change. */
  ghost predicate Changed(r0: Registry, s: State, base: Registry, e: Edit, expected: nat, r: Registry) {
    && expected == base.version && Desired(base, e).Ok?
    && if Desired(base, e).value == base then r == base else AdoptedAfter(r0, s, base, r)
  }

  lemma CurrentIsSeen(r0: Registry, events: seq<Event>)
    requires WellFormed(r0)
    ensures Run(Start(r0), events).current in Run(Start(r0), events).seen
  {
    hide Desired;
    if events != [] {
      CurrentIsSeen(r0, events[..|events| - 1]);
    }
  }

  lemma LandedAt(r0: Registry, s: State, q: Request)
    requires Sequential(r0, s) && Healthy(r0, s) && Enabled(s, Land(q))
    ensures Effect(s, Land(q)).log == s.log + [q.edit] && |s.log| == q.base.version - r0.version
    ensures LandedEdit(r0, Effect(s, Land(q)), q.base, q.edit)
  {
    LandIsSequential(r0, s, q);
    AdoptedIsWellFormed(s.current, q.edit);
    hide Desired;
    var log := s.log + [q.edit];
    assert log[..|s.log|] == s.log && log[..|s.log| + 1] == log && s.log[..|s.log|] == s.log;
  }

  lemma AdoptedStays(r0: Registry, s: State, t: State, base: Registry, r: Registry)
    requires AdoptedAfter(r0, s, base, r) && s.log <= t.log
    ensures AdoptedAfter(r0, t, base, r)
  {
    var n := base.version - r0.version;
    assert t.log[..n] == s.log[..n] && t.log[..n + 1] == s.log[..n + 1];
  }

  lemma CurrentAt(r0: Registry, s: State, base: Registry)
    requires Sequential(r0, s) && Healthy(r0, s) && base in s.seen
    ensures s.current.version == base.version + 1 ==> AdoptedAfter(r0, s, base, s.current)
  {
    hide Replay;
    assert ReadAt(r0, s, base);
    assert s.log[..|s.log|] == s.log;
  }

  lemma EnabledIsIndexed(r: Registry, index: nat)
    requires WellFormed(r) && index < |r.groups|
    ensures r.groups[index].id in EnabledIds(r) <==> r.groups[index].enabled
  {}

  lemma DroppedIsGone(r: Registry, index: nat)
    requires WellFormed(r) && index < |r.groups|
    ensures var rest := r.groups[..index] + r.groups[index + 1..];
      GroupIndex(rest, r.groups[index].id) < 0 && rest != r.groups
  {
    var rest := r.groups[..index] + r.groups[index + 1..];
    assert forall k | 0 <= k < |rest| :: rest[k] == if k < index then r.groups[k] else r.groups[k + 1];
    assert |rest| == |r.groups| - 1;
  }

  class UpstreamService {
    const r0: Registry
    var state: State
    ghost var trace: seq<Event>

    ghost predicate Valid()
      reads this
    {
      WellFormed(r0) && state == Run(Start(r0), trace)
    }

    lemma Reachable()
      requires Valid()
      ensures Sequential(r0, state) && Healthy(r0, state)
    {
      EveryRunIsSequential(r0, trace);
    }

    constructor (r0: Registry)
      requires WellFormed(r0)
      ensures Valid() && this.r0 == r0 && state == Start(r0)
    {
      this.r0, state, trace := r0, Start(r0), [];
    }

    method Perform(e: Event)
      requires Valid() && Enabled(state, e)
      modifies this`state, this`trace
      ensures Valid() && state == Effect(old(state), e)
      ensures state.seen >= old(state).seen && old(state).log <= state.log
    {
      state := Effect(state, e);
      assert (trace + [e])[..|trace|] == trace;
      trace := trace + [e];
    }

    method Interfere(events: seq<Event>)
      requires Valid()
      modifies this`state, this`trace
      ensures state == Run(old(state), events)
      ensures Valid() && state.seen >= old(state).seen && state.requests >= old(state).requests
      ensures old(state).log <= state.log
    {
      for i := 0 to |events|
        invariant state == Run(old(state), events[..i])
        invariant Valid() && state.seen >= old(state).seen && state.requests >= old(state).requests
        invariant old(state).log <= state.log
      {
        RunOneMore(old(state), events[..i], events[i]);
        assert events[..i + 1] == events[..i] + [events[i]];
        if Enabled(state, events[i]) {
          Perform(events[i]);
        }
      }
      assert events[..|events|] == events;
    }

    /** RegistryStatus: the registry held now, checked on receipt; the check never fails on a reachable state. */
    method RegistryStatus(answers: bool) returns (r: Result<Registry>)
      requires Valid()
      ensures r == if answers then Ok(state.current) else Err("registry unavailable")
    {
      if !answers {
        return Err("registry unavailable");
      }
      Reachable();
      var ok := ValidRegistrySnapshot(state.current, state.current.version);
      r := if ok then Ok(state.current) else Err("dynamic upstream registry returned an invalid snapshot");
    }

    /** The ApplyRegistry call: Err("unknown") when it brings no answer. */
    method CallApply(base: Registry, desired: Registry, edit: Edit, env: WriteEnv)
      returns (answer: Result<Registry>, ghost landed: bool)
      requires Valid() && base in state.seen && Desired(base, edit) == Ok(desired) && desired != base
      modifies this`state, this`trace
      ensures Valid() && state.seen >= old(state).seen && old(state).log <= state.log
      ensures landed ==> LandedEdit(r0, state, base, edit)
      ensures answer.Ok? ==> landed && env.call.Answered? && answer.value == Adopted(base, edit)
      ensures env.call.Answered? ==> (answer.Ok? <==> landed) && answer != Err("unknown")
      ensures env.call.RequestLost? || env.call.Rejected? ==> !landed
      ensures Arrives(env) ==> (landed <==> Run(old(state), env.before).current.version == base.version)
      ensures state == Run(old(state), Happening(base, edit, env.(after := [])))
      ensures Calm(env) && base == old(state).current ==> landed
      ensures answer == Err("unknown") <==> env.call.RequestLost? || env.call.AnswerLost?
    {
      hide Desired;
      hide LandedEdit;
      hide Sequential;
      hide Healthy;
      landed := false;
      CallIs(state, base, edit, env);
      assert Run(state, []) == state;
      hide Happening;
      hide Run;
      Interfere(env.before);
      if env.call.Rejected? {
        return Err("rejected"), false;
      }
      Perform(Send(base, edit));
      if env.call.RequestLost? {
        return Err("unknown"), false;
      }
      var conflict := state.current.version != base.version;
      if !conflict {
        Reachable();
        LandedAt(r0, state, Request(base, edit));
        Perform(Land(Request(base, edit)));
        landed := true;
      }
      answer := if env.call.AnswerLost? then Err("unknown")
                else if conflict then Err("conflict")
                else Ok(desired.(version := base.version + 1));
    }

    /** The part of applyRegistry after a call without an answer: only the version held now is compared. */
    method SettleUnknown(base: Registry, env: WriteEnv) returns (r: Result<Registry>)
      requires Valid() && base in state.seen
      modifies this`state, this`trace
      ensures Valid() && state == Run(old(state), env.after)
      ensures state.seen >= old(state).seen && old(state).log <= state.log
      ensures r.Ok? <==> env.secondAnswers && state.current.version == base.version + 1
      ensures r.Ok? ==> r.value == state.current && AdoptedAfter(r0, state, base, r.value)
    {
      hide Desired;
      hide AdoptedAfter;
      hide Run;
      Interfere(env.after);
      Reachable();
      hide Sequential;
      CurrentAt(r0, state, base);
      var actual := RegistryStatus(env.secondAnswers);
      if actual.Err? {
        return Err("registry update outcome is unknown and could not be reconciled");
      }
      AppliedCheckIsWeaker(actual.value);
      var ok := ValidAppliedRegistry(actual.value, base.version + 1);
      r := if ok then actual else Err("registry update outcome is unknown and could not be reconciled");
    }

    /** applyRegistry: nothing when nothing changes; otherwise one compare-and-swap. An answered call succeeds
        exactly when this edit was adopted on top of the registry it was made from. After an unknown outcome only
        the version is compared, so success then means that some edit of that registry was adopted. */
    method ApplyRegistry(base: Registry, desired: Registry, edit: Edit, env: WriteEnv)
      returns (r: Result<Registry>, ghost landed: bool)
      requires Valid() && base in state.seen && Desired(base, edit) == Ok(desired)
      modifies this`state, this`trace
      ensures Valid() && state.seen >= old(state).seen && old(state).log <= state.log
      ensures state == if desired == base then old(state) else Run(old(state), Happening(base, edit, env))
      ensures r.Ok? && desired == base ==> r.value == base && !landed
      ensures r.Ok? && desired != base ==> AdoptedAfter(r0, state, base, r.value)
      ensures landed ==> LandedEdit(r0, state, base, edit)
      ensures env.call.Answered? && desired != base ==>
        (r.Ok? <==> landed) && (landed ==> r.value == Adopted(base, edit))
      ensures env.call.RequestLost? || env.call.Rejected? ==> !landed
      ensures Arrives(env) && desired != base ==>
        (landed <==> Run(old(state), env.before).current.version == base.version)
      ensures r.Ok? && desired != base ==>
        (LandedEdit(r0, state, base, edit) <==>
          ReplacedBy(r0, old(state), base, Happening(base, edit, env)) == Some(edit))
      ensures Calm(env) && base == old(state).current ==> r.Ok?
      ensures (env.call.RequestLost? || env.call.AnswerLost?) && desired != base ==>
        (r.Ok? <==> env.secondAnswers && state.current.version == base.version + 1)
    {
      hide Desired;
      hide LandedEdit;
      hide AdoptedAfter;
      hide Sequential;
      hide Healthy;
      hide Happening;
      hide Run;
      hide ReplacedBy;
      if base == desired {
        return Ok(base), false;
      }
      ghost var start := state;
      Reachable();
      if env.call.RequestLost? || env.call.AnswerLost? {
        AfterIs(state, base, edit, env);
      } else {
        NothingAfter(base, edit, env);
      }
      r, landed := CallApply(base, desired, edit, env);
      if landed { LandedIsAdopted(r0, state, base, edit); }
      if r != Err("unknown") {
        if r.Ok? { ReplacedIsLanded(r0, start, base, edit, Happening(base, edit, env), r.value); }
        return;
      }
      ghost var was := state;
      r := SettleUnknown(base, env);
      if landed { LandedStays(r0, was, state, base, edit); }
      if r.Ok? { ReplacedIsLanded(r0, start, base, edit, Happening(base, edit, env), r.value); }
    }

    // ---- the writers ---------------------------------------------------------------------------

    method CreateUpstreamGroup(group: Group, expected: nat, env: WriteEnv)
      returns (r: Result<Registry>, ghost base: Registry)
      requires Valid()
      modifies this`state, this`trace
      ensures Valid() && old(state).log <= state.log && base == old(state).current
      ensures r.Ok? ==> Wrote(r0, state, base, AddGroup(group), expected, r.value)
      ensures r.Ok? && env.call.Answered? ==>
        r.value.groups == base.groups + [group] && SameSettings(base, r.value) && r.value.version == base.version + 1
      ensures if Allowed(env, old(state).current, AddGroup(group), expected)
        then Calm(env) ==> r.Ok?
        else r.Err? && state == old(state)
    {
      hide Replay;
      base := state.current;
      var status := RegistryStatus(env.statusAnswers);
      if status.Err? { return status, base; }
      var current := status.value;
      if expected != current.version { return Err("conflict"), base; }
      if |current.groups| >= 32 { return Err("upstream group limit exceeded"), base; }
      if !GroupIdOk(group.id) { return Err("invalid upstream group id"), base; }
      if GroupIndex(current.groups, group.id) >= 0 { return Err("upstream group id already exists"), base; }
      var desired := current.(groups := current.groups + [group]);
      ghost var landed;
      Reachable();
      CurrentIsSeen(r0, trace);
      DesiredIsMade(current, AddGroup(group));
      r, landed := ApplyRegistry(current, desired, AddGroup(group), env);
    }

    /** referenced: the reference check's answer, None when its queries fail. */
    method UpdateUpstreamGroup(id: string, group: Group, expected: nat, referenced: Option<bool>, env: WriteEnv)
      returns (r: Result<Registry>, ghost base: Registry)
      requires Valid()
      modifies this`state, this`trace
      ensures Valid() && old(state).log <= state.log && base == old(state).current
      ensures r.Ok? ==> group.id == id && Changed(r0, state, base, PutGroup(group), expected, r.value)
      ensures r.Ok? && env.call.Answered? ==>
        && SameSettings(base, r.value) && GroupPut(base.groups, r.value.groups, group)
        && r.value.version == base.version + if r.value.groups == base.groups then 0 else 1
      ensures if Allowed(env, old(state).current, PutGroup(group), expected)
          && group.id == id && MayDisable(old(state).current, group, referenced)
        then Calm(env) ==> r.Ok?
        else r.Err? && state == old(state)
    {
      hide Replay;
      base := state.current;
      if group.id != id { return Err("upstream group id cannot be modified"), base; }
      var status := RegistryStatus(env.statusAnswers);
      if status.Err? { return status, base; }
      var current := status.value;
      if expected != current.version { return Err("conflict"), base; }
      var index := GroupIndex(current.groups, id);
      if index < 0 { return Err("upstream group not found"), base; }
      if id == current.defaultId && !group.enabled { return Err("protected upstream group"), base; }
      Reachable();
      EnabledIsIndexed(current, index);
      if current.groups[index].enabled && !group.enabled {
        if referenced.None? { return Err("reference check failed"), base; }
        if referenced.value { return Err("upstream group is referenced"), base; }
      }
      var desired := current.(groups := current.groups[index := group]);
      ghost var landed;
      CurrentIsSeen(r0, trace);
      DesiredIsMade(current, PutGroup(group));
      r, landed := ApplyRegistry(current, desired, PutGroup(group), env);
    }

    method DeleteUpstreamGroup(id: string, expected: nat, referenced: Option<bool>, env: WriteEnv)
      returns (r: Result<Registry>, ghost base: Registry)
      requires Valid()
      modifies this`state, this`trace
      ensures Valid() && old(state).log <= state.log && base == old(state).current
      ensures r.Ok? ==> Wrote(r0, state, base, DropGroup(id), expected, r.value) && referenced == Some(false)
      ensures r.Ok? && env.call.Answered? ==>
        && GroupIndex(r.value.groups, id) < 0 && |r.value.groups| == |base.groups| - 1
        && SameSettings(base, r.value) && GroupDropped(base.groups, r.value.groups, id)
        && r.value.version == base.version + 1
      ensures if Allowed(env, old(state).current, DropGroup(id), expected) && referenced == Some(false)
        then Calm(env) ==> r.Ok?
        else r.Err? && state == old(state)
    {
      hide Replay;
      base := state.current;
      var status := RegistryStatus(env.statusAnswers);
      if status.Err? { return status, base; }
      var current := status.value;
      if expected != current.version { return Err("conflict"), base; }
      if id == current.defaultId { return Err("protected upstream group"), base; }
      var index := GroupIndex(current.groups, id);
      if index < 0 { return Err("upstream group not found"), base; }
      if referenced.None? { return Err("reference check failed"), base; }
      if referenced.value { return Err("upstream group is referenced"), base; }
      var desired := current.(groups := current.groups[..index] + current.groups[index + 1..]);
      ghost var landed;
      Reachable();
      CurrentIsSeen(r0, trace);
      DroppedIsGone(current, index);
      DesiredIsMade(current, DropGroup(id));
      r, landed := ApplyRegistry(current, desired, DropGroup(id), env);
    }

    /** The registry part of UpdateSettings. */
    method UpdateSettings(defaultId: string, cache: string, protection: string, expected: nat, env: WriteEnv)
      returns (r: Result<Registry>, ghost base: Registry)
      requires Valid()
      modifies this`state, this`trace
      ensures Valid() && old(state).log <= state.log && base == old(state).current
      ensures r.Ok? ==> Changed(r0, state, base, PutSettings(defaultId, cache, protection), expected, r.value)
      ensures r.Ok? && env.call.Answered? ==>
        && r.value.groups == base.groups && r.value.schema == base.schema
        && r.value.defaultId == defaultId && r.value.cache == cache && r.value.protection == protection
        && r.value.version in {base.version, base.version + 1}
      ensures if Allowed(env, old(state).current, PutSettings(defaultId, cache, protection), expected)
        then Calm(env) ==> r.Ok?
        else r.Err? && state == old(state)
    {
      hide Replay;
      base := state.current;
      var status := RegistryStatus(env.statusAnswers);
      if status.Err? { return status, base; }
      var current := status.value;
      if expected != current.version { return Err("conflict"), base; }
      if !HasEnabled(current.groups, defaultId) {
        return Err("default upstream group must exist and be enabled"), base;
      }
      var desired := current.(defaultId := defaultId, cache := cache, protection := protection);
      ghost var landed;
      Reachable();
      CurrentIsSeen(r0, trace);
      DesiredIsMade(current, PutSettings(defaultId, cache, protection));
      r, landed := ApplyRegistry(current, desired, PutSettings(defaultId, cache, protection), env);
    }

    /** The registry part of SyncSettings, which names no expected version. */
    method SyncSettings(persistedDefault: Option<string>, cache: string, env: WriteEnv)
      returns (r: Result<Registry>, ghost base: Registry)
      requires Valid()
      modifies this`state, this`trace
      ensures Valid() && old(state).log <= state.log && base == old(state).current
      ensures r.Ok? ==>
        Changed(r0, state, base, UpstreamRegistry.SyncSettings(persistedDefault, cache), base.version, r.value)
      ensures r.Ok? && env.call.Answered? ==>
        && r.value.groups == base.groups && r.value.schema == base.schema && r.value.protection == base.protection
        && r.value.cache == cache
        && r.value.defaultId == (if persistedDefault.Some? then persistedDefault.value else base.defaultId)
        && r.value.version in {base.version, base.version + 1}
      ensures var edit, current := UpstreamRegistry.SyncSettings(persistedDefault, cache), old(state).current;
        if Allowed(env, current, edit, current.version)
        then Calm(env) ==> r.Ok?
        else r.Err? && state == old(state)
    {
      hide Replay;
      base := state.current;
      var status := RegistryStatus(env.statusAnswers);
      if status.Err? { return status, base; }
      var current := status.value;
      var defaultId := if persistedDefault.Some? then persistedDefault.value else current.defaultId;
      if !HasEnabled(current.groups, defaultId) {
        return Err("default upstream group must exist and be enabled"), base;
      }
      var desired := current.(cache := cache, defaultId := defaultId);
      ghost var landed;
      Reachable();
      CurrentIsSeen(r0, trace);
      DesiredIsMade(current, UpstreamRegistry.SyncSettings(persistedDefault, cache));
      r, landed := ApplyRegistry(current, desired, UpstreamRegistry.SyncSettings(persistedDefault, cache), env);
    }
  }

  /** When a success after an unknown outcome is the caller's own edit. A call whose answer was lost: exactly when no
      other edit of the same registry landed before it. A call that was delayed: exactly when its edit is the first of
      that registry to land. */
  lemma UnknownSuccessIsOwnExactlyWhen(r0: Registry, trace: seq<Event>, edit: Edit, env: WriteEnv)
    requires WellFormed(r0) && (env.call.RequestLost? || env.call.AnswerLost?)
    requires var base := Run(Start(r0), trace).current; Desired(base, edit).Ok? && Desired(base, edit).value != base
    ensures var s := Run(Start(r0), trace);
      var base, sent := s.current, Run(s, Happening(s.current, edit, env.(after := [])));
      var t, earlier := Run(s, Happening(base, edit, env)), Landings(s, env.before);
      var later := Landings(sent, env.after);
      t.current.version == base.version + 1 ==>
        (LandedEdit(r0, t, base, edit) <==>
          if earlier != [] then earlier[0].edit == edit
          else env.call.AnswerLost? || (later != [] && later[0].edit == edit))
  {
    hide Desired;
    hide Sequential;
    hide Healthy;
    hide LandedEdit;
    hide AdoptedAfter;
    var s := Run(Start(r0), trace);
    var base := s.current;
    EveryRunIsSequential(r0, trace);
    CurrentIsSeen(r0, trace);
    LandingsAround(s, edit, env);
    OwnOrFirst(r0, trace, edit, Happening(base, edit, env));
  }

  lemma OwnOrFirst(r0: Registry, trace: seq<Event>, edit: Edit, events: seq<Event>)
    requires WellFormed(r0) && Desired(Run(Start(r0), trace).current, edit).Ok?
    ensures var s := Run(Start(r0), trace);
      Run(s, events).current.version == s.current.version + 1 ==>
        && Landings(s, events) != []
        && (LandedEdit(r0, Run(s, events), s.current, edit) <==> Landings(s, events)[0].edit == edit)
  {
    hide Desired;
    hide LandedEdit;
    hide AdoptedAfter;
    hide Healthy;
    var s := Run(Start(r0), trace);
    EveryRunIsSequential(r0, trace);
    EveryRunIsSequential(r0, trace + events);
    RunConcat(Start(r0), trace, events);
    CurrentIsSeen(r0, trace);
    SeenStays(s, events, s.current);
    CurrentAt(r0, Run(s, events), s.current);
    LandingsAreLogged(s, events);
    if Run(s, events).current.version == s.current.version + 1 {
      ReplacedIsLanded(r0, s, s.current, edit, events, Run(s, events).current);
    }
    hide Run;
    hide Landings;
  }

  /** After an unknown outcome success can be another writer's edit: two writers read version 1, the first
      one's request is lost, the second one's is adopted, and the first then sees the version it asked for. */
  lemma UnknownSuccessMayBeAnothers()
    ensures var r0 := Registry(1, 1, 0, "a", "", "", [Group("a", true, "")]);
      var mine, other := PutSettings("a", "1", ""), PutSettings("a", "2", "");
      var s := Run(Start(r0), [Send(r0, mine), Send(r0, other), Land(Request(r0, other))]);
      AppliedAt(s.current, 2, 0) && s.log == [other] && s.current.cache == "2"
  {
    var r0 := Registry(1, 1, 0, "a", "", "", [Group("a", true, "")]);
    var mine, other := PutSettings("a", "1", ""), PutSettings("a", "2", "");
    assert r0.groups[0].id == "a";
    var e0, e1, e2 := Send(r0, mine), Send(r0, other), Land(Request(r0, other));
    assert [e0, e1, e2][..2] == [e0, e1] && [e0, e1][..1] == [e0] && [e0][..0] == [];
    var s0 := Start(r0);
    assert Enabled(s0, e0);
    var s1 := Step(s0, e0);
    assert Enabled(s1, e1);
    var s2 := Step(s1, e1);
    assert Enabled(s2, e2);
    assert Run(s0, [e0]) == s1;
    assert Run(s0, [e0, e1]) == s2;
  }
}
