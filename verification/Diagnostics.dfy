/** The answer-diagnostics cache: a bounded first-in first-out cache whose order list is shifted in place. */
module Diagnostics {
  import opened Events

  const MAX_DIAGNOSTICS := 1024

  datatype Entry = Entry(eventId: string, answers: seq<string>)

  /** The specification: the entries, oldest first. */
  predicate Distinct(entries: seq<Entry>) {
    forall i, j | 0 <= i < j < |entries| :: entries[i].eventId != entries[j].eventId
  }

  predicate Knows(entries: seq<Entry>, id: string) {
    exists i :: 0 <= i < |entries| && entries[i].eventId == id
  }

  /** Inserting a present id changes nothing; an overflow evicts exactly the oldest entry. */
  function Insert(entries: seq<Entry>, e: Event): seq<Entry> {
    if Knows(entries, e.eventId) then entries
    else
      var all := entries + [Entry(e.eventId, e.answers)];
      if |all| > MAX_DIAGNOSTICS then all[1..] else all
  }

  function InsertAll(entries: seq<Entry>, events: seq<Event>): seq<Entry> {
    if events == [] then entries else Insert(InsertAll(entries, events[..|events| - 1]), events[|events| - 1])
  }

  class Cache {
    /** The map of the cache, and the order list in the first length cells of a slice. */
    var diagnostics: map<string, seq<string>>
    const order: array<string>
    var length: nat
    ghost var entries: seq<Entry>

    /** The map and the order list hold exactly the entries, oldest first. */
    ghost predicate Holds()
      reads this, order
    {
      && order.Length == MAX_DIAGNOSTICS + 1 && length == |entries| <= order.Length
      && Distinct(entries)
      && (forall i | 0 <= i < length :: order[i] == entries[i].eventId)
      && (forall id | id in diagnostics :: Knows(entries, id))
      && (forall i | 0 <= i < length ::
            entries[i].eventId in diagnostics && diagnostics[entries[i].eventId] == entries[i].answers)
    }

    ghost predicate Valid()
      reads this, order
    {
      Holds() && |entries| <= MAX_DIAGNOSTICS
    }

    /** The map's keys are the elements of the order list, which repeats none. */
    lemma KeysAreOrder()
      requires Valid()
      ensures diagnostics.Keys == set i | 0 <= i < length :: order[i]
      ensures forall i, j | 0 <= i < j < length :: order[i] != order[j]
    {
      forall id ensures id in diagnostics.Keys <==> id in set i | 0 <= i < length :: order[i] {
        if id in diagnostics {
          var i :| 0 <= i < |entries| && entries[i].eventId == id;
          assert order[i] == id;
        }
      }
    }

    constructor ()
      ensures Valid() && entries == [] && fresh(order)
    {
      diagnostics, length, entries := map[], 0, [];
      order := new string[MAX_DIAGNOSTICS + 1](_ => "");
    }

    /** copy(order, order[1:]): every element moves one place down. */
    method ShiftDown()
      requires 0 < length <= order.Length
      modifies order, this`length
      ensures length == old(length) - 1
      ensures forall i | 0 <= i < length :: order[i] == old(order[i + 1])
    {
      for i := 0 to length - 1
        invariant length == old(length)
        invariant forall k | 0 <= k < i :: order[k] == old(order[k + 1])
        invariant forall k | i <= k < length :: order[k] == old(order[k])
      {
        order[i] := order[i + 1];
      }
      length := length - 1;
    }

    /** The map and order appends. */
    method Append(event: Event)
      requires Valid() && !Knows(entries, event.eventId)
      modifies this, order
      ensures Holds() && entries == old(entries) + [Entry(event.eventId, event.answers)]
    {
      ghost var was := entries;
      diagnostics := diagnostics[event.eventId := event.answers];
      order[length] := event.eventId;
      length := length + 1;
      entries := was + [Entry(event.eventId, event.answers)];
      assert entries[|was|].eventId == event.eventId;
      forall id | id in diagnostics ensures Knows(entries, id) {
        if id != event.eventId {
          var i :| 0 <= i < |was| && was[i].eventId == id;
          assert entries[i].eventId == id;
        }
      }
    }

    /** The oldest entry goes: out of the map, and out of the list by the in-place shift. */
    method EvictOldest()
      requires Holds() && length > 0
      modifies this, order
      ensures Holds() && entries == old(entries)[1..]
    {
      ghost var was := entries;
      var oldest := order[0];
      diagnostics := diagnostics - {oldest};
      ShiftDown();
      entries := was[1..];
      assert forall i | 0 <= i < |entries| :: entries[i] == was[i + 1] && was[i + 1].eventId != was[0].eventId;
      forall id | id in diagnostics ensures Knows(entries, id) {
        var i :| 0 <= i < |was| && was[i].eventId == id;
        assert entries[i - 1].eventId == id;
      }
    }

    /** One event of cacheAnswerDiagnostics. */
    method Add(event: Event)
      requires Valid()
      modifies this, order
      ensures Valid() && entries == Insert(old(entries), event)
    {
      hide Distinct;
      KnownIsKey(event.eventId);
      if event.eventId in diagnostics {
        return;
      }
      Append(event);
      if length > MAX_DIAGNOSTICS {
        EvictOldest();
      }
    }

    lemma KnownIsKey(id: string)
      requires Valid()
      ensures id in diagnostics <==> Knows(entries, id)
    {}

    /** cacheAnswerDiagnostics. */
    method AddAll(events: seq<Event>)
      requires Valid()
      modifies this, order
      ensures Valid() && entries == InsertAll(old(entries), events)
    {
      for i := 0 to |events|
        invariant Valid() && entries == InsertAll(old(entries), events[..i])
      {
        assert events[..i + 1][..i] == events[..i];
        Add(events[i]);
      }
      assert events[..|events|] == events;
    }

    /** AnswerDiagnostics: the entry with the id, if it is still there. */
    method Lookup(id: string) returns (answers: seq<string>, ok: bool)
      requires Valid()
      ensures ok <==> Knows(entries, id)
      ensures ok ==> Entry(id, answers) in entries
    {
      KnownIsKey(id);
      if id !in diagnostics {
        return [], false;
      }
      ghost var i :| 0 <= i < |entries| && entries[i].eventId == id;
      assert entries[i] == Entry(id, diagnostics[id]);
      answers, ok := diagnostics[id], true;
    }
  }

  // ---- what the specification promises --------------------------------------------------------------

  /** The distinct entries of everything ever inserted, when nothing repeats after its eviction: the cache keeps
      the newest of them. */
  lemma {:induction false} KeepsTheNewest(events: seq<Event>)
    requires forall i, j | 0 <= i < j < |events| :: events[i].eventId != events[j].eventId
    ensures var n := |events|;
      var kept := InsertAll([], events);
      && |kept| == (if n <= MAX_DIAGNOSTICS then n else MAX_DIAGNOSTICS)
      && forall i | 0 <= i < |kept| :: kept[i] == Entry(events[n - |kept| + i].eventId, events[n - |kept| + i].answers)
  {
    if events != [] {
      var front := events[..|events| - 1];
      assert forall i | 0 <= i < |front| :: front[i] == events[i];
      KeepsTheNewest(front);
      var kept := InsertAll([], front);
      assert !Knows(kept, events[|events| - 1].eventId);
    }
  }

  lemma {:induction false} StaysBounded(entries: seq<Entry>, events: seq<Event>)
    requires Distinct(entries) && |entries| <= MAX_DIAGNOSTICS
    ensures Distinct(InsertAll(entries, events)) && |InsertAll(entries, events)| <= MAX_DIAGNOSTICS
  {
    if events != [] { StaysBounded(entries, events[..|events| - 1]); }
  }
}
