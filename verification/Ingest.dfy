/** The ingest queue and its writer: batches enter whole, and every accepted event is accounted for. */
module Ingest {
  import opened Text
  import opened Events
  import opened Aggregates
  import opened Storage = EventStore

  const CAPACITY := 8192
  const BATCH_SIZE := 500
  const MAX_BATCH := 500

  datatype Batch = Batch(schema: int, sender: string, sentAt: int, events: seq<Event>)

  predicate ValidBatch(b: Batch, parses: string -> bool) {
    && (b.schema == 2 || b.schema == 3) && 1 <= ByteLen(b.sender) <= 128 && b.sentAt > 0
    && 1 <= |b.events| <= MAX_BATCH
    && forall i | 0 <= i < |b.events| :: ValidEvent(b.events[i], parses)
  }

  /** validateBatch. */
  method CheckBatch(b: Batch, parses: string -> bool) returns (ok: bool)
    ensures ok <==> ValidBatch(b, parses)
  {
    hide ByteLen;
    hide ValidEvent;
    if (b.schema != 2 && b.schema != 3) || ByteLen(b.sender) == 0 || ByteLen(b.sender) > 128 || b.sentAt <= 0
      || |b.events| == 0 || |b.events| > MAX_BATCH {
      return false;
    }
    for i := 0 to |b.events|
      invariant forall k | 0 <= k < i :: ValidEvent(b.events[k], parses)
    {
      var fine := CheckEvent(b.events[i], parses);
      if !fine {
        return false;
      }
    }
    ok := true;
  }

  datatype Outcome = Accepted | Invalid | Overloaded

  /** What the writer's select picks: an event, the ticker. fails says which statements of a flush fail. */
  datatype WriterStep = Take(fails: nat -> bool) | Tick(fails: nat -> bool)

  /** What happens to the store: a flush, with the event ids stored before it, whether it committed and the rows it
      stored; a clear of the query history; or a retention, with the event ids it leaves. */
  datatype Moment =
    | Flush(events: seq<Event>, known: set<string>, committed: bool, stored: seq<StoredEvent>)
    | Cleared
    | Retained(left: set<string>)

  /** The events handed to persist, in order. */
  ghost function Flushed(moments: seq<Moment>): seq<Event> {
    if moments == [] then []
    else
      var front, last := Flushed(moments[..|moments| - 1]), moments[|moments| - 1];
      if last.Flush? then front + last.events else front
  }

  /** What subscribers are shown: the stored rows of the committed flushes, in order. */
  ghost function Published(moments: seq<Moment>): seq<StoredEvent> {
    if moments == [] then []
    else
      var front, last := Published(moments[..|moments| - 1]), moments[|moments| - 1];
      if last.Flush? then front + last.stored else front
  }

  ghost function Dropped(moments: seq<Moment>): nat {
    if moments == [] then 0
    else
      var last := moments[|moments| - 1];
      Dropped(moments[..|moments| - 1]) + if last.Flush? && !last.committed then |last.events| else 0
  }

  /** The id is already stored, or stands earlier in the batch. */
  predicate IsDuplicate(events: seq<Event>, known: set<string>, i: nat)
    requires i < |events|
  {
    events[i].eventId in known || exists k :: 0 <= k < i && events[k].eventId == events[i].eventId
  }

  ghost function DuplicatesIn(events: seq<Event>, known: set<string>): set<nat> {
    set i: nat | i < |events| && IsDuplicate(events, known, i)
  }

  ghost function Duplicates(moments: seq<Moment>): nat {
    if moments == [] then 0
    else
      var last := moments[|moments| - 1];
      Duplicates(moments[..|moments| - 1])
        + if last.Flush? && last.committed then |DuplicatesIn(last.events, last.known)| else 0
  }

  /** The event ids stored after all that. */
  ghost function KnownAfter(moments: seq<Moment>): set<string> {
    if moments == [] then {}
    else
      var front := KnownAfter(moments[..|moments| - 1]);
      match moments[|moments| - 1]
      case Flush(events, _, committed, _) => if committed then front + IdsOf(events) else front
      case Cleared => {}
      case Retained(left) => left
  }

  /** The events committed since the last clear. */
  ghost function LogAfter(moments: seq<Moment>): seq<Event> {
    if moments == [] then []
    else
      var front := LogAfter(moments[..|moments| - 1]);
      match moments[|moments| - 1]
      case Flush(events, known, committed, _) => if committed then front + Fresh(events, known) else front
      case Cleared => []
      case Retained(_) => front
  }

  /** A flush met the ids the store really had; a committed one stored the events that were no duplicates, under the
      next row ids, and a failed one nothing. A retention adds no ids. */
  ghost predicate MomentOk(moments: seq<Moment>, i: nat)
    requires i < |moments|
  {
    var before := moments[..i];
    match moments[i]
    case Flush(events, known, committed, stored) =>
      && known == KnownAfter(before)
      && stored == if committed then RowsFrom(Fresh(events, known), |Published(before)|) else []
    case Cleared => true
    case Retained(left) => left <= KnownAfter(before)
  }

  ghost predicate MomentsOk(moments: seq<Moment>) {
    forall i | 0 <= i < |moments| :: MomentOk(moments, i)
  }

  /** The moments account for the store: its ids, its log, and its row counter; and what was published since the
      last clear are the rows of the log. */
  ghost predicate Recorded(
    moments: seq<Moment>, queries: map<int, StoredEvent>, lastId: int, log: seq<Event>, base: int)
  {
    && MomentsOk(moments)
    && EventIds(queries) == KnownAfter(moments) && log == LogAfter(moments) && lastId == |Published(moments)|
    && 0 <= base <= lastId && Published(moments)[base..] == RowsFrom(log, base)
  }

  lemma NextMoment(moments: seq<Moment>, m: Moment)
    requires MomentsOk(moments) && MomentOk(moments + [m], |moments|)
    ensures MomentsOk(moments + [m])
  {
    var more := moments + [m];
    forall i | 0 <= i < |moments| ensures MomentOk(more, i) {
      assert MomentOk(moments, i) && more[..i] == moments[..i];
    }
  }

  lemma RowsOneAfterAnother(a: seq<Event>, b: seq<Event>, base: int)
    ensures RowsFrom(a + b, base) == RowsFrom(a, base) + RowsFrom(b, base + |a|)
  {
    hide FromEvent;
  }

  lemma FlushIsRecorded(
    moments: seq<Moment>, queries: map<int, StoredEvent>, lastId: int, log: seq<Event>, base: int,
    events: seq<Event>, committed: bool, stored: seq<StoredEvent>, after: map<int, StoredEvent>)
    requires Recorded(moments, queries, lastId, log, base) && lastId == base + |log|
    requires stored == if committed then RowsFrom(Fresh(events, EventIds(queries)), lastId) else []
    requires EventIds(after) == EventIds(queries) + if committed then IdsOf(events) else {}
    ensures var added := if committed then Fresh(events, EventIds(queries)) else [];
      Recorded(
        moments + [Flush(events, EventIds(queries), committed, stored)], after, lastId + |added|, log + added, base)
  {
    hide Fresh;
    hide IdsOf;
    hide EventIds;
    hide FromEvent;
    var m := Flush(events, EventIds(queries), committed, stored);
    var more := moments + [m];
    assert more[..|moments|] == moments;
    NextMoment(moments, m);
    hide MomentsOk;
    var added := if committed then Fresh(events, EventIds(queries)) else [];
    RowsOneAfterAnother(log, added, base);
    assert stored == RowsFrom(added, lastId);
    assert Published(more) == Published(moments) + stored;
    assert Published(more)[base..] == Published(moments)[base..] + stored;
    assert log + [] == log;
  }

  lemma ClearIsRecorded(moments: seq<Moment>, queries: map<int, StoredEvent>, lastId: int, log: seq<Event>, base: int)
    requires Recorded(moments, queries, lastId, log, base)
    ensures Recorded(moments + [Cleared], map[], lastId, [], lastId)
  {
    hide FromEvent;
    assert (moments + [Cleared])[..|moments|] == moments;
    NextMoment(moments, Cleared);
    hide MomentsOk;
  }

  lemma RetentionIsRecorded(
    moments: seq<Moment>, queries: map<int, StoredEvent>, lastId: int, log: seq<Event>, base: int,
    after: map<int, StoredEvent>)
    requires Recorded(moments, queries, lastId, log, base) && EventIds(after) <= EventIds(queries)
    ensures Recorded(moments + [Retained(EventIds(after))], after, lastId, log, base)
  {
    hide FromEvent;
    hide EventIds;
    assert (moments + [Retained(EventIds(after))])[..|moments|] == moments;
    NextMoment(moments, Retained(EventIds(after)));
    hide MomentsOk;
  }

  lemma DuplicatesOneMore(events: seq<Event>, known: set<string>, n: nat)
    requires |events| == n + 1
    ensures DuplicatesIn(events, known)
      == DuplicatesIn(events[..n], known) + if IsDuplicate(events, known, n) then {n} else {}
  {
    var front := events[..n];
    assert forall k | 0 <= k < n :: front[k] == events[k];
    forall i: nat | i < n ensures IsDuplicate(events, known, i) <==> IsDuplicate(front, known, i) {
      if k :| 0 <= k < i && events[k].eventId == events[i].eventId { assert front[k].eventId == front[i].eventId; }
    }
  }

  /** Each event of a batch is inserted or is a duplicate, and none is both. */
  lemma {:induction false} FreshOrDuplicate(events: seq<Event>, known: set<string>)
    ensures |Fresh(events, known)| + |DuplicatesIn(events, known)| == |events|
  {
    if events != [] {
      var n := |events| - 1;
      FreshOrDuplicate(events[..n], known);
      DuplicatesOneMore(events, known, n);
      assert n !in DuplicatesIn(events[..n], known);
      hide DuplicatesIn;
    }
  }

  /** Conservation: what was flushed is newly stored, a duplicate, or dropped with a failed flush. */
  lemma {:induction false} FlushedIsAccountedFor(moments: seq<Moment>)
    requires MomentsOk(moments)
    ensures |Flushed(moments)| == |Published(moments)| + Duplicates(moments) + Dropped(moments)
  {
    hide Fresh;
    hide DuplicatesIn;
    hide KnownAfter;
    if moments != [] {
      var n := |moments| - 1;
      var front, last := moments[..n], moments[n];
      forall i | 0 <= i < n ensures MomentOk(front, i) {
        assert MomentOk(moments, i) && front[..i] == moments[..i];
      }
      FlushedIsAccountedFor(front);
      assert MomentOk(moments, n);
      if last.Flush? && last.committed {
        FreshOrDuplicate(last.events, last.known);
      }
    }
  }

  lemma AccountedFor(moments: seq<Moment>, queries: map<int, StoredEvent>, lastId: int, log: seq<Event>, base: int)
    requires Recorded(moments, queries, lastId, log, base)
    ensures |Flushed(moments)| == |Published(moments)| + Duplicates(moments) + Dropped(moments)
  {
    FlushedIsAccountedFor(moments);
  }

  /** A row that is in the store is the row that was published under its id. */
  lemma StoredRowsWerePublished(
    moments: seq<Moment>, queries: map<int, StoredEvent>, lastId: int, log: seq<Event>, base: int)
    requires Recorded(moments, queries, lastId, log, base) && RowsOk(queries, lastId, log, base)
    ensures forall id | id in queries :: 1 <= id <= |Published(moments)| && queries[id] == Published(moments)[id - 1]
  {
    hide FromEvent;
    hide MomentsOk;
    forall id | id in queries ensures 1 <= id <= |Published(moments)| && queries[id] == Published(moments)[id - 1] {
      assert Published(moments)[base..][id - 1 - base] == RowsFrom(log, base)[id - 1 - base];
    }
  }

  class IngestService {
    const store: EventStore
    const parses: string -> bool
    var queue: seq<Event>
    var buffer: seq<Event>
    ghost var accepted: seq<Event>
    ghost var moments: seq<Moment>

    ghost predicate Valid()
      reads this, store
    {
      && store.Valid()
      && |queue| <= CAPACITY && |buffer| < BATCH_SIZE
      && accepted == Flushed(moments) + buffer + queue
      && Recorded(moments, store.queries, store.lastId, store.log, store.base)
    }

    constructor (parses: string -> bool)
      ensures Valid() && fresh(store) && this.parses == parses
      ensures accepted == [] && queue == [] && buffer == [] && moments == []
    {
      this.store := new EventStore();
      this.parses := parses;
      queue, buffer, accepted, moments := [], [], [], [];
    }

    /** The flush closure: hand the buffer to the store; a failed flush loses its events. */
    method FlushBuffer(events: seq<Event>, fails: nat -> bool) returns (stored: seq<StoredEvent>)
      requires store.Valid() && Recorded(moments, store.queries, store.lastId, store.log, store.base)
      modifies this`moments, store
      ensures store.Valid() && Recorded(moments, store.queries, store.lastId, store.log, store.base)
      ensures old(moments) <= moments
      ensures events == [] ==> moments == old(moments)
      ensures events != [] ==>
        && |moments| == |old(moments)| + 1
        && moments[|old(moments)|].Flush? && moments[|old(moments)|].events == events
        && moments[|old(moments)|].known == EventIds(old(store.queries))
        && ((forall k: nat :: !fails(k)) ==> moments[|old(moments)|].committed)
      ensures Flushed(moments) == Flushed(old(moments)) + events
      ensures Published(moments) == Published(old(moments)) + stored
    {
      hide Recorded;
      hide EventIds;
      hide Fresh;
      hide TablesMirror;
      if |events| == 0 {
        assert Flushed(moments) + events == Flushed(moments);
        assert Published(moments) + [] == Published(moments);
        return [];
      }
      ghost var queries, lastId, log, base := store.queries, store.lastId, store.log, store.base;
      var committed;
      committed, stored := store.Persist(events, fails);
      FlushIsRecorded(moments, queries, lastId, log, base, events, committed, stored, store.queries);
      assert log + [] == log;
      ghost var f := Flush(events, EventIds(queries), committed, stored);
      assert (moments + [f])[..|moments|] == moments;
      moments := moments + [f];
    }

    /** ClearQueryHistory through the service: the queue and the buffer keep what they hold. */
    method ClearHistory(fails: nat -> bool) returns (cleared: bool)
      requires Valid()
      modifies this`moments, store
      ensures Valid() && cleared == (forall k: nat | k < 8 :: !fails(k))
      ensures moments == old(moments) + if cleared then [Cleared] else []
      ensures Published(moments) == Published(old(moments))
      ensures cleared ==> store.queries == map[] && store.tables == EMPTY
    {
      hide Recorded;
      hide EventStore.Valid;
      ghost var queries, lastId, log, base := store.queries, store.lastId, store.log, store.base;
      cleared := store.ClearQueryHistory(fails);
      if cleared {
        ClearIsRecorded(moments, queries, lastId, log, base);
        assert (moments + [Cleared])[..|moments|] == moments;
        moments := moments + [Cleared];
      }
    }

    /** One retention run beside the writer. */
    method Maintain(r: Retention, fails: nat -> bool) returns (ok: bool, done: nat)
      requires Valid() && (r.oversized ==> AreOldest(Unexpired(store.queries, r.rawBefore), r.oldest))
      modifies this`moments, store`queries, store`tables, store`history
      ensures Valid() && moments == old(moments) + [Retained(EventIds(store.queries))]
      ensures Published(moments) == Published(old(moments))
      ensures store.queries.Keys <= old(store.queries).Keys
    {
      hide Recorded;
      hide EventIds;
      hide AreOldest;
      ghost var queries, lastId, log, base := store.queries, store.lastId, store.log, store.base;
      ok, done := store.Retain(r, fails);
      RetentionIsRecorded(moments, queries, lastId, log, base, store.queries);
      ghost var m := Retained(EventIds(store.queries));
      assert (moments + [m])[..|moments|] == moments;
      moments := moments + [m];
    }

    /** The writer takes an event into the buffer, and flushes it when full. */
    method TakeOne(fails: nat -> bool) returns (stored: seq<StoredEvent>)
      requires Valid() && queue != []
      modifies this`queue, this`buffer, this`moments, store
      ensures Valid() && queue == old(queue)[1..] && old(moments) <= moments
      ensures Published(moments) == Published(old(moments)) + stored
    {
      hide Recorded;
      hide EventStore.Valid;
      hide Flushed;
      hide Published;
      stored := [];
      ghost var waiting := buffer + queue;
      buffer := buffer + [queue[0]];
      queue := queue[1..];
      assert buffer + queue == waiting;
      if |buffer| == BATCH_SIZE {
        stored := FlushBuffer(buffer, fails);
        buffer := [];
      }
    }

    /** One turn of the writer: an event is moved to the buffer, or a tick flushes the buffer. */
    method Write(step: WriterStep) returns (stored: seq<StoredEvent>)
      requires Valid()
      modifies this`queue, this`buffer, this`moments, store
      ensures Valid() && |queue| <= |old(queue)|
      ensures old(moments) <= moments
      ensures Published(moments) == Published(old(moments)) + stored
      ensures step.Tick? ==> buffer == [] && queue == old(queue)
      ensures step.Take? && old(queue) != [] ==> queue == old(queue)[1..]
    {
      hide Recorded;
      hide EventStore.Valid;
      hide Flushed;
      hide Published;
      stored := [];
      match step
      case Take(fails) =>
        if |queue| > 0 { stored := TakeOne(fails); }
      case Tick(fails) =>
        stored := FlushBuffer(buffer, fails);
        buffer := [];
    }

    method WriteAll(steps: seq<WriterStep>) returns (stored: seq<StoredEvent>)
      requires Valid()
      modifies this`queue, this`buffer, this`moments, store
      ensures Valid() && |queue| <= |old(queue)| && old(moments) <= moments
      ensures Published(moments) == Published(old(moments)) + stored
    {
      hide Published;
      hide Valid;
      stored := [];
      for i := 0 to |steps|
        invariant Valid() && |queue| <= |old(queue)| && old(moments) <= moments
        invariant Published(moments) == Published(old(moments)) + stored
      {
        var more := Write(steps[i]);
        stored := stored + more;
      }
    }

    /** One push of Enqueue, after whatever the writer has drained; it never finds the queue full. */
    method Push(e: Event, steps: seq<WriterStep>) returns (stored: seq<StoredEvent>)
      requires Valid() && |queue| < CAPACITY
      modifies this, store
      ensures Valid() && old(moments) <= moments && |queue| <= |old(queue)| + 1
      ensures accepted == old(accepted) + [e]
      ensures Published(moments) == Published(old(moments)) + stored
    {
      hide Recorded;
      hide EventStore.Valid;
      hide Flushed;
      hide Published;
      stored := WriteAll(steps);
      if |queue| < CAPACITY {
        queue := queue + [e];
        accepted := accepted + [e];
        assert accepted == Flushed(moments) + buffer + queue;
      } else {
        assert false;
      }
    }

    /** Enqueue: whatever the writer drains between two pushes (writer(i) happens before push i), the batch is
        accepted whole or not at all; a push never finds the queue full. */
    method Enqueue(batch: Batch, writer: nat -> seq<WriterStep>)
      returns (r: Outcome, stored: seq<StoredEvent>)
      requires Valid()
      modifies this, store
      ensures Valid() && old(moments) <= moments
      ensures Published(moments) == Published(old(moments)) + stored
      ensures r == Accepted ==> accepted == old(accepted) + batch.events
      ensures r != Accepted ==> accepted == old(accepted) && queue == old(queue) && moments == old(moments)
      ensures r == Invalid <==> !ValidBatch(batch, parses)
      ensures r == Overloaded <==> ValidBatch(batch, parses) && |old(queue)| + |batch.events| > CAPACITY
    {
      hide Valid;
      hide Published;
      hide ValidBatch;
      stored := [];
      var valid := CheckBatch(batch, parses);
      if !valid {
        return Invalid, [];
      }
      if |queue| + |batch.events| > CAPACITY {
        return Overloaded, [];
      }
      for i := 0 to |batch.events|
        invariant Valid() && old(moments) <= moments
        invariant Published(moments) == Published(old(moments)) + stored
        invariant accepted == old(accepted) + batch.events[..i]
        invariant |queue| + |batch.events| - i <= CAPACITY
      {
        var more := Push(batch.events[i], writer(i));
        stored := stored + more;
        assert batch.events[..i + 1] == batch.events[..i] + [batch.events[i]];
      }
      assert batch.events[..|batch.events|] == batch.events;
      r := Accepted;
    }

    /** Shutdown: the writer drains the queue and flushes once more; nothing accepted stays behind. */
    method Finish(fails: nat -> bool) returns (stored: seq<StoredEvent>)
      requires Valid()
      modifies this`queue, this`buffer, this`moments, store
      ensures Valid() && queue == [] && buffer == [] && Flushed(moments) == accepted
      ensures Published(moments) == Published(old(moments)) + stored
      ensures |accepted| == |Published(moments)| + Duplicates(moments) + Dropped(moments)
    {
      hide Recorded;
      hide TablesMirror;
      hide RowsOk;
      hide Flushed;
      hide Published;
      var rest := buffer;
      while |queue| > 0
        invariant store.Valid() && Recorded(moments, store.queries, store.lastId, store.log, store.base)
        invariant accepted == Flushed(moments) + rest + queue
        invariant moments == old(moments) && |queue| <= CAPACITY
        decreases |queue|
      {
        ghost var waiting := rest + queue;
        rest := rest + [queue[0]];
        queue := queue[1..];
        assert rest + queue == waiting;
      }
      assert rest + queue == rest;
      stored := FlushBuffer(rest, fails);
      buffer := [];
      AccountedFor(moments, store.queries, store.lastId, store.log, store.base);
    }

    /** At any moment: accepted = queued + buffered + newly stored + duplicates + dropped; and what the store holds are
        rows that were published, under the ids they were published with. */
    lemma Conservation()
      requires Valid()
      ensures |accepted| == |queue| + |buffer| + |Published(moments)| + Duplicates(moments) + Dropped(moments)
      ensures Flushed(moments) <= accepted
      ensures forall id | id in store.queries ::
        1 <= id <= |Published(moments)| && store.queries[id] == Published(moments)[id - 1]
      ensures Published(moments)[store.base..] == RowsFrom(store.log, store.base)
    {
      hide TablesMirror;
      FlushedIsAccountedFor(moments);
      StoredRowsWerePublished(moments, store.queries, store.lastId, store.log, store.base);
    }
  }
}
