/** The query-event store: a deduplicating transaction over the raw table and the six hourly tables. */
module EventStore {
  import opened Events
  import opened Aggregates

  function EventIds(queries: map<int, StoredEvent>): set<string> {
    set id | id in queries :: queries[id].eventId
  }

  ghost function IdsOf(events: seq<Event>): set<string> {
    set k | 0 <= k < |events| :: events[k].eventId
  }

  ghost function RowSet(queries: map<int, StoredEvent>): set<StoredEvent> {
    set id | id in queries :: queries[id]
  }

  /** The events of a batch that INSERT OR IGNORE really inserts: the first of each id not yet stored. */
  function Fresh(events: seq<Event>, known: set<string>): seq<Event> {
    if events == [] then []
    else
      var front, e := Fresh(events[..|events| - 1], known), events[|events| - 1];
      if e.eventId in known || exists i :: 0 <= i < |events| - 1 && events[i].eventId == e.eventId
      then front else front + [e]
  }

  function RowsFrom(events: seq<Event>, lastId: int): seq<StoredEvent> {
    seq(|events|, i requires 0 <= i < |events| => FromEvent(events[i], lastId + 1 + i))
  }

  lemma RowsRecord(events: seq<Event>, lastId: int)
    ensures forall i | 0 <= i < |events| ::
      RowsFrom(events, lastId)[i].id == lastId + 1 + i && Records(RowsFrom(events, lastId)[i], events[i])
  {
    hide FromEvent;
    hide Records;
    forall i | 0 <= i < |events|
      ensures RowsFrom(events, lastId)[i].id == lastId + 1 + i && Records(RowsFrom(events, lastId)[i], events[i])
    {
      FromEventRecords(events[i], lastId + 1 + i);
    }
  }

  predicate UniqueEventIds(log: seq<Event>) {
    forall i, j | 0 <= i < j < |log| :: log[i].eventId != log[j].eventId
  }

  /** Row ids are handed out in the order of the log, from base on, and event ids are unique. */
  ghost predicate RowsOk(rows: map<int, StoredEvent>, lastId: int, log: seq<Event>, base: int) {
    && lastId == base + |log| && 0 <= base
    && (forall id | id in rows :: base < id <= lastId && rows[id] == FromEvent(log[id - base - 1], id))
    && (forall a, b | a in rows && b in rows && a != b :: rows[a].eventId != rows[b].eventId)
  }

  /** Every event counted, in order. */
  ghost function CountedAll(events: seq<Event>): seq<Entry> {
    seq(|events|, i requires 0 <= i < |events| => Counted(events[i]))
  }

  lemma {:induction false} CountedAllLog(history: seq<Entry>, events: seq<Event>)
    ensures LogOf(history + CountedAll(events)) == LogOf(history) + events
  {
    hide LogOf;
    if events == [] {
      assert history + CountedAll([]) == history;
    } else {
      var n := |events| - 1;
      CountedAllLog(history, events[..n]);
      assert CountedAll(events) == CountedAll(events[..n]) + [Counted(events[n])];
      assert history + CountedAll(events) == history + CountedAll(events[..n]) + [Counted(events[n])];
      LogOneMore(history + CountedAll(events[..n]), Counted(events[n]));
      assert events == events[..n] + [events[n]];
    }
  }

  // ---- retention ----------------------------------------------------------------------------------

  const SIZE_BATCH := 10000

  /** What one retain run computes from the clock, the settings and the size of the database: the cut-off of the
      client-domain table (90 days back), of the other hourly tables (one year) and of the raw rows; whether the
      database is too large; and then the oldest rows left. */
  datatype Retention = Retention(pairBefore: int, yearBefore: int, rawBefore: int, oversized: bool, oldest: set<int>)

  function RetentionEntries(r: Retention): (entries: seq<Entry>)
    ensures |entries| == 6 && forall i | 0 <= i < 6 :: entries[i].Trimmed?
  {
    [Trimmed(PairTable, r.pairBefore), Trimmed(DomainTable, r.yearBefore), Trimmed(ClientTable, r.yearBefore),
     Trimmed(GlobalTable, r.yearBefore), Trimmed(GroupTable, r.yearBefore), Trimmed(BucketTable, r.yearBefore)]
  }

  function Unexpired(queries: map<int, StoredEvent>, before: int): map<int, StoredEvent> {
    map id | id in queries && queries[id].timestamp >= before :: queries[id]
  }

  /** ORDER BY timestamp LIMIT: as many rows as the limit allows, none of them younger than a row left. */
  ghost predicate AreOldest(queries: map<int, StoredEvent>, ids: set<int>) {
    && ids <= queries.Keys && |ids| == (if |queries| < SIZE_BATCH then |queries| else SIZE_BATCH)
    && forall a, b | a in ids && b in queries && b !in ids :: queries[a].timestamp <= queries[b].timestamp
  }

  lemma {:induction false} HourSince(log: seq<Event>, before: int, hour: int)
    ensures HourCount(Since(log, before), hour) == if hour >= before then HourCount(log, hour) else 0
  {
    if log != [] {
      var front, e := log[..|log| - 1], log[|log| - 1];
      HourSince(front, before, hour);
      hide HourOf;
      OneMore(Since(front, before), e);
    }
  }

  lemma AfterEntries(history: seq<Entry>, r: Retention)
    ensures var after := history + RetentionEntries(r);
      && KeptBy(after, PairTable) == Since(KeptBy(history, PairTable), r.pairBefore)
      && KeptBy(after, DomainTable) == Since(KeptBy(history, DomainTable), r.yearBefore)
      && KeptBy(after, ClientTable) == Since(KeptBy(history, ClientTable), r.yearBefore)
      && KeptBy(after, GlobalTable) == Since(KeptBy(history, GlobalTable), r.yearBefore)
      && KeptBy(after, BucketTable) == Since(KeptBy(history, BucketTable), r.yearBefore)
    ensures KeptBy(Grouped(history + RetentionEntries(r)), GroupTable)
      == Since(KeptBy(Grouped(history), GroupTable), r.yearBefore)
  {
    var e := RetentionEntries(r);
    var h0 := history;
    var h1 := h0 + [e[0]];
    var h2 := h1 + [e[1]];
    var h3 := h2 + [e[2]];
    var h4 := h3 + [e[3]];
    var h5 := h4 + [e[4]];
    assert h5 + [e[5]] == history + e;
    TrimmedOneMore(h0, PairTable, r.pairBefore);
    TrimmedOneMore(h1, DomainTable, r.yearBefore);
    TrimmedOneMore(h2, ClientTable, r.yearBefore);
    TrimmedOneMore(h3, GlobalTable, r.yearBefore);
    TrimmedOneMore(h4, GroupTable, r.yearBefore);
    TrimmedOneMore(h5, BucketTable, r.yearBefore);
    hide KeptBy;
    hide Grouped;
    hide Since;
  }

  /** A complete retention leaves each table exactly the hours from its cut-off on, counted as before. */
  lemma RetentionKeepsHours(before: Tables, after: Tables, history: seq<Entry>, r: Retention, hour: int)
    requires TablesMirror(before, history) && TablesMirror(after, history + RetentionEntries(r))
    ensures PairCount(after, hour) == if hour >= r.pairBefore then PairCount(before, hour) else 0
    ensures DomainCount(after, hour) == if hour >= r.yearBefore then DomainCount(before, hour) else 0
    ensures ClientCount(after, hour) == if hour >= r.yearBefore then ClientCount(before, hour) else 0
    ensures GlobalCount(after, hour) == if hour >= r.yearBefore then GlobalCount(before, hour) else 0
    ensures GroupCount(after, hour) == if hour >= r.yearBefore then GroupCount(before, hour) else 0
    ensures BucketCount(after, hour) == if hour >= r.yearBefore then BucketCount(before, hour) else 0
  {
    HourCounts(before, history, hour);
    HourCounts(after, history + RetentionEntries(r), hour);
    AfterEntries(history, r);
    HourSince(KeptBy(history, PairTable), r.pairBefore, hour);
    HourSince(KeptBy(history, DomainTable), r.yearBefore, hour);
    HourSince(KeptBy(history, ClientTable), r.yearBefore, hour);
    HourSince(KeptBy(history, GlobalTable), r.yearBefore, hour);
    HourSince(KeptBy(Grouped(history), GroupTable), r.yearBefore, hour);
    HourSince(KeptBy(history, BucketTable), r.yearBefore, hour);
    hide *;
  }

  lemma FewerRowsOk(rows: map<int, StoredEvent>, fewer: map<int, StoredEvent>, lastId: int, log: seq<Event>, base: int)
    requires RowsOk(rows, lastId, log, base) && forall id | id in fewer :: id in rows && fewer[id] == rows[id]
    ensures RowsOk(fewer, lastId, log, base)
    ensures EventIds(fewer) <= EventIds(rows)
  {
    hide FromEvent;
  }

  /** The six DELETE statements of retain that trim the hourly tables, in their order. */
  method TrimTables(tables: Tables, r: Retention, fails: nat -> bool, ghost history: seq<Entry>)
    returns (t: Tables, done: nat)
    requires TablesMirror(tables, history)
    ensures done <= 6 && (forall k | 0 <= k < done :: !fails(k)) && (done < 6 ==> fails(done))
    ensures TablesMirror(t, history + RetentionEntries(r)[..done])
    ensures LogOf(history + RetentionEntries(r)[..done]) == LogOf(history)
  {
    hide TablesMirror;
    hide LogOf;
    var entries := RetentionEntries(r);
    t := tables;
    assert history + entries[..0] == history;
    for i := 0 to |entries|
      invariant TablesMirror(t, history + entries[..i]) && LogOf(history + entries[..i]) == LogOf(history)
      invariant forall k | 0 <= k < i :: !fails(k)
    {
      if fails(i) {
        return t, i;
      }
      t := Trim(t, entries[i].table, entries[i].before, history + entries[..i]);
      LogOneMore(history + entries[..i], entries[i]);
      assert history + entries[..i] + [entries[i]] == history + entries[..i + 1];
    }
    done := 6;
  }

  // ---- one batch ----------------------------------------------------------------------------------

  /** The rows while a batch is being inserted. */
  ghost predicate RowsAre(
      rows: map<int, StoredEvent>, was: map<int, StoredEvent>, stored: seq<StoredEvent>, lastId: int, log: seq<Event>,
      base: int)
  {
    && RowsOk(rows, lastId + |stored|, log, base)
    && RowSet(rows) == RowSet(was) + set i | 0 <= i < |stored| :: stored[i]
  }

  lemma StartOfRows(queries: map<int, StoredEvent>, lastId: int, log: seq<Event>, base: int, events: seq<Event>)
    requires RowsOk(queries, lastId, log, base)
    ensures RowsAre(queries, queries, [], lastId, log, base) && Fresh(events[..0], EventIds(queries)) == []
    ensures EventIds(queries) == EventIds(queries) + IdsOf(events[..0])
  {
    hide FromEvent;
  }

  lemma InsertedRowsAre(
      rows: map<int, StoredEvent>, was: map<int, StoredEvent>, stored: seq<StoredEvent>, lastId: int, log: seq<Event>,
      base: int)
    requires RowsAre(rows, was, stored, lastId, log, base)
    ensures RowsOk(rows, lastId + |stored|, log, base)
    ensures RowSet(rows) == RowSet(was) + set i | 0 <= i < |stored| :: stored[i]
  {}

  lemma OneMoreRow(
      rows: map<int, StoredEvent>, was: map<int, StoredEvent>, stored: seq<StoredEvent>,
      lastId: int, log: seq<Event>, base: int, e: Event)
    requires RowsAre(rows, was, stored, lastId, log, base) && e.eventId !in EventIds(rows)
    ensures var id := lastId + |stored| + 1;
      && RowsAre(rows[id := FromEvent(e, id)], was, stored + [FromEvent(e, id)], lastId, log + [e], base)
      && EventIds(rows[id := FromEvent(e, id)]) == EventIds(rows) + {e.eventId}
  {
    hide FromEvent;
    var id := lastId + |stored| + 1;
    var row := FromEvent(e, id);
    var rows' := rows[id := row];
    assert row.eventId == e.eventId by { StoredKeepsId(e, id); }
    assert id !in rows;
    forall r ensures r in RowSet(rows') <==> r in RowSet(rows) || r == row {
      if r in RowSet(rows) {
        var k :| k in rows && rows[k] == r;
        assert rows'[k] == r;
      }
      if r == row { assert rows'[id] == r; }
    }
    var some, more := set i | 0 <= i < |stored| :: stored[i], set i | 0 <= i < |stored| + 1 :: (stored + [row])[i];
    assert more == some + {row} by {
      assert (stored + [row])[|stored|] == row;
      forall x | x in some ensures x in more {
        var i :| 0 <= i < |stored| && stored[i] == x;
        assert (stored + [row])[i] == x;
      }
    }
    forall x | x in EventIds(rows) + {e.eventId} ensures x in EventIds(rows') {
      if x == e.eventId {
        assert rows'[id].eventId == x;
      } else {
        var k :| k in rows && rows[k].eventId == x;
        assert rows'[k].eventId == x;
      }
    }
  }

  lemma StoredKeepsId(e: Event, id: int)
    ensures FromEvent(e, id).eventId == e.eventId
  {}

  lemma FreshStep(events: seq<Event>, i: nat, known: set<string>, rows: map<int, StoredEvent>)
    requires i < |events| && EventIds(rows) == known + IdsOf(events[..i])
    ensures Fresh(events[..i + 1], known)
         == Fresh(events[..i], known) + (if events[i].eventId in EventIds(rows) then [] else [events[i]])
    ensures IdsOf(events[..i + 1]) == IdsOf(events[..i]) + {events[i].eventId}
  {
    assert events[..i + 1][..i] == events[..i] && events[..i + 1][i] == events[i];
    assert forall k | 0 <= k < i :: events[..i + 1][k] == events[k] == events[..i][k];
    if events[i].eventId in EventIds(rows) && events[i].eventId !in known {
      var k :| 0 <= k < i && events[k].eventId == events[i].eventId;
      assert events[..i + 1][k].eventId == events[i].eventId;
    }
  }

  /** Sending a batch again adds nothing. */
  lemma {:induction false} ResendAddsNothing(events: seq<Event>, known: set<string>)
    requires forall i | 0 <= i < |events| :: events[i].eventId in known
    ensures Fresh(events, known) == []
  {
    if events != [] {
      assert forall i | 0 <= i < |events| - 1 :: events[..|events| - 1][i] == events[i];
      ResendAddsNothing(events[..|events| - 1], known);
    }
  }

  /** What is inserted has distinct ids, none of them known, and covers every id of the batch. */
  lemma {:induction false} FreshIsDistinct(events: seq<Event>, known: set<string>)
    ensures UniqueEventIds(Fresh(events, known))
    ensures forall i | 0 <= i < |Fresh(events, known)| ::
      Fresh(events, known)[i].eventId !in known && Fresh(events, known)[i] in events
    ensures forall e | e in events ::
      e.eventId in known || exists f :: f in Fresh(events, known) && f.eventId == e.eventId
  {
    if events != [] {
      var most, e := events[..|events| - 1], events[|events| - 1];
      FreshIsDistinct(most, known);
      var front := Fresh(most, known);
      forall i | 0 <= i < |front|
        ensures front[i] in events && exists k :: 0 <= k < |most| && events[k].eventId == front[i].eventId
      {
        var k :| 0 <= k < |most| && most[k] == front[i];
        assert events[k] == front[i];
      }
      forall x | x in events
        ensures x.eventId in known || exists f :: f in Fresh(events, known) && f.eventId == x.eventId
      {
        FreshCovers(events, known, x);
      }
    }
  }

  lemma {:induction false} FreshCovers(events: seq<Event>, known: set<string>, x: Event)
    requires x in events
    ensures x.eventId in known || exists f :: f in Fresh(events, known) && f.eventId == x.eventId
  {
    var most, e := events[..|events| - 1], events[|events| - 1];
    assert events == most + [e];
    if x in most {
      FreshCovers(most, known, x);
    } else if i :| 0 <= i < |most| && events[i].eventId == e.eventId {
      assert most[i] in most;
      FreshCovers(most, known, most[i]);
    } else if e.eventId !in known {
      assert e in Fresh(events, known);
    }
  }

  class EventStore {
    var queries: map<int, StoredEvent>
    var lastId: int
    var tables: Tables
    /** Every event committed since the history was last cleared, the last row id at that moment, and what the
        hourly tables have counted and lost since then. */
    ghost var log: seq<Event>
    ghost var base: int
    ghost var history: seq<Entry>

    ghost predicate Valid()
      reads this
    {
      TablesMirror(tables, history) && log == LogOf(history) && RowsOk(queries, lastId, log, base)
    }

    constructor ()
      ensures Valid() && log == [] && history == [] && queries == map[] && lastId == 0 && base == 0
    {
      queries, lastId, tables, log, base, history := map[], 0, EMPTY, [], 0, [];
      new;
      EmptyMirrors();
    }

    /** persist: the whole batch in one transaction, in which statement k may fail. Either nothing changes, or
        exactly the events not stored yet are stored and counted, once each, in order. */
    method Persist(events: seq<Event>, fails: nat -> bool) returns (committed: bool, stored: seq<StoredEvent>)
      requires Valid()
      modifies this
      ensures Valid() && base == old(base)
      ensures !committed ==> stored == [] && log == old(log) && history == old(history)
      ensures !committed ==> queries == old(queries) && tables == old(tables) && lastId == old(lastId)
      ensures committed ==>
        var added := Fresh(events, EventIds(old(queries)));
        && log == old(log) + added && history == old(history) + CountedAll(added)
        && stored == RowsFrom(added, old(lastId))
        && RowSet(queries) == RowSet(old(queries)) + (set i | 0 <= i < |stored| :: stored[i])
        && |stored| == |added|
        && forall i | 0 <= i < |stored| :: stored[i].id == old(lastId) + 1 + i && Records(stored[i], added[i])
      ensures (forall k: nat :: !fails(k)) ==> committed
      ensures committed ==> EventIds(queries) == EventIds(old(queries)) + IdsOf(events)
    {
      hide TablesMirror;
      hide LogOf;
      hide CountedAll;
      hide RowsAre;
      hide RowSet;
      hide EventIds;
      hide RowsOk;
      hide IdsOf;
      hide Fresh;
      hide Records;
      var ok, rows, inserted, rowsStored := InsertRows(events, fails);
      if !ok {
        return false, [];
      }
      var counted;
      ok, counted := CountEvents(inserted, (k: nat) => fails(|events| + k));
      if !ok || fails(2 * |events|) || fails(2 * |events| + 1) {
        return false, [];
      }
      InsertedRowsAre(rows, queries, rowsStored, lastId, log + inserted, base);
      CountedAllLog(history, inserted);
      RowsRecord(inserted, lastId);
      queries, lastId, tables := rows, lastId + |inserted|, counted;
      log, history := log + inserted, history + CountedAll(inserted);
      committed, stored := true, rowsStored;
    }

    /** The INSERT OR IGNORE statements. */
    method InsertRows(events: seq<Event>, fails: nat -> bool)
      returns (ok: bool, rows: map<int, StoredEvent>, inserted: seq<Event>, stored: seq<StoredEvent>)
      requires Valid()
      ensures (forall k: nat :: !fails(k)) ==> ok
      ensures ok ==>
        && inserted == Fresh(events, EventIds(queries)) && stored == RowsFrom(inserted, lastId)
        && RowsAre(rows, queries, stored, lastId, log + inserted, base)
        && EventIds(rows) == EventIds(queries) + IdsOf(events)
    {
      hide TablesMirror;
      hide FromEvent;
      hide Fresh;
      inserted, stored, rows := [], [], queries;
      var id := lastId;
      StartOfRows(queries, lastId, log, base, events);
      hide RowsAre;
      hide RowsOk;
      hide RowSet;
      hide EventIds;
      hide IdsOf;
      assert log + [] == log;
      for i := 0 to |events|
        invariant inserted == Fresh(events[..i], EventIds(queries)) && stored == RowsFrom(inserted, lastId)
        invariant id == lastId + |inserted|
        invariant RowsAre(rows, queries, stored, lastId, log + inserted, base)
        invariant EventIds(rows) == EventIds(queries) + IdsOf(events[..i])
      {
        if fails(i) {
          return false, queries, [], [];
        }
        var e := events[i];
        FreshStep(events, i, EventIds(queries), rows);
        if e.eventId !in EventIds(rows) {
          id := id + 1;
          OneMoreRow(rows, queries, stored, lastId, log + inserted, base, e);
          assert log + inserted + [e] == log + (inserted + [e]);
          rows := rows[id := FromEvent(e, id)];
          inserted := inserted + [e];
          stored := stored + [FromEvent(e, id)];
        }
      }
      assert events[..|events|] == events;
      ok := true;
    }

    /** The aggregate statements, for the events just inserted. */
    method CountEvents(inserted: seq<Event>, fails: nat -> bool) returns (ok: bool, counted: Tables)
      requires Valid()
      ensures (forall k: nat :: !fails(k)) ==> ok
      ensures ok ==> TablesMirror(counted, history + CountedAll(inserted))
    {
      hide TablesMirror;
      counted := tables;
      assert history + CountedAll(inserted[..0]) == history;
      for j := 0 to |inserted|
        invariant TablesMirror(counted, history + CountedAll(inserted[..j]))
      {
        if fails(j) {
          return false, counted;
        }
        assert history + CountedAll(inserted[..j]) + [Counted(inserted[j])] == history + CountedAll(inserted[..j + 1]);
        counted := Aggregate(counted, inserted[j], history + CountedAll(inserted[..j]));
      }
      assert inserted[..|inserted|] == inserted;
      ok := true;
    }

    /** ClearQueryHistory: the raw table and all six hourly tables in one transaction; ids are not reused. */
    method ClearQueryHistory(fails: nat -> bool) returns (cleared: bool)
      requires Valid()
      modifies this
      ensures Valid() && lastId == old(lastId)
      ensures cleared <==> forall k: nat | k < 8 :: !fails(k)
      ensures cleared ==> log == [] && history == [] && queries == map[] && tables == EMPTY && base == lastId
      ensures !cleared ==> log == old(log) && history == old(history) && base == old(base)
      ensures !cleared ==> queries == old(queries) && tables == old(tables)
    {
      hide TablesMirror;
      hide FromEvent;
      if fails(0) || fails(1) || fails(2) || fails(3) || fails(4) || fails(5) || fails(6) || fails(7) {
        return false;
      }
      queries, tables, log, base, history := map[], EMPTY, [], lastId, [];
      EmptyMirrors();
      cleared := true;
    }

    /** retain: statement after statement, each on its own; the first that fails ends it and what came before stays.
        Statement 6 trims the audit log, 7 and 8 delete raw rows, and the last two do not touch queries. */
    method Retain(r: Retention, fails: nat -> bool) returns (ok: bool, done: nat)
      requires Valid()
      requires r.oversized ==> AreOldest(Unexpired(queries, r.rawBefore), r.oldest)
      modifies this`queries, this`tables, this`history
      ensures Valid() && log == old(log)
      ensures done <= 11 && (ok <==> done == 11)
      ensures (forall k | 0 <= k < done && (k == 8 ==> r.oversized) :: !fails(k)) && (!ok ==> fails(done))
      ensures history == old(history) + RetentionEntries(r)[..if done <= 6 then done else 6]
      ensures queries == if done <= 7 then old(queries)
                         else if done == 8 || !r.oversized then Unexpired(old(queries), r.rawBefore)
                         else Unexpired(old(queries), r.rawBefore) - r.oldest
      ensures EventIds(queries) <= EventIds(old(queries))
      ensures forall id ::
        && (id in queries <==>
              && id in old(queries) && (done >= 8 ==> old(queries)[id].timestamp >= r.rawBefore)
              && (done >= 9 && r.oversized ==> id !in r.oldest))
        && (id in queries ==> queries[id] == old(queries)[id])
    {
      hide TablesMirror;
      hide KeptBy;
      hide RowsOk;
      hide LogOf;
      ghost var entries := RetentionEntries(r);
      tables, done := TrimTables(tables, r, fails, history);
      history := history + entries[..done];
      assert RowsOk(queries, lastId, log, base);
      if done < 6 {
        return false, done;
      }
      if fails(6) {
        return false, 6;
      }
      if fails(7) {
        return false, 7;
      }
      FewerRowsOk(queries, Unexpired(queries, r.rawBefore), lastId, log, base);
      queries := Unexpired(queries, r.rawBefore);
      if r.oversized {
        if fails(8) {
          return false, 8;
        }
        FewerRowsOk(queries, queries - r.oldest, lastId, log, base);
        queries := queries - r.oldest;
      }
      if fails(9) {
        return false, 9;
      }
      if fails(10) {
        return false, 10;
      }
      ok, done := true, 11;
    }

    /** As long as no raw row has been deleted since the last clear, the log holds distinct event ids: nothing
        was ever counted twice. */
    lemma CountedOnce()
      requires Valid() && forall id | base < id <= lastId :: id in queries
      ensures UniqueEventIds(log)
    {
      hide TablesMirror;
      forall i, j | 0 <= i < j < |log| ensures log[i].eventId != log[j].eventId {
        var a, b := base + 1 + i, base + 1 + j;
        assert a in queries && b in queries;
        assert queries[a].eventId == log[i].eventId && queries[b].eventId == log[j].eventId;
      }
    }
  }
}
