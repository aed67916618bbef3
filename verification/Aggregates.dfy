/** The six hourly tables: what each row means in terms of the events behind it, and why upserting one event
    at a time, and trimming whole hours, keep that meaning. */
module Aggregates {
  import opened Ordering
  import opened Events

  // ---- events with one key --------------------------------------------------------------------

  /** The events of the log whose key is k, in order. */
  ghost function Select<K>(log: seq<Event>, key: Event -> K, k: K): seq<Event> {
    if log == [] then []
    else
      var front := Select(log[..|log| - 1], key, k);
      if key(log[|log| - 1]) == k then front + [log[|log| - 1]] else front
  }

  lemma SelectOneMore<K>(log: seq<Event>, e: Event, key: Event -> K, k: K)
    ensures Select(log + [e], key, k) == Select(log, key, k) + (if key(e) == k then [e] else [])
  {
    assert (log + [e])[..|log|] == log;
  }

  /** The table recomputed from scratch: a row for every key that occurs, summarising the events with it. */
  ghost predicate Mirrors<K(!new), V>(table: map<K, V>, log: seq<Event>, key: Event -> K, summary: seq<Event> -> V) {
    && (forall k :: k in table <==> Select(log, key, k) != [])
    && (forall k | k in table :: table[k] == summary(Select(log, key, k)))
  }

  /** Upserting the summary of the enlarged selection under the event's key keeps the table. */
  lemma UpsertMirrors<K(!new), V>(
      table: map<K, V>, log: seq<Event>, key: Event -> K, summary: seq<Event> -> V, e: Event, row: V)
    requires Mirrors(table, log, key, summary)
    requires row == summary(Select(log, key, key(e)) + [e])
    ensures Mirrors(table[key(e) := row], log + [e], key, summary)
  {
    var t := table[key(e) := row];
    forall k ensures k in t <==> Select(log + [e], key, k) != [] {
      SelectOneMore(log, e, key, k);
    }
    forall k | k in t ensures t[k] == summary(Select(log + [e], key, k)) {
      SelectOneMore(log, e, key, k);
    }
  }

  // ---- summaries --------------------------------------------------------------------------------

  function Count(s: seq<Event>, p: Event -> bool): nat {
    if s == [] then 0 else Count(s[..|s| - 1], p) + if p(s[|s| - 1]) then 1 else 0
  }

  function LatencySum(s: seq<Event>): int {
    if s == [] then 0 else LatencySum(s[..|s| - 1]) + s[|s| - 1].latency
  }

  function LatencyMax(s: seq<Event>): int {
    if s == [] then 0
    else if |s| == 1 then s[0].latency
    else
      var front := LatencyMax(s[..|s| - 1]);
      if front < s[|s| - 1].latency then s[|s| - 1].latency else front
  }

  predicate Failed(e: Event) { ResultClass(e) == "processing_error" }
  predicate Succeeded(e: Event) { ResultClass(e) == "success" }
  predicate Negative(e: Event) { ResultClass(e) == "negative_answer" }
  predicate Blocked(e: Event) { ResultClass(e) == "policy_block" }
  predicate Hit(e: Event) { e.cacheHit }

  datatype GlobalRow = GlobalRow(
    count: int, errors: int, hits: int, latencySum: int, latencyMax: int,
    successes: int, negatives: int, blocks: int, failures: int)

  datatype RateRow = RateRow(count: int, errors: int, hits: int, latencySum: int)

  datatype GroupRow = GroupRow(count: int, errors: int, hits: int, latencySum: int, latencyMax: int)

  function GlobalOf(s: seq<Event>): GlobalRow {
    GlobalRow(|s|, Count(s, Failed), Count(s, Hit), LatencySum(s), LatencyMax(s),
              Count(s, Succeeded), Count(s, Negative), Count(s, Blocked), Count(s, Failed))
  }

  function RateOf(s: seq<Event>): RateRow { RateRow(|s|, Count(s, Failed), Count(s, Hit), LatencySum(s)) }

  function GroupOf(s: seq<Event>): GroupRow {
    GroupRow(|s|, Count(s, Failed), Count(s, Hit), LatencySum(s), LatencyMax(s))
  }

  function CountOf(s: seq<Event>): int { |s| }

  // ---- keys ---------------------------------------------------------------------------------------

  datatype GlobalKey = GlobalKey(hour: int, route: string, qtype: int, rcode: int)
  datatype NameKey = NameKey(hour: int, name: string, route: string)
  datatype PairKey = PairKey(hour: int, client: string, qname: string, route: string)
  datatype GroupKey = GroupKey(hour: int, group: string)
  datatype BucketKey = BucketKey(hour: int, bound: int)

  function KeyOfGlobal(e: Event): GlobalKey { GlobalKey(HourOf(e), e.route, e.qtype, e.rcode) }
  function KeyOfDomain(e: Event): NameKey { NameKey(HourOf(e), e.qname, e.route) }
  function KeyOfClient(e: Event): NameKey { NameKey(HourOf(e), e.clientIp, e.route) }
  function KeyOfPair(e: Event): PairKey { PairKey(HourOf(e), e.clientIp, e.qname, e.route) }
  function KeyOfGroup(e: Event): GroupKey { GroupKey(HourOf(e), e.upstreamGroup) }
  function KeyOfBucket(e: Event): BucketKey { BucketKey(HourOf(e), Bucket(e.latency)) }

  datatype Tables = Tables(
    global: map<GlobalKey, GlobalRow>, domain: map<NameKey, RateRow>, client: map<NameKey, RateRow>,
    pair: map<PairKey, int>, group: map<GroupKey, GroupRow>, bucket: map<BucketKey, int>)

  const EMPTY := Tables(map[], map[], map[], map[], map[], map[])

  // ---- what has been counted and trimmed ----------------------------------------------------------

  datatype Table = GlobalTable | DomainTable | ClientTable | PairTable | GroupTable | BucketTable

  /** What has happened to the tables: an event was counted, or one table lost the hours before a time. */
  datatype Entry = Counted(event: Event) | Trimmed(table: Table, before: int)

  ghost function LogOf(history: seq<Entry>): seq<Event> {
    if history == [] then []
    else
      var last := history[|history| - 1];
      var front := LogOf(history[..|history| - 1]);
      if last.Counted? then front + [last.event] else front
  }

  ghost function Since(log: seq<Event>, before: int): seq<Event> {
    if log == [] then []
    else
      var front := Since(log[..|log| - 1], before);
      if HourOf(log[|log| - 1]) >= before then front + [log[|log| - 1]] else front
  }

  /** The events a table still counts. */
  ghost function KeptBy(history: seq<Entry>, table: Table): seq<Event> {
    if history == [] then []
    else
      var front := KeptBy(history[..|history| - 1], table);
      match history[|history| - 1]
      case Counted(e) => front + [e]
      case Trimmed(t, before) => if t == table then Since(front, before) else front
  }

  /** The history of the group table, which only events that name an upstream group reach. */
  ghost function Grouped(history: seq<Entry>): seq<Entry> {
    if history == [] then []
    else
      var last := history[|history| - 1];
      var front := Grouped(history[..|history| - 1]);
      if last.Counted? && last.event.upstreamGroup == "" then front else front + [last]
  }

  /** Each table is the recomputation from the events it still counts. */
  ghost predicate TablesMirror(t: Tables, history: seq<Entry>) {
    && Mirrors(t.global, KeptBy(history, GlobalTable), KeyOfGlobal, GlobalOf)
    && Mirrors(t.domain, KeptBy(history, DomainTable), KeyOfDomain, RateOf)
    && Mirrors(t.client, KeptBy(history, ClientTable), KeyOfClient, RateOf)
    && Mirrors(t.pair, KeptBy(history, PairTable), KeyOfPair, CountOf)
    && Mirrors(t.group, KeptBy(Grouped(history), GroupTable), KeyOfGroup, GroupOf)
    && Mirrors(t.bucket, KeptBy(history, BucketTable), KeyOfBucket, CountOf)
  }

  lemma EmptyMirrors()
    ensures TablesMirror(EMPTY, [])
  {}

  /** Two recomputations of a table agree: the log decides it. */
  lemma MirrorsDecide<K(
    !new), V>(a: map<K, V>, b: map<K, V>, log: seq<Event>, key: Event -> K, summary: seq<Event> -> V)
    requires Mirrors(a, log, key, summary) && Mirrors(b, log, key, summary)
    ensures a == b
  {
    assert forall k :: k in a <==> k in b;
  }

  // ---- one event -----------------------------------------------------------------------------------

  function BoolInt(b: bool): int { if b then 1 else 0 }

  function Max(a: int, b: int): int { if a < b then b else a }

  function AddGlobal(t: map<GlobalKey, GlobalRow>, e: Event): map<GlobalKey, GlobalRow> {
    var k, failed := KeyOfGlobal(e), BoolInt(Failed(e));
    if k in t then
      var r := t[k];
      t[k := GlobalRow(r.count + 1, r.errors + failed, r.hits + BoolInt(e.cacheHit), r.latencySum + e.latency,
                       Max(r.latencyMax, e.latency), r.successes + BoolInt(Succeeded(e)),
                       r.negatives + BoolInt(Negative(e)), r.blocks + BoolInt(Blocked(e)), r.failures + failed)]
    else
      t[k := GlobalRow(1, failed, BoolInt(e.cacheHit), e.latency, e.latency, BoolInt(Succeeded(e)),
                       BoolInt(Negative(e)), BoolInt(Blocked(e)), failed)]
  }

  function AddRate(t: map<NameKey, RateRow>, k: NameKey, e: Event): map<NameKey, RateRow> {
    var failed := BoolInt(Failed(e));
    if k in t then
      var r := t[k];
      t[k := RateRow(r.count + 1, r.errors + failed, r.hits + BoolInt(e.cacheHit), r.latencySum + e.latency)]
    else t[k := RateRow(1, failed, BoolInt(e.cacheHit), e.latency)]
  }

  function AddGroup(t: map<GroupKey, GroupRow>, e: Event): map<GroupKey, GroupRow> {
    var k, failed := KeyOfGroup(e), BoolInt(Failed(e));
    if k in t then
      var r := t[k];
      t[k := GroupRow(r.count + 1, r.errors + failed, r.hits + BoolInt(e.cacheHit), r.latencySum + e.latency,
                      Max(r.latencyMax, e.latency))]
    else t[k := GroupRow(1, failed, BoolInt(e.cacheHit), e.latency, e.latency)]
  }

  function AddCount<K(==)>(t: map<K, int>, k: K): map<K, int> {
    t[k := if k in t then t[k] + 1 else 1]
  }

  /** Summaries of one event more. */
  lemma OneMore(s: seq<Event>, e: Event)
    ensures forall p: Event -> bool :: Count(s + [e], p) == Count(s, p) + BoolInt(p(e))
    ensures LatencySum(s + [e]) == LatencySum(s) + e.latency
    ensures LatencyMax(s + [e]) == if s == [] then e.latency else Max(LatencyMax(s), e.latency)
    ensures s == [] ==> LatencySum(s) == 0 && forall p: Event -> bool :: Count(s, p) == 0
  {
    assert (s + [e])[..|s|] == s;
  }

  lemma AddGlobalMirrors(t: map<GlobalKey, GlobalRow>, log: seq<Event>, e: Event)
    requires Mirrors(t, log, KeyOfGlobal, GlobalOf)
    ensures Mirrors(AddGlobal(t, e), log + [e], KeyOfGlobal, GlobalOf)
  {
    hide ResultClass;
    hide HourOf;
    var k := KeyOfGlobal(e);
    var s := Select(log, KeyOfGlobal, k);
    OneMore(s, e);
    hide LatencySum;
    hide LatencyMax;
    hide Select;
    hide Count;
    assert AddGlobal(t, e) == t[k := GlobalOf(s + [e])];
    UpsertMirrors(t, log, KeyOfGlobal, GlobalOf, e, GlobalOf(s + [e]));
  }

  lemma AddRateMirrors(t: map<NameKey, RateRow>, log: seq<Event>, key: Event -> NameKey, e: Event)
    requires Mirrors(t, log, key, RateOf)
    ensures Mirrors(AddRate(t, key(e), e), log + [e], key, RateOf)
  {
    var s := Select(log, key, key(e));
    OneMore(s, e);
    hide ResultClass;
    assert AddRate(t, key(e), e) == t[key(e) := RateOf(s + [e])];
    UpsertMirrors(t, log, key, RateOf, e, RateOf(s + [e]));
  }

  lemma AddGroupMirrors(t: map<GroupKey, GroupRow>, log: seq<Event>, e: Event)
    requires Mirrors(t, log, KeyOfGroup, GroupOf)
    ensures Mirrors(AddGroup(t, e), log + [e], KeyOfGroup, GroupOf)
  {
    var k := KeyOfGroup(e);
    var s := Select(log, KeyOfGroup, k);
    OneMore(s, e);
    hide ResultClass;
    hide HourOf;
    assert AddGroup(t, e) == t[k := GroupOf(s + [e])];
    UpsertMirrors(t, log, KeyOfGroup, GroupOf, e, GroupOf(s + [e]));
  }

  lemma AddCountMirrors<K(!new)>(t: map<K, int>, log: seq<Event>, key: Event -> K, e: Event)
    requires Mirrors(t, log, key, CountOf)
    ensures Mirrors(AddCount(t, key(e)), log + [e], key, CountOf)
  {
    var s := Select(log, key, key(e));
    assert AddCount(t, key(e)) == t[key(e) := CountOf(s + [e])];
    UpsertMirrors(t, log, key, CountOf, e, CountOf(s + [e]));
  }

  lemma CountedOneMore(history: seq<Entry>, e: Event)
    ensures forall t: Table :: KeptBy(history + [Counted(e)], t) == KeptBy(history, t) + [e]
    ensures Grouped(history + [Counted(e)])
      == if e.upstreamGroup != "" then Grouped(history) + [Counted(e)] else Grouped(history)
    ensures e.upstreamGroup != "" ==>
      KeptBy(Grouped(history + [Counted(e)]), GroupTable) == KeptBy(Grouped(history), GroupTable) + [e]
  {
    assert (history + [Counted(e)])[..|history|] == history;
    assert (Grouped(history) + [Counted(e)])[..|Grouped(history)|] == Grouped(history);
  }

  /** aggregate: the six upserts of one event, statement by statement; the group table only for events that
      name a group. */
  method Aggregate(t: Tables, e: Event, ghost history: seq<Entry>) returns (r: Tables)
    requires TablesMirror(t, history)
    ensures TablesMirror(r, history + [Counted(e)])
  {
    hide AddGlobal;
    hide AddRate;
    hide AddGroup;
    hide AddCount;
    hide Mirrors;
    hide ResultClass;
    hide KeptBy;
    hide Grouped;
    CountedOneMore(history, e);
    AddGlobalMirrors(t.global, KeptBy(history, GlobalTable), e);
    AddRateMirrors(t.domain, KeptBy(history, DomainTable), KeyOfDomain, e);
    AddRateMirrors(t.client, KeptBy(history, ClientTable), KeyOfClient, e);
    AddCountMirrors(t.pair, KeptBy(history, PairTable), KeyOfPair, e);
    AddCountMirrors(t.bucket, KeptBy(history, BucketTable), KeyOfBucket, e);
    r := t.(global := AddGlobal(t.global, e));
    r := r.(domain := AddRate(r.domain, KeyOfDomain(e), e));
    r := r.(client := AddRate(r.client, KeyOfClient(e), e));
    r := r.(pair := AddCount(r.pair, KeyOfPair(e)));
    if e.upstreamGroup != "" {
      AddGroupMirrors(t.group, KeptBy(Grouped(history), GroupTable), e);
      r := r.(group := AddGroup(r.group, e));
    } else {
      assert Grouped(history + [Counted(e)]) == Grouped(history);
    }
    var bound := FindBucket(e.latency);
    r := r.(bucket := AddCount(r.bucket, BucketKey(HourOf(e), bound)));
  }

  // ---- trimming -------------------------------------------------------------------------------------

  /** DELETE ... WHERE hour_start_ms < before. */
  function From<K, V>(t: map<K, V>, hour: K -> int, before: int): map<K, V> {
    map k | k in t && hour(k) >= before :: t[k]
  }

  lemma {:induction false} SelectSince<K>(log: seq<Event>, key: Event -> K, hour: K -> int, before: int, k: K)
    requires forall e :: hour(key(e)) == HourOf(e)
    ensures Select(Since(log, before), key, k) == if hour(k) >= before then Select(log, key, k) else []
  {
    hide HourOf;
    if log != [] {
      var front, e := log[..|log| - 1], log[|log| - 1];
      SelectSince(front, key, hour, before, k);
      SelectOneMore(Since(front, before), e, key, k);
    }
  }

  /** Whole hours go, so the rows that stay are still recomputations. */
  lemma TrimMirrors<K(!new), V>(
    t: map<K, V>, log: seq<Event>, key: Event -> K, summary: seq<Event> -> V, hour: K -> int, before: int)
    requires Mirrors(t, log, key, summary) && forall e :: hour(key(e)) == HourOf(e)
    ensures Mirrors(From(t, hour, before), Since(log, before), key, summary)
  {
    hide HourOf;
    forall k ensures Select(Since(log, before), key, k) == if hour(k) >= before then Select(log, key, k) else [] {
      SelectSince(log, key, hour, before, k);
    }
  }

  ghost function Cut(log: seq<Event>, cut: bool, before: int): seq<Event> {
    if cut then Since(log, before) else log
  }

  lemma TrimmedOneMore(history: seq<Entry>, table: Table, before: int)
    ensures var more := history + [Trimmed(table, before)];
      forall t: Table :: KeptBy(more, t) == Cut(KeptBy(history, t), t == table, before)
    ensures var more := Grouped(history + [Trimmed(table, before)]);
      forall t: Table :: KeptBy(more, t) == Cut(KeptBy(Grouped(history), t), t == table, before)
  {
    assert (history + [Trimmed(table, before)])[..|history|] == history;
    assert (Grouped(history) + [Trimmed(table, before)])[..|Grouped(history)|] == Grouped(history);
  }

  /** One DELETE of the retention. */
  method Trim(t: Tables, table: Table, before: int, ghost history: seq<Entry>) returns (r: Tables)
    requires TablesMirror(t, history)
    ensures TablesMirror(r, history + [Trimmed(table, before)])
  {
    hide Mirrors;
    hide KeptBy;
    hide Grouped;
    hide From;
    hide Since;
    TrimmedOneMore(history, table, before);
    match table
    case GlobalTable =>
      TrimMirrors(t.global, KeptBy(history, table), KeyOfGlobal, GlobalOf, (k: GlobalKey) => k.hour, before);
      r := t.(global := From(t.global, (k: GlobalKey) => k.hour, before));
    case DomainTable =>
      TrimMirrors(t.domain, KeptBy(history, table), KeyOfDomain, RateOf, (k: NameKey) => k.hour, before);
      r := t.(domain := From(t.domain, (k: NameKey) => k.hour, before));
    case ClientTable =>
      TrimMirrors(t.client, KeptBy(history, table), KeyOfClient, RateOf, (k: NameKey) => k.hour, before);
      r := t.(client := From(t.client, (k: NameKey) => k.hour, before));
    case PairTable =>
      TrimMirrors(t.pair, KeptBy(history, table), KeyOfPair, CountOf, (k: PairKey) => k.hour, before);
      r := t.(pair := From(t.pair, (k: PairKey) => k.hour, before));
    case GroupTable =>
      TrimMirrors(t.group, KeptBy(Grouped(history), table), KeyOfGroup, GroupOf, (k: GroupKey) => k.hour, before);
      r := t.(group := From(t.group, (k: GroupKey) => k.hour, before));
    case BucketTable =>
      TrimMirrors(t.bucket, KeptBy(history, table), KeyOfBucket, CountOf, (k: BucketKey) => k.hour, before);
      r := t.(bucket := From(t.bucket, (k: BucketKey) => k.hour, before));
  }

  // ---- what the tables say about an hour -------------------------------------------------------------

  ghost function SumOver<K>(keys: set<K>, f: K -> int): int {
    if keys == {} then 0
    else
      var k := Pick(keys);
      f(k) + SumOver(keys - {k}, f)
  }

  /** The sum does not depend on the order in which the keys are taken. */
  lemma {:induction false} SumOverWithout<K>(keys: set<K>, f: K -> int, k: K)
    requires k in keys
    ensures SumOver(keys, f) == f(k) + SumOver(keys - {k}, f)
    decreases |keys|
  {
    var p := Pick(keys);
    if p != k {
      SumOverWithout(keys - {p}, f, k);
      SumOverWithout(keys - {k}, f, p);
      assert keys - {p} - {k} == keys - {k} - {p};
    }
  }

  lemma {:induction false} SumOverSame<K(!new)>(keys: set<K>, f: K -> int, g: K -> int)
    requires forall k | k in keys :: f(k) == g(k)
    ensures SumOver(keys, f) == SumOver(keys, g)
    decreases |keys|
  {
    if keys != {} {
      SumOverSame(keys - {Pick(keys)}, f, g);
    }
  }

  lemma SumOverUpdated<K(!new)>(keys: set<K>, f: K -> int, g: K -> int, k: K)
    requires forall x | x in keys && x != k :: f(x) == g(x)
    ensures k in keys ==> SumOver(keys, g) == SumOver(keys, f) + g(k) - f(k)
    ensures k !in keys ==> SumOver(keys + {k}, g) == SumOver(keys, f) + g(k)
  {
    if k in keys {
      SumOverWithout(keys, f, k);
      SumOverWithout(keys, g, k);
    } else {
      SumOverWithout(keys + {k}, g, k);
      assert keys + {k} - {k} == keys;
    }
    SumOverSame(keys - {k}, f, g);
    if k !in keys { assert keys - {k} == keys; }
  }

  /** The rows of a table that pass a test on their key. */
  ghost function RowsWhere<K, V>(t: map<K, V>, p: K -> bool): set<K> { set k | k in t && p(k) }

  ghost function Sum<K, V>(t: map<K, V>, p: K -> bool, count: V -> int): int {
    SumOver(RowsWhere(t, p), k => if k in t then count(t[k]) else 0)
  }

  ghost predicate Summarises<V(!new)>(summary: seq<Event> -> V, count: V -> int) {
    forall s: seq<Event> :: count(summary(s)) == |s|
  }

  /** A table recomputed from the log, key by key. */
  ghost function SizeAt<K>(log: seq<Event>, key: Event -> K): K -> int {
    k => |Select(log, key, k)|
  }

  ghost function KeysWhere<K>(log: seq<Event>, key: Event -> K, p: K -> bool): set<K> {
    set i | 0 <= i < |log| && p(key(log[i])) :: key(log[i])
  }

  lemma {:induction false} SelectOccurs<K(!new)>(log: seq<Event>, key: Event -> K, k: K)
    ensures Select(log, key, k) != [] <==> exists i :: 0 <= i < |log| && key(log[i]) == k
  {
    if log != [] {
      SelectOccurs(log[..|log| - 1], key, k);
      assert forall i | 0 <= i < |log| - 1 :: log[..|log| - 1][i] == log[i];
    }
  }

  ghost function Passes<K>(key: Event -> K, p: K -> bool): Event -> bool { e => p(key(e)) }

  /** Counting per key and adding up is counting the events. */
  lemma {:induction false} Partition<K(!new)>(log: seq<Event>, key: Event -> K, p: K -> bool)
    ensures SumOver(KeysWhere(log, key, p), SizeAt(log, key)) == Count(log, Passes(key, p))
  {
    if log == [] {
      assert KeysWhere(log, key, p) == {};
    } else {
      var front, e := log[..|log| - 1], log[|log| - 1];
      assert log == front + [e];
      Partition(front, key, p);
      PartitionStep(front, e, key, p);
    }
  }

  lemma PartitionStep<K(!new)>(front: seq<Event>, e: Event, key: Event -> K, p: K -> bool)
    ensures SumOver(KeysWhere(front + [e], key, p), SizeAt(front + [e], key))
         == SumOver(KeysWhere(front, key, p), SizeAt(front, key)) + BoolInt(p(key(e)))
  {
    hide KeysWhere;
    hide SizeAt;
    hide SumOver;
    var k := key(e);
    var keys, f, g := KeysWhere(front, key, p), SizeAt(front, key), SizeAt(front + [e], key);
    SizesOneMore(front, e, key);
    KeysOneMore(front, e, key, p);
    MissingIsZero(front, key, p, k);
    if !p(k) {
      assert forall x | x in keys :: x != k by { KeysPass(front, key, p); }
      SumOverSame(keys, f, g);
      assert KeysWhere(front + [e], key, p) == keys;
    } else if k in keys {
      SumOverUpdated(keys, f, g, k);
      assert keys + {k} == keys;
    } else {
      SumOverUpdated(keys, f, g, k);
    }
  }

  lemma SizesOneMore<K(!new)>(front: seq<Event>, e: Event, key: Event -> K)
    ensures forall x :: SizeAt(front + [e], key)(x) == SizeAt(front, key)(x) + if x == key(e) then 1 else 0
  {
    forall x ensures SizeAt(front + [e], key)(x) == SizeAt(front, key)(x) + if x == key(e) then 1 else 0 {
      SelectOneMore(front, e, key, x);
    }
  }

  lemma KeysPass<K(!new)>(log: seq<Event>, key: Event -> K, p: K -> bool)
    ensures forall x | x in KeysWhere(log, key, p) :: p(x)
  {}

  lemma MissingIsZero<K(!new)>(log: seq<Event>, key: Event -> K, p: K -> bool, k: K)
    ensures p(k) && k !in KeysWhere(log, key, p) ==> SizeAt(log, key)(k) == 0
  {
    SelectOccurs(log, key, k);
  }

  lemma KeysOneMore<K(!new)>(front: seq<Event>, e: Event, key: Event -> K, p: K -> bool)
    ensures KeysWhere(front + [e], key, p) == KeysWhere(front, key, p) + (if p(key(e)) then {key(e)} else {})
  {
    var log := front + [e];
    assert log[|front|] == e && forall i | 0 <= i < |front| :: log[i] == front[i];
  }

  /** The counts of a table's rows under a test on the key add up to the number of events that pass it. */
  lemma TableCounts<K(!new), V(!new)>(
      t: map<K, V>, log: seq<Event>, key: Event -> K, summary: seq<Event> -> V, count: V -> int, p: K -> bool)
    requires Mirrors(t, log, key, summary) && Summarises(summary, count)
    ensures Sum(t, p, count) == Count(log, Passes(key, p))
  {
    Partition(log, key, p);
    forall k ensures k in RowsWhere(t, p) <==> k in KeysWhere(log, key, p) {
      SelectOccurs(log, key, k);
    }
    assert RowsWhere(t, p) == KeysWhere(log, key, p);
    SumOverSame(RowsWhere(t, p), k => if k in t then count(t[k]) else 0, SizeAt(log, key));
  }

  ghost function HourCount(log: seq<Event>, hour: int): int { Count(log, e => HourOf(e) == hour) }

  lemma {:induction false} SameCount(log: seq<Event>, p: Event -> bool, q: Event -> bool)
    requires forall e :: p(e) == q(e)
    ensures Count(log, p) == Count(log, q)
  {
    if log != [] { SameCount(log[..|log| - 1], p, q); }
  }

  /** For every hour each table counts the queries it still keeps of that hour, the group table those of them
      that name a group. */
  lemma HourCounts(t: Tables, history: seq<Entry>, hour: int)
    requires TablesMirror(t, history)
    ensures GlobalCount(t, hour) == HourCount(KeptBy(history, GlobalTable), hour)
    ensures DomainCount(t, hour) == HourCount(KeptBy(history, DomainTable), hour)
    ensures ClientCount(t, hour) == HourCount(KeptBy(history, ClientTable), hour)
    ensures PairCount(t, hour) == HourCount(KeptBy(history, PairTable), hour)
    ensures BucketCount(t, hour) == HourCount(KeptBy(history, BucketTable), hour)
    ensures GroupCount(t, hour) == HourCount(KeptBy(Grouped(history), GroupTable), hour)
  {
    hide HourOf;
    hide Mirrors;
    hide Sum;
    hide KeptBy;
    hide Grouped;
    TableHour(
      t.global, KeptBy(history, GlobalTable), KeyOfGlobal, GlobalOf, (r: GlobalRow) => r.count,
      (k: GlobalKey) => k.hour == hour, hour);
    TableHour(
      t.domain, KeptBy(history, DomainTable), KeyOfDomain, RateOf, (r: RateRow) => r.count,
      (k: NameKey) => k.hour == hour, hour);
    TableHour(
      t.client, KeptBy(history, ClientTable), KeyOfClient, RateOf, (r: RateRow) => r.count,
      (k: NameKey) => k.hour == hour, hour);
    TableHour(
      t.pair, KeptBy(history, PairTable), KeyOfPair, CountOf, (c: int) => c,
      (k: PairKey) => k.hour == hour, hour);
    TableHour(
      t.bucket, KeptBy(history, BucketTable), KeyOfBucket, CountOf, (c: int) => c,
      (k: BucketKey) => k.hour == hour, hour);
    TableHour(
      t.group, KeptBy(Grouped(history), GroupTable), KeyOfGroup, GroupOf, (r: GroupRow) => r.count,
      (k: GroupKey) => k.hour == hour, hour);
  }

  ghost function GlobalCount(t: Tables, hour: int): int {
    Sum(t.global, (k: GlobalKey) => k.hour == hour, (r: GlobalRow) => r.count)
  }

  ghost function DomainCount(t: Tables, hour: int): int {
    Sum(t.domain, (k: NameKey) => k.hour == hour, (r: RateRow) => r.count)
  }

  ghost function ClientCount(t: Tables, hour: int): int {
    Sum(t.client, (k: NameKey) => k.hour == hour, (r: RateRow) => r.count)
  }

  ghost function PairCount(t: Tables, hour: int): int {
    Sum(t.pair, (k: PairKey) => k.hour == hour, (c: int) => c)
  }

  ghost function GroupCount(t: Tables, hour: int): int {
    Sum(t.group, (k: GroupKey) => k.hour == hour, (r: GroupRow) => r.count)
  }

  ghost function BucketCount(t: Tables, hour: int): int {
    Sum(t.bucket, (k: BucketKey) => k.hour == hour, (c: int) => c)
  }

  // ---- what trimming takes away -------------------------------------------------------------------------

  /** An event that passes the test was counted, and later its hour was trimmed from the table. */
  ghost predicate TrimmedAway(history: seq<Entry>, table: Table, p: Event -> bool) {
    exists i, j :: 0 <= i < j < |history| && LostAt(history, table, p, i, j)
  }

  ghost predicate LostAt(history: seq<Entry>, table: Table, p: Event -> bool, i: int, j: int)
    requires 0 <= i < j < |history|
  {
    && history[i].Counted? && p(history[i].event)
    && history[j].Trimmed? && history[j].table == table && HourOf(history[i].event) < history[j].before
  }

  lemma TableHour<K(!new), V(!new)>(
      t: map<K, V>, log: seq<Event>, key: Event -> K, summary: seq<Event> -> V, count: V -> int, p: K -> bool,
      hour: int)
    requires Mirrors(t, log, key, summary) && Summarises(summary, count)
    requires forall e :: p(key(e)) == (HourOf(e) == hour)
    ensures Sum(t, p, count) == HourCount(log, hour)
  {
    hide HourOf;
    TableCounts(t, log, key, summary, count, p);
    SameCount(log, Passes(key, p), e => HourOf(e) == hour);
  }

  ghost function Below(p: Event -> bool, before: int): Event -> bool { e => p(e) && HourOf(e) < before }

  lemma {:induction false} CountSince(log: seq<Event>, p: Event -> bool, before: int)
    ensures Count(Since(log, before), p) == Count(log, p) - Count(log, Below(p, before))
  {
    hide HourOf;
    if log != [] {
      var front, e := log[..|log| - 1], log[|log| - 1];
      CountSince(front, p, before);
      assert Count(Since(front, before) + [e], p) == Count(Since(front, before), p) + BoolInt(p(e)) by {
        OneMore(Since(front, before), e);
      }
    }
  }

  lemma LogOneMore(history: seq<Entry>, last: Entry)
    ensures LogOf(history + [last]) == if last.Counted? then LogOf(history) + [last.event] else LogOf(history)
  {
    assert (history + [last])[..|history|] == history;
  }

  lemma {:induction false} CountOccurs(history: seq<Entry>, p: Event -> bool)
    ensures Count(LogOf(history), p) > 0 <==>
      exists i :: 0 <= i < |history| && history[i].Counted? && p(history[i].event)
  {
    if history != [] {
      var front, last := history[..|history| - 1], history[|history| - 1];
      CountOccurs(front, p);
      assert forall i | 0 <= i < |front| :: front[i] == history[i];
      assert history == front + [last];
      LogOneMore(front, last);
      if last.Counted? { OneMore(LogOf(front), last.event); }
      if last.Counted? && p(last.event) { assert history[|front|].Counted? && p(history[|front|].event); }
      if i :| 0 <= i < |front| && front[i].Counted? && p(front[i].event) {
        assert history[i].Counted? && p(history[i].event);
      }
    }
  }

  lemma AwayOneMore(front: seq<Entry>, last: Entry, table: Table, p: Event -> bool)
    ensures TrimmedAway(front + [last], table, p) <==>
      || TrimmedAway(front, table, p)
      || (last.Trimmed? && last.table == table && Count(LogOf(front), Below(p, last.before)) > 0)
  {
    hide HourOf;
    hide LogOf;
    var history := front + [last];
    assert forall i | 0 <= i < |front| :: history[i] == front[i];
    if TrimmedAway(front, table, p) {
      var i, j :| 0 <= i < j < |front| && LostAt(front, table, p, i, j);
      assert LostAt(history, table, p, i, j);
    }
    if last.Trimmed? && last.table == table {
      CountOccurs(front, Below(p, last.before));
      if i :| 0 <= i < |front| && front[i].Counted? && Below(p, last.before)(front[i].event) {
        assert LostAt(history, table, p, i, |front|);
      }
    }
    if TrimmedAway(history, table, p) {
      var i, j :| 0 <= i < j < |history| && LostAt(history, table, p, i, j);
      if j < |front| {
        assert LostAt(front, table, p, i, j);
      } else {
        assert Below(p, last.before)(front[i].event);
      }
    }
  }

  /** A table has lost events that pass a test exactly when one of them was counted before its hour was trimmed. */
  lemma {:induction false} KeptCount(history: seq<Entry>, table: Table, p: Event -> bool)
    ensures Count(KeptBy(history, table), p) <= Count(LogOf(history), p)
    ensures Count(KeptBy(history, table), p) == Count(LogOf(history), p) <==> !TrimmedAway(history, table, p)
    decreases |history|
  {
    hide HourOf;
    hide Since;
    if history != [] {
      var front, last := history[..|history| - 1], history[|history| - 1];
      assert history == front + [last];
      KeptCount(front, table, p);
      AwayOneMore(front, last, table, p);
      hide TrimmedAway;
      match last
      case Counted(e) =>
        OneMore(KeptBy(front, table), e);
        OneMore(LogOf(front), e);
      case Trimmed(t, before) =>
        LogOneMore(front, last);
        TrimmedOneMore(front, t, before);
        var q := Below(p, before);
        KeptCount(front, table, q);
        AwayBelow(front, table, p, before);
        CountSince(KeptBy(front, table), p, before);
    }
  }

  lemma AwayBelow(history: seq<Entry>, table: Table, p: Event -> bool, before: int)
    ensures TrimmedAway(history, table, Below(p, before)) ==> TrimmedAway(history, table, p)
  {
    hide HourOf;
    if TrimmedAway(history, table, Below(p, before)) {
      var i, j :| 0 <= i < j < |history| && LostAt(history, table, Below(p, before), i, j);
      assert LostAt(history, table, p, i, j);
    }
  }

  ghost function AtHour(hour: int): Event -> bool { e => HourOf(e) == hour }

  lemma HourIsKept(history: seq<Entry>, table: Table, hour: int)
    ensures HourCount(KeptBy(history, table), hour) == HourCount(LogOf(history), hour)
      <==> !TrimmedAway(history, table, AtHour(hour))
  {
    hide HourOf;
    hide KeptBy;
    hide LogOf;
    KeptCount(history, table, AtHour(hour));
    SameCount(KeptBy(history, table), AtHour(hour), e => HourOf(e) == hour);
    SameCount(LogOf(history), AtHour(hour), e => HourOf(e) == hour);
  }

  /** For an hour of which no table has lost an event all tables count the same queries: those that arrived in it;
      a table that has lost one counts fewer. */
  lemma HourCountsAgree(t: Tables, history: seq<Entry>, hour: int)
    requires TablesMirror(t, history)
    ensures var all := HourCount(LogOf(history), hour);
      && (GlobalCount(t, hour) == all <==> !TrimmedAway(history, GlobalTable, AtHour(hour)))
      && (DomainCount(t, hour) == all <==> !TrimmedAway(history, DomainTable, AtHour(hour)))
      && (ClientCount(t, hour) == all <==> !TrimmedAway(history, ClientTable, AtHour(hour)))
      && (PairCount(t, hour) == all <==> !TrimmedAway(history, PairTable, AtHour(hour)))
      && (BucketCount(t, hour) == all <==> !TrimmedAway(history, BucketTable, AtHour(hour)))
    ensures GroupCount(t, hour) == HourCount(LogOf(Grouped(history)), hour)
      <==> !TrimmedAway(Grouped(history), GroupTable, AtHour(hour))
  {
    HourCounts(t, history, hour);
    HourIsKept(history, GlobalTable, hour);
    HourIsKept(history, DomainTable, hour);
    HourIsKept(history, ClientTable, hour);
    HourIsKept(history, PairTable, hour);
    HourIsKept(history, BucketTable, hour);
    HourIsKept(Grouped(history), GroupTable, hour);
  }

  // ---- what each row counts, in terms of the events ---------------------------------------------------------

  /** Counting within a key is counting the events of the key. */
  lemma {:induction false} CountSelected<K(!new)>(
      log: seq<Event>, key: Event -> K, k: K, p: Event -> bool, q: Event -> bool)
    requires forall e :: q(e) == (key(e) == k && p(e))
    ensures Count(Select(log, key, k), p) == Count(log, q)
  {
    if log != [] {
      var front, e := log[..|log| - 1], log[|log| - 1];
      CountSelected(front, key, k, p, q);
      assert log == front + [e];
      SelectOneMore(front, e, key, k);
      OneMore(Select(front, key, k), e);
    }
  }

  lemma {:induction false} CountAll(log: seq<Event>)
    ensures Count(log, e => true) == |log|
  {
    if log != [] { CountAll(log[..|log| - 1]); }
  }

  lemma SelectedHour<K(!new)>(log: seq<Event>, key: Event -> K, k: K, hour: int)
    requires Select(log, key, k) != [] && forall e :: key(e) == k ==> HourOf(e) == hour
    ensures hour % 3600000 == 0
  {
    SelectOccurs(log, key, k);
    var i :| 0 <= i < |log| && key(log[i]) == k;
    HourExactly(log[i], hour);
  }

  predicate InHour(e: Event, hour: int) { hour <= e.timestamp < hour + 3600000 }

  /** The classes by the event's own columns: a block; else an error text or another code than 0 and 3; else a name
      that does not exist or has no answer; else a success. */
  predicate AnyEvent(e: Event) { true }
  predicate CacheHit(e: Event) { e.cacheHit }
  predicate IsBlock(e: Event) { e.route == "block" }
  predicate InError(e: Event) {
    e.route != "block" && (e.errorCode != "" || e.errorText != "" || (e.rcode != 0 && e.rcode != 3))
  }
  predicate IsNegative(e: Event) {
    && e.route != "block" && e.errorCode == "" && e.errorText == ""
    && (e.rcode == 3 || (e.rcode == 0 && e.answerCount == 0))
  }
  predicate IsSuccess(e: Event) {
    e.route != "block" && e.errorCode == "" && e.errorText == "" && e.rcode == 0 && e.answerCount != 0
  }

  /** The tests of the counters are those. */
  lemma ClassesExactly()
    ensures forall e :: Blocked(e) <==> IsBlock(e)
    ensures forall e :: Failed(e) <==> InError(e)
    ensures forall e :: Negative(e) <==> IsNegative(e)
    ensures forall e :: Succeeded(e) <==> IsSuccess(e)
    ensures forall e :: Hit(e) <==> CacheHit(e)
  {}

  // The events behind a row of each table.

  ghost function OfGlobal(k: GlobalKey): Event -> bool {
    e => InHour(e, k.hour) && e.route == k.route && e.qtype == k.qtype && e.rcode == k.rcode
  }

  ghost function OfDomain(k: NameKey): Event -> bool {
    e => InHour(e, k.hour) && e.qname == k.name && e.route == k.route
  }

  ghost function OfClient(k: NameKey): Event -> bool {
    e => InHour(e, k.hour) && e.clientIp == k.name && e.route == k.route
  }

  ghost function OfPair(k: PairKey): Event -> bool {
    e => InHour(e, k.hour) && e.clientIp == k.client && e.qname == k.qname && e.route == k.route
  }

  ghost function OfGroup(k: GroupKey): Event -> bool {
    e => InHour(e, k.hour) && e.upstreamGroup == k.group
  }

  /** Not above the bound, unless it is the last one, and above every smaller bound. */
  ghost function OfBucket(k: BucketKey): Event -> bool {
    e => InHour(e, k.hour) && k.bound in BOUNDS && (e.latency <= k.bound || k.bound == 10000000)
      && forall b | b in BOUNDS && b < k.bound :: b < e.latency
  }

  /** The keys are made of the hour and those columns. */
  lemma KeysExactly(e: Event)
    ensures forall k: GlobalKey | k.hour % 3600000 == 0 :: KeyOfGlobal(e) == k <==> OfGlobal(k)(e)
    ensures forall k: NameKey | k.hour % 3600000 == 0 :: KeyOfDomain(e) == k <==> OfDomain(k)(e)
    ensures forall k: NameKey | k.hour % 3600000 == 0 :: KeyOfClient(e) == k <==> OfClient(k)(e)
    ensures forall k: PairKey | k.hour % 3600000 == 0 :: KeyOfPair(e) == k <==> OfPair(k)(e)
    ensures forall k: GroupKey | k.hour % 3600000 == 0 :: KeyOfGroup(e) == k <==> OfGroup(k)(e)
    ensures forall k: BucketKey | k.hour % 3600000 == 0 :: KeyOfBucket(e) == k <==> OfBucket(k)(e)
  {
    forall hour: int ensures HourOf(e) == hour <==> hour % 3600000 == 0 && InHour(e, hour) {
      HourExactly(e, hour);
    }
    hide HourOf;
    hide InHour;
    forall bound: int
      ensures Bucket(e.latency) == bound <==>
        && bound in BOUNDS && (e.latency <= bound || bound == 10000000)
        && forall b | b in BOUNDS && b < bound :: b < e.latency
    {
      BucketExactly(e.latency, bound);
    }
    hide Bucket;
  }

  lemma BucketExactly(latency: int, bound: int)
    ensures Bucket(latency) == bound <==>
      && bound in BOUNDS && (latency <= bound || bound == 10000000)
      && forall b | b in BOUNDS && b < bound :: b < latency
  {
    var got := Bucket(latency);
    assert forall b | b in BOUNDS :: b <= 10000000;
    assert forall b | b in BOUNDS && b < got :: b < latency;
  }

  /** Both tests. */
  ghost function And(p: Event -> bool, q: Event -> bool): Event -> bool { e => p(e) && q(e) }

  lemma CountRow<K(!new)>(
      log: seq<Event>, key: Event -> K, k: K, of: Event -> bool, class_: Event -> bool, p: Event -> bool)
    requires forall e :: of(e) == (key(e) == k)
    requires forall e :: class_(e) == p(e)
    ensures Count(Select(log, key, k), class_) == Count(log, And(of, p))
  {
    hide Count;
    hide Select;
    CountSelected(log, key, k, class_, And(of, p));
  }

  lemma RowSize<K(!new)>(log: seq<Event>, key: Event -> K, k: K, of: Event -> bool)
    requires forall e :: of(e) == (key(e) == k)
    ensures |Select(log, key, k)| == Count(log, And(of, AnyEvent))
  {
    CountAll(Select(log, key, k));
    hide Count;
    hide Select;
    CountRow(log, key, k, of, e => true, AnyEvent);
  }

  function LatencyWhere(log: seq<Event>, p: Event -> bool): int {
    if log == [] then 0
    else LatencyWhere(log[..|log| - 1], p) + if p(log[|log| - 1]) then log[|log| - 1].latency else 0
  }

  /** Every event that passes the test has at most this latency, and one has it. */
  predicate MaxWhere(log: seq<Event>, p: Event -> bool, max: int) {
    && (forall i | 0 <= i < |log| && p(log[i]) :: log[i].latency <= max)
    && (exists i :: 0 <= i < |log| && p(log[i]) && log[i].latency == max)
  }

  lemma {:induction false} RowSum<K(!new)>(log: seq<Event>, key: Event -> K, k: K, of: Event -> bool)
    requires forall e :: of(e) == (key(e) == k)
    ensures LatencySum(Select(log, key, k)) == LatencyWhere(log, of)
  {
    if log != [] {
      var front, e := log[..|log| - 1], log[|log| - 1];
      RowSum(front, key, k, of);
      assert log == front + [e];
      SelectOneMore(front, e, key, k);
      OneMore(Select(front, key, k), e);
    }
  }

  lemma MaxOneMore(front: seq<Event>, e: Event, of: Event -> bool, max: int)
    ensures MaxWhere(front, of, max) ==>
      MaxWhere(front + [e], of, if of(e) && max < e.latency then e.latency else max)
    ensures (forall i | 0 <= i < |front| :: !of(front[i])) && of(e) ==> MaxWhere(front + [e], of, e.latency)
  {
    var log := front + [e];
    assert log[|front|] == e && forall i | 0 <= i < |front| :: log[i] == front[i];
    if i :| 0 <= i < |front| && of(front[i]) && front[i].latency == max { assert log[i] == front[i]; }
  }

  lemma {:induction false} RowMax<K(!new)>(log: seq<Event>, key: Event -> K, k: K, of: Event -> bool)
    requires forall e :: of(e) == (key(e) == k)
    ensures Select(log, key, k) != [] ==> MaxWhere(log, of, LatencyMax(Select(log, key, k)))
    ensures Select(log, key, k) == [] ==> forall i | 0 <= i < |log| :: !of(log[i])
  {
    if log != [] {
      var front, e := log[..|log| - 1], log[|log| - 1];
      RowMax(front, key, k, of);
      assert log == front + [e] && forall i | 0 <= i < |front| :: log[i] == front[i];
      SelectOneMore(front, e, key, k);
      var s := Select(front, key, k);
      LatencyMaxOneMore(s, e);
      MaxOneMore(front, e, of, LatencyMax(s));
      hide MaxWhere;
      hide LatencyMax;
      hide Select;
    }
  }

  lemma LatencyMaxOneMore(s: seq<Event>, e: Event)
    ensures LatencyMax(s + [e]) == if s != [] && e.latency <= LatencyMax(s) then LatencyMax(s) else e.latency
  {
    assert (s + [e])[..|s|] == s;
  }

  /** A row of the global table counts the events of its hour, route, query type and response code that the table
      still keeps: all of them, the cache hits, and those of each class by their own columns. */
  lemma GlobalRowCounts(t: Tables, history: seq<Entry>, k: GlobalKey)
    requires TablesMirror(t, history) && k in t.global
    ensures var log, r := KeptBy(history, GlobalTable), t.global[k];
      && r.count == Count(log, And(OfGlobal(k), AnyEvent))
      && r.hits == Count(log, And(OfGlobal(k), CacheHit))
      && r.blocks == Count(log, And(OfGlobal(k), IsBlock))
      && r.successes == Count(log, And(OfGlobal(k), IsSuccess))
      && r.negatives == Count(log, And(OfGlobal(k), IsNegative))
      && r.failures == r.errors == Count(log, And(OfGlobal(k), InError))
      && r.latencySum == LatencyWhere(log, OfGlobal(k)) && MaxWhere(log, OfGlobal(k), r.latencyMax)
  {
    var log := KeptBy(history, GlobalTable);
    GlobalRowOf(t, log, k);
    forall e ensures OfGlobal(k)(e) == (KeyOfGlobal(e) == k) { KeysExactly(e); }
    ClassesExactly();
    hide *;
    RowSize(log, KeyOfGlobal, k, OfGlobal(k));
    RowSum(log, KeyOfGlobal, k, OfGlobal(k));
    RowMax(log, KeyOfGlobal, k, OfGlobal(k));
    CountRow(log, KeyOfGlobal, k, OfGlobal(k), Hit, CacheHit);
    CountRow(log, KeyOfGlobal, k, OfGlobal(k), Blocked, IsBlock);
    CountRow(log, KeyOfGlobal, k, OfGlobal(k), Succeeded, IsSuccess);
    CountRow(log, KeyOfGlobal, k, OfGlobal(k), Negative, IsNegative);
    CountRow(log, KeyOfGlobal, k, OfGlobal(k), Failed, InError);
  }

  lemma GlobalRowOf(t: Tables, log: seq<Event>, k: GlobalKey)
    requires Mirrors(t.global, log, KeyOfGlobal, GlobalOf) && k in t.global
    ensures k.hour % 3600000 == 0
    ensures var s, r := Select(log, KeyOfGlobal, k), t.global[k];
      && r.count == |s| && r.hits == Count(s, Hit) && r.blocks == Count(s, Blocked)
      && r.successes == Count(s, Succeeded) && r.negatives == Count(s, Negative)
      && r.failures == r.errors == Count(s, Failed)
      && s != [] && r.latencySum == LatencySum(s) && r.latencyMax == LatencyMax(s)
  {
    hide HourOf;
    hide Select;
    hide Count;
    SelectedHour(log, KeyOfGlobal, k, k.hour);
  }

  lemma RateRowCounts(
    table: map<NameKey, RateRow>, log: seq<Event>, key: Event -> NameKey, k: NameKey, of: Event -> bool)
    requires Mirrors(table, log, key, RateOf) && k in table && forall e :: of(e) == (key(e) == k)
    ensures var r := table[k];
      && r.count == Count(log, And(of, AnyEvent))
      && r.hits == Count(log, And(of, CacheHit))
      && r.errors == Count(log, And(of, InError))
      && r.latencySum == LatencyWhere(log, of)
  {
    var s := Select(log, key, k);
    assert table[k] == RateOf(s);
    ClassesExactly();
    hide And;
    hide Select;
    hide Count;
    hide ResultClass;
    hide LatencySum;
    hide LatencyWhere;
    RowSize(log, key, k, of);
    RowSum(log, key, k, of);
    CountRow(log, key, k, of, Hit, CacheHit);
    CountRow(log, key, k, of, Failed, InError);
  }

  lemma NameHour(table: map<NameKey, RateRow>, log: seq<Event>, key: Event -> NameKey, k: NameKey)
    requires Mirrors(table, log, key, RateOf) && k in table && forall e :: key(e).hour == HourOf(e)
    ensures k.hour % 3600000 == 0
  {
    SelectedHour(log, key, k, k.hour);
  }

  /** The same of a row of the domain table, which counts the events of its hour, name and route. */
  lemma DomainRowCounts(t: Tables, history: seq<Entry>, k: NameKey)
    requires TablesMirror(t, history) && k in t.domain
    ensures var log, r := KeptBy(history, DomainTable), t.domain[k];
      && r.count == Count(log, And(OfDomain(k), AnyEvent))
      && r.hits == Count(log, And(OfDomain(k), CacheHit))
      && r.errors == Count(log, And(OfDomain(k), InError))
      && r.latencySum == LatencyWhere(log, OfDomain(k))
  {
    var log := KeptBy(history, DomainTable);
    NameHour(t.domain, log, KeyOfDomain, k);
    forall e ensures OfDomain(k)(e) == (KeyOfDomain(e) == k) { KeysExactly(e); }
    assert Mirrors(t.domain, log, KeyOfDomain, RateOf);
    hide *;
    RateRowCounts(t.domain, log, KeyOfDomain, k, OfDomain(k));
  }

  /** And of the client table: the events of its hour, client and route. */
  lemma ClientRowCounts(t: Tables, history: seq<Entry>, k: NameKey)
    requires TablesMirror(t, history) && k in t.client
    ensures var log, r := KeptBy(history, ClientTable), t.client[k];
      && r.count == Count(log, And(OfClient(k), AnyEvent))
      && r.hits == Count(log, And(OfClient(k), CacheHit))
      && r.errors == Count(log, And(OfClient(k), InError))
      && r.latencySum == LatencyWhere(log, OfClient(k))
  {
    var log := KeptBy(history, ClientTable);
    NameHour(t.client, log, KeyOfClient, k);
    forall e ensures OfClient(k)(e) == (KeyOfClient(e) == k) { KeysExactly(e); }
    assert Mirrors(t.client, log, KeyOfClient, RateOf);
    hide *;
    RateRowCounts(t.client, log, KeyOfClient, k, OfClient(k));
  }

  /** A row of the pair table counts the events of an hour, client, name and route. */
  lemma PairRowCounts(t: Tables, history: seq<Entry>, k: PairKey)
    requires TablesMirror(t, history) && k in t.pair
    ensures t.pair[k] == Count(KeptBy(history, PairTable), And(OfPair(k), AnyEvent))
  {
    var log := KeptBy(history, PairTable);
    assert t.pair[k] == |Select(log, KeyOfPair, k)|;
    SelectedHour(log, KeyOfPair, k, k.hour);
    forall e ensures OfPair(k)(e) == (KeyOfPair(e) == k) { KeysExactly(e); }
    hide *;
    RowSize(log, KeyOfPair, k, OfPair(k));
  }

  /** A row of the bucket table counts the events of an hour with a latency between two bounds. */
  lemma BucketRowCounts(t: Tables, history: seq<Entry>, k: BucketKey)
    requires TablesMirror(t, history) && k in t.bucket
    ensures t.bucket[k] == Count(KeptBy(history, BucketTable), And(OfBucket(k), AnyEvent))
  {
    var log := KeptBy(history, BucketTable);
    assert t.bucket[k] == |Select(log, KeyOfBucket, k)|;
    SelectedHour(log, KeyOfBucket, k, k.hour);
    forall e ensures OfBucket(k)(e) == (KeyOfBucket(e) == k) { KeysExactly(e); }
    hide *;
    RowSize(log, KeyOfBucket, k, OfBucket(k));
  }

  /** A row of the group table counts the events of an hour that name the group: all, hits and errors. */
  lemma GroupRowCounts(t: Tables, history: seq<Entry>, k: GroupKey)
    requires TablesMirror(t, history) && k in t.group
    ensures var log, r := KeptBy(Grouped(history), GroupTable), t.group[k];
      && r.count == Count(log, And(OfGroup(k), AnyEvent))
      && r.hits == Count(log, And(OfGroup(k), CacheHit))
      && r.errors == Count(log, And(OfGroup(k), InError))
      && r.latencySum == LatencyWhere(log, OfGroup(k)) && MaxWhere(log, OfGroup(k), r.latencyMax)
  {
    var log := KeptBy(Grouped(history), GroupTable);
    var s := Select(log, KeyOfGroup, k);
    assert t.group[k] == GroupOf(s);
    SelectedHour(log, KeyOfGroup, k, k.hour);
    forall e ensures OfGroup(k)(e) == (KeyOfGroup(e) == k) { KeysExactly(e); }
    ClassesExactly();
    hide KeptBy;
    hide Grouped;
    hide HourOf;
    hide Mirrors;
    hide And;
    hide Select;
    hide Count;
    hide ResultClass;
    hide LatencySum;
    hide LatencyMax;
    hide LatencyWhere;
    hide MaxWhere;
    hide OfGroup;
    hide KeyOfGroup;
    RowSize(log, KeyOfGroup, k, OfGroup(k));
    RowSum(log, KeyOfGroup, k, OfGroup(k));
    RowMax(log, KeyOfGroup, k, OfGroup(k));
    CountRow(log, KeyOfGroup, k, OfGroup(k), Hit, CacheHit);
    CountRow(log, KeyOfGroup, k, OfGroup(k), Failed, InError);
  }

  /** What reaches the group table are the events that name a group. */
  lemma {:induction false} GroupedLog(history: seq<Entry>)
    ensures forall e :: e in LogOf(Grouped(history)) <==> e in LogOf(history) && e.upstreamGroup != ""
  {
    if history != [] {
      var front, last := history[..|history| - 1], history[|history| - 1];
      GroupedLog(front);
      LogOneMore(Grouped(front), last);
      hide HourOf;
    }
  }

  // ---- what each row promises ---------------------------------------------------------------------------

  ghost predicate Timed(log: seq<Event>) { forall i | 0 <= i < |log| :: log[i].latency >= 0 }

  lemma {:induction false} SelectKeeps<K>(log: seq<Event>, key: Event -> K, k: K)
    requires Timed(log)
    ensures Timed(Select(log, key, k))
  {
    if log != [] { SelectKeeps(log[..|log| - 1], key, k); }
  }

  lemma {:induction false} SinceIsTimed(log: seq<Event>, before: int)
    requires Timed(log)
    ensures Timed(Since(log, before))
  {
    if log != [] { SinceIsTimed(log[..|log| - 1], before); }
  }

  lemma TimedFront(history: seq<Entry>)
    requires history != [] && Timed(LogOf(history))
    ensures Timed(LogOf(history[..|history| - 1]))
    ensures history[|history| - 1].Counted? ==> history[|history| - 1].event.latency >= 0
  {
    var front, last := LogOf(history[..|history| - 1]), history[|history| - 1];
    assert forall i | 0 <= i < |front| :: LogOf(history)[i] == front[i];
    assert last.Counted? ==> LogOf(history)[|front|] == last.event;
  }

  lemma {:induction false} KeptIsTimed(history: seq<Entry>, table: Table)
    requires Timed(LogOf(history))
    ensures Timed(KeptBy(history, table))
  {
    if history != [] {
      var front, last := history[..|history| - 1], history[|history| - 1];
      TimedFront(history);
      KeptIsTimed(front, table);
      if last.Trimmed? { SinceIsTimed(KeptBy(front, table), last.before); }
    }
  }

  lemma {:induction false} GroupedIsTimed(history: seq<Entry>)
    requires Timed(LogOf(history))
    ensures Timed(LogOf(Grouped(history)))
  {
    if history != [] {
      var front, last := history[..|history| - 1], history[|history| - 1];
      TimedFront(history);
      GroupedIsTimed(front);
      LogOneMore(Grouped(front), last);
    }
  }

  lemma {:induction false} SumWithinMax(s: seq<Event>)
    requires Timed(s)
    ensures 0 <= LatencyMax(s) && 0 <= LatencySum(s) <= |s| * LatencyMax(s)
    ensures s != [] ==> exists i :: 0 <= i < |s| && s[i].latency == LatencyMax(s)
    ensures forall i | 0 <= i < |s| :: s[i].latency <= LatencyMax(s)
  {
    if |s| > 1 {
      var front, last := s[..|s| - 1], s[|s| - 1].latency;
      SumWithinMax(front);
      var m := LatencyMax(s);
      Scale(|front|, LatencyMax(front), m);
      assert LatencySum(s) <= |front| * m + m;
      assert |front| * m + m == |s| * m by { Distribute(|front|, m); }
    } else if |s| == 1 {
      assert s[..0] == [];
      assert s[0].latency == LatencyMax(s);
    }
  }

  lemma Scale(n: nat, a: int, b: int)
    requires a <= b
    ensures n * a <= n * b
  {}

  lemma Distribute(n: nat, m: int)
    ensures n * m + m == (n + 1) * m
  {}

  lemma {:induction false} ClassesPartition(s: seq<Event>)
    ensures Count(s, Succeeded) + Count(s, Negative) + Count(s, Blocked) + Count(s, Failed) == |s|
    ensures Count(s, Hit) <= |s|
  {
    if s != [] { ClassesPartition(s[..|s| - 1]); }
  }

  /** Every row of the global table counts at least one query, splits it into the four result classes, and
      bounds its latency sum by count times maximum. */
  lemma GlobalRowsAreSound(t: Tables, history: seq<Entry>, k: GlobalKey)
    requires TablesMirror(t, history) && Timed(LogOf(history)) && k in t.global
    ensures var r := t.global[k];
      && r.count >= 1 && r.successes + r.negatives + r.blocks + r.failures == r.count
      && r.errors == r.failures && r.hits <= r.count
      && 0 <= r.latencySum <= r.count * r.latencyMax
  {
    var log := KeptBy(history, GlobalTable);
    var s := Select(log, KeyOfGlobal, k);
    KeptIsTimed(history, GlobalTable);
    SelectKeeps(log, KeyOfGlobal, k);
    SumWithinMax(s);
    ClassesPartition(s);
  }

  lemma GroupRowsAreSound(t: Tables, history: seq<Entry>, k: GroupKey)
    requires TablesMirror(t, history) && Timed(LogOf(history)) && k in t.group
    ensures var r := t.group[k];
      && r.count >= 1 && 0 <= r.errors <= r.count && r.hits <= r.count
      && 0 <= r.latencySum <= r.count * r.latencyMax
  {
    var log := KeptBy(Grouped(history), GroupTable);
    var s := Select(log, KeyOfGroup, k);
    GroupedIsTimed(history);
    KeptIsTimed(Grouped(history), GroupTable);
    SelectKeeps(log, KeyOfGroup, k);
    SumWithinMax(s);
    ClassesPartition(s);
  }
}
