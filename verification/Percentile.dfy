/** The bucketed percentile: the bound it returns is the bucket of the true nearest-rank percentile. */
module Percentile {
  import opened Ordering
  import opened Events
  import opened Aggregates

  // ---- the target rank ---------------------------------------------------------------------------

  /** int64(samples*0.95 + 0.999999), in exact arithmetic. */
  function Target(samples: nat): int {
    (samples as real * 0.95 + 0.999999).Floor
  }

  /** The target is the ceiling of 0.95 n. */
  lemma TargetIsCeiling(samples: nat)
    ensures 20 * Target(samples) >= 19 * samples
    ensures 20 * (Target(samples) - 1) < 19 * samples
    ensures samples > 0 ==> 1 <= Target(samples) <= samples
  {
    var t := Target(samples);
    var x := samples as real * 0.95 + 0.999999;
    assert t as real <= x < t as real + 1.0;
    assert 20.0 * x == 19.0 * samples as real + 19.99998;
    assert 20.0 * (t as real) <= 19.0 * samples as real + 19.99998;
    assert (20 * t) as real <= (19 * samples) as real + 19.99998;
    assert 20 * t <= 19 * samples + 19;
    assert (20 * t + 20) as real > (19 * samples) as real + 19.99998;
    assert 20 * t + 20 > 19 * samples + 19;
  }

  // ---- the nearest rank ---------------------------------------------------------------------------

  function AtMost(values: seq<int>, v: int): nat {
    if values == [] then 0
    else AtMost(values[..|values| - 1], v) + if values[|values| - 1] <= v then 1 else 0
  }

  /** v is the value of the given rank: it occurs, at least rank values do not exceed it, and fewer than rank
      values are smaller. */
  ghost predicate NearestRank(values: seq<int>, rank: int, v: int) {
    v in values && AtMost(values, v) >= rank && AtMost(values, v - 1) < rank
  }

  ghost predicate Sorted(values: seq<int>) {
    forall i, j | 0 <= i < j < |values| :: values[i] <= values[j]
  }

  lemma {:induction false} AtMostBounds(values: seq<int>, v: int, w: int)
    requires v <= w
    ensures AtMost(values, v) <= AtMost(values, w) <= |values|
  {
    if values != [] { AtMostBounds(values[..|values| - 1], v, w); }
  }

  lemma AtMostOneMore(values: seq<int>, x: int, v: int)
    ensures AtMost(values + [x], v) == AtMost(values, v) + if x <= v then 1 else 0
  {
    assert (values + [x])[..|values|] == values;
  }

  lemma {:induction false} AtMostWithout(b: seq<int>, i: nat, v: int)
    requires i < |b|
    ensures AtMost(b, v) == AtMost(b[..i] + b[i + 1..], v) + if b[i] <= v then 1 else 0
    decreases |b|
  {
    var n := |b| - 1;
    if i == n {
      assert b[..i] + b[i + 1..] == b[..n];
    } else {
      var front := b[..n];
      AtMostWithout(front, i, v);
      assert b[..i] + b[i + 1..] == (front[..i] + front[i + 1..]) + [b[n]];
      AtMostOneMore(front[..i] + front[i + 1..], b[n], v);
    }
  }

  /** How many values do not exceed v depends on the multiset of values alone. */
  lemma {:induction false} AtMostOfPermutation(a: seq<int>, b: seq<int>, v: int)
    requires multiset(a) == multiset(b)
    ensures AtMost(a, v) == AtMost(b, v)
    decreases |a|
  {
    if a == [] {
      assert |multiset(b)| == 0 && b == [];
    } else {
      hide AtMost;
      var n := |a| - 1;
      MultisetWithout(a, n);
      AtMostWithout(a, n, v);
      var i := IndexOf(a[n], b);
      MultisetWithout(b, i);
      AtMostWithout(b, i, v);
      AtMostOfPermutation(a[..n] + a[n + 1..], b[..i] + b[i + 1..], v);
    }
  }

  lemma IndexOf(x: int, b: seq<int>) returns (i: nat)
    requires x in multiset(b)
    ensures i < |b| && b[i] == x
  {
    assert x in b;
    i :| 0 <= i < |b| && b[i] == x;
  }

  lemma MultisetWithout(b: seq<int>, i: nat)
    requires i < |b|
    ensures b[i] in multiset(b)
    ensures multiset(b[..i] + b[i + 1..]) == multiset(b) - multiset{b[i]}
    ensures |b[..i] + b[i + 1..]| == |b| - 1
  {
    assert b == b[..i] + [b[i]] + b[i + 1..];
  }

  /** Sorting a list, whatever its order, shows its value of rank r at position r; there is exactly one such value. */
  lemma RankOfSorted(values: seq<int>, sorted: seq<int>, rank: int)
    requires Sorted(sorted) && multiset(sorted) == multiset(values) && 1 <= rank <= |sorted|
    ensures forall v :: NearestRank(values, rank, v) <==> v == sorted[rank - 1]
  {
    var v := sorted[rank - 1];
    PrefixAtMost(sorted, rank, v);
    SuffixAbove(sorted, rank - 1, v - 1);
    AtMostOfPermutation(sorted, values, v);
    AtMostOfPermutation(sorted, values, v - 1);
    assert v in multiset(values);
    forall w | NearestRank(values, rank, w) ensures w == v {
      RankIsUnique(values, rank, v, w);
    }
  }

  lemma RankIsUnique(values: seq<int>, rank: int, v: int, w: int)
    requires NearestRank(values, rank, v) && NearestRank(values, rank, w)
    ensures v == w
  {
    if v < w {
      AtMostBounds(values, v, w - 1);
    } else if w < v {
      AtMostBounds(values, w, v - 1);
    }
  }

  ghost function PlacedIn(sorted: seq<int>, x: int): seq<int> {
    if sorted == [] || sorted[|sorted| - 1] <= x then sorted + [x]
    else PlacedIn(sorted[..|sorted| - 1], x) + [sorted[|sorted| - 1]]
  }

  lemma {:induction false} PlacedHolds(sorted: seq<int>, x: int)
    ensures multiset(PlacedIn(sorted, x)) == multiset(sorted) + multiset{x}
  {
    if !(sorted == [] || sorted[|sorted| - 1] <= x) {
      PlacedHolds(sorted[..|sorted| - 1], x);
      assert sorted == sorted[..|sorted| - 1] + [sorted[|sorted| - 1]];
    }
  }

  lemma {:induction false} PlacedIsSorted(sorted: seq<int>, x: int)
    requires Sorted(sorted)
    ensures Sorted(PlacedIn(sorted, x))
    ensures forall y | y in PlacedIn(sorted, x) :: y == x || y in sorted
  {
    if !(sorted == [] || sorted[|sorted| - 1] <= x) {
      var n := |sorted| - 1;
      PlacedIsSorted(sorted[..n], x);
      var front := PlacedIn(sorted[..n], x);
      forall i | 0 <= i < |front| ensures front[i] <= sorted[n] {
        assert front[i] in front;
      }
    }
  }

  /** A sorted arrangement of the values. */
  ghost function SortedValues(values: seq<int>): (sorted: seq<int>)
    ensures Sorted(sorted) && multiset(sorted) == multiset(values)
  {
    if values == [] then [] else Placed(SortedValues(values[..|values| - 1]), values[|values| - 1], values)
  }

  ghost function Placed(sorted: seq<int>, x: int, values: seq<int>): (more: seq<int>)
    requires Sorted(sorted) && values != [] && x == values[|values| - 1]
    requires multiset(sorted) == multiset(values[..|values| - 1])
    ensures Sorted(more) && multiset(more) == multiset(values)
  {
    PlacedIsSorted(sorted, x);
    PlacedHolds(sorted, x);
    var more := PlacedIn(sorted, x);
    assert values == values[..|values| - 1] + [x];
    more
  }

  /** Every list has a value of every rank from 1 to its length, and only one. */
  lemma RankExists(values: seq<int>, rank: int)
    requires 1 <= rank <= |values|
    ensures exists v :: NearestRank(values, rank, v)
    ensures forall v, w | NearestRank(values, rank, v) && NearestRank(values, rank, w) :: v == w
  {
    var sorted := SortedValues(values);
    assert |sorted| == |multiset(sorted)| == |values|;
    RankOfSorted(values, sorted, rank);
    hide NearestRank;
    assert NearestRank(values, rank, sorted[rank - 1]);
  }

  lemma {:induction false} PrefixAtMost(values: seq<int>, n: nat, v: int)
    requires n <= |values| && forall i | 0 <= i < n :: values[i] <= v
    ensures AtMost(values, v) >= n
  {
    if |values| > 0 {
      PrefixAtMost(values[..|values| - 1], if n == |values| then n - 1 else n, v);
    }
  }

  lemma {:induction false} SuffixAbove(values: seq<int>, n: nat, v: int)
    requires n <= |values| && forall i | n <= i < |values| :: values[i] > v
    ensures AtMost(values, v) <= n
  {
    if |values| > n {
      SuffixAbove(values[..|values| - 1], n, v);
    } else {
      AtMostBounds(values, v, v);
    }
  }

  // ---- the bucket table read -----------------------------------------------------------------------

  /** The latencies of the events not older than from. */
  function Recent(log: seq<Event>, from: int): seq<int> {
    if log == [] then []
    else
      var e := log[|log| - 1];
      Recent(log[..|log| - 1], from) + if HourOf(e) >= from then [e.latency] else []
  }

  /** SUM(query_count) of one bound. */
  ghost function BoundCount(bucket: map<BucketKey, int>, from: int, bound: int): int {
    Sum(bucket, (k: BucketKey) => k.hour >= from && k.bound == bound, (c: int) => c)
  }

  /** The latency table is the recomputation from the events of log. */
  ghost predicate BucketMirrors(bucket: map<BucketKey, int>, log: seq<Event>) {
    Mirrors(bucket, log, KeyOfBucket, CountOf)
  }

  datatype BoundRow = BoundRow(bound: int, count: int)

  /** The rows of SELECT upper_bound_us, SUM(query_count) ... GROUP BY upper_bound_us ORDER BY upper_bound_us:
      ascending bounds, one row for each that counts anything. */
  ghost predicate GroupedBounds(rows: seq<BoundRow>, bucket: map<BucketKey, int>, from: int) {
    && (forall i, j | 0 <= i < j < |rows| :: rows[i].bound < rows[j].bound)
    && (forall i | 0 <= i < |rows| ::
          rows[i].bound in BOUNDS && rows[i].count == BoundCount(bucket, from, rows[i].bound) > 0)
    && (forall b | b in BOUNDS && BoundCount(bucket, from, b) > 0 :: exists i :: 0 <= i < |rows| && rows[i].bound == b)
  }

  ghost function InBucket(from: int, bound: int): Event -> bool {
    e => HourOf(e) >= from && Bucket(e.latency) == bound
  }

  lemma BoundCountIs(bucket: map<BucketKey, int>, log: seq<Event>, from: int, bound: int)
    requires BucketMirrors(bucket, log)
    ensures BoundCount(bucket, from, bound) == Count(log, InBucket(from, bound))
  {
    hide Bucket;
    hide HourOf;
    var p := (k: BucketKey) => k.hour >= from && k.bound == bound;
    TableCounts(bucket, log, KeyOfBucket, CountOf, (c: int) => c, p);
    forall e ensures Passes(KeyOfBucket, p)(e) == InBucket(from, bound)(e) {
      assert KeyOfBucket(e) == BucketKey(HourOf(e), Bucket(e.latency));
    }
    SameCount(log, Passes(KeyOfBucket, p), InBucket(from, bound));
  }

  /** How many recent events lie in the buckets of the first n rows. */
  ghost function Cumulative(rows: seq<BoundRow>): int {
    if rows == [] then 0 else Cumulative(rows[..|rows| - 1]) + rows[|rows| - 1].count
  }

  ghost function InBuckets(from: int, bounds: set<int>): Event -> bool {
    e => HourOf(e) >= from && Bucket(e.latency) in bounds
  }

  ghost function BoundsOf(rows: seq<BoundRow>): set<int> { set i | 0 <= i < |rows| :: rows[i].bound }

  lemma {:induction false} CountSplits(log: seq<Event>, from: int, bounds: set<int>, b: int)
    requires b !in bounds
    ensures Count(log, InBuckets(from, bounds + {b}))
      == Count(log, InBuckets(from, bounds)) + Count(log, InBucket(from, b))
  {
    hide Bucket;
    hide HourOf;
    if log != [] { CountSplits(log[..|log| - 1], from, bounds, b); }
  }

  lemma {:induction false} NoneInNoBuckets(log: seq<Event>, from: int)
    ensures Count(log, InBuckets(from, {})) == 0
  {
    if log != [] { NoneInNoBuckets(log[..|log| - 1], from); }
  }

  lemma {:induction false} CumulativeCounts(
    bucket: map<BucketKey, int>, log: seq<Event>, from: int, rows: seq<BoundRow>, n: nat)
    requires BucketMirrors(bucket, log) && GroupedBounds(rows, bucket, from) && n <= |rows|
    ensures Cumulative(rows[..n]) == Count(log, InBuckets(from, BoundsOf(rows[..n])))
  {
    hide BucketMirrors;
    hide BoundCount;
    if n == 0 {
      NoneInNoBuckets(log, from);
      assert BoundsOf(rows[..0]) == {};
    } else {
      CumulativeCounts(bucket, log, from, rows, n - 1);
      var b := rows[n - 1].bound;
      BoundCountIs(bucket, log, from, b);
      assert rows[..n][..n - 1] == rows[..n - 1] && rows[..n][n - 1] == rows[n - 1];
      BoundsOneMore(rows, n - 1);
      assert b !in BoundsOf(rows[..n - 1]);
      CountSplits(log, from, BoundsOf(rows[..n - 1]), b);
    }
  }

  lemma BoundsOneMore(rows: seq<BoundRow>, n: nat)
    requires n < |rows|
    ensures BoundsOf(rows[..n + 1]) == BoundsOf(rows[..n]) + {rows[n].bound}
  {
    assert forall i | 0 <= i < n :: rows[..n + 1][i] == rows[..n][i];
    assert rows[..n + 1][n] == rows[n];
  }

  /** Counting up to a row counts the latencies up to its bound; the last bound takes them all. */
  lemma {:induction false} CountedUpTo(log: seq<Event>, from: int, bounds: set<int>, b: int)
    requires b in BOUNDS
    requires forall i | 0 <= i < |log| && HourOf(log[i]) >= from :: Bucket(log[i].latency) in bounds <==>
      Bucket(log[i].latency) <= b
    ensures Count(log, InBuckets(from, bounds))
      == if b == LAST_BOUND then |Recent(log, from)| else AtMost(Recent(log, from), b)
  {
    hide Bucket;
    hide HourOf;
    if log != [] {
      var front, e := log[..|log| - 1], log[|log| - 1];
      assert forall i | 0 <= i < |front| :: front[i] == log[i];
      CountedUpTo(front, from, bounds, b);
      BucketAtMost(e.latency, b);
      AtMostOneMore(Recent(front, from), e.latency, b);
      if HourOf(e) >= from {
        assert Recent(log, from) == Recent(front, from) + [e.latency];
        assert InBuckets(from, bounds)(e) <==> e.latency <= b || b == LAST_BOUND;
      } else {
        assert Recent(log, from) == Recent(front, from);
        assert !InBuckets(from, bounds)(e);
      }
    }
  }

  /** Every recent event lies in the bucket of some row. */
  lemma RecentIsListed(bucket: map<BucketKey, int>, log: seq<Event>, from: int, rows: seq<BoundRow>, i: nat)
    requires BucketMirrors(bucket, log) && GroupedBounds(rows, bucket, from)
    requires i < |log| && HourOf(log[i]) >= from
    ensures Bucket(log[i].latency) in BoundsOf(rows)
  {
    hide BucketMirrors;
    hide HourOf;
    hide BoundCount;
    var b := Bucket(log[i].latency);
    BoundCountIs(bucket, log, from, b);
    OneIsCounted(log, InBucket(from, b), i);
    assert BoundCount(bucket, from, b) > 0;
    var k :| 0 <= k < |rows| && rows[k].bound == b;
  }

  lemma {:induction false} OneIsCounted(log: seq<Event>, p: Event -> bool, i: nat)
    requires i < |log| && p(log[i])
    ensures Count(log, p) >= 1
  {
    if i < |log| - 1 { OneIsCounted(log[..|log| - 1], p, i); }
  }

  ghost predicate BoundsAscend(rows: seq<BoundRow>) {
    forall i, j | 0 <= i < j < |rows| :: rows[i].bound < rows[j].bound
  }

  lemma RowsAscend(rows: seq<BoundRow>, bucket: map<BucketKey, int>, from: int)
    requires GroupedBounds(rows, bucket, from)
    ensures BoundsAscend(rows) && forall i | 0 <= i < |rows| :: rows[i].bound in BOUNDS
  {}

  lemma CutAtRow(rows: seq<BoundRow>, n: nat, x: int)
    requires BoundsAscend(rows) && n < |rows| && x in BoundsOf(rows)
    ensures x in BoundsOf(rows[..n + 1]) <==> x <= rows[n].bound
  {
    var k :| 0 <= k < |rows| && rows[k].bound == x;
    assert k <= n ==> rows[..n + 1][k] == rows[k];
    if x in BoundsOf(rows[..n + 1]) {
      var j :| 0 <= j < n + 1 && rows[..n + 1][j].bound == x;
      assert rows[j].bound == x;
    }
  }

  lemma UpToRow(bucket: map<BucketKey, int>, log: seq<Event>, from: int, rows: seq<BoundRow>, n: nat)
    requires BucketMirrors(bucket, log) && GroupedBounds(rows, bucket, from) && n < |rows|
    ensures var b := rows[n].bound;
      Cumulative(rows[..n + 1]) == if b == LAST_BOUND then |Recent(log, from)| else AtMost(Recent(log, from), b)
  {
    CumulativeCounts(bucket, log, from, rows, n + 1);
    RowsAscend(rows, bucket, from);
    hide HourOf;
    hide Bucket;
    hide GroupedBounds;
    hide BucketMirrors;
    hide BoundsOf;
    hide BoundsAscend;
    var b := rows[n].bound;
    forall i | 0 <= i < |log| && HourOf(log[i]) >= from
      ensures Bucket(log[i].latency) in BoundsOf(rows[..n + 1]) <==> Bucket(log[i].latency) <= b
    {
      RecentIsListed(bucket, log, from, rows, i);
      CutAtRow(rows, n, Bucket(log[i].latency));
    }
    CountedUpTo(log, from, BoundsOf(rows[..n + 1]), b);
  }

  lemma AllCounted(bucket: map<BucketKey, int>, log: seq<Event>, from: int, rows: seq<BoundRow>)
    requires BucketMirrors(bucket, log) && GroupedBounds(rows, bucket, from)
    ensures Cumulative(rows) == |Recent(log, from)|
  {
    CumulativeCounts(bucket, log, from, rows, |rows|);
    assert rows[..|rows|] == rows;
    hide HourOf;
    hide Bucket;
    forall i | 0 <= i < |log| && HourOf(log[i]) >= from
      ensures Bucket(log[i].latency) in BoundsOf(rows) <==> Bucket(log[i].latency) <= LAST_BOUND
    {
      RecentIsListed(bucket, log, from, rows, i);
      LastIsGreatest(Bucket(log[i].latency));
    }
    hide BucketMirrors;
    hide GroupedBounds;
    LastIsBound();
    CountedUpTo(log, from, BoundsOf(rows), LAST_BOUND);
  }

  lemma LastIsBound()
    ensures LAST_BOUND in BOUNDS
  {
    assert BOUNDS[10] == LAST_BOUND;
  }

  /** The value of the target rank lies in the bucket of the row at which the running count reaches the target. */
  lemma RankInRow(
    bucket: map<BucketKey, int>, log: seq<Event>, from: int, rows: seq<BoundRow>, n: nat, target: int, v: int)
    requires BucketMirrors(bucket, log) && GroupedBounds(rows, bucket, from) && n < |rows|
    requires target >= 1 && NearestRank(Recent(log, from), target, v)
    requires Cumulative(rows[..n]) < target <= Cumulative(rows[..n + 1])
    ensures Bucket(v) == rows[n].bound
  {
    UpToRow(bucket, log, from, rows, n);
    if n > 0 { UpToRow(bucket, log, from, rows, n - 1); }
    assert v in Recent(log, from);
    ValueIsListed(bucket, log, from, rows, v);
    RowsAscend(rows, bucket, from);
    hide BucketMirrors;
    hide GroupedBounds;
    hide Bucket;
    hide Cumulative;
    var k :| 0 <= k < |rows| && rows[k].bound == Bucket(v);
    hide BoundsAscend;
    hide NearestRank;
    hide Recent;
    hide AtMost;
    RankAtMost(Recent(log, from), target, v, rows[n].bound);
    if n > 0 { RankAbove(Recent(log, from), target, v, rows[n - 1].bound); }
    BetweenRows(rows, n, k);
  }

  /** Enough values up to b: the value of the rank is in a bucket up to b. */
  lemma RankAtMost(values: seq<int>, target: int, v: int, b: int)
    requires b in BOUNDS && NearestRank(values, target, v)
    requires target <= if b == LAST_BOUND then |values| else AtMost(values, b)
    ensures Bucket(v) <= b
  {
    BucketAtMost(v, b);
    hide Bucket;
    if v > b && b != LAST_BOUND { AtMostBounds(values, b, v - 1); }
  }

  /** Too few values up to b: the value of the rank is in a later bucket. */
  lemma RankAbove(values: seq<int>, target: int, v: int, b: int)
    requires b in BOUNDS && NearestRank(values, target, v)
    requires (if b == LAST_BOUND then |values| else AtMost(values, b)) < target
    ensures Bucket(v) > b
  {
    BucketAtMost(v, b);
    hide Bucket;
    AtMostBounds(values, v, v);
    if v <= b { AtMostBounds(values, v, b); }
  }

  lemma BetweenRows(rows: seq<BoundRow>, n: nat, k: nat)
    requires BoundsAscend(rows) && n < |rows| && k < |rows|
    requires rows[k].bound <= rows[n].bound && (n > 0 ==> rows[n - 1].bound < rows[k].bound)
    ensures k == n
  {}

  lemma LastIsGreatest(b: int)
    requires b in BOUNDS
    ensures b <= LAST_BOUND
  {}

  lemma {:induction false} RecentMembers(log: seq<Event>, from: int, v: int)
    requires v in Recent(log, from)
    ensures exists i :: 0 <= i < |log| && HourOf(log[i]) >= from && log[i].latency == v
  {
    hide HourOf;
    if log != [] {
      var front, e := log[..|log| - 1], log[|log| - 1];
      if v in Recent(front, from) {
        RecentMembers(front, from, v);
        var i :| 0 <= i < |front| && HourOf(front[i]) >= from && front[i].latency == v;
        assert log[i] == front[i];
      }
    }
  }

  lemma ValueIsListed(bucket: map<BucketKey, int>, log: seq<Event>, from: int, rows: seq<BoundRow>, v: int)
    requires BucketMirrors(bucket, log) && GroupedBounds(rows, bucket, from) && v in Recent(log, from)
    ensures exists k :: 0 <= k < |rows| && rows[k].bound == Bucket(v)
  {
    RecentMembers(log, from, v);
    var i :| 0 <= i < |log| && HourOf(log[i]) >= from && log[i].latency == v;
    RecentIsListed(bucket, log, from, rows, i);
    hide BucketMirrors;
    assert Bucket(v) in BoundsOf(rows);
  }

  lemma {:induction false} RecentSince(log: seq<Event>, before: int, from: int)
    requires before <= from
    ensures Recent(Since(log, before), from) == Recent(log, from)
  {
    hide HourOf;
    if log != [] {
      var front, e := log[..|log| - 1], log[|log| - 1];
      RecentSince(front, before, from);
      assert (Since(front, before) + [e])[..|Since(front, before)|] == Since(front, before);
    }
  }

  /** The window lies within what the latency table has kept so far. */
  ghost predicate WindowKept(history: seq<Entry>, from: int) {
    forall i | 0 <= i < |history| && history[i].Trimmed? && history[i].table == BucketTable :: history[i].before <= from
  }

  /** As long as retention stays behind the window, the table read speaks of every event that ever arrived in it. */
  lemma {:induction false} RecentIsKept(history: seq<Entry>, from: int)
    requires WindowKept(history, from)
    ensures Recent(KeptBy(history, BucketTable), from) == Recent(LogOf(history), from)
  {
    hide HourOf;
    if history != [] {
      var front, last := history[..|history| - 1], history[|history| - 1];
      assert forall i | 0 <= i < |front| :: front[i] == history[i];
      RecentIsKept(front, from);
      match last
      case Counted(e) =>
        RecentOneMore(KeptBy(front, BucketTable), e, from);
        RecentOneMore(LogOf(front), e, from);
      case Trimmed(t, before) =>
        if t == BucketTable { RecentSince(KeptBy(front, BucketTable), before, from); }
    }
  }

  lemma RecentOneMore(log: seq<Event>, e: Event, from: int)
    ensures Recent(log + [e], from) == Recent(log, from) + if HourOf(e) >= from then [e.latency] else []
  {
    assert (log + [e])[..|log|] == log;
  }

  /** latencyPercentile at 0.95: the scan always finds a row when there are samples, and the bound it returns is
      the bucket of the nearest-rank 95th percentile of the raw latencies. */
  method LatencyPercentile(
    rows: seq<BoundRow>, ghost bucket: map<BucketKey, int>, ghost log: seq<Event>, ghost from: int)
    returns (bound: int, samples: int)
    requires BucketMirrors(bucket, log) && GroupedBounds(rows, bucket, from)
    ensures samples == |Recent(log, from)|
    ensures samples == 0 ==> bound == 0
    ensures samples > 0 ==> bound in BOUNDS
    ensures samples > 0 ==> exists v :: NearestRank(Recent(log, from), Target(samples), v) && bound == Bucket(v)
    ensures forall v | samples > 0 && NearestRank(Recent(log, from), Target(samples), v) :: bound == Bucket(v)
  {
    hide BucketMirrors;
    hide GroupedBounds;
    hide NearestRank;
    samples := 0;
    for i := 0 to |rows|
      invariant samples == Cumulative(rows[..i])
    {
      assert rows[..i + 1][..i] == rows[..i] && rows[..i + 1][i] == rows[i];
      samples := samples + rows[i].count;
    }
    assert rows[..|rows|] == rows;
    AllCounted(bucket, log, from, rows);
    if samples == 0 {
      return 0, 0;
    }
    var target := Target(samples);
    TargetIsCeiling(samples);
    var cumulative := 0;
    for i := 0 to |rows|
      invariant cumulative == Cumulative(rows[..i]) < target
    {
      assert rows[..i + 1][..i] == rows[..i] && rows[..i + 1][i] == rows[i];
      cumulative := cumulative + rows[i].count;
      if cumulative >= target {
        bound := rows[i].bound;
        RowIsBound(rows, bucket, from, i);
        RankExists(Recent(log, from), target);
        forall v | NearestRank(Recent(log, from), target, v) ensures bound == Bucket(v) {
          RankInRow(bucket, log, from, rows, i, target, v);
        }
        return;
      }
    }
    assert false;
  }

  lemma RowIsBound(rows: seq<BoundRow>, bucket: map<BucketKey, int>, from: int, i: nat)
    requires GroupedBounds(rows, bucket, from) && i < |rows|
    ensures rows[i].bound in BOUNDS
  {}
}
