/** Keyset paging over rows ordered by timestamp and id, newest first, and the cursor that carries the place.
    The stored-query pager and the audit-log pager both follow it. */
module Paging {
  import opened Ordering
  import opened Text
  import opened RuleModel
  import opened Validation

  /** A row with its place; ids are unique in a table. */
  datatype Row<+T> = Row(ts: int, id: int, item: T)

  datatype Place = Place(ts: int, id: int)

  datatype Page<+T> = Page(items: seq<Row<T>>, next: Option<Place>)

  function PlaceOf<T>(r: Row<T>): Place { Place(r.ts, r.id) }

  /** ORDER BY ts DESC, id DESC: a is listed before b. */
  predicate Newer(a: Place, b: Place) { a.ts > b.ts || (a.ts == b.ts && a.id > b.id) }

  predicate Listed<T>(a: Row<T>, b: Row<T>) { Newer(PlaceOf(a), PlaceOf(b)) }

  /** The keyset condition of the cursor. */
  predicate Behind<T>(cursor: Option<Place>, r: Row<T>) {
    cursor.Some? ==> r.ts < cursor.value.ts || (r.ts == cursor.value.ts && r.id < cursor.value.id)
  }

  ghost predicate UniqueIds<T(!new)>(table: seq<Row<T>>) {
    forall i, j | 0 <= i < j < |table| :: table[i].id != table[j].id
  }

  function Filter<T>(table: seq<Row<T>>, p: Row<T> -> bool): seq<Row<T>> {
    if table == [] then []
    else Filter(table[..|table| - 1], p) + if p(table[|table| - 1]) then [table[|table| - 1]] else []
  }

  /** The rows behind the cursor, newest first. */
  function Listing<T>(table: seq<Row<T>>, matches: Row<T> -> bool, cursor: Option<Place>): seq<Row<T>> {
    Sort(Filter(table, r => matches(r) && Behind(cursor, r)), Listed)
  }

  /** An absent or excessive limit means 100. */
  function Limit(limit: int): (n: nat)
    ensures 1 <= n <= 500
  {
    if limit <= 0 || limit > 500 then 100 else limit
  }

  function PageOf<T>(listing: seq<Row<T>>, n: nat): Page<T>
    requires n > 0
  {
    if |listing| > n then Page(listing[..n], Some(PlaceOf(listing[n - 1]))) else Page(listing, None)
  }

  /** One page: LIMIT n + 1 rows are fetched, and the surplus row only tells that there are more. */
  method ReadPage<T>(table: seq<Row<T>>, matches: Row<T> -> bool, cursor: Option<Place>, limit: int)
    returns (page: Page<T>)
    ensures page == PageOf(Listing(table, matches, cursor), Limit(limit))
  {
    var n := Limit(limit);
    var listing := Listing(table, matches, cursor);
    var fetched := if |listing| > n + 1 then listing[..n + 1] else listing;
    var items: seq<Row<T>> := [];
    for i := 0 to |fetched|
      invariant items == fetched[..i]
    {
      items := items + [fetched[i]];
    }
    assert items == fetched;
    var next: Option<Place> := None;
    if |items| > n {
      var last := items[n - 1];
      next := Some(Place(last.ts, last.id));
      items := items[..n];
    }
    assert |listing| > n ==> items == listing[..n];
    page := Page(items, next);
  }

  // ---- listings --------------------------------------------------------------------------------------

  lemma {:induction false} FilterMembers<T(!new)>(table: seq<Row<T>>, p: Row<T> -> bool)
    ensures forall r :: r in Filter(table, p) <==> r in table && p(r)
  {
    if table != [] {
      FilterMembers(table[..|table| - 1], p);
      assert table == table[..|table| - 1] + [table[|table| - 1]];
    }
  }

  lemma {:induction false} FilterUnique<T(!new)>(table: seq<Row<T>>, p: Row<T> -> bool)
    requires UniqueIds(table)
    ensures UniqueIds(Filter(table, p))
  {
    if table != [] {
      var front, last := table[..|table| - 1], table[|table| - 1];
      FilterUnique(front, p);
      FilterMembers(front, p);
      var kept := Filter(front, p);
      forall i | 0 <= i < |kept| ensures kept[i].id != last.id {
        assert kept[i] in kept && kept[i] in front;
        var k :| 0 <= k < |front| && front[k] == kept[i];
        assert table[k] == kept[i];
      }
    }
  }

  lemma ListedOrder<T(!new)>(rows: seq<Row<T>>)
    requires UniqueIds(rows)
    ensures StrictOrderOn(Listed, Elements(rows)) && NoDuplicates(rows)
  {
    forall x, y | x in Elements(rows) && y in Elements(rows) && x != y ensures Listed(x, y) || Listed(y, x) {
      var i :| 0 <= i < |rows| && rows[i] == x;
      var j :| 0 <= j < |rows| && rows[j] == y;
      assert i < j || j < i;
    }
  }

  /** A listing is the matching rows behind the cursor, strictly newest first. */
  lemma ListingIs<T(!new)>(table: seq<Row<T>>, matches: Row<T> -> bool, cursor: Option<Place>)
    requires UniqueIds(table)
    ensures Ascending(Listed, Listing(table, matches, cursor))
    ensures forall r :: r in Listing(table, matches, cursor) <==> r in table && matches(r) && Behind(cursor, r)
  {
    var p := (r: Row<T>) => matches(r) && Behind(cursor, r);
    var rows := Filter(table, p);
    FilterMembers(table, p);
    FilterUnique(table, p);
    ListedOrder(rows);
    SortAscends(rows, Listed);
    SortKeeps(rows, Listed);
    hide Sort;
    hide Filter;
    var s := Sort(rows, Listed);
    forall r ensures r in s <==> r in rows {
      assert r in s <==> r in Elements(s);
      assert r in rows <==> r in Elements(rows);
    }
  }

  /** In terms of time stamps and ids: a later time comes first, then the larger id; the rows are those behind the
      cursor, and what is left out is the cursor's row and those before it. */
  lemma ListingIsNewestFirst<T(!new)>(table: seq<Row<T>>, matches: Row<T> -> bool, cursor: Option<Place>)
    requires UniqueIds(table)
    ensures forall i, j | 0 <= i < j < |Listing(table, matches, cursor)| ::
      var a, b := Listing(table, matches, cursor)[i], Listing(table, matches, cursor)[j];
      a.ts > b.ts || (a.ts == b.ts && a.id > b.id)
    ensures cursor.Some? ==> forall r | r in Listing(table, matches, cursor) ::
      r.ts < cursor.value.ts || (r.ts == cursor.value.ts && r.id < cursor.value.id)
    ensures forall r | r in table && matches(r) && r !in Listing(table, matches, cursor) ::
      cursor.Some? && (r.ts > cursor.value.ts || (r.ts == cursor.value.ts && r.id >= cursor.value.id))
  {
    ListingIs(table, matches, cursor);
    hide Listing;
    var l := Listing(table, matches, cursor);
    forall i, j | 0 <= i < j < |l| ensures l[i].ts > l[j].ts || (l[i].ts == l[j].ts && l[i].id > l[j].id) {
      assert Listed(l[i], l[j]);
    }
  }

  // ---- following places ---------------------------------------------------------------------------------

  function Items<T>(pages: seq<Page<T>>): seq<Row<T>> {
    if pages == [] then [] else pages[0].items + Items(pages[1..])
  }

  /** A walk from page to page: each is read from the table as it is at that moment, behind the place where the
      page before it ended, until there are no more rows. */
  ghost predicate PlaceWalk<T(!new)>(
      tables: seq<seq<Row<T>>>, matches: Row<T> -> bool, limit: int, cursor: Option<Place>, pages: seq<Page<T>>) {
    && |pages| == |tables| > 0
    && pages[0] == PageOf(Listing(tables[0], matches, cursor), Limit(limit))
    && if |pages| == 1 then pages[0].next.None?
       else pages[0].next.Some? && PlaceWalk(tables[1..], matches, limit, pages[0].next, pages[1..])
  }

  /** Rows are only added while the client pages. */
  ghost predicate Grows<T(!new)>(tables: seq<seq<Row<T>>>) {
    && (forall i | 0 <= i < |tables| :: UniqueIds(tables[i]))
    && (forall i, j, r | 0 <= i <= j < |tables| && r in tables[i] :: r in tables[j])
  }

  lemma GrowsOn<T(!new)>(tables: seq<seq<Row<T>>>)
    requires Grows(tables) && |tables| > 1
    ensures Grows(tables[1..]) && forall r | r in tables[0] :: r in tables[1..][0]
  {
    var rest := tables[1..];
    assert forall i | 0 <= i < |rest| :: rest[i] == tables[i + 1];
    forall r | r in tables[0] ensures r in rest[0] {
      assert r in tables[1];
    }
  }

  /** A page splits its listing: its items, and what lies behind its cursor. */
  lemma PageSplits<T(!new)>(table: seq<Row<T>>, matches: Row<T> -> bool, cursor: Option<Place>, n: nat)
    requires UniqueIds(table) && n > 0
    ensures var page := PageOf(Listing(table, matches, cursor), n);
      && Ascending(Listed, page.items)
      && (forall r | r in page.items :: r in table && matches(r) && Behind(cursor, r))
      && (page.next.Some? ==> page.items != [] && page.next.value == PlaceOf(page.items[|page.items| - 1]))
      && (forall r | r in table && matches(r) && Behind(cursor, r) ::
            r in page.items || (page.next.Some? && Behind(page.next, r)))
      && (page.next.Some? ==> forall r: Row<T> :: Behind(page.next, r) ==> Behind(cursor, r))
  {
    var l := Listing(table, matches, cursor);
    ListingIs(table, matches, cursor);
    hide Listing;
    var page := PageOf(l, n);
    assert forall i | 0 <= i < |page.items| :: page.items[i] == l[i];
    forall r | r in l ensures r in page.items || (page.next.Some? && Behind(page.next, r)) {
      var k :| 0 <= k < |l| && l[k] == r;
      if k < |page.items| {
        assert page.items[k] == r;
      } else {
        assert Listed(l[n - 1], l[k]);
      }
    }
    if page.next.Some? {
      assert l[n - 1] in l;
    }
  }

  lemma ChainItems<T(!new)>(a: seq<Row<T>>, b: seq<Row<T>>, cursor: Option<Place>)
    requires Ascending(Listed, a) && Ascending(Listed, b) && a != [] && cursor == Some(PlaceOf(a[|a| - 1]))
    requires forall r | r in b :: Behind(cursor, r)
    ensures Ascending(Listed, a + b)
  {
    forall i, j | 0 <= i < j < |a + b| ensures Listed((a + b)[i], (a + b)[j]) {
      if i < |a| <= j {
        assert b[j - |a|] in b;
        if i < |a| - 1 { assert Listed(a[i], a[|a| - 1]); }
      }
    }
  }

  /** Whatever is inserted meanwhile: the walk delivers rows in strictly descending order, so none twice, each
      of them a matching row, and misses no matching row that was there when it began. */
  lemma {:induction false} PlaceWalkIsComplete<T(!new)>(
      tables: seq<seq<Row<T>>>, matches: Row<T> -> bool, limit: int, cursor: Option<Place>, pages: seq<Page<T>>)
    requires Grows(tables) && PlaceWalk(tables, matches, limit, cursor, pages)
    ensures Ascending(Listed, Items(pages))
    ensures forall r | r in Items(pages) :: matches(r) && Behind(cursor, r) && r in tables[|tables| - 1]
    ensures forall r | r in tables[0] && matches(r) && Behind(cursor, r) :: r in Items(pages)
    decreases |pages|
  {
    PageSplits(tables[0], matches, cursor, Limit(limit));
    hide Listing;
    hide PageOf;
    var first := pages[0];
    if |pages| == 1 {
      assert Items(pages[1..]) == [];
      assert Items(pages) == first.items;
    } else {
      GrowsOn(tables);
      PlaceWalkIsComplete(tables[1..], matches, limit, first.next, pages[1..]);
      ChainItems(first.items, Items(pages[1..]), first.next);
      assert tables[1..][|tables| - 2] == tables[|tables| - 1];
    }
  }

  lemma SplitListing<T(!new)>(table: seq<Row<T>>, matches: Row<T> -> bool, cursor: Option<Place>, n: nat)
    requires UniqueIds(table) && 0 < n < |Listing(table, matches, cursor)|
    ensures var l := Listing(table, matches, cursor);
      Listing(table, matches, Some(PlaceOf(l[n - 1]))) == l[n..]
  {
    var l := Listing(table, matches, cursor);
    var c := Some(PlaceOf(l[n - 1]));
    ListingIs(table, matches, cursor);
    ListingIs(table, matches, c);
    var rest := Listing(table, matches, c);
    hide Listing;
    forall r ensures r in rest <==> r in l[n..] {
      if r in rest {
        assert Listed(l[n - 1], r);
        assert l[n - 1] in l && Behind(cursor, r);
        var k :| 0 <= k < |l| && l[k] == r;
        assert k < n - 1 ==> Listed(l[k], l[n - 1]);
        assert k >= n;
        assert l[n..][k - n] == r;
      }
      if r in l[n..] {
        var k :| 0 <= k < |l[n..]| && l[n..][k] == r;
        assert l[k + n] == r && Listed(l[n - 1], l[k + n]);
      }
    }
    forall i, j | 0 <= i < j < |l[n..]| ensures Listed(l[n..][i], l[n..][j]) {
      assert Listed(l[n + i], l[n + j]);
    }
    forall r ensures r in Elements(rest) <==> r in Elements(l[n..]) {
      assert r in Elements(rest) <==> r in rest;
      assert r in Elements(l[n..]) <==> r in l[n..];
    }
    assert Elements(rest) == Elements(l[n..]);
    PlacesOrder(rest);
    SortedFormIsUnique(rest, l[n..], Listed);
  }

  lemma PlacesOrder<T(!new)>(rows: seq<Row<T>>)
    requires Ascending(Listed, rows)
    ensures StrictOrderOn(Listed, Elements(rows))
  {
    forall x, y | x in Elements(rows) && y in Elements(rows) && x != y ensures Listed(x, y) || Listed(y, x) {
      var i :| 0 <= i < |rows| && rows[i] == x;
      var j :| 0 <= j < |rows| && rows[j] == y;
      assert i < j || j < i;
    }
  }

  /** A walk's first page, when another one follows. */
  lemma FullPage<T(!new)>(
    tables: seq<seq<Row<T>>>, matches: Row<T> -> bool, limit: int, cursor: Option<Place>, pages: seq<Page<T>>)
    requires PlaceWalk(tables, matches, limit, cursor, pages) && |pages| > 1
    ensures var l, n := Listing(tables[0], matches, cursor), Limit(limit);
      && |l| > n && pages[0] == Page(l[..n], Some(PlaceOf(l[n - 1])))
      && PlaceWalk(tables[1..], matches, limit, Some(PlaceOf(l[n - 1])), pages[1..])
  {
    hide Listing;
  }

  lemma OnlyPage<T(!new)>(
    tables: seq<seq<Row<T>>>, matches: Row<T> -> bool, limit: int, cursor: Option<Place>, pages: seq<Page<T>>)
    requires PlaceWalk(tables, matches, limit, cursor, pages) && |pages| <= 1
    ensures |pages| == 1 && |Listing(tables[0], matches, cursor)| <= Limit(limit)
    ensures Items(pages) == Listing(tables[0], matches, cursor)
  {
    hide Listing;
    assert Items(pages[1..]) == [];
  }

  /** On an unchanged table the walk yields exactly the listing, each row once, in as many pages as its length
      needs: every page but the last is full. */
  lemma {:induction false} PlaceWalkIsListing<T(!new)>(
      table: seq<Row<T>>, tables: seq<seq<Row<T>>>, matches: Row<T> -> bool, limit: int, cursor: Option<Place>,
      pages: seq<Page<T>>)
    requires UniqueIds(table) && |tables| > 0 && (forall i | 0 <= i < |tables| :: tables[i] == table)
    requires PlaceWalk(tables, matches, limit, cursor, pages)
    ensures Items(pages) == Listing(table, matches, cursor)
    ensures (|pages| - 1) * Limit(limit) <= |Items(pages)| <= |pages| * Limit(limit)
    ensures |pages| > 1 ==> (|pages| - 1) * Limit(limit) < |Items(pages)|
    decreases |pages|
  {
    hide Listing;
    hide Limit;
    hide PlaceWalk;
    assert tables[0] == table;
    if |pages| <= 1 {
      OnlyPage(tables, matches, limit, cursor, pages);
    } else {
      FullPage(tables, matches, limit, cursor, pages);
      var l, n := Listing(table, matches, cursor), Limit(limit);
      SplitListing(table, matches, cursor, n);
      PlaceWalkLength(tables, matches, limit, cursor, pages);
      assert forall i | 0 <= i < |tables[1..]| :: tables[1..][i] == tables[i + 1];
      PlaceWalkIsListing(table, tables[1..], matches, limit, Some(PlaceOf(l[n - 1])), pages[1..]);
      assert Items(pages) == l[..n] + l[n..] == l;
      OnePageMore(|pages| - 1, n, |l[n..]|);
    }
  }

  lemma PlaceWalkLength<T(!new)>(
    tables: seq<seq<Row<T>>>, matches: Row<T> -> bool, limit: int, cursor: Option<Place>, pages: seq<Page<T>>)
    requires PlaceWalk(tables, matches, limit, cursor, pages)
    ensures |pages| == |tables| > 0
  {
    hide Listing;
    hide PageOf;
  }

  lemma OnePageMore(k: nat, n: nat, rest: nat)
    requires k > 0 && rest > 0 && (k - 1) * n <= rest <= k * n && (k > 1 ==> (k - 1) * n < rest)
    ensures k * n < n + rest <= (k + 1) * n
  {
    assert k * n == (k - 1) * n + n && (k + 1) * n == k * n + n;
  }

  // ---- the cursor -----------------------------------------------------------------------------------------

  /** Base64url without padding (section 5 of RFC 4648), as an opaque pair of functions. */
  datatype Codec = Codec(encode: string -> string, decode: string -> Option<string>)

  ghost predicate SoundCodec(c: Codec) {
    forall s :: c.decode(c.encode(s)) == Some(s) && (s != "" ==> c.encode(s) != "")
  }

  const MAX_INT64 := 9223372036854775807

  function Digit(n: nat): (c: char)
    requires n < 10
    ensures '0' <= c <= '9'
  {
    ('0' as int + n) as char
  }

  function Digits(n: nat): (s: string)
    ensures s != ""
  {
    if n < 10 then [Digit(n)] else Digits(n / 10) + [Digit(n % 10)]
  }

  /** strconv.FormatInt in base 10. */
  function FormatInt(n: int): string {
    if n < 0 then "-" + Digits(-n) else Digits(n)
  }

  predicate AllDigits(s: string) { s != "" && forall i | 0 <= i < |s| :: '0' <= s[i] <= '9' }

  function Value(s: string): nat
    requires forall i | 0 <= i < |s| :: '0' <= s[i] <= '9'
  {
    if s == "" then 0 else 10 * Value(s[..|s| - 1]) + (s[|s| - 1] as int - '0' as int)
  }

  /** strconv.ParseInt(s, 10, 64): an optional sign, digits, and the range of a signed 64-bit integer. */
  function ParseInt(s: string): Option<int> {
    var negative := s != "" && s[0] == '-';
    var digits := if s != "" && (s[0] == '-' || s[0] == '+') then s[1..] else s;
    if !AllDigits(digits) then None
    else
      var size: int := Value(digits);
      var n := if negative then -size else size;
      if n < -MAX_INT64 - 1 || n > MAX_INT64 then None else Some(n)
  }

  /** A plus sign before a number changes nothing, and a minus sign negates it. */
  lemma SignsParse(digits: string)
    requires AllDigits(digits) && Value(digits) <= MAX_INT64
    ensures ParseInt(digits) == ParseInt("+" + digits) == Some(Value(digits) as int)
    ensures var n: int := Value(digits); ParseInt("-" + digits) == Some(0 - n)
  {
    assert ("+" + digits)[1..] == digits && ("-" + digits)[1..] == digits;
    hide Value;
  }

  function EncodeCursor(codec: Codec, p: Place): string {
    codec.encode(FormatInt(p.ts) + ":" + FormatInt(p.id))
  }

  function DecodeCursor(codec: Codec, v: string): Result<Place> {
    match codec.decode(v)
    case None => Err("invalid")
    case Some(raw) =>
      var parts := Split(raw, ':');
      if |parts| != 2 then Err("invalid")
      else
        var ts, id := ParseInt(parts[0]), ParseInt(parts[1]);
        if ts.None? || id.None? || ts.value < 0 || id.value < 1 then Err("invalid")
        else Ok(Place(ts.value, id.value))
  }

  lemma {:induction false} DigitsAreValue(n: nat)
    ensures AllDigits(Digits(n)) && Value(Digits(n)) == n
  {
    if n >= 10 {
      DigitsAreValue(n / 10);
      var front := Digits(n / 10);
      assert Digits(n)[..|front|] == front;
    } else {
      assert Digits(n)[..0] == "";
    }
  }

  lemma FormatParses(n: int)
    requires -MAX_INT64 - 1 <= n <= MAX_INT64
    ensures ParseInt(FormatInt(n)) == Some(n)
    ensures forall i | 0 <= i < |FormatInt(n)| :: FormatInt(n)[i] != ':'
  {
    DigitsAreValue(if n < 0 then -n else n);
    if n < 0 {
      assert FormatInt(n)[1..] == Digits(-n);
    }
  }

  lemma {:induction false} SplitNone(s: string, c: char)
    requires forall i | 0 <= i < |s| :: s[i] != c
    ensures Split(s, c) == [s]
  {
    if s != "" {
      SplitNone(s[1..], c);
      assert s == [s[0]] + s[1..];
    }
  }

  lemma {:induction false} SplitOnce(a: string, b: string, c: char)
    requires forall i | 0 <= i < |a| :: a[i] != c
    requires forall i | 0 <= i < |b| :: b[i] != c
    ensures Split(a + [c] + b, c) == [a, b]
  {
    var s := a + [c] + b;
    if a == "" {
      assert s[1..] == b;
      SplitNone(b, c);
    } else {
      assert s[1..] == a[1..] + [c] + b;
      SplitOnce(a[1..], b, c);
      assert a == [a[0]] + a[1..];
    }
  }

  /** A cursor survives encoding and decoding exactly when its timestamp is not negative and its id positive. */
  lemma CursorRoundTrip(codec: Codec, p: Place)
    requires SoundCodec(codec)
    requires -MAX_INT64 - 1 <= p.ts <= MAX_INT64 && -MAX_INT64 - 1 <= p.id <= MAX_INT64
    ensures DecodeCursor(codec, EncodeCursor(codec, p)) == Ok(p) <==> p.ts >= 0 && p.id >= 1
    ensures DecodeCursor(codec, EncodeCursor(codec, p)).Ok? ==> DecodeCursor(codec, EncodeCursor(codec, p)).value == p
  {
    var a, b := FormatInt(p.ts), FormatInt(p.id);
    FormatParses(p.ts);
    FormatParses(p.id);
    SplitOnce(a, b, ':');
    assert a + ":" + b == a + [':'] + b;
    hide FormatInt;
    hide ParseInt;
    hide Split;
  }

  // ---- the two pagers -----------------------------------------------------------------------------------

  /** What a client gets: the rows, and the cursor of the next page, empty on the last one. */
  datatype Response<+T> = Response(items: seq<Row<T>>, cursor: string)

  function Encoded<T>(codec: Codec, page: Page<T>): Response<T> {
    Response(page.items, if page.next.None? then "" else EncodeCursor(codec, page.next.value))
  }

  /** The page for a cursor: the first one when it is empty, an error when it is malformed. */
  function Answer<T>(
    codec: Codec, table: seq<Row<T>>, matches: Row<T> -> bool, cursor: string, limit: int): Result<Response<T>>
  {
    if cursor == "" then Ok(Encoded(codec, PageOf(Listing(table, matches, None), Limit(limit))))
    else match DecodeCursor(codec, cursor)
      case Err(_) => Err("invalid cursor")
      case Ok(place) => Ok(Encoded(codec, PageOf(Listing(table, matches, Some(place)), Limit(limit))))
  }

  method Queries<T>(codec: Codec, table: seq<Row<T>>, matches: Row<T> -> bool, cursor: string, limit: int)
    returns (r: Result<Response<T>>)
    ensures r == Answer(codec, table, matches, cursor, limit)
  {
    var from: Option<Place> := None;
    if cursor != "" {
      var decoded := DecodeCursor(codec, cursor);
      if decoded.Err? {
        return Err("invalid cursor");
      }
      from := Some(decoded.value);
    }
    var page := ReadPage(table, matches, from, limit);
    var next := "";
    if page.next.Some? {
      next := EncodeCursor(codec, page.next.value);
    }
    r := Ok(Response(page.items, next));
  }

  predicate AnyRow<T>(r: Row<T>) { true }

  /** AuditLogs: a pager of its own over the audit log, with the same answer for every row. */
  method AuditLogs<T>(codec: Codec, table: seq<Row<T>>, cursor: string, limit: int) returns (r: Result<Response<T>>)
    ensures r == Answer(codec, table, AnyRow, cursor, limit)
  {
    hide Listing;
    hide EncodeCursor;
    hide DecodeCursor;
    var n := if limit <= 0 || limit > 500 then 100 else limit;
    var from: Option<Place> := None;
    if cursor != "" {
      var decoded := DecodeCursor(codec, cursor);
      if decoded.Err? {
        return Err("invalid cursor");
      }
      from := Some(decoded.value);
    }
    var listing := Listing(table, AnyRow, from);
    var fetched := if |listing| > n + 1 then listing[..n + 1] else listing;
    var page: Response<T> := Response([], "");
    for i := 0 to |fetched|
      invariant page == Response(fetched[..i], "")
    {
      page := page.(items := page.items + [fetched[i]]);
    }
    assert page.items == fetched;
    if |page.items| > n {
      var last := page.items[n - 1];
      assert page.items[..n] == listing[..n];
      page := Response(page.items[..n], EncodeCursor(codec, Place(last.ts, last.id)));
    }
    r := Ok(page);
  }

  // ---- following cursors -------------------------------------------------------------------------------

  function AllItems<T>(pages: seq<Response<T>>): seq<Row<T>> {
    if pages == [] then [] else pages[0].items + AllItems(pages[1..])
  }

  /** A client's walk: it asks for the page of the cursor it was given last, and stops when it is given none. */
  ghost predicate Walk<T(!new)>(
    codec: Codec, tables: seq<seq<Row<T>>>, matches: Row<T> -> bool, limit: int, cursor: string,
    pages: seq<Response<T>>)
  {
    && |pages| == |tables| > 0
    && Answer(codec, tables[0], matches, cursor, limit) == Ok(pages[0])
    && if |pages| == 1 then pages[0].cursor == ""
       else pages[0].cursor != "" && Walk(codec, tables[1..], matches, limit, pages[0].cursor, pages[1..])
  }

  /** Row ids start at 1, and events carry a positive time, both within 64 bits. */
  ghost predicate Placed<T(!new)>(table: seq<Row<T>>) {
    forall r | r in table :: 0 <= r.ts <= MAX_INT64 && 1 <= r.id <= MAX_INT64
  }

  /** The cursor stands for the place; the empty one for the start. */
  ghost predicate StandsFor(codec: Codec, cursor: string, place: Option<Place>) {
    match place
    case None => cursor == ""
    case Some(p) => cursor != "" && DecodeCursor(codec, cursor) == Ok(p)
  }

  /** The cursor a page carries stands for the place where the page ended. */
  lemma CursorStands<T(!new)>(
    codec: Codec, table: seq<Row<T>>, matches: Row<T> -> bool, cursor: string, place: Option<Place>, limit: int)
    requires SoundCodec(codec) && UniqueIds(table) && Placed(table) && StandsFor(codec, cursor, place)
    ensures var page := PageOf(Listing(table, matches, place), Limit(limit));
      && Answer(codec, table, matches, cursor, limit) == Ok(Encoded(codec, page))
      && StandsFor(codec, Encoded(codec, page).cursor, page.next)
  {
    PageSplits(table, matches, place, Limit(limit));
    var page := PageOf(Listing(table, matches, place), Limit(limit));
    if page.next.Some? {
      assert page.items[|page.items| - 1] in page.items;
      CursorRoundTrip(codec, page.next.value);
      CursorIsNotEmpty(codec, page.next.value);
    }
    hide PageOf;
    hide Listing;
    hide DecodeCursor;
    hide EncodeCursor;
  }

  lemma CursorIsNotEmpty(codec: Codec, p: Place)
    requires SoundCodec(codec)
    ensures EncodeCursor(codec, p) != ""
  {
    var raw := FormatInt(p.ts) + ":" + FormatInt(p.id);
    assert |raw| > 0;
    hide FormatInt;
  }

  /** The pages of a walk by cursor, with the places their cursors stand for. */
  ghost function PlacePages<T(!new)>(
    tables: seq<seq<Row<T>>>, matches: Row<T> -> bool, limit: int, place: Option<Place>): (pages: seq<Page<T>>)
    ensures |pages| == |tables|
  {
    if tables == [] then []
    else
      var page := PageOf(Listing(tables[0], matches, place), Limit(limit));
      [page] + PlacePages(tables[1..], matches, limit, page.next)
  }

  ghost predicate WellPlaced<T(!new)>(tables: seq<seq<Row<T>>>) {
    forall i | 0 <= i < |tables| :: UniqueIds(tables[i]) && Placed(tables[i])
  }

  /** Walking by cursor is walking by place. */
  lemma {:induction false} WalkIsByPlace<T(!new)>(
    codec: Codec, tables: seq<seq<Row<T>>>, matches: Row<T> -> bool, limit: int, cursor: string, place: Option<Place>,
    pages: seq<Response<T>>)
    requires SoundCodec(codec) && WellPlaced(tables) && StandsFor(codec, cursor, place)
    requires Walk(codec, tables, matches, limit, cursor, pages)
    ensures PlaceWalk(tables, matches, limit, place, PlacePages(tables, matches, limit, place))
    ensures AllItems(pages) == Items(PlacePages(tables, matches, limit, place))
    decreases |pages|
  {
    CursorStands(codec, tables[0], matches, cursor, place, limit);
    hide PageOf;
    hide Listing;
    hide Answer;
    hide EncodeCursor;
    hide DecodeCursor;
    var page := PageOf(Listing(tables[0], matches, place), Limit(limit));
    var rest := PlacePages(tables[1..], matches, limit, page.next);
    assert PlacePages(tables, matches, limit, place) == [page] + rest;
    assert ([page] + rest)[1..] == rest;
    if |pages| == 1 {
      assert pages[1..] == [] && rest == [];
    } else {
      assert forall i | 0 <= i < |tables[1..]| :: tables[1..][i] == tables[i + 1];
      WalkIsByPlace(codec, tables[1..], matches, limit, pages[0].cursor, page.next, pages[1..]);
    }
  }

  /** Whatever is inserted meanwhile: a walk delivers rows in strictly descending order, so none twice, each of them a
      matching row, and misses no matching row that was there when it began. */
  lemma WalkIsComplete<T(!new)>(
    codec: Codec, tables: seq<seq<Row<T>>>, matches: Row<T> -> bool, limit: int, pages: seq<Response<T>>)
    requires SoundCodec(codec) && WellPlaced(tables) && Grows(tables)
    requires Walk(codec, tables, matches, limit, "", pages)
    ensures Ascending(Listed, AllItems(pages))
    ensures forall r | r in AllItems(pages) :: matches(r) && r in tables[|tables| - 1]
    ensures forall r | r in tables[0] && matches(r) :: r in AllItems(pages)
  {
    WalkIsByPlace(codec, tables, matches, limit, "", None, pages);
    PlaceWalkIsComplete(tables, matches, limit, None, PlacePages(tables, matches, limit, None));
    hide PlaceWalk;
    hide PlacePages;
  }

  ghost function Unchanged<T(!new)>(table: seq<Row<T>>, n: nat): seq<seq<Row<T>>> { seq(n, _ => table) }

  lemma UnchangedStays<T(!new)>(table: seq<Row<T>>, n: nat)
    requires UniqueIds(table) && Placed(table)
    ensures |Unchanged(table, n)| == n && WellPlaced(Unchanged(table, n))
    ensures forall i | 0 <= i < n :: Unchanged(table, n)[i] == table
  {}

  lemma PlacePagesCount<T(!new)>(tables: seq<seq<Row<T>>>, matches: Row<T> -> bool, limit: int)
    ensures |PlacePages(tables, matches, limit, None)| == |tables|
  {}

  lemma EmptyStandsForNone(codec: Codec)
    ensures StandsFor(codec, "", None)
  {}

  /** On an unchanged table a walk yields exactly the listing, each row once, in as many pages as its length needs:
      every page but the last is full. */
  lemma WalkIsListing<T(!new)>(
    codec: Codec, table: seq<Row<T>>, matches: Row<T> -> bool, limit: int, pages: seq<Response<T>>)
    requires SoundCodec(codec) && UniqueIds(table) && Placed(table)
    requires Walk(codec, Unchanged(table, |pages|), matches, limit, "", pages)
    ensures AllItems(pages) == Listing(table, matches, None)
    ensures (|pages| - 1) * Limit(limit) <= |AllItems(pages)| <= |pages| * Limit(limit)
    ensures |pages| > 1 ==> (|pages| - 1) * Limit(limit) < |AllItems(pages)|
  {
    hide PlaceWalk;
    hide PlacePages;
    hide Listing;
    hide Items;
    hide AllItems;
    hide Limit;
    var tables := Unchanged(table, |pages|);
    WalkLengths(codec, tables, matches, limit, "", pages);
    UnchangedStays(table, |pages|);
    EmptyStandsForNone(codec);
    PlacePagesCount(tables, matches, limit);
    hide *;
    WalkIsByPlace(codec, tables, matches, limit, "", None, pages);
    PlaceWalkIsListing(table, tables, matches, limit, None, PlacePages(tables, matches, limit, None));
  }

  lemma WalkLengths<T(!new)>(
    codec: Codec, tables: seq<seq<Row<T>>>, matches: Row<T> -> bool, limit: int, cursor: string,
    pages: seq<Response<T>>)
    requires Walk(codec, tables, matches, limit, cursor, pages)
    ensures |pages| == |tables| > 0
  {
    hide Answer;
  }

  /** One page before a walk that starts at its cursor. */
  lemma WalkBefore<T(!new)>(
    codec: Codec, table: seq<Row<T>>, matches: Row<T> -> bool, limit: int, cursor: string, first: Response<T>,
    rest: seq<Response<T>>)
    requires Answer(codec, table, matches, cursor, limit) == Ok(first) && first.cursor != ""
    requires Walk(codec, Unchanged(table, |rest|), matches, limit, first.cursor, rest)
    ensures Walk(codec, Unchanged(table, 1 + |rest|), matches, limit, cursor, [first] + rest)
  {
    hide Answer;
    assert ([first] + rest)[1..] == rest;
    assert Unchanged(table, 1 + |rest|)[1..] == Unchanged(table, |rest|);
  }

  lemma WalkOfOne<T(!new)>(
    codec: Codec, table: seq<Row<T>>, matches: Row<T> -> bool, limit: int, cursor: string, only: Response<T>)
    requires Answer(codec, table, matches, cursor, limit) == Ok(only) && only.cursor == ""
    ensures Walk(codec, Unchanged(table, 1), matches, limit, cursor, [only])
  {
    hide Answer;
  }

  lemma NextPlace<T(!new)>(codec: Codec, l: seq<Row<T>>, n: nat)
    requires n > 0
    ensures var page := PageOf(l, n);
      && (|l| > n ==> page.next == Some(PlaceOf(l[n - 1])))
      && (|l| <= n ==> page.next == None && Encoded(codec, page).cursor == "")
  {}

  /** And there is such a walk for every table: each cursor is accepted, each page that carries one takes rows from
      what is left, and the walk ends. */
  lemma {:induction false} WalkEnds<T(!new)>(
    codec: Codec, table: seq<Row<T>>, matches: Row<T> -> bool, limit: int, cursor: string, place: Option<Place>)
    returns (pages: seq<Response<T>>)
    requires SoundCodec(codec) && UniqueIds(table) && Placed(table) && StandsFor(codec, cursor, place)
    ensures Walk(codec, Unchanged(table, |pages|), matches, limit, cursor, pages)
    decreases |Listing(table, matches, place)|
  {
    hide Answer;
    hide PageOf;
    hide Listing;
    hide Walk;
    hide Encoded;
    hide StandsFor;
    CursorStands(codec, table, matches, cursor, place, limit);
    var l, n := Listing(table, matches, place), Limit(limit);
    hide Limit;
    var page := PageOf(l, n);
    var first := Encoded(codec, page);
    NextPlace(codec, l, n);
    if |l| <= n {
      WalkOfOne(codec, table, matches, limit, cursor, first);
      pages := [first];
    } else {
      SplitListing(table, matches, place, n);
      var rest := WalkEnds(codec, table, matches, limit, first.cursor, page.next);
      StandsForSome(codec, first.cursor, page.next);
      WalkBefore(codec, table, matches, limit, cursor, first, rest);
      pages := [first] + rest;
    }
  }

  lemma StandsForSome(codec: Codec, cursor: string, place: Option<Place>)
    requires StandsFor(codec, cursor, place) && place.Some?
    ensures cursor != ""
  {}

  /** Every table can be walked from its start, within the number of pages its length needs. */
  lemma EveryTableIsWalked<T(!new)>(codec: Codec, table: seq<Row<T>>, matches: Row<T> -> bool, limit: int)
    requires SoundCodec(codec) && UniqueIds(table) && Placed(table)
    ensures exists pages: seq<Response<T>> ::
      && Walk(codec, Unchanged(table, |pages|), matches, limit, "", pages)
      && AllItems(pages) == Listing(table, matches, None)
      && (|pages| - 1) * Limit(limit) <= |Listing(table, matches, None)|
  {
    var pages := WalkEnds(codec, table, matches, limit, "", None);
    WalkIsListing(codec, table, matches, limit, pages);
    hide Walk;
    hide Listing;
  }
}
