/** The two filters on query events: the SQL conditions of the paged query and the test of the live stream. */
module QueryFilter {
  import opened Text
  import opened RuleModel
  import opened Validation
  import opened Events

  datatype Query = Query(
    fromMs: int, toMs: int, clientIp: string, route: string, routeSource: string, upstreamTag: string,
    upstreamGroup: string, protocol: string, qtype: int, rcode: Option<int>, cacheHit: Option<bool>,
    hasError: Option<bool>, resultClass: string, qname: string, qnameMatch: string)

  const WEEK_MS := 604800000

  // ---- LIKE with an escape character ----------------------------------------------------------

  /** escapeLike. */
  function EscapeLike(value: string): string {
    if value == "" then ""
    else
      (if value[0] == '\\' || value[0] == '%' || value[0] == '_' then ['\\', value[0]] else [value[0]])
      + EscapeLike(value[1..])
  }

  predicate SameText(a: string, b: string) {
    |a| == |b| && forall i | 0 <= i < |a| :: SameLetter(a[i], b[i])
  }

  predicate OccursAt(text: string, part: string, k: int) {
    0 <= k <= |text| - |part| && text[k..k + |part|] == part
  }

  /** strings.Contains. */
  predicate Contains(text: string, part: string) {
    exists k | 0 <= k <= |text| - |part| :: OccursAt(text, part, k)
  }

  /** An escaped text matches itself and nothing else, whatever %, _ and \ it holds. */
  lemma {:induction false} EscapedMatchesItself(s: string, rest: string, text: string)
    ensures Like(EscapeLike(s) + rest, text) <==>
      |s| <= |text| && SameText(text[..|s|], s) && Like(rest, text[|s|..])
  {
    if s == "" {
      assert EscapeLike(s) + rest == rest && text[|s|..] == text;
    } else {
      var tail := EscapeLike(s[1..]) + rest;
      if s[0] == '\\' || s[0] == '%' || s[0] == '_' {
        assert EscapeLike(s) + rest == ['\\', s[0]] + tail;
        assert (EscapeLike(s) + rest)[2..] == tail;
      } else {
        assert EscapeLike(s) + rest == [s[0]] + tail;
        assert (EscapeLike(s) + rest)[1..] == tail;
      }
      if text != "" {
        EscapedMatchesItself(s[1..], rest, text[1..]);
        OneMoreLetter(s, text);
      }
    }
  }

  /** Without escaping, an underscore matches any one character and a percent sign any text. */
  lemma EscapingIsNeeded(c: char, text: string)
    ensures Like("_", [c]) && (Like(EscapeLike("_"), [c]) <==> c == '_')
    ensures Like("%", text) && (Like(EscapeLike("%"), text) <==> text == "%")
  {
    PercentMatchesAll(text);
    EscapedMatchesItself("_", "", [c]);
    EscapedMatchesItself("%", "", text);
    assert EscapeLike("_") + "" == EscapeLike("_") && EscapeLike("%") + "" == EscapeLike("%");
    assert "_"[1..] == "" && [c][1..] == "";
    assert |text| == 1 ==> text == [text[0]];
  }

  lemma OneMoreLetter(s: string, text: string)
    requires s != "" && text != ""
    ensures |s| <= |text| && SameText(text[..|s|], s) <==>
      SameLetter(text[0], s[0]) && |s[1..]| <= |text[1..]| && SameText(text[1..][..|s[1..]|], s[1..])
    ensures |s| <= |text| ==> text[|s|..] == text[1..][|s[1..]|..]
  {
    if |s| <= |text| {
      var a, b := text[..|s|], text[1..][..|s| - 1];
      assert forall i | 1 <= i < |s| :: a[i] == b[i - 1] && s[i] == s[1..][i - 1];
      if SameText(b, s[1..]) && SameLetter(text[0], s[0]) {
        forall i | 0 <= i < |s| ensures SameLetter(a[i], s[i]) {
          if i > 0 { assert SameLetter(b[i - 1], s[1..][i - 1]); }
        }
      }
      if SameText(a, s) {
        assert SameLetter(a[0], s[0]);
        forall i | 0 <= i < |s| - 1 ensures SameLetter(b[i], s[1..][i]) {
          assert SameLetter(a[i + 1], s[i + 1]);
        }
      }
    }
  }

  lemma {:induction false} PercentFinds(pattern: string, text: string)
    ensures Like("%" + pattern, text) <==> exists k :: 0 <= k <= |text| && Like(pattern, text[k..])
    decreases |text|
  {
    assert ("%" + pattern)[1..] == pattern;
    assert text[0..] == text;
    if text != "" {
      PercentFinds(pattern, text[1..]);
      if k :| 0 <= k <= |text[1..]| && Like(pattern, text[1..][k..]) {
        assert text[1..][k..] == text[k + 1..];
      }
      if k :| 0 < k <= |text| && Like(pattern, text[k..]) {
        assert text[1..][k - 1..] == text[k..];
      }
    }
  }

  /** %escaped% matches exactly the texts that contain the value, up to the case of ASCII letters. */
  lemma LikeIsContains(value: string, text: string)
    ensures Like("%" + EscapeLike(value) + "%", text) <==> Contains(ToLower(text), ToLower(value))
  {
    var pattern := EscapeLike(value) + "%";
    assert "%" + EscapeLike(value) + "%" == "%" + pattern;
    PercentFinds(pattern, text);
    hide Like;
    forall k | 0 <= k <= |text|
      ensures Like(pattern, text[k..]) <==> OccursAt(ToLower(text), ToLower(value), k)
    {
      EscapedMatchesItself(value, "%", text[k..]);
      if k + |value| <= |text| {
        PercentMatchesAll(text[k..][|value|..]);
        FoldedSlice(text, k, value);
      }
    }
  }

  lemma FoldedSlice(text: string, k: nat, value: string)
    requires k + |value| <= |text|
    ensures SameText(text[k..][..|value|], value) <==> ToLower(text)[k..k + |value|] == ToLower(value)
  {
    var a, b, c := text[k..][..|value|], ToLower(text)[k..k + |value|], ToLower(value);
    assert forall i | 0 <= i < |value| :: b[i] == LowerChar(a[i]) && c[i] == LowerChar(value[i]);
    if SameText(a, value) {
      assert forall i | 0 <= i < |value| :: SameLetter(a[i], value[i]);
      assert b == c;
    }
    if b == c {
      assert forall i | 0 <= i < |value| :: b[i] == c[i];
    }
  }

  // ---- conditions and rows -------------------------------------------------------------------------

  datatype Column = ClientIp | Route | RouteSource | UpstreamTag | UpstreamGroup | Protocol | Class | QName

  datatype Condition =
    | Since(ms: int) | Until(ms: int) | TextIs(column: Column, text: string) | QTypeIs(number: int)
    | RCodeIs(number: int) | CacheHitIs(flag: int) | ClassIsNot(class_: string) | NameLike(pattern: string)

  function TextOf(row: StoredEvent, c: Column): string {
    match c
    case ClientIp => row.clientIp
    case Route => row.route
    case RouteSource => row.routeSource
    case UpstreamTag => row.upstreamTag
    case UpstreamGroup => row.upstreamGroup
    case Protocol => row.protocol
    case Class => row.resultClass
    case QName => row.qname
  }

  predicate Holds(c: Condition, row: StoredEvent) {
    match c
    case Since(ms) => row.timestamp >= ms
    case Until(ms) => row.timestamp <= ms
    case TextIs(column, value) => TextOf(row, column) == value
    case QTypeIs(value) => row.qtype == value
    case RCodeIs(value) => row.rcode == value
    case CacheHitIs(flag) => (if row.cacheHit then 1 else 0) == flag
    case ClassIsNot(value) => row.resultClass != value
    case NameLike(pattern) => Like(pattern, row.qname)
  }

  predicate AllHold(conditions: seq<Condition>, row: StoredEvent) {
    forall i | 0 <= i < |conditions| :: Holds(conditions[i], row)
  }

  lemma AddCondition(conditions: seq<Condition>, c: Condition)
    ensures forall row :: AllHold(conditions + [c], row) <==> AllHold(conditions, row) && Holds(c, row)
  {
    forall row ensures AllHold(conditions + [c], row) <==> AllHold(conditions, row) && Holds(c, row) {
      assert (conditions + [c])[|conditions|] == c;
      assert forall i | 0 <= i < |conditions| :: (conditions + [c])[i] == conditions[i];
    }
  }

  predicate KnownClass(c: string) {
    c == "success" || c == "negative_answer" || c == "policy_block" || c == "processing_error"
  }

  /** The classes a query may ask for are those the rows have. */
  lemma KnownClassesOccur(c: string)
    ensures KnownClass(c) <==> exists e :: ResultClass(e) == c
  {
    var e := Event("", 0, "", "", "", 0, 0, "forward", "", "", "", false, 1, 0, "", "", []);
    assert ResultClass(e) == "success";
    assert ResultClass(e.(rcode := 3)) == "negative_answer";
    assert ResultClass(e.(route := "block")) == "policy_block";
    assert ResultClass(e.(rcode := 2)) == "processing_error";
  }

  /** The queries queryConditions accepts. */
  predicate ValidQuery(q: Query, parses: string -> bool) {
    && (q.clientIp == "" || parses(q.clientIp))
    && (q.route == "" || q.route == "forward" || q.route == "block" || q.route == "local")
    && (q.qnameMatch == "" || q.qnameMatch == "exact" || q.qnameMatch == "contains")
    && 0 <= q.qtype <= 65535
    && (q.rcode.Some? ==> 0 <= q.rcode.value <= 65535)
    && (q.resultClass == "" || KnownClass(q.resultClass))
    && q.fromMs >= 0 && q.toMs >= 0 && (q.fromMs != 0 && q.toMs != 0 ==> q.fromMs <= q.toMs)
    && (q.qname != "" && q.qnameMatch == "contains" ==> q.fromMs != 0 && q.toMs != 0 && q.toMs - q.fromMs <= WEEK_MS)
  }

  /** What a query asks of a stored row, field by field. */
  predicate Selects(q: Query, row: StoredEvent) {
    && (q.fromMs != 0 ==> row.timestamp >= q.fromMs) && (q.toMs != 0 ==> row.timestamp <= q.toMs)
    && (q.clientIp != "" ==> row.clientIp == q.clientIp) && (q.route != "" ==> row.route == q.route)
    && (q.routeSource != "" ==> row.routeSource == q.routeSource)
    && (q.upstreamTag != "" ==> row.upstreamTag == q.upstreamTag)
    && (q.upstreamGroup != "" ==> row.upstreamGroup == q.upstreamGroup)
    && (q.protocol != "" ==> row.protocol == q.protocol)
    && (q.qtype != 0 ==> row.qtype == q.qtype) && (q.rcode.Some? ==> row.rcode == q.rcode.value)
    && (q.cacheHit.Some? ==> row.cacheHit == q.cacheHit.value)
    && (q.hasError.Some? ==> (row.resultClass == "processing_error") == q.hasError.value)
    && (q.resultClass != "" ==> row.resultClass == q.resultClass)
    && SelectsName(q, row.qname)
  }

  /** The name test in SQL. */
  predicate SelectsName(q: Query, qname: string) {
    q.qname != "" ==>
      if q.qnameMatch == "contains" then Contains(ToLower(qname), ToLower(q.qname)) else qname == q.qname
  }

  /** A condition, if its field is set. */
  function Given(guard: bool, c: Condition): seq<Condition> { if guard then [c] else [] }

  function TimeAndText(q: Query): seq<Condition> {
    [] + Given(q.fromMs != 0, Since(q.fromMs)) + Given(q.toMs != 0, Until(q.toMs))
      + Given(q.clientIp != "", TextIs(ClientIp, q.clientIp)) + Given(q.route != "", TextIs(Route, q.route))
      + Given(q.routeSource != "", TextIs(RouteSource, q.routeSource))
      + Given(q.upstreamTag != "", TextIs(UpstreamTag, q.upstreamTag))
      + Given(q.upstreamGroup != "", TextIs(UpstreamGroup, q.upstreamGroup))
      + Given(q.protocol != "", TextIs(Protocol, q.protocol))
  }

  /** The conditions of the stored query, in the order in which they are added. */
  function ConditionList(q: Query): seq<Condition> {
    TimeAndText(q) + Given(q.qtype != 0, QTypeIs(q.qtype))
      + Given(q.rcode.Some?, RCodeIs(if q.rcode.Some? then q.rcode.value else 0))
      + Given(q.cacheHit.Some?, CacheHitIs(if q.cacheHit == Some(true) then 1 else 0))
      + Given(q.hasError.Some?, ErrorCondition(q)) + Given(q.resultClass != "", TextIs(Class, q.resultClass))
      + Given(q.qname != "", NameCondition(q))
  }

  function ErrorCondition(q: Query): Condition {
    if q.hasError == Some(true) then TextIs(Class, "processing_error") else ClassIsNot("processing_error")
  }

  function NameCondition(q: Query): Condition {
    if q.qnameMatch == "contains" then NameLike("%" + EscapeLike(q.qname) + "%") else TextIs(QName, q.qname)
  }

  /** queryConditions: the conditions together select exactly the rows the query asks for. */
  method QueryConditions(q: Query, parses: string -> bool) returns (r: Result<seq<Condition>>)
    ensures r.Ok? <==> ValidQuery(q, parses)
    ensures r.Ok? ==> r.value == ConditionList(q)
    ensures r.Ok? ==> forall row :: AllHold(r.value, row) <==> Selects(q, row)
  {
    hide Contains;
    hide Like;
    hide EscapeLike;
    hide ToLower;
    if q.clientIp != "" && !parses(q.clientIp) { return Err("invalid client_ip"); }
    if q.route != "" && q.route != "forward" && q.route != "block" && q.route != "local" {
      return Err("invalid route");
    }
    if q.qnameMatch != "" && q.qnameMatch != "exact" && q.qnameMatch != "contains" {
      return Err("invalid qname_match");
    }
    if q.qtype < 0 || q.qtype > 65535 { return Err("invalid qtype"); }
    if q.rcode.Some? && (q.rcode.value < 0 || q.rcode.value > 65535) { return Err("invalid rcode"); }
    if q.resultClass != "" && !KnownClass(q.resultClass) { return Err("invalid result_class"); }
    if q.fromMs < 0 || q.toMs < 0 || (q.fromMs != 0 && q.toMs != 0 && q.fromMs > q.toMs) {
      return Err("invalid time range");
    }
    if q.qname != "" && q.qnameMatch == "contains" && (q.fromMs == 0 || q.toMs == 0 || q.toMs - q.fromMs > WEEK_MS) {
      return Err("qname contains requires a time range of at most 7 days");
    }
    hide AllHold;
    hide ValidQuery;
    hide Selects;
    hide ConditionList;
    var wheres := AddConditions(q);
    forall row ensures AllHold(wheres, row) <==> Selects(q, row) {
      ConditionsMean(q, row);
    }
    r := Ok(wheres);
  }

  /** The part of queryConditions that adds the conditions. */
  method AddConditions(q: Query) returns (wheres: seq<Condition>)
    ensures wheres == ConditionList(q)
  {
    hide Given;
    hide NameCondition;
    hide ErrorCondition;
    wheres := [];
    wheres := AddIf(wheres, q.fromMs != 0, Since(q.fromMs));
    wheres := AddIf(wheres, q.toMs != 0, Until(q.toMs));
    wheres := AddIf(wheres, q.clientIp != "", TextIs(ClientIp, q.clientIp));
    wheres := AddIf(wheres, q.route != "", TextIs(Route, q.route));
    wheres := AddIf(wheres, q.routeSource != "", TextIs(RouteSource, q.routeSource));
    wheres := AddIf(wheres, q.upstreamTag != "", TextIs(UpstreamTag, q.upstreamTag));
    wheres := AddIf(wheres, q.upstreamGroup != "", TextIs(UpstreamGroup, q.upstreamGroup));
    wheres := AddIf(wheres, q.protocol != "", TextIs(Protocol, q.protocol));
    assert wheres == TimeAndText(q);
    hide TimeAndText;
    wheres := AddIf(wheres, q.qtype != 0, QTypeIs(q.qtype));
    wheres := AddIf(wheres, q.rcode.Some?, RCodeIs(if q.rcode.Some? then q.rcode.value else 0));
    wheres := AddIf(wheres, q.cacheHit.Some?, CacheHitIs(if q.cacheHit == Some(true) then 1 else 0));
    wheres := AddIf(wheres, q.hasError.Some?, ErrorCondition(q));
    wheres := AddIf(wheres, q.resultClass != "", TextIs(Class, q.resultClass));
    wheres := AddIf(wheres, q.qname != "", NameCondition(q));
  }

  /** The add closure, under its guard. */
  method AddIf(wheres: seq<Condition>, guard: bool, c: Condition) returns (r: seq<Condition>)
    ensures r == wheres + Given(guard, c)
  {
    r := wheres;
    if guard { r := r + [c]; }
  }

  lemma HoldsGiven(wheres: seq<Condition>, guard: bool, c: Condition, row: StoredEvent)
    ensures AllHold(wheres + Given(guard, c), row) <==> AllHold(wheres, row) && (guard ==> Holds(c, row))
  {
    hide Holds;
    if guard {
      AddCondition(wheres, c);
    } else {
      assert wheres + Given(guard, c) == wheres;
    }
  }

  predicate SelectsTimeAndText(q: Query, row: StoredEvent) {
    && (q.fromMs != 0 ==> row.timestamp >= q.fromMs) && (q.toMs != 0 ==> row.timestamp <= q.toMs)
    && (q.clientIp != "" ==> row.clientIp == q.clientIp) && (q.route != "" ==> row.route == q.route)
    && (q.routeSource != "" ==> row.routeSource == q.routeSource)
    && (q.upstreamTag != "" ==> row.upstreamTag == q.upstreamTag)
    && (q.upstreamGroup != "" ==> row.upstreamGroup == q.upstreamGroup)
    && (q.protocol != "" ==> row.protocol == q.protocol)
  }

  lemma TextMeans(q: Query, row: StoredEvent)
    ensures SelectsTimeAndText(q, row) <==>
      && (q.fromMs != 0 ==> Holds(Since(q.fromMs), row)) && (q.toMs != 0 ==> Holds(Until(q.toMs), row))
      && (q.clientIp != "" ==> Holds(TextIs(ClientIp, q.clientIp), row))
      && (q.route != "" ==> Holds(TextIs(Route, q.route), row))
      && (q.routeSource != "" ==> Holds(TextIs(RouteSource, q.routeSource), row))
      && (q.upstreamTag != "" ==> Holds(TextIs(UpstreamTag, q.upstreamTag), row))
      && (q.upstreamGroup != "" ==> Holds(TextIs(UpstreamGroup, q.upstreamGroup), row))
      && (q.protocol != "" ==> Holds(TextIs(Protocol, q.protocol), row))
  {}

  lemma TimeAndTextMeans(q: Query, row: StoredEvent)
    ensures AllHold(TimeAndText(q), row) <==> SelectsTimeAndText(q, row)
  {
    TextMeans(q, row);
    assert AllHold([], row);
    hide AllHold;
    hide Given;
    hide Holds;
    hide SelectsTimeAndText;
    var c1 := [] + Given(q.fromMs != 0, Since(q.fromMs));
    var c2 := c1 + Given(q.toMs != 0, Until(q.toMs));
    var c3 := c2 + Given(q.clientIp != "", TextIs(ClientIp, q.clientIp));
    var c4 := c3 + Given(q.route != "", TextIs(Route, q.route));
    var c5 := c4 + Given(q.routeSource != "", TextIs(RouteSource, q.routeSource));
    var c6 := c5 + Given(q.upstreamTag != "", TextIs(UpstreamTag, q.upstreamTag));
    var c7 := c6 + Given(q.upstreamGroup != "", TextIs(UpstreamGroup, q.upstreamGroup));
    HoldsGiven([], q.fromMs != 0, Since(q.fromMs), row);
    HoldsGiven(c1, q.toMs != 0, Until(q.toMs), row);
    HoldsGiven(c2, q.clientIp != "", TextIs(ClientIp, q.clientIp), row);
    HoldsGiven(c3, q.route != "", TextIs(Route, q.route), row);
    HoldsGiven(c4, q.routeSource != "", TextIs(RouteSource, q.routeSource), row);
    HoldsGiven(c5, q.upstreamTag != "", TextIs(UpstreamTag, q.upstreamTag), row);
    HoldsGiven(c6, q.upstreamGroup != "", TextIs(UpstreamGroup, q.upstreamGroup), row);
    HoldsGiven(c7, q.protocol != "", TextIs(Protocol, q.protocol), row);
  }

  predicate RestHolds(q: Query, row: StoredEvent) {
    && (q.qtype != 0 ==> Holds(QTypeIs(q.qtype), row))
    && (q.rcode.Some? ==> Holds(RCodeIs(if q.rcode.Some? then q.rcode.value else 0), row))
    && (q.cacheHit.Some? ==> Holds(CacheHitIs(if q.cacheHit == Some(true) then 1 else 0), row))
    && (q.hasError.Some? ==> Holds(ErrorCondition(q), row))
    && (q.resultClass != "" ==> Holds(TextIs(Class, q.resultClass), row))
    && (q.qname != "" ==> Holds(NameCondition(q), row))
  }

  lemma RestMeans(q: Query, row: StoredEvent)
    ensures Selects(q, row) <==> SelectsTimeAndText(q, row) && RestHolds(q, row)
  {
    LikeIsContains(q.qname, row.qname);
    hide Contains;
    hide Like;
    hide EscapeLike;
    hide ToLower;
  }

  /** The SQL conditions together mean what the query asks. */
  lemma ConditionsMean(q: Query, row: StoredEvent)
    ensures AllHold(ConditionList(q), row) <==> Selects(q, row)
  {
    var c0 := TimeAndText(q);
    TimeAndTextMeans(q, row);
    RestMeans(q, row);
    hide TimeAndText;
    hide AllHold;
    hide Given;
    hide Holds;
    hide Selects;
    hide SelectsTimeAndText;
    hide ErrorCondition;
    hide NameCondition;
    var c1 := c0 + Given(q.qtype != 0, QTypeIs(q.qtype));
    var c2 := c1 + Given(q.rcode.Some?, RCodeIs(if q.rcode.Some? then q.rcode.value else 0));
    var c3 := c2 + Given(q.cacheHit.Some?, CacheHitIs(if q.cacheHit == Some(true) then 1 else 0));
    var c4 := c3 + Given(q.hasError.Some?, ErrorCondition(q));
    var c5 := c4 + Given(q.resultClass != "", TextIs(Class, q.resultClass));
    HoldsGiven(c0, q.qtype != 0, QTypeIs(q.qtype), row);
    HoldsGiven(c1, q.rcode.Some?, RCodeIs(if q.rcode.Some? then q.rcode.value else 0), row);
    HoldsGiven(c2, q.cacheHit.Some?, CacheHitIs(if q.cacheHit == Some(true) then 1 else 0), row);
    HoldsGiven(c3, q.hasError.Some?, ErrorCondition(q), row);
    HoldsGiven(c4, q.resultClass != "", TextIs(Class, q.resultClass), row);
    HoldsGiven(c5, q.qname != "", NameCondition(q), row);
  }

  // ---- the live filter ---------------------------------------------------------------------------------

  /** queryMatches. */
  predicate QueryMatches(event: StoredEvent, q: Query) {
    if || (q.fromMs != 0 && event.timestamp < q.fromMs) || (q.toMs != 0 && event.timestamp > q.toMs)
       || (q.clientIp != "" && event.clientIp != q.clientIp) || (q.route != "" && event.route != q.route)
       || (q.routeSource != "" && event.routeSource != q.routeSource)
       || (q.upstreamGroup != "" && event.upstreamGroup != q.upstreamGroup)
       || (q.upstreamTag != "" && event.upstreamTag != q.upstreamTag)
       || (q.protocol != "" && event.protocol != q.protocol)
       || (q.qtype != 0 && event.qtype != q.qtype) || (q.rcode.Some? && event.rcode != q.rcode.value)
       || (q.cacheHit.Some? && event.cacheHit != q.cacheHit.value) then false
    else if q.hasError.Some? && (event.resultClass == "processing_error") != q.hasError.value then false
    else if q.resultClass != "" && event.resultClass != q.resultClass then false
    else if q.qname == "" then true
    else if q.qnameMatch == "contains" then Contains(event.qname, q.qname)
    else event.qname == q.qname
  }

  /** Accepted names hold no upper-case letter. */
  lemma AcceptedNamesAreLower(e: Event, parses: string -> bool)
    requires ValidEvent(e, parses)
    ensures ToLower(e.qname) == e.qname
  {
    assert |ToLower(TrimDot(e.qname))| == |TrimDot(e.qname)|;
    assert TrimDot(e.qname) == e.qname;
  }

  /** The name test of the live stream. */
  predicate MatchesName(q: Query, qname: string) {
    q.qname != "" ==> if q.qnameMatch == "contains" then Contains(qname, q.qname) else qname == q.qname
  }

  /** A part with a capital occurs in no name without one. */
  lemma CapitalNotContained(text: string, part: string)
    requires IsLower(text) && !IsLower(part)
    ensures !Contains(text, part)
  {
    var i :| 0 <= i < |part| && 'A' <= part[i] <= 'Z';
    forall k ensures !OccursAt(text, part, k) {
      if 0 <= k <= |text| - |part| { assert text[k..k + |part|][i] == text[k + i]; }
    }
  }

  lemma LowerHasNoCapital(s: string)
    ensures ToLower(s) == s ==> IsLower(s)
    ensures IsLower(ToLower(s))
  {
    if ToLower(s) == s {
      forall i | 0 <= i < |s| ensures !('A' <= s[i] <= 'Z') { assert LowerChar(s[i]) == ToLower(s)[i]; }
    }
  }

  /** On a name without capitals the two name tests differ exactly when a contains query holds a capital and the name
      contains its text up to case. */
  lemma NameTestsDiffer(q: Query, qname: string)
    requires IsLower(qname)
    ensures MatchesName(q, qname) ==> SelectsName(q, qname)
    ensures MatchesName(q, qname) != SelectsName(q, qname) <==>
      q.qnameMatch == "contains" && !IsLower(q.qname) && Contains(qname, ToLower(q.qname))
  {
    LowerIsFixed(qname);
    if IsLower(q.qname) {
      LowerIsFixed(q.qname);
    } else {
      CapitalNotContained(qname, q.qname);
    }
    hide Contains;
    hide ToLower;
  }

  /** The two name tests agree on every name without capitals exactly when the query is not a contains query with a
      capital. */
  lemma NameTestsAgree(q: Query)
    ensures (forall qname | IsLower(qname) :: MatchesName(q, qname) <==> SelectsName(q, qname))
      <==> !(q.qnameMatch == "contains" && !IsLower(q.qname))
  {
    forall qname | IsLower(qname)
      ensures MatchesName(q, qname) != SelectsName(q, qname) <==>
        q.qnameMatch == "contains" && !IsLower(q.qname) && Contains(qname, ToLower(q.qname))
    {
      NameTestsDiffer(q, qname);
    }
    var lower := ToLower(q.qname);
    LowerHasNoCapital(q.qname);
    assert OccursAt(lower, lower, 0);
    hide MatchesName;
    hide SelectsName;
    if q.qnameMatch == "contains" && !IsLower(q.qname) {
      assert MatchesName(q, lower) != SelectsName(q, lower);
    }
  }

  /** Everything the two filters ask of a row besides its name. */
  lemma FiltersShareTheRest(row: StoredEvent, q: Query)
    ensures QueryMatches(row, q) <==> Selects(q.(qname := ""), row) && MatchesName(q, row.qname)
    ensures Selects(q, row) <==> Selects(q.(qname := ""), row) && SelectsName(q, row.qname)
  {
    hide Contains;
    hide ToLower;
  }

  /** On every accepted event the live stream and the stored query differ exactly when the query is a contains query
      with a capital, the name contains its text up to case, and the rest of the query fits: then SQL selects the row
      and the stream leaves it out. */
  lemma FiltersDiffer(e: Event, id: int, q: Query, parses: string -> bool)
    requires ValidEvent(e, parses)
    ensures var row := FromEvent(e, id);
      (QueryMatches(row, q) <==> AllHold(ConditionList(q), row)) <==>
        !(q.qnameMatch == "contains" && !IsLower(q.qname) && Contains(row.qname, ToLower(q.qname))
          && AllHold(ConditionList(q.(qname := "")), row))
    ensures QueryMatches(FromEvent(e, id), q) ==> AllHold(ConditionList(q), FromEvent(e, id))
  {
    var row := FromEvent(e, id);
    AcceptedNamesAreLower(e, parses);
    LowerHasNoCapital(e.qname);
    NameTestsDiffer(q, row.qname);
    FiltersShareTheRest(row, q);
    ConditionsMean(q, row);
    ConditionsMean(q.(qname := ""), row);
    hide *;
  }

  /** The live stream and the stored query agree on every accepted event unless the query is a contains query with a
      capital; exact queries agree whatever their letters. */
  lemma FiltersAgree(e: Event, id: int, q: Query, parses: string -> bool)
    requires ValidEvent(e, parses) && !(q.qnameMatch == "contains" && !IsLower(q.qname))
    ensures QueryMatches(FromEvent(e, id), q) <==> AllHold(ConditionList(q), FromEvent(e, id))
  {
    FiltersDiffer(e, id, q, parses);
    hide *;
  }

  lemma {:induction false} LowerKeepsBytes(s: string)
    ensures ByteLen(ToLower(s)) == ByteLen(s)
  {
    if s != "" {
      LowerKeepsBytes(s[1..]);
      assert ToLower(s)[1..] == ToLower(s[1..]);
      assert ToLower(s)[0] == LowerChar(s[0]);
    }
  }

  /** A contains query for the text, and an accepted event whose name is that text in lower case. */
  function CapitalQuery(text: string): Query {
    Query(1, 2, "", "", "", "", "", "", 0, None, None, None, "", text, "contains")
  }

  function LowerEvent(text: string, ip: string): Event {
    Event("e", 1, ip, "udp", ToLower(text), 1, 0, "forward", "default", "", "", false, 1, 0, "", "", [])
  }

  /** So for every text with a capital that fits in a name an accepted query and an accepted event show the
      difference: the row is stored and found, and the stream never shows it. */
  lemma UpperCaseBreaksAgreement(text: string, ip: string, id: int, parses: string -> bool)
    requires !IsLower(text) && ByteLen(text) <= 253 && text[|text| - 1] != '.' && parses(ip)
    ensures ValidQuery(CapitalQuery(text), parses) && ValidEvent(LowerEvent(text, ip), parses)
    ensures var row := FromEvent(LowerEvent(text, ip), id);
      && Selects(CapitalQuery(text), row) && AllHold(ConditionList(CapitalQuery(text)), row)
      && !QueryMatches(row, CapitalQuery(text))
  {
    hide ToLower;
    hide Contains;
    hide SelectsName;
    hide MatchesName;
    hide AllHold;
    hide ConditionList;
    hide ValidEvent;
    hide ResultClass;
    hide QueryMatches;
    LowerEventIsValid(text, ip, parses);
    LowerHasNoCapital(text);
    var row := FromEvent(LowerEvent(text, ip), id);
    NameTestsDiffer(CapitalQuery(text), ToLower(text));
    ContainsItself(ToLower(text));
    FiltersShareTheRest(row, CapitalQuery(text));
    ConditionsMean(CapitalQuery(text), row);
    NoNameAsked(row.qname);
  }

  lemma ContainsItself(text: string)
    ensures Contains(text, text)
  {
    assert OccursAt(text, text, 0);
  }

  lemma NoNameAsked(qname: string)
    ensures SelectsName(CapitalQuery(""), qname)
  {}

  lemma LowerNameIsValid(text: string)
    requires text != "" && text[|text| - 1] != '.'
    ensures ByteLen(ToLower(text)) == ByteLen(text) >= 1 && ToLower(TrimDot(ToLower(text))) == ToLower(text)
  {
    var lower := ToLower(text);
    LowerKeepsBytes(text);
    LowerHasNoCapital(text);
    LowerIsFixed(lower);
    assert lower[|lower| - 1] == LowerChar(text[|text| - 1]) != '.';
    ShortByteLen(text);
  }

  lemma LowerEventIsValid(text: string, ip: string, parses: string -> bool)
    requires text != "" && ByteLen(text) <= 253 && text[|text| - 1] != '.' && parses(ip)
    ensures ValidEvent(LowerEvent(text, ip), parses)
  {
    hide ToLower;
    hide ByteLen;
    hide TrimDot;
    LowerNameIsValid(text);
    ShortByteLen(text);
    FixedFieldsAreValid(LowerEvent(text, ip), parses);
  }

  lemma FixedFieldsAreValid(e: Event, parses: string -> bool)
    requires e == Event("e", 1, e.clientIp, "udp", e.qname, 1, 0, "forward", "default", "", "", false, 1, 0, "", "", [])
    requires parses(e.clientIp) && 1 <= ByteLen(e.qname) <= 253 && ToLower(TrimDot(e.qname)) == e.qname
    ensures ValidEvent(e, parses)
  {
    hide ToLower;
    hide TrimDot;
    ShortByteLen("e");
    hide ByteLen;
  }

  lemma ShortByteLen(s: string)
    ensures s != "" ==> ByteLen(s) >= 1
    ensures ByteLen("e") == 1 && ByteLen("") == 0
  {
    assert "e"[1..] == "";
  }
}
