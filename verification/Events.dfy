/** Query events as the ingest service accepts and stores them. */
module Events {
  import opened Text

  datatype Event = Event(
    eventId: string, timestamp: int, clientIp: string, protocol: string, qname: string, qtype: int, rcode: int,
    route: string, routeSource: string, upstreamGroup: string, upstreamTag: string, cacheHit: bool,
    answerCount: int, latency: int, errorCode: string, errorText: string, answers: seq<string>)

  /** A row of dns_queries, and what subscribers receive. */
  datatype StoredEvent = StoredEvent(
    id: int, eventId: string, timestamp: int, clientIp: string, protocol: string, qname: string, qtype: int, rcode: int,
    route: string, routeSource: string, upstreamGroup: string, upstreamTag: string, cacheHit: bool,
    answerCount: int, latency: int, errorCode: string, errorText: string, resultClass: string)

  function ResultClass(e: Event): string {
    if e.route == "block" then "policy_block"
    else if e.errorCode != "" || e.errorText != "" || (e.rcode != 0 && e.rcode != 3) then "processing_error"
    else if e.rcode == 3 || e.answerCount == 0 then "negative_answer"
    else "success"
  }

  function FromEvent(e: Event, id: int): StoredEvent {
    StoredEvent(id, e.eventId, e.timestamp, e.clientIp, e.protocol, e.qname, e.qtype, e.rcode, e.route, e.routeSource,
                e.upstreamGroup, e.upstreamTag, e.cacheHit, e.answerCount, e.latency, e.errorCode, e.errorText,
                ResultClass(e))
  }

  /** The class of a row, by its own columns: blocked; an error text or another response code than 0 and 3; an empty
      answer or code 3; and what is left. */
  predicate ClassFits(row: StoredEvent) {
    var failed := row.errorCode != "" || row.errorText != "";
    && (row.resultClass == "policy_block" <==> row.route == "block")
    && (row.resultClass == "processing_error" <==>
          row.route != "block" && (failed || (row.rcode != 0 && row.rcode != 3)))
    && (row.resultClass == "negative_answer" <==>
          row.route != "block" && !failed && (row.rcode == 3 || (row.rcode == 0 && row.answerCount == 0)))
    && (row.resultClass == "success" <==>
          row.route != "block" && !failed && row.rcode == 0 && row.answerCount != 0)
  }

  /** The row holds the event, column by column, and its class. */
  predicate Records(row: StoredEvent, e: Event) {
    && row.eventId == e.eventId && row.timestamp == e.timestamp && row.clientIp == e.clientIp
    && row.protocol == e.protocol && row.qname == e.qname && row.qtype == e.qtype && row.rcode == e.rcode
    && row.route == e.route && row.routeSource == e.routeSource
    && row.upstreamGroup == e.upstreamGroup && row.upstreamTag == e.upstreamTag && row.cacheHit == e.cacheHit
    && row.answerCount == e.answerCount && row.latency == e.latency
    && row.errorCode == e.errorCode && row.errorText == e.errorText
    && ClassFits(row)
  }

  lemma FromEventRecords(e: Event, id: int)
    ensures FromEvent(e, id).id == id && Records(FromEvent(e, id), e)
  {}

  /** What validateEvent demands of the fields the store works with; parses is the address parser. */
  predicate ValidEvent(e: Event, parses: string -> bool) {
    && 1 <= ByteLen(e.eventId) <= 128 && e.timestamp > 0
    && parses(e.clientIp) && 1 <= ByteLen(e.qname) <= 253 && ToLower(TrimDot(e.qname)) == e.qname
    && 1 <= e.qtype <= 65535 && 0 <= e.rcode <= 23 && e.latency >= 0 && e.answerCount >= 0
    && (e.protocol == "udp" || e.protocol == "tcp")
    && (e.route == "forward" || e.route == "block" || e.route == "local")
    && (e.routeSource == "default" || e.routeSource == "dynamic_rule" || e.routeSource == "subscription")
    && ByteLen(e.upstreamGroup) <= 128 && ByteLen(e.upstreamTag) <= 128
    && ByteLen(e.errorCode) <= 128 && ByteLen(e.errorText) <= 4096
  }

  /** validateEvent, check by check. */
  method CheckEvent(e: Event, parses: string -> bool) returns (ok: bool)
    ensures ok <==> ValidEvent(e, parses)
  {
    hide ByteLen;
    hide ToLower;
    hide TrimDot;
    if ByteLen(e.eventId) == 0 || ByteLen(e.eventId) > 128 || e.timestamp <= 0 {
      return false;
    }
    if !parses(e.clientIp) || ByteLen(e.qname) == 0 || ByteLen(e.qname) > 253 || ToLower(TrimDot(e.qname)) != e.qname {
      return false;
    }
    if e.qtype < 1 || e.qtype > 65535 || e.rcode < 0 || e.rcode > 23 || e.latency < 0 || e.answerCount < 0 {
      return false;
    }
    if (e.protocol != "udp" && e.protocol != "tcp")
      || (e.route != "forward" && e.route != "block" && e.route != "local")
      || (e.routeSource != "default" && e.routeSource != "dynamic_rule" && e.routeSource != "subscription") {
      return false;
    }
    var fields := [(e.upstreamGroup, 128), (e.upstreamTag, 128), (e.errorCode, 128), (e.errorText, 4096)];
    for i := 0 to |fields|
      invariant forall k | 0 <= k < i :: ByteLen(fields[k].0) <= fields[k].1
    {
      if ByteLen(fields[i].0) > fields[i].1 {
        assert i == 0 || i == 1 || i == 2 || i == 3;
        return false;
      }
    }
    assert ByteLen(fields[0].0) <= fields[0].1 && ByteLen(fields[1].0) <= fields[1].1;
    assert ByteLen(fields[2].0) <= fields[2].1 && ByteLen(fields[3].0) <= fields[3].1;
    ok := true;
  }

  const HOUR := 3600000

  function HourOf(e: Event): int { e.timestamp / HOUR * HOUR }

  /** An event belongs to the hour that began last before it. */
  lemma HourExactly(e: Event, hour: int)
    ensures HourOf(e) == hour <==> hour % 3600000 == 0 && hour <= e.timestamp < hour + 3600000
  {
    HourOfTime(e.timestamp, hour);
  }

  lemma HourOfTime(t: int, hour: int)
    ensures t / 3600000 * 3600000 == hour <==> hour % 3600000 == 0 && hour <= t < hour + 3600000
  {
    if hour % 3600000 == 0 && hour <= t < hour + 3600000 {
      assert hour == hour / 3600000 * 3600000;
      assert t / 3600000 == hour / 3600000;
    }
  }

  // ---- latency buckets ---------------------------------------------------------------------------

  /** Bucket bounds in microseconds; slower queries fall into the last bucket. */
  const BOUNDS: seq<int> := [1000, 5000, 10000, 25000, 50000, 100000, 250000, 500000, 1000000, 5000000, 10000000]

  const LAST_BOUND := 10000000

  /** The first bound the latency does not exceed, or the last one. */
  function Bucket(latency: int): (bound: int)
    ensures bound in BOUNDS
    ensures latency <= bound || bound == LAST_BOUND
    ensures forall i | 0 <= i < |BOUNDS| :: BOUNDS[i] < bound ==> BOUNDS[i] < latency
  {
    BucketFrom(latency, 0)
  }

  function BucketFrom(latency: int, i: nat): (bound: int)
    requires i < |BOUNDS| && forall k | 0 <= k < i :: BOUNDS[k] < latency
    ensures bound in BOUNDS
    ensures latency <= bound || bound == LAST_BOUND
    ensures forall k | 0 <= k < |BOUNDS| :: BOUNDS[k] < bound ==> BOUNDS[k] < latency
    decreases |BOUNDS| - i
  {
    if latency <= BOUNDS[i] then BOUNDS[i]
    else if i + 1 == |BOUNDS| then LAST_BOUND
    else BucketFrom(latency, i + 1)
  }

  /** The loop of aggregate that finds the bucket. */
  method FindBucket(latency: int) returns (bound: int)
    ensures bound == Bucket(latency)
  {
    bound := BOUNDS[|BOUNDS| - 1];
    for i := 0 to |BOUNDS|
      invariant bound == LAST_BOUND
      invariant forall k | 0 <= k < i :: BOUNDS[k] < latency
    {
      if latency <= BOUNDS[i] {
        BucketIs(latency, BOUNDS[i]);
        return BOUNDS[i];
      }
    }
    assert forall b | b in BOUNDS :: b < latency;
  }

  lemma BucketIs(latency: int, bound: int)
    requires bound in BOUNDS && latency <= bound
    requires forall i | 0 <= i < |BOUNDS| :: BOUNDS[i] < bound ==> BOUNDS[i] < latency
    ensures Bucket(latency) == bound
  {
    var i :| 0 <= i < |BOUNDS| && BOUNDS[i] == bound;
    var j :| 0 <= j < |BOUNDS| && BOUNDS[j] == Bucket(latency);
    assert BOUNDS[|BOUNDS| - 1] == LAST_BOUND;
  }

  /** Below the last bound a bucket is exactly an upper bound on the latency; the last one takes everything. */
  lemma BucketAtMost(latency: int, b: int)
    requires b in BOUNDS
    ensures Bucket(latency) <= b <==> latency <= b || b == LAST_BOUND
  {
    var i :| 0 <= i < |BOUNDS| && BOUNDS[i] == b;
    var j :| 0 <= j < |BOUNDS| && BOUNDS[j] == Bucket(latency);
    assert BOUNDS[|BOUNDS| - 1] == LAST_BOUND;
  }
}
