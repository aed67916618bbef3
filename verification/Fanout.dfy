/** Live fan-out: every connected subscriber gets exactly the matching events since it subscribed, in order and
    without gaps; one that is too slow is cut off and keeps a prefix. */
module Fanout {
  import opened Ordering
  import opened RuleModel
  import opened Validation
  import opened Events
  import opened QueryFilter

  const BUFFER := 256

  function Matching(events: seq<StoredEvent>, q: Query): seq<StoredEvent> {
    if events == [] then []
    else
      var front, last := Matching(events[..|events| - 1], q), events[|events| - 1];
      front + if QueryMatches(last, q) then [last] else []
  }

  lemma MatchingOneMore(events: seq<StoredEvent>, e: StoredEvent, q: Query)
    ensures Matching(events + [e], q) == Matching(events, q) + (if QueryMatches(e, q) then [e] else [])
  {
    assert (events + [e])[..|events|] == events;
  }

  /** One subscriber's channel. start and stop: how many events had been published when it was opened, closed. */
  class Channel {
    const id: int
    const query: Query
    ghost const start: nat
    var buffer: seq<StoredEvent>
    var closed: bool
    ghost var received: seq<StoredEvent>
    ghost var stop: nat

    constructor (id: int, query: Query, ghost start: nat)
      ensures this.id == id && this.query == query && this.start == start && buffer == [] && received == [] && !closed
    {
      this.id, this.query, this.start, buffer, received, closed, stop := id, query, start, [], [], false, 0;
    }

    /** Everything handed to the channel so far: read, then still buffered. */
    ghost function Handed(): seq<StoredEvent>
      reads this
    {
      received + buffer
    }

    /** The reader takes the oldest buffered event; a closed channel can still be drained. */
    method Receive() returns (e: Option<StoredEvent>)
      modifies this`buffer, this`received
      ensures Handed() == old(Handed())
      ensures e == if old(buffer) == [] then None else Some(old(buffer)[0])
      ensures e.Some? ==> received == old(received) + [e.value]
    {
      if |buffer| == 0 { return None; }
      e := Some(buffer[0]);
      ghost var was := received + buffer;
      received := received + [buffer[0]];
      buffer := buffer[1..];
      assert received + buffer == was;
    }

    method Push(e: StoredEvent)
      requires !closed && |buffer| < BUFFER
      modifies this`buffer
      ensures buffer == old(buffer) + [e] && Handed() == old(Handed()) + [e]
    {
      ghost var was := received + buffer;
      buffer := buffer + [e];
      assert received + buffer == was + [e];
    }

    /** close: a channel is closed at most once. */
    method Close(ghost at: nat)
      requires !closed
      modifies this`closed, this`stop
      ensures closed && stop == at
    {
      closed, stop := true, at;
    }
  }

  lemma FollowsOn(c: Channel, was: seq<StoredEvent>, e: StoredEvent)
    requires c.start <= |was| && c.Handed() == Matching(was[c.start..], c.query)
    ensures Matching((was + [e])[c.start..], c.query) == c.Handed() + (if QueryMatches(e, c.query) then [e] else [])
  {
    MatchingOneMore(was[c.start..], e, c.query);
    assert (was + [e])[c.start..] == was[c.start..] + [e];
  }

  lemma StaysCutAt(c: Channel, was: seq<StoredEvent>, e: StoredEvent)
    requires c.start <= |was| && c.Handed() == Matching(was[c.start..], c.query)
    ensures c.Handed() == Matching((was + [e])[c.start..|was|], c.query)
  {
    assert (was + [e])[c.start..|was|] == was[c.start..];
  }

  class Hub {
    var subscribers: map<int, Channel>
    var nextSubscriber: int
    ghost var published: seq<StoredEvent>
    /** Every channel ever opened. */
    ghost var channels: set<Channel>

    /** A connected channel: everything matching since it was opened. */
    ghost predicate Connected(c: Channel, events: seq<StoredEvent>)
      reads c
    {
      !c.closed && c.start <= |events| && c.Handed() == Matching(events[c.start..], c.query)
    }

    /** A closed one: everything matching from its opening to its closing. */
    ghost predicate CutOff(c: Channel, events: seq<StoredEvent>)
      reads c
    {
      c.closed && c.start <= c.stop <= |events| && c.Handed() == Matching(events[c.start..c.stop], c.query)
    }

    ghost predicate Registered()
      reads this
    {
      && (forall id | id in subscribers :: subscribers[id].id == id && subscribers[id] in channels)
      && (forall c | c in channels :: c.id < nextSubscriber && (c.id in subscribers ==> subscribers[c.id] == c))
    }

    ghost predicate Valid()
      reads this, channels
    {
      && Registered()
      && (forall c | c in channels :: if c.id in subscribers then Connected(c, published) else CutOff(c, published))
    }

    constructor ()
      ensures Valid() && published == [] && channels == {}
    {
      subscribers, nextSubscriber, published, channels := map[], 0, [], {};
    }

    method Subscribe(q: Query, parses: string -> bool) returns (r: Result<Channel>)
      requires Valid()
      modifies this
      ensures Valid() && published == old(published)
      ensures r.Ok? <==> ValidQuery(q, parses)
      ensures r.Ok? ==> fresh(r.value) && channels == old(channels) + {r.value}
      ensures r.Ok? ==> r.value.id in subscribers && r.value.query == q && r.value.start == |published|
      ensures r.Err? ==> channels == old(channels) && subscribers == old(subscribers)
    {
      hide ValidQuery;
      var conditions := QueryConditions(q, parses);
      if conditions.Err? {
        return Err(conditions.code);
      }
      var id := nextSubscriber;
      var c := new Channel(id, q, |published|);
      assert published[|published|..] == [];
      nextSubscriber := nextSubscriber + 1;
      subscribers := subscribers[id := c];
      channels := channels + {c};
      r := Ok(c);
    }

    /** The select of publish: hand the event over, or close a channel whose buffer is full. */
    method Offer(id: int, e: StoredEvent, ghost was: seq<StoredEvent>)
      requires Registered() && id in subscribers && Connected(subscribers[id], was)
      modifies this`subscribers, subscribers[id]
      ensures subscribers == if id in subscribers then old(subscribers) else old(subscribers) - {id}
      ensures id in subscribers <==> old(!QueryMatches(e, subscribers[id].query) || |subscribers[id].buffer| < BUFFER)
      ensures id in subscribers ==> Connected(old(subscribers[id]), was + [e])
      ensures id !in subscribers ==> CutOff(old(subscribers[id]), was + [e])
    {
      hide QueryMatches;
      hide Matching;
      var c := subscribers[id];
      FollowsOn(c, was, e);
      if QueryMatches(e, c.query) {
        if |c.buffer| < BUFFER {
          c.Push(e);
        } else {
          StaysCutAt(c, was, e);
          subscribers := subscribers - {id};
          c.Close(|was|);
        }
      }
    }

    /** While an event is being offered: todo are the subscribers still to come. */
    ghost predicate Midway(todo: set<int>, was: seq<StoredEvent>, now: seq<StoredEvent>)
      reads this, channels
    {
      && Registered()
      && (forall c | c in channels ::
            if c.id !in subscribers then CutOff(c, now)
            else if c.id in todo then Connected(c, was) else Connected(c, now))
    }

    method OfferNext(todo: set<int>, id: int, e: StoredEvent, ghost was: seq<StoredEvent>)
      requires Midway(todo, was, was + [e]) && id in todo && todo <= subscribers.Keys
      modifies this`subscribers, subscribers[id]
      ensures Midway(todo - {id}, was, was + [e])
      ensures subscribers == if id in subscribers then old(subscribers) else old(subscribers) - {id}
      ensures id in subscribers <==> old(!QueryMatches(e, subscribers[id].query) || |subscribers[id].buffer| < BUFFER)
    {
      hide QueryMatches;
      hide Matching;
      hide CutOff;
      hide Connected;
      Offer(id, e, was);
    }

    /** One event is offered to every subscriber; the order among them does not matter. */
    method PublishOne(e: StoredEvent)
      requires Valid()
      modifies this, channels
      ensures Valid() && published == old(published) + [e] && channels == old(channels)
      ensures subscribers.Keys <= old(subscribers).Keys
      ensures forall id | id in old(subscribers) :: id in subscribers <==>
        old(!QueryMatches(e, subscribers[id].query) || |subscribers[id].buffer| < BUFFER)
    {
      hide QueryMatches;
      hide CutOff;
      hide Connected;
      ghost var was := published;
      ghost var now := was + [e];
      ghost var first := subscribers;
      var todo := subscribers.Keys;
      BeginsMidway(e);
      assert Registered();
      while todo != {}
        invariant published == was && channels == old(channels) && Midway(todo, was, now)
        invariant todo <= subscribers.Keys <= first.Keys
        invariant forall id | id in todo ::
          subscribers[id] == first[id] && subscribers[id].buffer == old(first[id].buffer)
        invariant forall id | id in first && id !in todo :: id in subscribers <==>
          !QueryMatches(e, first[id].query) || old(|first[id].buffer|) < BUFFER
        decreases |todo|
      {
        var id := Least(todo);
        OfferNext(todo, id, e, was);
        todo := todo - {id};
      }
      published := now;
    }

    lemma BeginsMidway(e: StoredEvent)
      requires Valid()
      ensures Midway(subscribers.Keys, published, published + [e])
    {
      hide CutOff;
      hide Connected;
      forall c | c in channels && c.id !in subscribers ensures CutOff(c, published + [e]) {
        StillCutOff(c, published, e);
      }
    }

    lemma StillCutOff(c: Channel, was: seq<StoredEvent>, e: StoredEvent)
      requires CutOff(c, was)
      ensures CutOff(c, was + [e])
    {
      assert (was + [e])[c.start..c.stop] == was[c.start..c.stop];
    }

    /** publish: event by event. */
    method Publish(events: seq<StoredEvent>)
      requires Valid()
      modifies this, channels
      ensures Valid() && published == old(published) + events && channels == old(channels)
      ensures subscribers.Keys <= old(subscribers).Keys
    {
      for i := 0 to |events|
        invariant Valid() && published == old(published) + events[..i] && channels == old(channels)
        invariant subscribers.Keys <= old(subscribers).Keys
      {
        PublishOne(events[i]);
        assert events[..i + 1] == events[..i] + [events[i]];
      }
      assert events[..|events|] == events;
    }

    /** The subscriber's own close: nothing when it has already been cut off. */
    method Unsubscribe(id: int)
      requires Valid()
      modifies this`subscribers, channels
      ensures Valid() && id !in subscribers && subscribers == old(subscribers) - {id} && published == old(published)
      ensures channels == old(channels)
    {
      hide Matching;
      if id in subscribers {
        var current := subscribers[id];
        subscribers := subscribers - {id};
        assert published[current.start..|published|] == published[current.start..];
        current.Close(|published|);
      }
    }

    /** Close: every remaining channel is closed, each once. */
    method Shutdown()
      requires Valid()
      modifies this`subscribers, channels
      ensures Valid() && subscribers == map[] && published == old(published) && channels == old(channels)
      ensures forall c | c in channels :: c.closed
    {
      hide Matching;
      var todo := subscribers.Keys;
      while todo != {}
        invariant Valid() && todo == subscribers.Keys && published == old(published) && channels == old(channels)
        decreases |todo|
      {
        var id := Least(todo);
        Unsubscribe(id);
        todo := todo - {id};
      }
    }
  }

  /** A cut-off subscriber was handed a prefix of what it would have got. */
  lemma {:induction false} CutOffIsPrefix(events: seq<StoredEvent>, start: nat, stop: nat, q: Query)
    requires start <= stop <= |events|
    ensures Matching(events[start..stop], q) <= Matching(events[start..], q)
    decreases |events|
  {
    if stop == |events| {
      assert events[start..stop] == events[start..];
    } else {
      var front := events[..|events| - 1];
      CutOffIsPrefix(front, start, stop, q);
      assert front[start..stop] == events[start..stop];
      assert events[start..] == front[start..] + [events[|events| - 1]];
      MatchingOneMore(front[start..], events[|events| - 1], q);
    }
  }
}
