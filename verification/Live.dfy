/** The writer and the hub together: what subscribers are shown is what the store took. */
module Live {
  import opened RuleModel
  import opened Validation
  import opened Events
  import opened QueryFilter
  import opened Ingest
  import opened Fanout

  class QueryService {
    const ingest: IngestService
    const hub: Hub

    /** Everything the committed flushes stored has been published, in that order, and nothing else. */
    ghost predicate Valid()
      reads this, ingest, ingest.store, hub, hub.channels
    {
      ingest.Valid() && hub.Valid() && hub.published == Published(ingest.moments)
    }

    constructor (parses: string -> bool)
      ensures Valid() && fresh(ingest) && fresh(ingest.store) && fresh(hub) && hub.channels == {}
      ensures ingest.parses == parses
    {
      var writer := new IngestService(parses);
      var fanout := new Hub();
      ingest, hub := writer, fanout;
      new;
      assert Published([]) == [];
    }

    /** One turn of the writer goroutine: a flush that commits publishes its rows. */
    method Turn(step: WriterStep)
      requires Valid()
      modifies ingest`queue, ingest`buffer, ingest`moments, ingest.store, hub, hub.channels
      ensures Valid() && old(ingest.moments) <= ingest.moments && hub.channels == old(hub.channels)
    {
      hide IngestService.Valid;
      hide Hub.Valid;
      hide Published;
      var stored := ingest.Write(step);
      hub.Publish(stored);
    }

    /** A batch enters while the writer goes on; what is flushed meanwhile is published. */
    method Enqueue(batch: Batch, writer: nat -> seq<WriterStep>) returns (r: Outcome)
      requires Valid()
      modifies ingest, ingest.store, hub, hub.channels
      ensures Valid() && old(ingest.moments) <= ingest.moments && hub.channels == old(hub.channels)
      ensures r == Accepted ==> ingest.accepted == old(ingest.accepted) + batch.events
      ensures r != Accepted ==> ingest.accepted == old(ingest.accepted) && hub.published == old(hub.published)
    {
      hide IngestService.Valid;
      hide Hub.Valid;
      hide Published;
      hide ValidBatch;
      var stored;
      r, stored := ingest.Enqueue(batch, writer);
      hub.Publish(stored);
    }

    /** Shutdown of the writer: the last flush is published too. */
    method Finish(fails: nat -> bool)
      requires Valid()
      modifies ingest`queue, ingest`buffer, ingest`moments, ingest.store, hub, hub.channels
      ensures Valid() && ingest.queue == [] && ingest.buffer == [] && hub.channels == old(hub.channels)
    {
      hide IngestService.Valid;
      hide Hub.Valid;
      hide Published;
      var stored := ingest.Finish(fails);
      hub.Publish(stored);
    }

    /** Every open subscription has been handed exactly the stored rows that match it, from its opening on. */
    lemma SubscribersSeeTheStore(c: Channel)
      requires Valid() && c in hub.channels && c.id in hub.subscribers
      ensures c.start <= |Published(ingest.moments)|
      ensures c.Handed() == Matching(Published(ingest.moments)[c.start..], c.query)
    {
      hide IngestService.Valid;
      hide Published;
      hide Matching;
    }
  }
}
