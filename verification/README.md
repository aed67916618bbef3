# Managed DNS controller: a verified model

The controller of this system keeps the DNS rules, the rule subscriptions and the query statistics of a
resolver (mosdns) in SQLite, and drives the resolver through an API whose calls may be lost, late or repeated.
This project models three of its components and proves what they are for:

* **Publishing rules.** Numbered snapshots, a compare-and-swap Apply whose outcome may never be learned, a
  reconcile that decides from the runtime status alone, and subscription edits that change tables first and
  compensate later.
* **The upstream registry.** One versioned registry edited by several writers, some without a lock, and the
  promise that no group a binding or a live rule needs is ever taken away.
* **The query-event store.** A bounded queue, a deduplicating transaction over six hourly tables, a bucketed
  percentile, keyset paging, two filters that must agree, live fan-out and a small first-in first-out cache.

`dafny verify dfyconfig.toml` checks everything.

## How it is laid out

| file | what it holds |
|---|---|
| `Ordering.dfy`, `Text.dfy` | sorting with a canonical result; the string operations the controller takes from Go |
| `RuleModel.dfy`, `Validation.dfy` | rules, snapshots and why their content is canonical; validation and the table constraints it must meet |
| `Store.dfy`, `SourceLists.dfy` | the tables and the statements on them; subscription bodies and the sets built from sources |
| `Protocol.dfy`, `Recovery.dfy` | the publish protocol as a state machine, its invariants, and when it recovers |
| `Publication.dfy`, `Outcomes.dfy`, `RuleService.dfy` | what a published list leaves in the tables; what a call meets, reports and leaves; the rule service as a class |
| `Subscriptions.dfy` | the five subscription edits with their restores |
| `UpstreamRegistry.dfy`, `UpstreamService.dfy` | registry edits under compare-and-swap; the writers as a class |
| `References.dfy` | publishing and registry edits together, with the two locks |
| `Client.dfy` | how a call to mosdns is classified |
| `Events.dfy`, `Aggregates.dfy`, `EventStore.dfy`, `Ingest.dfy` | events, the hourly tables, the transaction, the queue and its writer |
| `Percentile.dfy`, `QueryFilter.dfy`, `Paging.dfy`, `Fanout.dfy`, `Diagnostics.dfy` | the reads over them |
| `Live.dfy` | the writer and the live fan-out together |

SQLite runs on one connection, so a statement or a transaction is one atomic step. The rule service performs its
statements as steps of the state machine in `Protocol.dfy`, so every property of all runs holds of the object,
and a crash is a run whose next statement never comes. What the network, the clock and the other goroutines do
is a parameter of each call: the fate of a request, the replies, and what happens to the runtime between two
statements, where messages arrive and where it may lose its snapshot or come back with an earlier one.

## Hypotheses

* mosdns adopts a snapshot, or a registry, exactly when the expected version it carries is the version it holds.
  The controller relies on this; mosdns itself is not part of this model.
* A checksum identifies the content it is taken of, so comparing checksums is comparing contents.
* `SoundLibs` in `Validation.dfy`: IDNA conversion returns lower-case ASCII without white space or `*` and maps its
  results to themselves; the address parser maps its canonical texts to themselves.
* `SoundCodec` in `Paging.dfy`: base64url decoding undoes encoding, and a text that is not empty has an encoding that
  is not empty.

## What the code does not do

Some expectations turn out false of the code. The code is kept as it is; the model shows where each one fails and
when it holds.

* The comment at `controller/internal/rules/service.go:387` says versions never go back. That holds as long as the
  runtime does not lose its snapshot or come back with an older one (`Protocol.EveryRunStaysInStep`). In general a
  step takes the active version back exactly when it finalises an adopted open candidate below it
  (`Protocol.ActiveFallsExactlyWhen`), and a reconcile does exactly when the runtime holds such a candidate and the
  sources can be read (`RuleService.RuleService.Reconcile`); `Recovery.ActiveCanGoBackAfterLoss` is such a run.
* A candidate written off as failed may still land. As long as the runtime does not fall back, controller and runtime
  can then never agree again, and that is the only way to get there (`Recovery.RecoverableExactlyWhenNotFailed`).
  After a fall back they can agree again exactly when messages already sent lead the runtime to the active version, to
  an open candidate, or to the predecessor of a candidate still to be sent (`Recovery.RecoverableExactlyWhenChained`).
* A republish towards a runtime below the active version is refused by the runtime: it is taken up exactly when the
  runtime is at the active version (`Recovery.RepublishBelowActiveIsRefused`).
* The list query hides sources matching `subscription:%` without regard to case. `Create` and `Import` test a new rule's
  source for the exact prefix, and `Update` tests the source of the rule it replaces but not that of the patch. A rule
  that gets such a source disappears with the next publish of the table (`Publication.RuleSurvivesExactlyWhenVisible`,
  `Publication.MixedCaseSourceSlipsThrough`, `Outcomes.UpdatedStaysVisibleExactlyWhen`).
* Restoring a deleted route source takes two statements. When the second is not made, the source is left without its
  binding (`Subscriptions.DeleteEndsHalfExactlyWhen`), which stops publishing and reconciling exactly when the source is
  enabled and of category route (`Subscriptions.HalfRestoredStopsPublishing`; `Subscriptions.DeleteStopsHalfway` is such
  a run).
* A subscription edit can be reported as unknown although its tables have been restored, because the restore does not
  change the cause. That happens in exactly two cases: the validation call gave no answer; or Apply gave none, the
  status read after it settled nothing, and the status read before the restore shows the version that was active
  (`Subscriptions.Commit`, for restores whose statements succeed; `Subscriptions.UnknownIsRestored` shows both).
* A registry call without an answer may land after its writer released the lock, and then strand a binding
  (`References.LateCallStrandsBinding`) or a live snapshot: exactly when one of them names the group it takes away
  (`References.LateCallStrandsExactlyWhen`).
* A rule of an open candidate protects its group exactly when it is enabled or something else names the group
  (`References.RuleProtectsExactlyWhenEnabled`); `References.DisabledRuleIsUnprotected` is a run in which a disabled one
  does not, and after which every publish fails.
* A restore that runs because the runtime is seen at the predecessor means that the runtime never adopted the
  candidate, unless the runtime has fallen back (`Subscriptions.CompensationMeansNotAdopted`,
  `Subscriptions.AdoptedIsRestored`).
* After an unknown registry outcome only the version is compared, so success can be another writer's edit
  (`UpstreamService.UnknownSuccessMayBeAnothers`). It is the caller's own exactly when, with only the answer lost, no
  other edit of the same registry landed before the call, and with the call delayed, the caller's edit is the first of
  that registry to land (`UpstreamService.UnknownSuccessIsOwnExactlyWhen`).
* The stored and the live filter differ on an accepted event exactly when the query is a contains query with a capital,
  the name contains its text up to case, and the rest of the query fits (`QueryFilter.FiltersDiffer`); every text with
  a capital that fits in a name and does not end in a dot has such an event (`QueryFilter.UpperCaseBreaksAgreement`).
  The HTTP layer lower-cases the name first (`controller/internal/app/app.go:547`), so its queries are not affected.
* The hourly tables agree on an hour only until one of them is trimmed: retention keeps the client-domain table for 90
  days and the others for a year (`EventStore.RetentionKeepsHours`, `Aggregates.HourCountsAgree`).

## Model

| member | source | states |
|---|---|---|
| RuleModel.WireOrder | controller/internal/rules/service.go:609-624 | the five-key comparator is a strict total order on the rules of a list with distinct ids |
| RuleModel.WireIsSortedEnabledRules | controller/internal/rules/service.go:602-627 | every enabled rule is on the wire exactly once, under its id and with its category, action, group, match type, pattern, priority, source, comment, addresses and TTL, and nothing else is; the list is in strictly ascending key order |
| RuleModel.EarlierOnTheWire | controller/internal/rules/service.go:609-624 | of two rules of the wire list the category decides which comes first, then the smaller priority number, the match type, the pattern and the id |
| RuleModel.WireIsCanonical | controller/internal/rules/service.go:602-627 | every permutation of a rule list gives the same wire list |
| RuleModel.CollectWire | controller/internal/rules/service.go:602-624 | the filter-and-sort loop computes that list, with exactly the enabled rules and their columns |
| RuleModel.WireOfTableIsWireOfList | controller/internal/rules/service.go:507-545 | publishing a list and rebuilding the snapshot from the table it leaves give the same wire rules |
| RuleModel.RowsAreTheTable | controller/internal/rules/service.go:82-105 | the list query returns each row of the rule table once |
| RuleModel.EarlierInTheList | controller/internal/rules/service.go:83 | the list query orders the rows by category, then the smaller priority number, match type, pattern and id |
| Validation.NormalizeIsIdempotent | controller/internal/rules/service.go:851-879 | a normalised pattern is a fixed point of normalisation; a domain is lower-case ASCII of at most 253 bytes with labels of 1..63 (section 2.3.4 of RFC 1035) |
| Validation.NormalizeExactly | controller/internal/rules/service.go:851-879 | a regexp is its trimmed text, which must not be empty; a name is the ASCII form of its trimmed lower-case text without a final dot, and is refused exactly when that text is empty or holds *, has no ASCII form, or the form breaks the length limits; any other match type is refused |
| Validation.NamesAreOneRule | controller/internal/rules/service.go:851-879 | neither the case of a name nor one final dot makes another pattern of it |
| Validation.NormalizeIpsIsIdempotent | controller/internal/rules/service.go:765-788 | a normalised address list is sorted, free of repeats and its own normal form |
| Validation.NormalizeAddresses | controller/internal/rules/service.go:765-788 | the parse-dedup-sort loop computes that normal form, or reports the first bad address |
| Validation.NormalizeIpsExactly | controller/internal/rules/service.go:765-788 | at most sixteen addresses, each of the family; what comes out are exactly their canonical texts |
| Validation.NormalizeRuleIsIdempotent | controller/internal/rules/service.go:701-745 | normalising an accepted rule again changes nothing |
| Validation.NormalizeRuleExactly | controller/internal/rules/service.go:701-745 | which rules are accepted on their own: priority, comment, category with action, group exactly for route rules, addresses and TTL exactly for answers, pattern, and for a regexp its length and that it compiles |
| Validation.NormalizeRuleWrites | controller/internal/rules/service.go:701-745 | normalising writes the pattern, the group of a route rule and the addresses of an answer; every other column stays as given |
| Validation.KeyTextIsInjective | controller/internal/rules/service.go:746-750 | the NUL-joined key text tells two rules apart exactly when category, match type or pattern differ |
| Validation.ValidateRules | controller/internal/rules/service.go:694-760 | the in-place validation accepts exactly the lists within the limits whose rules normalise to distinct keys, and leaves the normal forms |
| Validation.RegexpCountIs | controller/internal/rules/service.go:736-758 | the regexp limit counts the rules of match type regexp |
| Validation.RevalidationChangesNothing | controller/internal/rules/service.go:694-760 | a validated list is accepted again unchanged |
| Validation.AcceptedRuleIsStorable | controller/internal/storage/migrations.go:125 | an accepted rule meets every CHECK constraint of the rule table |
| Validation.StorableListInserts | controller/internal/rules/service.go:522-536 | a list of storable rules with distinct ids and keys is inserted without violating CHECK or UNIQUE |
| Validation.InsertedListMeetsConstraints | controller/internal/storage/migrations.go:125 | and the constraints let no other list through: what is inserted whole has distinct ids, meets every CHECK, and holds no two rules of one category, match type and normalised pattern |
| Validation.AcceptedListInserts | controller/internal/rules/service.go:522-536 | so any accepted list with distinct ids is inserted whole when it is finalised |
| Store.ReadSubscriptionSets | controller/internal/rules/subscriptions.go:360-416 | the loop over the joined source rows computes the sets, or fails on the first unbound route source |
| Store.SetsFailExactlyWhenUnbound | controller/internal/rules/subscriptions.go:396-398 | reading the sets fails exactly when some enabled route source has no binding |
| Store.SetsShowSources | controller/internal/rules/subscriptions.go:360-416 | one set for each enabled source that is not empty, and no other, with its name, category, action and domains; group and priority are the binding's for a route source, and none and 100 for any other |
| Text.LikeIsPrefix | controller/internal/rules/service.go:79-81 | a LIKE pattern of a text and a percent sign matches the texts that begin with it up to the case of ASCII letters |
| Store.HiddenSourceIs | controller/internal/rules/service.go:79-81 | the filter of the list query is LIKE 'subscription:%', which is the prefix subscription: up to the case of its letters |
| Store.AllRulesAreTheVisibleRows | controller/internal/rules/service.go:79-105 | the list query returns exactly the rows whose source is not LIKE 'subscription:%', each once |
| SourceLists.SetsAreCanonical | controller/internal/rules/subscriptions.go:360-416 | the sets depend on the enabled non-empty sources alone |
| SourceLists.SetDomainsAscend | controller/internal/rules/subscriptions.go:390-412 | each set lists its source's domains, strictly ascending, with the binding's group and priority for a route source and none otherwise |
| SourceLists.SetsAreOrdered | controller/internal/rules/subscriptions.go:361 | the sets come in the order of the binding's priority, 100 without one, then source id, one for each source |
| SourceLists.ParseSubscription | controller/internal/rules/subscriptions.go:565-589 | a body is accepted exactly when its size is in range and every carrying line is a domain, with at least one; each normalised name appears once |
| SourceLists.CarriesExactly | controller/internal/rules/subscriptions.go:571-575 | a line carries a domain exactly when its trimmed text is not empty and does not begin with a number sign; a carriage return at its end is white space |
| SourceLists.ParsedDomainsAreNormal | controller/internal/rules/subscriptions.go:576-583 | parsed domains are fixed points of normalisation |
| Protocol.EveryRunIsSound | controller/internal/rules/service.go:420-545 | in every run, with lost, late and repeated messages, crashes and a runtime that loses its snapshot or comes back with an older one: at most one active version, the rule table is the active version's list, every version ever active was adopted, ids stay within the counter |
| Protocol.EveryRunStaysInStep | controller/internal/rules/service.go:337-545 | as long as the runtime does not fall back it is at the active version or at a newer row whose recorded predecessor is the active version, and the active version only moves forward |
| Protocol.OnlyFinalizeActivates | controller/internal/rules/service.go:507-519 | no statement but the finalising transaction changes the active version |
| Protocol.ActiveFallsExactlyWhen | controller/internal/rules/service.go:386-388 | in any reachable state a step takes the active version back exactly when it finalises an adopted open candidate below it |
| Protocol.ActivationFollowsTheChain | controller/internal/rules/service.go:467-506 | an activation replaces exactly the recorded predecessor, while the runtime holds the new snapshot |
| Protocol.FinalizeKeepsInStep | controller/internal/rules/service.go:496-545 | finalising an adopted open candidate keeps the whole invariant |
| Protocol.ReservedIdsAreNew | controller/internal/rules/service.go:577-601 | an id above the counter occurs in no stored version |
| Protocol.CounterOnlyGrows | controller/internal/rules/service.go:577-601 | the counter never falls, so an id is reserved at most once |
| Recovery.WedgedForever | controller/internal/rules/service.go:383-385 | as long as the runtime does not fall back, a wedged pair stays wedged: neither the runtime nor the active version ever moves again |
| Recovery.WedgedExactlyWhenFailedLanded | controller/internal/rules/service.go:383-385 | in step, the pair is wedged exactly when the runtime holds a candidate marked failed |
| Recovery.RecoverableExactlyWhenNotFailed | controller/internal/rules/service.go:337-419 | in step, some continuation without a fall back brings runtime and controller together exactly when the runtime does not hold a failed candidate |
| Recovery.RecoverableExactlyWhenChained | controller/internal/rules/service.go:337-419 | in every reachable state, after a fall back too: they can come together exactly when messages already sent lead the runtime, one after the other, to the active version, to an open candidate or to the predecessor of a candidate still to be sent |
| Recovery.FailedCandidateCanLand | controller/internal/rules/service.go:478-480 | a run in which a candidate written off as not applied is adopted afterwards |
| Recovery.ActiveCanGoBackAfterLoss | controller/internal/rules/service.go:384-394 | a run in which, after snapshot loss, finalising an old candidate takes the active version back |
| Recovery.RepublishBelowActiveIsRefused | controller/internal/rules/service.go:386-394 | the runtime takes up a republished candidate exactly when it is at the active version, so a runtime below it refuses |
| Publication.ReadBack | controller/internal/rules/service.go:79-105 | the list read back is clean, known and is the visible part of the table |
| Publication.RepublishKeepsVisible | controller/internal/rules/service.go:386-394 | republishing the list as read drops exactly the hidden rows |
| Publication.RuleSurvivesExactlyWhenVisible | controller/internal/rules/service.go:77-81 | a stored rule survives the next publish of the table, unchanged, exactly when its source is not LIKE 'subscription:%', that is, does not begin with subscription: in any case |
| Publication.MixedCaseSourceSlipsThrough | controller/internal/rules/service.go:693 | a source is a subscription source for the mutations exactly when it matches the pattern and the prefix has this very case, so a capitalised one slips through |
| Publication.PublishedAppend | controller/internal/rules/service.go:106-133 | publishing the list with new rules keeps the visible rows and adds the normalised new ones |
| Publication.PublishedReplace | controller/internal/rules/service.go:134-172 | publishing the list with one rule replaced changes that row only |
| Publication.PublishedBatch | controller/internal/rules/service.go:248-303 | publishing the batch list applies the operation to the selected rows and to no others |
| RuleService.RuleService.Reachable | controller/internal/rules/service.go:62-68 | every state the service object reaches is a reachable state of the protocol, including runs in which the runtime falls back |
| RuleService.RuleService.CallApply | controller/internal/rules/service.go:466 | a success means the runtime held the candidate during the call; without late arrivals the call succeeds exactly when the expected version is the runtime's; other messages, a copy of the call's own among them, may arrive before it does |
| RuleService.RuleService.FinalizeWithRules | controller/internal/rules/service.go:507-545 | the transaction activates the version and installs its list, or leaves everything unchanged when an insert fails |
| RuleService.RuleService.SettleUnknown | controller/internal/rules/service.go:467-483 | without an answer: activate exactly on seeing the candidate, fail exactly on seeing its predecessor, otherwise stay unknown; what was seen the runtime really held |
| RuleService.RuleService.Settle | controller/internal/rules/service.go:455-493 | a recorded candidate ends active, failed under the code that fits the calls, or unknown; on success the runtime held it; never-sent candidates are those that failed validation |
| RuleService.RuleService.Publish | controller/internal/rules/service.go:420-495 | a candidate is recorded exactly when every enabled route source is bound, the list is accepted and its route rules name enabled groups of the registry read; its row carries exactly the enabled rules of the normalised list column by column, one set for each enabled source, and its version, predecessor, time and origin; the older rows stay, the active one superseded on success; it is settled as above, and becomes active when the runtime is in step and the calls work |
| RuleService.RuleService.PublishCurrent | controller/internal/rules/service.go:386-394 | republishing the table: on success the candidate is exactly what the tables produce, every enabled row with its columns and every source with its set, and the runtime held it, and holds it still unless it has fallen back |
| RuleService.RuleService.FinishCandidate | controller/internal/rules/service.go:347-373 | an open candidate the runtime holds is activated, and published once more exactly when the sources have moved on |
| RuleService.RuleService.ReconcileActive | controller/internal/rules/service.go:374-418 | a runtime without an open candidate: ahead is an error, behind or with changed sources republishes, the active snapshot with unchanged sources stays; the active version does not fall |
| RuleService.RuleService.Reconcile | controller/internal/rules/service.go:337-419 | without an error the content the runtime was last seen with is what the rule table and the sources produce, also after the runtime has fallen back; a failed candidate in the runtime is an error; the active version falls on the way exactly when the runtime holds an open candidate below it and the sources can be read, and stays fallen exactly when no republish succeeds after it |
| RuleService.RuleService.ReserveRuleIds | controller/internal/rules/service.go:577-601 | a contiguous range directly above the counter, spent whether or not a publish follows |
| RuleService.RuleService.ValidateRouteWrite | controller/internal/rules/service.go:797-813 | accepts exactly the lists whose route rules all name the version of the registry that was read and a group enabled in it |
| RuleService.RuleService.Create | controller/internal/rules/service.go:106-133 | on success the table holds, under a fresh id, a row with the caller's columns in normal form, source manual unless one is given, and the clock's time, beside the visible rows as they were; on an error it is unchanged; when it gets through is exact |
| RuleService.RuleService.Update | controller/internal/rules/service.go:134-172 | on success only the addressed visible row changes: id and creation time stay, the time moves on, the other columns are the patch's in normal form, the source the patch's unless empty; refused exactly when the row is missing, managed or stale, or a check fails |
| Outcomes.StaleUpdateIsRefused | controller/internal/rules/service.go:150-159 | of two updates made from the same version of a rule the second is refused |
| Outcomes.UpdatedStaysVisibleExactlyWhen | controller/internal/rules/service.go:149-163 | an updated rule stays visible to the next mutation exactly when the patch keeps its source or names one that is not LIKE 'subscription:%' |
| RuleService.RuleService.ReplaceRule | controller/internal/rules/service.go:145-167 | the replace loop puts the patch in the place of the one rule with the id, column by column, with its id, its creation time and a later time, and leaves the others; or reports why not |
| RuleService.RuleService.Delete | controller/internal/rules/service.go:173-198 | on success the addressed visible row is gone, and the other visible rows are as they were |
| RuleService.RuleService.SelectRules | controller/internal/rules/service.go:258-290 | the batch loop succeeds exactly when every selected id is listed, none is managed and the operation is supported |
| RuleService.RuleService.Batch | controller/internal/rules/service.go:248-303 | on success exactly the selected rows are switched on or off, in that column alone, or gone; the other visible rows are as they were; selected route rules only under the named registry version and towards its enabled groups |
| RuleService.RuleService.Import | controller/internal/rules/service.go:304-334 | on success each incoming rule has a row under the next ids with its columns in normal form, source import unless one is given, and the clock's time, beside the visible rows as they were; the ids are spent exactly when the route check let the list through |
| RuleService.RuleService.Rollback | controller/internal/rules/service.go:199-219 | on success the table equals the old version's list under a strictly newer version number |
| Outcomes.ObservedContentConverges | controller/internal/rules/service.go:399-418 | the active snapshot is what the table and the sources produce once its sets agree with theirs |
| Outcomes.ActiveCarriesTable | controller/internal/rules/service.go:507-545 | in every reachable state the snapshot of the active version carries exactly the enabled rows of the rule table, column by column |
| Outcomes.RouteTargetsExactly | controller/internal/rules/service.go:815-841 | the check of the targets passes exactly when every route rule, enabled or not, names an enabled group of the registry read, in the version the caller expects if one is named |
| Outcomes.PreparableExactly | controller/internal/rules/service.go:420-447 | when a publish may record a candidate, in terms of the sources, the list and the registry |
| Subscriptions.RestoreUndoesEdit | controller/internal/rules/subscriptions.go:136-472 | each restore is an exact inverse of its edit on the full source and binding rows, ids and timestamps included |
| Subscriptions.HalfRestored | controller/internal/rules/subscriptions.go:324-331 | only restoring a bound source takes two statements; between them the source is back without its binding |
| Subscriptions.HalfRestoredStopsPublishing | controller/internal/rules/subscriptions.go:324-331 | half restored, the sets cannot be read exactly when they could not be before the edit or the source is an enabled route source; then no publish records and no reconcile succeeds |
| Subscriptions.DeleteEndsHalfExactlyWhen | controller/internal/rules/subscriptions.go:324-345 | a compensated deletion of a bound source ends half restored exactly when one of the two statements was made |
| Subscriptions.DeleteStopsHalfway | controller/internal/rules/subscriptions.go:324-345 | such a run, for every bound source of any tables |
| Subscriptions.CrashLeavesAllowed | controller/internal/rules/subscriptions.go:136-345 | wherever the controller stops, the source tables are in the pre-state, the post-state or that half-restored state |
| Subscriptions.CompensationMeansNotAdopted | controller/internal/rules/subscriptions.go:477-496 | when the restore runs on a status that was read, the runtime does not hold the candidate, and in step it has never adopted it |
| Subscriptions.CompensatesExactly | controller/internal/rules/subscriptions.go:477-496 | for a candidate a publish left failed or unknown the restore runs exactly when the runtime is not seen holding it, and either it failed for another reason than an unreadable answer or the runtime is seen at its predecessor |
| Subscriptions.AdoptedIsRestored | controller/internal/rules/subscriptions.go:488-494 | a run in which the runtime adopts the candidate, falls back, and the restore runs on it |
| Subscriptions.RestoreMutation | controller/internal/rules/subscriptions.go:477-496 | the restore runs exactly when nothing was recorded, or the runtime is not seen holding the candidate and it failed before Apply or the predecessor is seen; otherwise the change is kept and the outcome unknown |
| Subscriptions.Commit | controller/internal/rules/subscriptions.go:172-192 | the common course of the five edits: no error means post-state, active candidate and a candidate that is what the tables produce and that the runtime held; on an error the tables are those after the edit and the statements of the restore that were made, which is the pre-state once it is complete; a complete restore leaves an unknown error exactly when validation itself gave no answer, or Apply gave none, the status after it settled nothing and the status before the restore shows the version that was active |
| Subscriptions.UnknownIsRestored | controller/internal/rules/subscriptions.go:477-496 | both cases happen, for every edit of any source tables: a run with an unknown cause on which the restore runs and puts back every row |
| Subscriptions.ChangesShow | controller/internal/rules/subscriptions.go:136-472 | an edit leaves the tables as they were exactly when it writes the values that are there |
| Subscriptions.CreateSubscription | controller/internal/rules/subscriptions.go:136-193 | that outcome for creation, attempted exactly when binding and constraints are valid; on success the source stands under the next id with the caller's columns, the content and the binding, and its set is published |
| Subscriptions.RefreshSubscription | controller/internal/rules/subscriptions.go:213-265 | that outcome for a refresh with new content; on success the row has its address, checksum, domains and their number, no error and one later time, everything else is as before, and the published set has those domains; unchanged content writes address, check time and error only; a row changed since it was read is refused |
| Subscriptions.SetSubscriptionEnabled | controller/internal/rules/subscriptions.go:267-306 | that outcome for switching, attempted exactly when the flag differs; on success the flag and the time are all that changed, and a set is published exactly when the source is enabled and not empty |
| Subscriptions.DeleteSubscription | controller/internal/rules/subscriptions.go:308-345 | that outcome for deletion, attempted exactly when the source exists; on success source and binding are gone, all others are as before, and no set of it is published |
| Subscriptions.UpdateSubscriptionBinding | controller/internal/rules/subscriptions.go:431-472 | that outcome for rebinding, attempted exactly when the target is valid and differs; on success group, priority and time of the binding are all that changed, and the published set has them |
| Subscriptions.BindingExactly | controller/internal/rules/subscriptions.go:511-547 | a binding is valid exactly with a priority of 0 to 1000 and an enabled group of the registry version the caller names |
| Subscriptions.InputBindingExactly | controller/internal/rules/subscriptions.go:498-509 | an access source names no binding at all, any other one a whole one that is valid |
| UpstreamRegistry.ValidRegistrySnapshot | controller/internal/mosdnsclient/client.go:339-358 | the check on a received registry accepts exactly the well-formed ones of the expected version |
| UpstreamRegistry.ValidAppliedRegistry | controller/internal/operations/service.go:587-605 | the check after an unknown outcome looks at the groups up to the default one only |
| UpstreamRegistry.AppliedCheckIsWeaker | controller/internal/operations/service.go:577-581 | it accepts every well-formed registry, and one with a repeated id behind the default group too |
| UpstreamRegistry.AdoptedIsWellFormed | controller/internal/operations/service.go:639-724 | every edit keeps ids unique and named and the default group present and enabled, and none takes the registry above 32 groups |
| UpstreamRegistry.DesiredExactly | controller/internal/operations/service.go:639-724 | when each edit is allowed: room and a fresh id of the pattern for a new group; a group that is there, and the default one neither disabled nor removed; a default group that is there and enabled |
| UpstreamRegistry.DesiredIsMade | controller/internal/operations/service.go:639-724 | what each edit writes: the group appended, put in the place of the one with its id, or taken out, or the settings, and nothing else; the version goes up by one |
| UpstreamRegistry.GroupIdExactly | controller/internal/operations/service.go:29 | an id is one to 64 lower-case letters, digits, underscores and hyphens, beginning with a letter or digit |
| UpstreamRegistry.GroupIdsAreTrimmed | controller/internal/operations/service.go:29 | an id of the pattern is its own trimmed lower-case form, so the trimmed name in a rule or a binding can be it |
| UpstreamRegistry.OthersStayEnabled | controller/internal/operations/service.go:662-724 | an update or deletion disables or removes no group but its own, and the other writers none |
| UpstreamRegistry.ThreatenedIsGone | controller/internal/operations/service.go:662-724 | the group an update disables or a deletion removes is enabled no more |
| UpstreamRegistry.EveryRunIsSequential | controller/internal/operations/service.go:556-585 | in every interleaving of unlocked writers the registry at each version is the adopted edits applied in version order |
| UpstreamRegistry.VersionsAreFinal | controller/internal/operations/service.go:570-585 | whatever a writer may have read is the edits' prefix up to that version, for good |
| UpstreamService.UpstreamService.ApplyRegistry | controller/internal/operations/service.go:570-585 | the registry afterwards is that after all the events around the call; a call that reaches the runtime lands exactly when the version is still the one read; an answered call succeeds exactly when it landed, an unknown one exactly when the version afterwards is the next one; and a success is this edit exactly when this edit replaced the registry read |
| UpstreamService.UnknownSuccessMayBeAnothers | controller/internal/operations/service.go:577-581 | a run in which that was another writer's edit |
| UpstreamService.UnknownSuccessIsOwnExactlyWhen | controller/internal/operations/service.go:577-581 | a success after an unknown outcome is this edit exactly when, with the answer lost, no other edit of the same registry landed before the call, and with the call delayed, it is the first edit of that registry to land |
| UpstreamService.LandingsAround | controller/internal/operations/service.go:570-585 | the requests that land around a call, in order: those before it, its own exactly when none of them did, and those after it |
| UpstreamRegistry.FirstLandingReplaces | controller/internal/operations/service.go:570-585 | what replaces a registry is the first request made from it that lands |
| UpstreamService.UpstreamService.CreateUpstreamGroup | controller/internal/operations/service.go:639-660 | refused without effect unless version, limit, id pattern and uniqueness allow it; otherwise the group is appended and nothing else changes |
| UpstreamService.UpstreamService.UpdateUpstreamGroup | controller/internal/operations/service.go:662-695 | the default group is never disabled, and an enabled group only when no reference was found; an answered success has the group in the place of the one with its id, and the other groups and the settings as before |
| UpstreamService.UpstreamService.DeleteUpstreamGroup | controller/internal/operations/service.go:697-724 | only an unreferenced group that is not the default leaves the registry; the others and the settings stay |
| UpstreamService.UpstreamService.UpdateSettings | controller/internal/operations/service.go:424-445 | the default must be an enabled group; an answered success has the default, cache and protection asked for, and the groups as before |
| UpstreamService.UpstreamService.SyncSettings | controller/internal/operations/service.go:358-377 | the same for the start-up synchronisation, which names no expected version and keeps the protection |
| References.LiveSnapshotsName | controller/internal/operations/service.go:726-758 | the snapshot loops find a group exactly when an active, pending or unknown snapshot names it |
| References.GroupReferenced | controller/internal/operations/service.go:726-758 | the reference check answers yes exactly when a binding, a route rule of the table, enabled or not, or a live snapshot names the group |
| References.LiveNamesExactlyWhen | controller/internal/operations/service.go:736-758 | in every reachable state that query finds a group exactly when an enabled stored rule, or a set, of a live version names it |
| References.RuleProtectsExactlyWhenEnabled | controller/internal/operations/service.go:726-758 | a rule of a live version makes the reference check refuse its group exactly when the rule is enabled or something else names the group |
| References.EveryRunIsSafe | controller/internal/coordination/coordination.go:6-10 | in every interleaving every binding, and every route rule and set of an active, pending or unknown snapshot, names a group that the registry has and that is enabled, as long as registry calls are decided before their writer lets go |
| References.ActKeepsSafe | controller/internal/operations/service.go:662-724 | each single step keeps that, with reconciling holding one lock only and the reference check split in two queries |
| References.TableWithin | controller/internal/rules/service.go:386-394 | the enabled rules a reconcile republishes are in the active snapshot, so they name what it names |
| References.ValidatedTargetsAreEnabled | controller/internal/rules/service.go:815-841 | a publish that passed the target check carries only enabled groups, compared as stored |
| References.EditBindsOnlyKnownGroups | controller/internal/rules/subscriptions.go:136-472 | a subscription edit and every statement of its restore bind only groups bound before or the validated one |
| References.MutationIsJoint | controller/internal/coordination/coordination.go:6-10 | a run of the publish protocol that makes a mutation's checks is a run of the joint machine |
| References.RuleMutationIsJoint | controller/internal/rules/service.go:106-219 | the trace of a rule mutation of the service, by what its contract says of it, is such a run |
| References.SubscriptionEditIsJoint | controller/internal/rules/subscriptions.go:136-472 | so is that of a subscription edit: first its write, then, after the groups were read again, the publish and the restore |
| References.LandingIsAction | controller/internal/operations/service.go:570-585 | an adopted registry call is an action of the joint machine, whoever made it |
| References.LateCallStrandsBinding | controller/internal/operations/service.go:570-585 | a run in which a deletion landing after its lock was released leaves a binding without a group |
| References.LateCallStrandsExactlyWhen | controller/internal/operations/service.go:570-585 | a call that lands late strands a binding exactly when a binding names the group it takes away, and a live snapshot exactly when one of its route rules or sets does |
| References.EveryRunIsVersioned | controller/internal/operations/service.go:570-585 | in every interleaving, late landings included, what was read of the registry at its present version is the present registry, and it is well formed |
| References.DisabledRuleIsUnprotected | controller/internal/rules/service.go:604-608 | a run of the joint machine, every call decided: a disabled rule of an unknown candidate passes both reference queries, its group is deleted, and once the candidate is finalised every publish fails on it |
| Client.Request | controller/internal/mosdnsclient/client.go:371-429 | a write is done, conflict or rejected only on the matching answer and unknown in every other case; a read is never unknown |
| Client.WritesExactly | controller/internal/mosdnsclient/client.go:372 | every call but GET and HEAD is a write, and so is one whose path ends in /flush |
| Events.CheckEvent | controller/internal/queryingest/service.go:255-275 | validateEvent's checks in their order accept exactly the events within the ranges and limits |
| Ingest.CheckBatch | controller/internal/queryingest/service.go:244-254 | a batch is valid exactly with a known schema, a sender, a time, one to 500 events, and each of them valid |
| Ingest.IngestService.Enqueue | controller/internal/queryingest/service.go:216-240 | a valid batch enters whole exactly when it fits at the check, whatever the writer drains meanwhile; the queue never exceeds its capacity |
| Ingest.IngestService.Write | controller/internal/queryingest/service.go:300-338 | one turn of the writer keeps accepted = flushed + buffered + queued, in order, and the record of the store |
| Ingest.IngestService.Finish | controller/internal/queryingest/service.go:321-336 | shutdown drains and flushes everything accepted |
| Ingest.IngestService.Conservation | controller/internal/queryingest/service.go:300-338 | accepted = queued + buffered + newly stored + duplicates + dropped, where a duplicate is an event whose id the store held before the flush or that stands earlier in the batch; every stored row is the one published under its id, and what was published since the last clear are the rows of the store's log |
| Ingest.FreshOrDuplicate | controller/internal/queryingest/service.go:350-366 | each event of a batch is inserted or is a duplicate, and none is both |
| Ingest.FlushedIsAccountedFor | controller/internal/queryingest/service.go:300-338 | over any history of flushes, clears and retentions the flushed events are the stored rows, the duplicates and the dropped ones |
| Ingest.StoredRowsWerePublished | controller/internal/queryingest/service.go:309-312 | a row in the store is the row that was published under its id |
| Ingest.IngestService.ClearHistory | controller/internal/operations/service.go:615-630 | a clear beside the writer keeps the account, and the queue keeps what it holds |
| Ingest.IngestService.Maintain | controller/internal/queryingest/service.go:804-833 | so does a retention |
| EventStore.EventStore.Persist | controller/internal/queryingest/service.go:340-385 | either nothing changes, or exactly the events not stored yet are stored and counted, once each and in order; each row holds its event column by column, and its class is policy_block, processing_error, negative_answer or success exactly by the row's own route, error texts, response code and answer count |
| EventStore.ResendAddsNothing | controller/internal/queryingest/service.go:350-366 | a batch sent again adds nothing |
| EventStore.FreshIsDistinct | controller/internal/queryingest/service.go:350-366 | what a batch inserts has distinct unknown ids and covers every id of the batch |
| EventStore.EventStore.ClearQueryHistory | controller/internal/operations/service.go:615-630 | clears the raw table and all six hourly tables together, or nothing |
| EventStore.EventStore.Retain | controller/internal/queryingest/service.go:804-833 | each of the six hourly tables loses the hours before its cut-off, then the raw rows older than theirs go and, if the database is too large, the oldest ones; no other row does; a failing statement ends it and what came before stays |
| EventStore.RetentionKeepsHours | controller/internal/queryingest/service.go:811-818 | a complete retention leaves each table exactly the hours from its own cut-off on, counted as before: 90 days for client-domain, one year for the others |
| EventStore.EventStore.CountedOnce | controller/internal/queryingest/service.go:387-388 | while no raw row was deleted, no event id was counted twice |
| Aggregates.Aggregate | controller/internal/queryingest/service.go:388-426 | the six upserts keep every hourly table equal to its recomputation from the events it still counts |
| Aggregates.GlobalRowCounts | controller/internal/queryingest/service.go:388-406 | a row of the global table counts the kept events of its hour, route, query type and response code: all, cache hits, and each class by the events' own columns; its latencies are the sum and the maximum of theirs |
| Aggregates.DomainRowCounts | controller/internal/queryingest/service.go:388-396 | a row of the domain table counts the kept events of its hour, name and route: all, cache hits and errors, and sums their latencies |
| Aggregates.ClientRowCounts | controller/internal/queryingest/service.go:388-396 | a row of the client table likewise, by client |
| Aggregates.PairRowCounts | controller/internal/queryingest/service.go:388-396 | a row of the client-domain table counts the kept events of its hour, client, name and route |
| Aggregates.GroupRowCounts | controller/internal/queryingest/service.go:408-415 | a row of the group table counts the kept events of its hour that name the group: all, cache hits and errors, with sum and maximum of their latencies |
| Aggregates.BucketRowCounts | controller/internal/queryingest/service.go:417-426 | a row of the latency table counts the kept events of its hour above the bound before and not above its own, unless it is the last |
| Aggregates.UpsertMirrors | controller/internal/queryingest/service.go:388-416 | upserting the enlarged summary under the event's key keeps any such table |
| Aggregates.Trim | controller/internal/queryingest/service.go:811-818 | trimming one table by whole hours keeps all six equal to their recomputations |
| Aggregates.TrimMirrors | controller/internal/queryingest/service.go:815 | deleting the hours before a time leaves the recomputation from the events of the hours kept |
| Aggregates.MirrorsDecide | controller/internal/queryingest/service.go:388-426 | the log decides a table: two recomputations agree |
| Aggregates.TableCounts | controller/internal/queryingest/service.go:388-426 | the counts of a table's rows add up to the number of events behind them, for any test on the key |
| Aggregates.KeptCount | controller/internal/queryingest/service.go:811-818 | for any test, a table has lost events that pass it exactly when one of them was counted before its hour was trimmed |
| Aggregates.HourCountsAgree | controller/internal/queryingest/service.go:388-426 | for every hour each of the global, domain, client, client-domain and latency tables counts all queries that arrived in it exactly when none of them was trimmed from that table; the group table likewise those with a group |
| Aggregates.GlobalRowsAreSound | controller/internal/queryingest/service.go:397-406 | count at least one, the four classes add up to it, errors are the processing errors, latency sum at most count times maximum |
| Aggregates.GroupRowsAreSound | controller/internal/queryingest/service.go:408-415 | the same bounds for the group table |
| Events.FindBucket | controller/internal/queryingest/service.go:417-424 | the bucket loop finds the first bound not exceeded, or the last |
| Events.BucketAtMost | controller/internal/queryingest/service.go:417-424 | below the last bound a bucket is exactly an upper bound on the latency |
| Percentile.TargetIsCeiling | controller/internal/queryingest/service.go:729 | in exact arithmetic the target is the ceiling of 0.95 n |
| Percentile.RankOfSorted | controller/internal/queryingest/service.go:707-738 | the nearest rank used as reference: for any list, its value of rank r is the r-th value of the list sorted, and no other |
| Percentile.RankExists | controller/internal/queryingest/service.go:707-738 | every list has exactly one value of each rank from 1 to its length |
| Percentile.RecentIsKept | controller/internal/queryingest/service.go:811-818 | as long as retention stays behind the window, the latencies the table speaks of are all that arrived in it |
| Percentile.LatencyPercentile | controller/internal/queryingest/service.go:707-738 | with samples the scan always finds a row, the nearest-rank 95th percentile of the raw latencies exists, and the bound is its bucket |
| QueryFilter.EscapedMatchesItself | controller/internal/queryingest/service.go:644-646 | an escaped text matches itself and nothing else under LIKE, whatever percent, underscore and backslash it holds |
| QueryFilter.EscapingIsNeeded | controller/internal/queryingest/service.go:644-646 | without escaping, an underscore would match any one character and a percent sign any text |
| QueryFilter.LikeIsContains | controller/internal/queryingest/service.go:634-640 | percent, escaped value, percent matches exactly the texts that contain the value, up to the case of ASCII letters |
| QueryFilter.QueryConditions | controller/internal/queryingest/service.go:562-642 | accepts exactly the valid queries, adds the conditions in order, and they select exactly the rows the query asks for |
| QueryFilter.KnownClassesOccur | controller/internal/queryingest/service.go:580 | the result classes a query may ask for are exactly those events can have |
| QueryFilter.FiltersAgree | controller/internal/queryingest/service.go:648-665 | on every accepted event a query, unless it is a contains query with a capital, passes the live test exactly when all SQL conditions hold on the stored row; exact queries agree whatever their letters |
| QueryFilter.FiltersDiffer | controller/internal/queryingest/service.go:648-665 | on every accepted event the two filters differ exactly when the query is a contains query with a capital, the name contains its text up to case and the rest of the query fits; then SQL selects and the stream does not |
| QueryFilter.NameTestsAgree | controller/internal/queryingest/service.go:634-640 | the two name tests agree on every name without capitals exactly when the query is not a contains query with a capital |
| QueryFilter.UpperCaseBreaksAgreement | controller/internal/queryingest/service.go:660-662 | for every text with a capital that fits in a name and does not end in a dot there are an accepted query and an accepted event which the SQL conditions select and the live test refuses |
| Paging.ReadPage | controller/internal/queryingest/service.go:516-560 | a page is the first rows of the listing behind the cursor, with a cursor exactly when more remain |
| Paging.ListingIs | controller/internal/queryingest/service.go:533 | the listing is the matching rows behind the cursor, in strict order |
| Paging.ListingIsNewestFirst | controller/internal/queryingest/service.go:526-533 | a later time comes first, then the larger id; with a cursor, exactly its own row and those before it are left out |
| Paging.WalkIsListing | controller/internal/queryingest/service.go:516-560 | on an unchanged table following the cursor strings yields exactly the listing, each row once, in as many pages as its length needs |
| Paging.EveryTableIsWalked | controller/internal/queryingest/service.go:516-560 | there is such a walk for every table with unique positive ids: every cursor given out is accepted, and the walk ends within the number of pages the listing needs |
| Paging.WalkIsByPlace | controller/internal/queryingest/service.go:666-684 | walking by cursor strings is walking by the places they stand for |
| Paging.WalkIsComplete | controller/internal/queryingest/service.go:526-532 | rows inserted meanwhile cause no repeat and no loss of a row that was there at the start |
| Paging.Queries | controller/internal/queryingest/service.go:516-560 | an empty cursor starts the listing, a bad one is an error, a good one continues it, and the cursor given back stands for the last row exactly when more rows remain |
| Paging.AuditLogs | controller/internal/operations/service.go:180-222 | the audit log's own pager gives the same answers, over every row |
| Paging.CursorRoundTrip | controller/internal/queryingest/service.go:666-684 | a cursor survives encoding and decoding exactly when its timestamp is at least 0 and its id at least 1 |
| Fanout.Hub.Subscribe | controller/internal/queryingest/service.go:449-469 | a valid query opens a channel that starts at the present, an invalid one is refused |
| Fanout.Hub.Offer | controller/internal/queryingest/service.go:476-485 | a matching event is handed over, or the channel is closed when its buffer is full |
| Fanout.Hub.PublishOne | controller/internal/queryingest/service.go:470-488 | every connected subscriber has been handed exactly the matching events since it subscribed; exactly the full ones that match are cut off |
| Fanout.Hub.Unsubscribe | controller/internal/queryingest/service.go:460-468 | a subscriber's own close is harmless after it was cut off |
| Fanout.Hub.Shutdown | controller/internal/queryingest/service.go:863-872 | closes every remaining channel, each once |
| Fanout.Channel.Receive | controller/internal/queryingest/service.go:453-459 | the reader takes the oldest buffered event; a closed channel can still be drained |
| Fanout.Channel.Close | controller/internal/queryingest/service.go:481-482 | a channel is closed at most once |
| Fanout.CutOffIsPrefix | controller/internal/queryingest/service.go:470-488 | a cut-off subscriber was handed a prefix of what it would have got |
| Live.QueryService.Turn | controller/internal/queryingest/service.go:300-320 | a flush that commits publishes exactly its rows: what the hub has published is what the store took, in order |
| Live.QueryService.Enqueue | controller/internal/queryingest/service.go:216-240 | the same while a batch enters |
| Live.QueryService.SubscribersSeeTheStore | controller/internal/queryingest/service.go:470-488 | an open subscription has been handed exactly the stored rows that match it, from its opening on |
| Diagnostics.Cache.Add | controller/internal/queryingest/service.go:490-507 | inserting refines a bounded first-in first-out cache: a present id changes nothing, an overflow evicts exactly the oldest |
| Diagnostics.Cache.AddAll | controller/internal/queryingest/service.go:490-507 | the loop over a batch refines the same specification event by event |
| Diagnostics.StaysBounded | controller/internal/queryingest/service.go:490-507 | the cache never repeats an id and never exceeds 1024 entries |
| Diagnostics.Cache.ShiftDown | controller/internal/queryingest/service.go:502-503 | the in-place copy moves every element one place down |
| Diagnostics.Cache.KeysAreOrder | controller/internal/queryingest/service.go:490-507 | the map's keys are the elements of the order list, which repeats none |
| Diagnostics.Cache.Lookup | controller/internal/queryingest/service.go:509-514 | returns the entry exactly while it is kept |
| Diagnostics.KeepsTheNewest | controller/internal/queryingest/service.go:499-504 | of distinct insertions the newest 1024 are kept, in order |

## Left out

- RuleService.RuleService.FinalizeWithRules: an I/O error of the transaction itself is not modelled; it would leave the candidate open, as a crash before it does.
- RuleService.RuleService.SetRowStatus: a database error of the statements that mark a candidate unknown or failed, such as a cancelled context, is not modelled; the row would keep its status, as after a crash before the statement.
- Subscriptions.RestoreMutation: a database error while the candidate's row is read, which keeps the change and reports it as unknown, is not modelled.
- RuleService.RuleService.Create: audit rows, the administrator id and the request id are not stored.
- RuleService.RuleService.Import: each rule takes its own time stamp from a clock parameter; nothing is said about the clock.
- RuleService.RuleService.Delete: rules are a value here, so the reuse of the slice's backing array by the filtering loops of Delete and Batch is not modelled.
- Validation.NormalizeIsIdempotent: lower-casing is that of the ASCII letters; letters beyond ASCII are left to the IDNA hypothesis.
- Subscriptions.RefreshSubscription: the download, and the bookkeeping write after a failed download, come before the modelled part.
- Subscriptions.CreateSubscription: the ranges of name length and URL form are checked before the modelled part.
- Subscriptions.RestoreUndoesEdit: AUTOINCREMENT counters keep the numbers that were spent.
- References.EveryRunIsSafe: taking the bindings lock and the mutex is one step; requires registry calls to be decided before their writer lets go.
- References.RuleMutationIsJoint: for the rule mutations, and with `References.SubscriptionEditIsJoint` for the subscription edits; the trace of a reconcile is not joined to the joint machine in this way.
- UpstreamService.UpstreamService.UpdateSettings: range checks, retention, the address-family plugin, cache flushing and the persisted settings are plumbing around the registry edit.
- UpstreamService.UpstreamService.CreateUpstreamGroup: a registry is a value here, so the deep copy the source makes before editing is not needed.
- Ingest.IngestService.Enqueue: events sent after shutdown has begun are not modelled; metrics are left out.
- Ingest.CheckBatch: an event's own schema version, its query class, snapshot version, rule and binding ids, minimum TTL and answer diagnostics are not columns of the model, so their ranges are not checked.
- EventStore.EventStore.Persist: the devices table and the last-ingest marker are not stored; sums are unbounded integers where the columns hold 64 bits.
- EventStore.EventStore.Retain: the cut-offs computed from the clock and the settings, whether the database is too large, and which of equally old rows count as the oldest, are parameters; the audit log it trims too is not stored.
- Percentile.TargetIsCeiling: the target is computed over reals; floating-point rounding is not modelled.
- QueryFilter.FiltersAgree: the case rule of LIKE is that of ASCII letters, and accepted names are lower-case in that sense.
- Paging.CursorRoundTrip: base64url (section 5 of RFC 4648) is an opaque pair of functions under `SoundCodec`.
- Paging.EveryTableIsWalked: for an unchanged table; a client that pages while older rows keep being added may go on as long as they are.
- Live.QueryService.Enqueue: what is flushed while a batch enters is published after the batch, not between its pushes; the order of the rows is the same.
- Fanout.Hub.PublishOne: subscribers are offered an event in the order of their ids; the source's map order is arbitrary and makes no difference to any one of them.
- HTTP handlers, JSON, TLS, tokens, the login limiter, sessions, device edits, cache flushing, the web interface, deployment and schema migration: plumbing, or easy.
- Integer widths of versions, ids, priorities and time stamps: unbounded here; none of the properties depends on a wrap-around.
