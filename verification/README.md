# Verified model of aslan-core's delivery, storage and scrubbing logic

This project models the parts of aslan-core whose correctness does not show in any single function, and proves what
they promise. Three groups:

* **Stream delivery.** Failed messages are routed to `<stream>.deadletter` by a protocol that spans Postgres and Redis
  with no common commit. `Deadletter.dfy` is that protocol as a state machine: one event per database transaction and
  one per Redis command, any number of routing calls, a janitor whose index reads may be out of date when it writes,
  other writers, and a crash between any two events. `LogRows`, `Agreement`, `FailStop`, `CanonicalEntry` and
  `IntentCoverage` prove its invariants over every run; `AgreementExactness`, `CanonicalExactness` and the end of
  `IntentCoverage` prove exactly which hypotheses they need, with the breaking runs built in `Witnesses`.
  `RoutingCalls` says what one call does: the reads behind its steps in every run, its effect when undisturbed, and that
  it can always end. `Acknowledgement` composes the protocol with the consumer, and `Consumption` proves that its checks
  decide and that no message is ever stuck. `StreamScan` holds the paged walks, `JanitorPasses` the
  janitor's sequential code, `OutboxDrainer` the outbox.
* **Stores.** `Observations` is the bitemporal writer, `PointInTime` the reader, `Filings` and `FilingBlobs` the document
  store with its revision chains, aliases and blob manifest; `ObjectKeys` builds the bucket keys.
* **Trees and bytes.** `PiiScan`, `PiiSplice` and `PiiScrub` find and replace PII in metadata trees, `PathAssign` is
  Python's assignment along a path, `MetadataKeys` guards the keys, `Redaction` redacts dotted paths, `HashBytes` holds
  the byte strings that are hashed.

Code that updates state in place is a class or a method with loops, proved against a specification function; protocol
interleavings are a transition function over events; read-only queries and recursions are functions.

## Hypotheses that the theorems name

Five hypotheses are fields of `Deadletter.Hypotheses`, so that theorems can say exactly which of them they need:

* **H1, `failStop`**: a routing call whose intent was adopted as stale takes no further step.
* **H2, `quietPass4`**: pass 4 does not reconcile an entry between its writer's XADD and that writer's index commit.
* **H3, `wholePass2`**: no pass-2 transaction rolls back after its XADD landed.
* **H4, `freshWalk`**: an entry that pass 4 indexes is still in the stream. Pass 4 lists a window once and then
  reconciles entry by entry, so without H4 it may act on an entry that its writer has withdrawn meanwhile.
* **H5, `freshReads`**: no index row is committed between the janitor's index read and the write that rests on it.
  Pass 4 (and a re-drive, for a failure whose intent was taken from a live call) reads the index, inserts
  `ON CONFLICT DO NOTHING` and then writes its own id to the log whatever the insert did.

The code enforces none of them. Four equivalences say exactly what each safety property needs, with a breaking run for
every hypothesis that is dropped:

* log and index agree, the index is write-once and step 4 never rolls back iff H5 (`AgreesIffFreshReads`);
* no XDEL ever hits a named entry iff H1, H2 and H5 (`CanonicalSparedIffHypotheses`);
* every index row names a live entry iff H1, H2, H4 and H5 (`CanonicalLiveIffHypotheses`);
* intents cover un-indexed entries iff H1, H3 and H5 (`CoveredIffHypotheses`).

What `LogRows` and `Acknowledgement` prove of the log and of acknowledgements needs none of the five.

## Where code and documentation differ

The model follows the code.

* The lost-race rollback of step 4 (`src/aslan_core/streams/deadletter.py:748-773`) is documented as a normal path. Under
  H5 it cannot be reached (`FinishNeverRollsBack`); without H5 it is reached, and then deletes the index row that was
  right (`DisagreesWithoutFreshReads`).
* The comment at `src/aslan_core/streams/deadletter.py:650-658` calls the XDEL of the conflict branch safe; without H1,
  H2 or H5 it deletes the canonical entry (`LostWithoutFailStop`, `LostWithoutQuietPass4`, `LostWithoutFreshReads`).
* The guard `upper_bound == "0-0"` in the orphan finder never fires, because XADD refuses that id.
* Pass 4 is described as a defence in depth over its window; a failure id that does not parse ends the whole pass, so
  that it settles a covered stream iff no unsettled entry lies behind a garbled one or fails in its own transaction
  (`Pass4SettlesExactly`, with the witness `GarbledLeavesDuplicate`).
* `redact_outbox_payload` documents that dotted paths are replaced; a dict key that parses as an integer, or that holds a
  dot, cannot be named by any path (`NameableExactly`, with the witness `NumericKeyEscapes`), and nothing inside a tuple
  is reached (`ReachExactly`, with the witness `TupleEscapes`).
* `_validate_no_numeric_string_keys` is documented to make `path_to_jsonb_set_text_array` lossless at any nesting depth.
  The guard walks dicts and lists, the lister on the deletion side walks tuples too, and a tuple is stored as a list: a
  numeric key below a tuple passes the guard. `GuardPassesExactly` gives the exact condition, `TupleHidesKey` the input;
  `GuardedPathsFlattenApart` holds for paths that cross no tuple, and `GuardedTuplesCollide` shows two rows that pass
  and whose paths flatten alike.
* The scan descends into tuples, but `_set_at_path` cannot assign into one: scrubbing the findings of a scan raises iff
  some found string lies directly in a tuple (`ScrubInPython`, `FullScrubRaisesExactly`, with the witness
  `TupleStringRaises`). A dict or list below a tuple is scrubbed.
* `scrub_in_python` speaks of non-overlapping matches, but a full scan runs two patterns whose matches may overlap.
  `ArrangedExactly` gives the exact condition under which the scrub is a substitution, `GroupTextIsOverlaid` the text in
  every case, and `OverlapGarbles` a text whose scan overlaps.
* `_set_at_path` documents a `KeyError` or `IndexError` for a path that does not resolve; a missing last dict key is
  inserted instead. `OutcomeExactly` says when it raises, inserts and stores, with the witness `MissingKeyIsInserted`.

## Model

| member | source | states |
|---|---|---|
| `RedisIds.Compare` | src/aslan_core/streams/deadletter.py:143-154 | the result is -1, 0 or 1 exactly as the first id is before, equal to or after the second in stream order |
| `RedisIds.IncrementIsSuccessor` | src/aslan_core/streams/deadletter.py:130-140 | increment is the exact successor in compare order, across the wrap at sequence 2^64-1: an id is above `a` iff it is at least the increment of `a` |
| `StreamScan.PrefixIsPage` | src/aslan_core/streams/deadletter.py:202-208 | a page holds items of the range in order, and what it leaves out of the range lies behind its last item |
| `StreamScan.CursorAdvances` | src/aslan_core/streams/deadletter.py:224-226 | the new cursor lies behind the old one, and every id below it is at most the last id of the page |
| `StreamScan.NextPage` | src/aslan_core/streams/outbox_drainer.py:450-458 | one command of a walk gives a page of the stream as it is then, whatever was appended, trimmed or deleted meanwhile |
| `StreamScan.FindOrphan` | src/aslan_core/streams/deadletter.py:160-228 | for every page size from 1 and any change of the stream meanwhile the walk terminates; an id it returns is a match of the captured stream with no match left below it, and None means that no match is left up to the captured tail |
| `StreamScan.FoundFirstIsFullScan` | src/aslan_core/streams/deadletter.py:173-180 | if nothing captured was deleted meanwhile the answer is the first match of one full scan |
| `StreamScan.FindAll` | src/aslan_core/streams/outbox_drainer.py:430-486 | the same for the reconciler: only matches of the captured stream, in order, and every match that is still there |
| `StreamScan.FoundAllIsFullScan` | src/aslan_core/streams/outbox_drainer.py:413-420 | if nothing captured was deleted meanwhile the answer is all matches of one full scan |
| `StreamScan.FirstFromIsLeast` | src/aslan_core/streams/deadletter.py:173-175 | the answer is the least matching id at or above the bound, and absent iff there is none |
| `StreamScan.AllFromIsComplete` | src/aslan_core/streams/outbox_drainer.py:413-415 | an id is listed iff a matching entry at or above the bound has it |
| `LogRows.StepLogged` | src/aslan_core/streams/deadletter.py:519-803 | every event, with no hypothesis, keeps one log row per message, never changes a recorded id, and keeps what each call knows of the log |
| `LogRows.LogIsWriteOnce` | src/aslan_core/streams/deadletter.py:736-747 | over every run an id recorded in the log by any prefix is there unchanged at the end |
| `LogRows.FinishedCallsAreRouted` | src/aslan_core/streams/deadletter.py:559-562 | a call that returned complete left its message's log row committed with the id it returned, and a reconciled one with some id, with no hypothesis |
| `Agreement.StepSound` | src/aslan_core/streams/deadletter.py:519-803 | under H5 every event keeps: log and index agree, index rows name entries XADDed to that failure's stream with that failure id, one log row per message, ids unique; and nothing recorded changes |
| `Agreement.RunSound` | src/aslan_core/streams/deadletter.py:376-406 | the agreement of log, index and stream history in every run, with every crash and interleaving, under H5 alone |
| `Agreement.RecordsAreWriteOnce` | src/aslan_core/streams/deadletter.py:639-697 | under H5, over every run, an id recorded in log or index by any prefix is recorded unchanged at the end |
| `Agreement.FinishNeverRollsBack` | src/aslan_core/streams/deadletter.py:736-773 | in a state where log and index agree step 4 finds its own id or none in the log, so its XDEL branch is not taken |
| `AgreementExactness.DisagreesWithoutFreshReads` | src/aslan_core/streams/janitor.py:360-439 | without H5 there is a run in which pass 4 leaves log and index naming two entries and step 4 then deletes its index row |
| `AgreementExactness.AgreesIffFreshReads` | src/aslan_core/streams/janitor.py:360-439 | agreement, the unreachable rollback and the write-once index each hold in every run if and only if H5 holds |
| `Agreement.AcquireKeepsSound` | src/aslan_core/streams/deadletter.py:273-469 | the acquisition transaction keeps agreement in all branches; reconciled-by-us leaves the log routed to the indexed id, own leaves log and index alone |
| `Agreement.RedriveKeepsSound` | src/aslan_core/streams/janitor.py:570-612 | the re-drive keeps agreement and ends with log and index naming one id |
| `Agreement.Pass4KeepsSound` | src/aslan_core/streams/janitor.py:358-460 | reconciling any entry that was ever added, with an index read that still holds, keeps the agreement and changes no recorded id |
| `FailStop.RunFenced` | src/aslan_core/streams/deadletter.py:337-364 | under H1 and H5 every call that may still act on an un-indexed failure owns that failure's intent, in every run |
| `FailStop.IntentSurvives` | src/aslan_core/streams/deadletter.py:366-469 | one event removes or re-owns an un-indexed failure's intent only by adoption, which stops all its holders |
| `CanonicalEntry.DeletesOnlySpareEntries` | src/aslan_core/streams/deadletter.py:650-663 | every XDEL site removes only an entry that no index row names and that no call in flight still needs |
| `CanonicalEntry.NewRowSparesOwnEntries` | src/aslan_core/streams/janitor.py:422-431 | under H1, H2 and H5 a new index row never names the entry of a call that may still delete it |
| `CanonicalEntry.RunSpared` | src/aslan_core/streams/deadletter.py:635-697 | under H1, H2 and H5, in every run, no active call can delete the entry that its failure's index row names |
| `CanonicalEntry.RunGuarded` | src/aslan_core/streams/deadletter.py:635-697 | under H1, H2, H4 and H5 every index row of every reachable state names a live entry |
| `CanonicalExactness.CanonicalNeverDeleted` | src/aslan_core/streams/deadletter.py:748-773 | under H1, H2, H4 and H5, an entry once named by an index row is in the stream, and still named, in every later state of the run |
| `CanonicalExactness.LostWithoutQuietPass4` | src/aslan_core/streams/janitor.py:360-439 | without H2 there is a run in which the conflict branch deletes the entry that pass 4 indexed |
| `CanonicalExactness.LostWithoutFailStop` | src/aslan_core/streams/deadletter.py:650-663 | without H1 there is a run in which a slow call deletes the entry that its adopter indexed |
| `CanonicalExactness.DanglingWithoutFreshWalk` | src/aslan_core/streams/janitor.py:331-347 | without H4 there is a run in which pass 4 indexes an entry that is already deleted |
| `CanonicalExactness.LostWithoutFreshReads` | src/aslan_core/streams/deadletter.py:748-773 | without H5 there is a run in which step 4 rolls back a named entry, and a later one in which an index row is left naming a withdrawn entry |
| `CanonicalExactness.CanonicalSparedIffHypotheses` | src/aslan_core/streams/deadletter.py:635-697 | in every run every event leaves every named entry in the stream, if and only if H1, H2 and H5 hold |
| `CanonicalExactness.CanonicalLiveIffHypotheses` | src/aslan_core/streams/janitor.py:304-439 | index rows name live entries in every run if and only if H1, H2, H4 and H5 hold |
| `IntentCoverage.StaysCovered` | src/aslan_core/streams/deadletter.py:337-469 | same-owner retry, abort, reconcile and replace-and-own all keep the bound of an un-indexed entry at or below its id |
| `IntentCoverage.RunCovered` | src/aslan_core/streams/deadletter.py:593-637 | under H1, H3 and H5 every live entry of an un-indexed failure has an intent whose lower bound is at most its id, in every run |
| `IntentCoverage.LostMeansNothingLanded` | src/aslan_core/streams/deadletter.py:435-469 | stale adoption calls an XADD lost only when the stream holds no entry of that failure, or the failure is indexed |
| `IntentCoverage.UncoveredWithoutFailStop` | src/aslan_core/streams/janitor.py:164-168 | without H1 pass 1 drops the intent of a live call whose XADD then lands uncovered |
| `IntentCoverage.UncoveredWithoutWholePass2` | src/aslan_core/streams/janitor.py:222-223 | without H3 a rolled-back re-drive leaves an entry uncovered |
| `IntentCoverage.UncoveredWithoutFreshReads` | src/aslan_core/streams/deadletter.py:757-771 | without H5 the rollback of step 4 removes the index row after the intent has gone and leaves entries uncovered |
| `IntentCoverage.CoveredIffHypotheses` | src/aslan_core/streams/deadletter.py:273-469 | coverage holds in every run if and only if H1, H3 and H5 hold |
| `RoutingCalls.XaddFollowsMiss` | src/aslan_core/streams/deadletter.py:559-592 | in every run a call that may XADD logged its message as an event at which the row had no Redis id, and later looked its failure up as an event at which the index had no row for it |
| `RoutingCalls.IndexedCallIsQuiet` | src/aslan_core/streams/deadletter.py:564-592 | in every run, a call whose lookup or second look finds an index row is from then on at step 4 with that id and not as the writer, completed or crashed, and none of its events touches stream, intents or index |
| `RoutingCalls.IndexedCallReturnsRow` | src/aslan_core/streams/deadletter.py:579-592 | under H5 such a call completes with exactly the id that it read |
| `RoutingCalls.UnindexedRecheckRaises` | src/aslan_core/streams/deadletter.py:683-685 | in every run, a call that withdrew its entry and finds no index row raises, and touches nothing again |
| `RoutingCalls.RoutedCompletesAtOnce` | src/aslan_core/streams/deadletter.py:559-562 | a call for a routed message completes with the recorded id and changes nothing |
| `RoutingCalls.IndexedCompletes` | src/aslan_core/streams/deadletter.py:579-592 | a call for an indexed failure records the indexed id in the log and changes nothing else |
| `RoutingCalls.AcquiresOrGivesWay` | src/aslan_core/streams/deadletter.py:600-612 | without an intent the call leaves its own with the captured bound; its own older intent keeps its bound; another owner with a live heartbeat makes it abort with the store unchanged |
| `RoutingCalls.AdoptsStaleIntent` | src/aslan_core/streams/deadletter.py:366-469 | a stale intent whose entry is found is reconciled: index and log name it and the intent goes; otherwise the intent becomes the call's own with its bound; under H1 all holders are stopped |
| `RoutingCalls.OwnerCompletes` | src/aslan_core/streams/deadletter.py:622-711 | an undisturbed owner leaves one new entry, an index row and a routed log row with its id, and no intent |
| `RoutingCalls.LoserWithdraws` | src/aslan_core/streams/deadletter.py:639-697 | a failed or refused index insert removes the call's own entry and keeps the intent; then step 4 with the indexed id, or an exception |
| `RoutingCalls.FreshMessageIsRouted` | src/aslan_core/streams/deadletter.py:519-711 | a fresh message, step 1 to step 4: log, index, stream and intents afterwards, with one id throughout |
| `RoutingCalls.FreshMessageIsOwned` | src/aslan_core/streams/deadletter.py:594-605 | before the XADD the intent is there, with the bound captured before it |
| `RoutingCalls.BoundCanBeTail` | src/aslan_core/streams/deadletter.py:806-822 | in every state a bound can be captured at or below which everything in the stream lies |
| `RoutingCalls.CallCanEnd` | src/aslan_core/streams/deadletter.py:493-711 | from any state whatever, a call that may move comes to an end by its own events, if the heartbeats of other owners may go stale and its own transactions commit, and with success unless it is already withdrawing an entry of a failure without index row |
| `JanitorPasses.WalkGivesScanAnswer` | src/aslan_core/streams/deadletter.py:160-228 | the answer of the paged walk is the scan answer on which the protocol's transitions rest |
| `JanitorPasses.Pass1Exactly` | src/aslan_core/streams/janitor.py:121-175 | the whole store after pass 1: an intent with a live heartbeat changes nothing; a stale one goes, and index and log gain the entry that the scan found, unless they named one |
| `JanitorPasses.Pass4KeepsCanonical` | src/aslan_core/streams/janitor.py:370-373 | a walk over any entries deletes no indexed entry |
| `JanitorPasses.Pass4Settles` | src/aslan_core/streams/janitor.py:350-439 | a walked entry that survives is its failure's indexed entry |
| `JanitorPasses.Pass4AdoptsFirst` | src/aslan_core/streams/janitor.py:422-439 | the first walked entry of a logged failure without index row becomes the one that index and log name, and stays |
| `JanitorPasses.UnreachedIsAsBefore` | src/aslan_core/streams/janitor.py:335-347 | an entry behind a garbled one, or whose transaction failed, stays, and is its failure's indexed entry afterwards iff it was before |
| `JanitorPasses.OtherStreamsAreUntagged` | src/aslan_core/streams/janitor.py:311-326 | every live entry with a failure id is in a stream that some log row names, so the streams that pass 4 does not list need no settling |
| `JanitorPasses.Pass4SettlesExactly` | src/aslan_core/streams/janitor.py:328-347 | with no routing in flight and a listing that covers the streams named in the log, every failure is left with at most its indexed entry iff no unsettled entry lies behind a garbled one or fails |
| `JanitorPasses.GarbledLeavesDuplicate` | src/aslan_core/streams/janitor.py:346 | a sound stream with one garbled entry whose duplicate pass 4 leaves in place |
| `JanitorPasses.Pass4IsIdempotent` | src/aslan_core/streams/janitor.py:328-347 | under that condition the pass keeps every indexed entry and the agreement, and a second pass over any listing of what is left changes nothing |
| `JanitorPasses.RedriveSettles` | src/aslan_core/streams/janitor.py:469-612 | after a re-drive the log is routed, the index names the same id, no intent is left, and an XADD happened iff there was neither an index row nor any entry of that failure in the stream |
| `JanitorPasses.CommittedPass2Settles` | src/aslan_core/streams/janitor.py:201-221 | the same for a committed pass-2 transaction after any run under H5 |
| `JanitorPasses.DeadletterJanitor.ReconcileEntry` | src/aslan_core/streams/janitor.py:350-466 | the branches leave exactly the store of the pass-4 transition, or the store as it was when the XDEL or the transaction fails |
| `JanitorPasses.DeadletterJanitor.WalkRecent` | src/aslan_core/streams/janitor.py:335-347 | the loop is the fold of the transition over the entries that do not fail, up to the first unparsable failure id; it deletes no indexed entry, and it settles a covered stream iff every unsettled entry is among them |
| `JanitorPasses.DeadletterJanitor.FinishRouting` | src/aslan_core/streams/janitor.py:540-612 | the statements in order leave the store of the re-drive transition, routed and without an intent |
| `Acknowledgement.AckedIsDealtWith` | src/aslan_core/streams/consumer.py:456-516 | whichever act takes a message off the pending list, the message is processed under a committed audit row or routed with a Redis id |
| `Acknowledgement.ActKeepsSound` | src/aslan_core/streams/consumer.py:556-614 | every act keeps the invariant: processed ids were audited, acked messages are dealt with, workers know what their stage promises |
| `Acknowledgement.NoMessageLost` | src/aslan_core/streams/consumer.py:823-870 | in every history of workers, crashes, expiries and routing steps, and with no hypothesis on routing, a message off the pending list is processed under a committed audit row or routed with a Redis id |
| `Acknowledgement.OnlyDeservedAreDeadlettered` | src/aslan_core/streams/consumer.py:774-821 | in every history every log row is about a message that failed more than the limit, or that a worker found beyond parsing or of the wrong schema; `FailureAboveLimitRoutes` is the other half |
| `Acknowledgement.SchemaMismatchNeedsNoFailures` | src/aslan_core/streams/consumer.py:406-419 | a parsed message of the wrong schema is logged with no failure counted |
| `Consumption.FailureAboveLimitRoutes` | src/aslan_core/streams/consumer.py:774-792 | after any history, counting a failure adds one to that message's count alone, and its worker can then start routing if and only if the count exceeds the limit |
| `Consumption.PoisonIsDeadlettered` | src/aslan_core/streams/consumer.py:749-792 | after any history, an unprocessed message whose caller keeps failing comes, by a continuation of that history, to a routed log row and off the pending list |
| `Consumption.YieldFollowsChecks` | src/aslan_core/streams/consumer.py:456-521 | in every history a worker that locks, yields, audits or acknowledges made a processed check that found nothing and a claim that nobody else held |
| `Consumption.DuplicateIsNeverYielded` | src/aslan_core/streams/consumer.py:456-521 | in every history a worker whose check finds the event processed, or whose claim another name holds, ends done or as a duplicate and never locks or yields |
| `Consumption.ClaimDecides` | src/aslan_core/streams/consumer.py:475-498 | the worker may go on to lock iff the claim was free or held by its own name, and to check as loser iff another name holds it; a free claim is taken, a held one left |
| `Consumption.LoserDecides` | src/aslan_core/streams/consumer.py:499-516 | the loser acknowledges if and only if the event is processed by then |
| `Consumption.PendingExactly` | src/aslan_core/streams/consumer.py:587-593 | the script, a duplicate and a routed message without Redis error take exactly that message off the pending list; nothing else does |
| `Consumption.ClaimIsGivenBack` | src/aslan_core/streams/consumer.py:540-550 | the script, a failed lock and a failed caller release exactly their claim, and only the script marks the event processed |
| `Consumption.KeysTellApart` | src/aslan_core/streams/consumer.py:432-433 | two messages share processed member and claim iff they carry one event in one stream and group |
| `Consumption.CanBeRouted` | src/aslan_core/streams/consumer.py:850-867 | after any history a worker that has to route can do so, whatever the other calls left, and then acknowledge |
| `Consumption.CanBeConsumed` | src/aslan_core/streams/consumer.py:456-614 | after any history an unprocessed message can be consumed: audited, processed, claim released, off the pending list |
| `Consumption.NoMessageIsStuck` | src/aslan_core/streams/consumer.py:369-870 | after any history, whatever claims, intents and half-done calls it left, every pending message has a continuation in which it is dealt with and off the pending list |
| `OutboxDrainer.BoundReachesLaterIds` | src/aslan_core/streams/outbox_drainer.py:383-402 | the bound captured before the XADD is at most every later id of the stream, also when the read failed |
| `OutboxDrainer.BoundSkipsOldEntries` | src/aslan_core/streams/outbox_drainer.py:383-402 | a bound that could be read lies behind everything the stream already held |
| `OutboxDrainer.RowGrows` | src/aslan_core/streams/outbox_drainer.py:227-249 | a row and the producers around it only append: entries go from the old end alone, and a landed copy is there until everything up to it is trimmed |
| `OutboxDrainer.UntrimmedCopyIsThere` | src/aslan_core/streams/outbox_drainer.py:244-249 | without trimming the stream keeps what it held and, unless the XADD was refused, holds a new copy of the event |
| `OutboxDrainer.RecoveredExactly` | src/aslan_core/streams/outbox_drainer.py:459-479 | a row is recovered iff the scan reached an entry of that event with that id before it ended or failed |
| `OutboxDrainer.CompletedScanIsFullScan` | src/aslan_core/streams/outbox_drainer.py:441-486 | what a completed scan collects is the answer of one full scan, which ties it to the paged walk |
| `OutboxDrainer.CompletedScanMissesNothing` | src/aslan_core/streams/outbox_drainer.py:305-332 | a scan that completes reaches the copy of its row, also when the bound could not be read |
| `OutboxDrainer.RowKeepsBounded` | src/aslan_core/streams/outbox_drainer.py:251-275 | no index row ever names an id that its stream has not generated |
| `OutboxDrainer.RowKeepsCovered` | src/aslan_core/streams/outbox_drainer.py:227-348 | one row with any failure keeps every live copy indexed, unless its copy was missed |
| `OutboxDrainer.IndexByFate` | src/aslan_core/streams/outbox_drainer.py:251-275 | once the independent insert ran the copy is indexed whatever fails later; before that the index gains exactly the reached entries of the event |
| `OutboxDrainer.MissedCopyIsUncovered` | src/aslan_core/streams/outbox_drainer.py:333-348 | a copy that is in the stream, was not indexed and lies beyond what the scan reached is uncovered |
| `OutboxDrainer.RowCoverageExact` | src/aslan_core/streams/outbox_drainer.py:305-348 | coverage survives a row if and only if its copy never landed, was indexed, was trimmed, or lies among the entries the scan reached |
| `OutboxDrainer.EarlyFailureMisses` | src/aslan_core/streams/outbox_drainer.py:442-449 | a scan that fails at once misses a copy that one failing an entry later keeps |
| `OutboxDrainer.Drainer.SelectPending` | src/aslan_core/streams/outbox_drainer.py:191-203 | the batch is the oldest unlocked unpublished rows, once each in order of creation, at most the limit, all of them when fewer |
| `OutboxDrainer.Drainer.DrainRow` | src/aslan_core/streams/outbox_drainer.py:214-364 | stream, index and the session's view after a row, for each fate of its XADD, index write and savepoint and wherever the recovery scan ends |
| `OutboxDrainer.Drainer.TakeTurn` | src/aslan_core/streams/outbox_drainer.py:303-306 | a turn keeps committed copies covered, counts the published row, and does to its own row, stream and index what its fate says and nothing to other rows |
| `OutboxDrainer.Drainer.DrainRows` | src/aslan_core/streams/outbox_drainer.py:214-306 | every chosen row gets its turn whatever happens to the others; rows, copies, creation order and index afterwards |
| `OutboxDrainer.Drainer.DrainBatch` | src/aslan_core/streams/outbox_drainer.py:176-380 | tries the oldest unlocked pending rows, as many as the limit and the number of them allow, and all of those; drained counts the published fates; if it commits, a tried row is published or has one more attempt by its fate, and all others are as before; a published id is that of a copy of the event appended in this batch, ascending by creation per stream; the index gains only entries of tried events; every live copy of every event there ever is stays indexed, committed or not |
| `OutboxDrainer.Drainer.DrainAll` | src/aslan_core/streams/outbox_drainer.py:113-142 | the same over any sequence of batches with new rows committed before each; no row goes and published rows do not change |
| `Filings.UpsertExtendsChain` | src/aslan_core/documents/client.py:389-413 | a call extends the chain of its own ref by its new row and no other chain, and none when its content is known |
| `Filings.UpsertKeepsChains` | src/aslan_core/documents/client.py:323-330 | a call with default chain arguments keeps every chain linked |
| `Filings.PutsKeepChains` | src/aslan_core/documents/client.py:389-396 | after any calls with default chain arguments each (source, ref) has revisions 1..n, each pointing to the one before, amendment iff not the first |
| `Filings.PutsKeepTable` | src/aslan_core/documents/client.py:413-440 | after any calls ids and (source, sha256) are unique, alias lists have no repeats and not their own ref, a row carries a ref iff its content was put under it |
| `Filings.AmendmentChainIsLinear` | src/aslan_core/documents/client.py:145-169 | from any member the chain is the same single linear chain and holds exactly the rows of that ref |
| `Filings.LabelMatchesUpsert` | src/aslan_core/documents/client.py:602-630 | the label computed in Python names the SQL branch taken, for all four labels |
| `Filings.ExplicitArgumentsAreKept` | src/aslan_core/documents/client.py:305-335 | explicit chain arguments are stored as given |
| `Filings.FindAnswers` | src/aslan_core/documents/client.py:78-116 | the lookup returns a carrying row that nothing outranks, and none only if no row carries the ref |
| `Filings.FindPrefersDirectThenNewest` | src/aslan_core/documents/client.py:104-112 | with a direct match the highest revision among the direct matches is returned, otherwise the highest among the alias matches |
| `Filings.RefsResolve` | src/aslan_core/documents/client.py:83-93 | every ref ever put resolves; whatever it resolves to was put under it; a direct match wins over an alias |
| `ObjectKeys.AttachmentKeysDiffer` | src/aslan_core/documents/client.py:720-729 | two attachment keys are equal only for equal sequence and filename, for every sequence number and any slashes in names |
| `ObjectKeys.RolesDiffer` | src/aslan_core/documents/client.py:892-918 | primary, xbrl and attachment keys of one filing never coincide, whatever the filenames |
| `FilingBlobs.BlobKeysDistinct` | src/aslan_core/documents/client.py:272-279 | all blobs of an accepted request have pairwise distinct keys |
| `FilingBlobs.StoreAllOwn` | src/aslan_core/documents/client.py:734-740 | after the uploads each key holds its own blob's bytes |
| `FilingBlobs.StoreAllRest` | src/aslan_core/documents/client.py:734-740 | the uploads leave every other key alone |
| `FilingBlobs.FilingIsHeld` | src/aslan_core/documents/client.py:292-352 | after the uploads the primary bytes lie under primary/, the xbrl bytes under xbrl/, each attachment under its own path; the keys are exactly these and all else is as before |
| `FilingBlobs.ReleaseRestores` | src/aslan_core/documents/client.py:762-817 | removing the manifest of a created filing gives back the bucket before it |
| `FilingBlobs.DocumentStore.ValidateAttachments` | src/aslan_core/documents/client.py:245-267 | accepts iff no two attachments share (sequence, filename) or content hash |
| `FilingBlobs.DocumentStore.Upload` | src/aslan_core/documents/client.py:292-303 | the key is tracked however the upload ends, also when it raises after taking effect |
| `FilingBlobs.DocumentStore.UploadMain` | src/aslan_core/documents/client.py:292-352 | any fault leaves only tracked, new keys changed; success stores exactly primary and xbrl; raised iff one of its own awaits fails |
| `FilingBlobs.DocumentStore.DropUploads` | src/aslan_core/documents/client.py:537-546 | a content hit empties the manifest, and a fault halfway leaves every remaining blob tracked |
| `FilingBlobs.DocumentStore.PersistAttachments` | src/aslan_core/documents/client.py:698-760 | success stores exactly the request's blobs in manifest order; a fault leaves only tracked keys changed; raised iff one of its awaits fails |
| `FilingBlobs.DocumentStore.TryPut` | src/aslan_core/documents/client.py:292-673 | at every await, changed keys are tracked and were absent before; raised iff an await that this call makes fails |
| `FilingBlobs.DocumentStore.PutFiling` | src/aslan_core/documents/client.py:173-696 | rejected iff the audit asks for an actor and none is set, the xbrl arguments are inconsistent or attachments clash; raised iff an await of the call fails, with bucket and table as before; a content hit leaves the bucket as before; a created filing leaves the primary, xbrl and attachment bytes each under its own path, returns exactly those paths, leaves the rest of the bucket alone, and its row holds the hash of the bytes under the primary path |
| `FilingBlobs.DocumentStore.Release` | src/aslan_core/documents/client.py:811-817 | removes exactly the manifest's keys |
| `Observations.Preflight` | src/aslan_core/timeseries/writer.py:749-793 | which error phase 0 raises, exactly, and otherwise the first row of each key |
| `Observations.InsertAllFacts` | src/aslan_core/timeseries/writer.py:944-958 | inserting changes no stored row, adds exactly the batch's keys, each with a row of the batch |
| `Observations.ConflictsAreWithinOneKey` | src/aslan_core/timeseries/writer.py:773-793 | a batch conflicts iff two of its rows, or a row and a stored one, agree in series, `ts` and `as_of` and differ in hash |
| `Observations.DifferentTimesAreKept` | src/aslan_core/timeseries/writer.py:944-958 | a row alone at its `ts` and `as_of` is stored there whatever else the batch holds |
| `Observations.InsertFirstsIsInsertAll` | src/aslan_core/timeseries/writer.py:773-793 | dropping later duplicates does not change what is stored |
| `Observations.AuditCoversBatch` | src/aslan_core/timeseries/writer.py:1106-1138 | the per-key rows name each distinct key once, with its hash, and say inserted of exactly the new keys |
| `Observations.ChunkSeesOriginal` | src/aslan_core/timeseries/writer.py:835-841 | a chunk meets the same stored rows and the same conflicts as the whole batch would |
| `Observations.RerunInsertsNothing` | src/aslan_core/timeseries/writer.py:939-1000 | writing an accepted batch again conflicts with nothing and changes nothing |
| `Observations.ObservationWriter.WriteChunk` | src/aslan_core/timeseries/writer.py:879-1000 | inserted and unchanged keys are exactly the new and the stored ones; it fails iff some stored hash differs |
| `Observations.ObservationWriter.WriteChunks` | src/aslan_core/timeseries/writer.py:830-841 | for every chunk size, conflict iff some stored hash differs from the batch's, and otherwise the totals are those of the whole batch |
| `Observations.ObservationWriter.PerKeyRows` | src/aslan_core/timeseries/writer.py:1106-1138 | the labelling loop produces the audit rows of the batch |
| `Observations.ObservationWriter.Write` | src/aslan_core/timeseries/writer.py:698-871 | exactly when each error is raised; conflict iff some key in batch plus table has two hashes; failure changes nothing; success adds each new key once, inserted plus unchanged is the number of distinct keys and of audit rows; nothing depends on the chunk size |
| `PointInTime.FirstExists` | src/aslan_core/timeseries/reader.py:142-144 | every non-empty set of rows of one series has a row that all others follow in the query's order |
| `PointInTime.DistinctOnFacts` | src/aslan_core/timeseries/reader.py:134-144 | the adjacent-row collapse of a sorted list keeps exactly the rows of greatest `as_of` per `ts` |
| `PointInTime.CollapseFacts` | src/aslan_core/timeseries/reader.py:197-209 | the whole statement returns exactly those rows, strictly ordered by `ts` |
| `PointInTime.RangeIsPointInTime` | src/aslan_core/timeseries/reader.py:162-230 | `range` returns a row iff it is in the half-open window and has the greatest `as_of` at or before the reading time for its `ts`; one per `ts`, in time order |
| `PointInTime.LimitIsPrefix` | src/aslan_core/timeseries/reader.py:212-214 | a limit keeps the first rows of the unlimited answer |
| `PointInTime.LatestIsPointInTime` | src/aslan_core/timeseries/reader.py:105-159 | `latest` is the row of the greatest `ts` that has any `as_of` at or before the reading time, with the greatest such `as_of`; none iff there is none; the comparison is spelled out |
| `PointInTime.WriteAtPitIsSeen` | src/aslan_core/timeseries/reader.py:140 | a row of the greatest `ts` written exactly at the reading time is what `latest` returns at that time |
| `PointInTime.LaterWritesAreInvisible` | src/aslan_core/timeseries/reader.py:186-190 | any run of writes recorded after the reading time leaves `latest` and `range` at that time unchanged |
| `PathOrder.OneTreeIsComparable` | src/aslan_core/timeseries/pii.py:381 | comparing two paths of one tree never meets an integer against a string, if no dict mixes the two as keys |
| `PathOrder.MixedTreeHasClash` | src/aslan_core/timeseries/pii.py:381 | and in every other tree some two paths cannot be compared |
| `PiiScan.WalkIsComplete` | src/aslan_core/timeseries/pii.py:277-291 | for every location, below dicts, lists and tuples, the walk holds exactly what scanning the string there yields, in order and with multiplicity, and nothing for other locations |
| `PiiScan.ScanIsComplete` | src/aslan_core/timeseries/pii.py:208-234 | the same for a metadata dict outside the skipped top-level keys |
| `PiiScan.ScanStringExactly` | src/aslan_core/timeseries/pii.py:184-192 | a string yields its e-mail matches and then its name matches, in order, each with pattern, span and the text matched |
| `PiiScan.WalkInto` | src/aslan_core/timeseries/pii.py:277-291 | the appending recursion adds exactly the findings of the subtree, in dict and list order |
| `PiiScan.FindPiiInMetadata` | src/aslan_core/timeseries/pii.py:227-234 | the loop with its skip set returns the findings of the unskipped keys |
| `PiiSplice.SpliceIsOverlaid` | src/aslan_core/timeseries/pii.py:385-390 | splicing from the last span to the first, for any spans: where a span starts under its predecessor its marker, and then what follows, loses the overlap |
| `PiiSplice.GroupTextIsOverlaid` | src/aslan_core/timeseries/pii.py:383-390 | what the text of any group of findings becomes, ties included |
| `PiiSplice.InOrderOverlays` | src/aslan_core/timeseries/pii.py:385-390 | spans that do not overlap are overlaid without loss |
| `PiiSplice.SpliceIsSubstitute` | src/aslan_core/timeseries/pii.py:383-390 | splicing in descending span order equals simultaneous left-to-right substitution |
| `PiiSplice.MarkerText` | src/aslan_core/timeseries/pii.py:388 | the replacement texts of the two patterns |
| `PiiScrub.StretchIsGroup` | src/aslan_core/timeseries/pii.py:381-383 | after sorting by (path, span), a run cut by `groupby` is the complete group of its path |
| `PathAssign.OutcomeExactly` | src/aslan_core/timeseries/pii.py:395-416 | on any tree and path: raises iff the path without its last step leads nowhere, to a tuple, or to something the last step does not fit; inserts iff to a dict without the key; stores iff the whole path leads somewhere and not into a tuple; negative indices included |
| `PathAssign.StepsLead` | src/aslan_core/timeseries/pii.py:411-415 | one step leads by dict key, by index, or by an index counted back from the end, and otherwise nowhere |
| `PathAssign.MissingKeyIsInserted` | src/aslan_core/timeseries/pii.py:401-406 | a path that does not resolve and is inserted instead of raising |
| `PathAssign.TupleItemRaises` | src/aslan_core/timeseries/pii.py:416 | a path that resolves to a string in a tuple and raises |
| `PathAssign.StoredReplaces` | src/aslan_core/timeseries/pii.py:411-416 | a stored assignment replaces exactly the location that the path leads to |
| `PathAssign.InsertedExtends` | src/aslan_core/timeseries/pii.py:416 | an inserting assignment gives exactly that dict the key, last in order |
| `PathAssign.LookupReplace` | src/aslan_core/timeseries/pii.py:411-416 | every location after a replacement: the new value and what it holds, and everything else as it was |
| `PiiScrub.LeafReplace` | src/aslan_core/timeseries/pii.py:391 | replacing a string by a string changes that location and nothing else in the tree |
| `PiiScrub.ScrubInPython` | src/aslan_core/timeseries/pii.py:352-392 | for any findings whose paths can be sorted, the groups are assigned in order and the first exception ends it; for findings of a scan it raises iff some found string lies directly in a tuple, and otherwise every location without findings keeps its leaf or frame, and every other holds its text overlaid, which is all spans replaced at once whenever they can be arranged |
| `PiiScrub.ArrangedExactly` | src/aslan_core/timeseries/pii.py:378-380 | the findings of a path can be so arranged if and only if no two overlap and none repeats |
| `PiiScrub.ScanFeedsScrub` | src/aslan_core/timeseries/pii.py:400-406 | findings of a scan, or any selection of them, resolve in the tree, have their text there, and, if no dict mixes key types, can be sorted without a type error |
| `PiiScrub.FullScrub` | src/aslan_core/timeseries/pii.py:352-392 | scrubbing a full scan, when it does not raise, replaces exactly the matches of each scanned string whose matches do not overlap, and keeps all else |
| `PiiScrub.FullScrubRaisesExactly` | src/aslan_core/timeseries/pii.py:288-290 | a full scan holds a finding that cannot be assigned iff some scanned string with a match lies directly in a tuple |
| `PiiScrub.TupleStringRaises` | src/aslan_core/timeseries/pii.py:411-416 | a one-string tuple whose own scan cannot be scrubbed |
| `PiiScrub.OverlapGarbles` | src/aslan_core/timeseries/pii.py:186-192 | a text whose scan finds overlapping matches: they cannot be arranged, and the scrub leaves the second marker without its first three characters |
| `MetadataKeys.WalkersAgree` | src/aslan_core/timeseries/writer.py:64-105 | with one test on keys the writer's guard raises iff the deletion side's lister lists a path that crosses no tuple, and with the first such path |
| `MetadataKeys.BadKeysExact` | src/aslan_core/timeseries/pii.py:305-349 | a path is listed iff it resolves and ends in a dict key that fails the test, at any depth, tuples included |
| `MetadataKeys.GuardPassesExactly` | src/aslan_core/timeseries/writer.py:87-104 | the guard passes iff every key that is numeric or not a string lies below a tuple |
| `MetadataKeys.TupleHidesKey` | src/aslan_core/timeseries/writer.py:102-104 | metadata that passes the guard and in which the lister finds a numeric key |
| `MetadataKeys.GuardedPathsFlattenApart` | src/aslan_core/timeseries/pii.py:156-165 | paths that cross no tuple into guarded metadata, even of two different rows, have equal text arrays iff they are equal |
| `MetadataKeys.IndexTextsDiffer` | src/aslan_core/timeseries/pii.py:156-165 | different integers, negative ones included, flatten to different texts |
| `MetadataKeys.UnguardedPathsCollide` | src/aslan_core/timeseries/writer.py:69-75 | a numeric key and the list index it spells flatten alike |
| `MetadataKeys.GuardedTuplesCollide` | src/aslan_core/timeseries/writer.py:69-75 | two rows that pass the guard with different paths below a tuple that flatten alike |
| `Redaction.RedactOutboxPayload` | src/aslan_core/streams/pii.py:12-20 | the loop over the fields is the composition of the single redactions |
| `Redaction.RedactCommutes` | src/aslan_core/streams/pii.py:23-38 | any two path redactions commute on every payload |
| `Redaction.PrefixAbsorbs` | src/aslan_core/streams/pii.py:23-38 | redacting a prefix absorbs redacting its extensions, in either order |
| `Redaction.ReachExactly` | src/aslan_core/streams/pii.py:41-44 | the redaction gets to a location iff it is there and no step leads into a tuple |
| `Redaction.UnresolvedIsNoOp` | src/aslan_core/streams/pii.py:32-44 | a path that the redaction does not get along changes nothing |
| `Redaction.LookupRedact` | src/aslan_core/streams/pii.py:32-38 | one redaction puts the mark at its location, removes what was below, and keeps every other leaf and frame |
| `Redaction.RedactAllExact` | src/aslan_core/streams/pii.py:12-38 | every location of the output, from the payload and the set of paths alone |
| `Redaction.OrderDoesNotMatter` | src/aslan_core/streams/pii.py:17-19 | field lists with the same members give the same payload |
| `Redaction.PermutationAndRerun` | src/aslan_core/streams/pii.py:12-20 | any permutation of the fields gives the same payload, and a second run changes nothing |
| `Redaction.NameableExactly` | src/aslan_core/streams/pii.py:27-30 | a location can be named by a dotted path iff each of its steps is spelled by a dotless word; a string key is so spelled iff it holds no dot and does not parse as an integer |
| `Redaction.NumericKeyEscapes` | src/aslan_core/streams/pii.py:27-44 | a payload with the single key "0" comes back unchanged for the field "0" |
| `Redaction.TupleEscapes` | src/aslan_core/streams/pii.py:41-44 | a payload with a tuple comes back unchanged for a field that names its item |
| `HashBytes.PayloadReadsBack` | src/aslan_core/schemas/timeseries.py:221-256 | the payload bytes decode to the value bits, text, flag and metadata they were built from |
| `HashBytes.OnlyPayloadsRead` | src/aslan_core/schemas/timeseries.py:232-256 | every byte string the decoder takes is the encoding of what it returns |
| `HashBytes.RowsDetermined` | src/aslan_core/timeseries/writer.py:153-166 | the length-prefixed row stream determines the rows |
| `HashBytes.BatchDetermined` | src/aslan_core/timeseries/writer.py:130-167 | two batch encodings are equal iff series id and the multiset of (ts, as_of, payload hash) rows are, so input order does not show and everything else does |
| `HashBytes.BatchInOrder` | src/aslan_core/timeseries/writer.py:150-153 | the rows are encoded in ascending `ts`, then `as_of` |
| `HashBytes.SwapShows` | src/aslan_core/timeseries/writer.py:135-143 | exchanging two different payload hashes between keys changes the bytes |
| `HashBytes.PayloadHash` | src/aslan_core/schemas/timeseries.py:221-256 | feeds the hasher exactly the payload bytes; fails iff a field exceeds its width |
| `HashBytes.ComputeBatchHash` | src/aslan_core/timeseries/writer.py:130-167 | feeds the hasher exactly the batch bytes in sorted order; fails iff the series id or a length exceeds its width |

## Left out

- HTTP API, auth, feature flags, rate limiting, CLI, dashboards, metrics, tracing and logging: no state that the properties depend on.
- Isolation below transaction level: each transaction is one step, except that the janitor's index reads may be out of date (H5). The stream scan inside an adoption or re-drive is taken to happen at that step; the bounded retry of `acquire_or_adopt_intent` when an intent vanishes between its statements disappears with it.
- Redis durability and trimming of dead-letter streams: in the protocol a dead-letter entry leaves only by XDEL. The paged walks allow any deletion, and outbox streams are trimmed by every producer.
- Clocks: heartbeat age, claim leases and the processed set's TTL are free choices of the environment in every step, so the theorems hold for any timing; the heartbeat loop itself is not modelled.
- Janitor pass 3, the watermark store, the circuit breaker, the entity registry and series upsert: easy members, or properties that rest on database constraints outside the sources.
- Process death of the drainer between an XADD and the recovery scan: no scan then runs, and `RowCoverageExact` says what is lost.
- Concurrent drainers: entries of other producers may appear at any point of a row, but no copies of outbox events, now or later, since row locks keep a second drainer off them and event ids are fresh.
- Text form of Redis ids and parsing of entry fields: ids are pairs of numbers, a `failure_id` field is absent, unparsable or a number.
- Filings.RefsResolve: callers' own metadata carries no `republished_as`.
- Filings.PutsKeepChains: calls with explicit `previous_filing_id` or `is_amendment` are not covered, since they may link anywhere.
- Filings.PutsKeepTable: fresh uuids never repeat.
- FilingBlobs.DocumentStore.PutFiling: deletions succeed, the cleanup after a fault runs undisturbed, and no older object lies under the fresh filing id; the database transaction of a raised call is rolled back by its owner.
- SHA-256, the regex engines, Unicode NFC, ISO timestamps and canonical JSON text: parameters. Hashes are compared, a matcher yields ordered disjoint spans per pattern, ISO text is injective, metadata bytes are opaque.
- Observations.ObservationWriter.Write: the structural, timezone and metadata checks on a row are inputs; the advisory lock makes writers of one series sequential.
- PointInTime.LimitIsPrefix: a negative limit, which the database refuses, is not modelled.
- Nested dicts and lists are values, not shared objects: both scrubs work on a deep copy, so update in place inside the copy and aliasing inside one payload are not captured.
- PiiScrub.ScrubInPython: findings whose paths cannot be compared are excluded, since whether the sort meets such a pair depends on the sorting algorithm.
- Dict keys other than strings and integers, and Python's equality of `True`, `1` and `1.0` as keys.
