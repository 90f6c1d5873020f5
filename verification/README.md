# OpenClaw Observatory: verified model

The Observatory is a backend that receives telemetry events from collectors. This
project models its stateful parts in Dafny and proves what they promise, over every
run, with storage failures, lost answers, overlapping retries and crashes included.
`dafny verify dfyconfig.toml` checks everything.

**Mission updates.** An agent collector turns a state file into `mission_update`
events, deduplicated by a map; a client posts one fixed body until it gets a definite
answer; the ingestion route validates, stores and projects each attempt in four storage
steps; the projection keeps one record per mission under a forward-only lifecycle.
`Mission`, `Projection`, `Ingestion`, `Retries`, `Stragglers`, `Overlaps`, `Handlers`,
`Collector`, `Client`, `Delivery`, `Convergence`.

**Stores.** The mission table is an append-only set of versioned rows that merges may
thin out at any moment; it must read like a dictionary. Its schema is kept by a
migration ledger that survives crashes. `Sorting`, `MemoryStore`, `VersionedRows`,
`Migrations`.

**Liveness.** A runner schedules heartbeats; a detector turns their absence into
transition events; a read model derives connectivity on its own. `Schedule`, `Runner`,
`Telemetry`, `Registry`, `Liveness`, `OfflineDetection`.

**Satellites.** The `API_KEYS` setting with its authenticator, and logical device names.
`Text`, `ApiKeys`, `LogicalNames`.

## How to read it

Objects the program updates in place are classes whose methods are tied to functions or
to a step machine; the lemmas are about those. Storage outages are nondeterministic: a
read may fail, and a write may fail before or after it took effect (`Wrappers.Write`).
Times are real seconds, and every string a state field may carry is representable
(`MissionState.Unlisted`).

What the code decides, and the model assumes:

- Attempts that overlap for one mission carry the same body (`Ingestion.MayArrive`). The
  projection can go backwards otherwise, because a reading is stale
  (`Overlaps.DifferentBodiesCanRegress`) or because a validation is
  (`Overlaps.StaleValidationRegresses`). `Overlaps.RunAdvancesIff` says exactly when it does
  not, for every run.
- An attempt whose client gave up may still run at the backend. What compares a record with
  the one before (`Retries.RetriesActAsOneAttempt`, `Delivery.VerdictIsTruthful`,
  `Convergence.DeliveredEvent`) therefore starts where no attempt of that one mission is in
  flight (`Retries.IdleAt`), which the first point makes true when a new body first arrives
  (`Retries.FirstArrivalFindsIdle`). Convergence after a restart allows anything in flight.
  Lockstep starts where what is in flight for the missions in question carries the state they
  already have (`Convergence.QuietFor`), keeps that true, and can be entered from a restart
  (`Convergence.LockstepAfterRestart`).
- A detection sweep is not atomic: other events arrive at each of its storage calls. Its gauges
  count what it judged, and can differ from the read model (`OfflineDetection.GaugesCanLag`)
  if a heartbeat arrives behind the look at its asset.
- The dedup map is written when an event is produced, before delivery. After a lost
  delivery the mission makes no further progress without a backfill in the file or a
  restart (`Convergence.AfterALossOnlyBackfillOrRestart`).
- An event may be stored and never projected, so monotonicity is claimed of the
  projection, not of the raw stream.
- One writer with strictly increasing revisions (`VersionedRows.Allowed`).

Where documentation and code differ, the model follows the code:

- backend/app/services/offline.py:22-23 says replayed old heartbeats cannot fake
  liveness. They cannot, but since the latest heartbeat is chosen by receipt time and
  judged by source time, an old heartbeat received last makes an online asset look
  offline (`Liveness.StaleHeartbeat` gives the exact condition).
- backend/app/services/pipeline.py:16-17 calls handlers idempotent under retry. That
  holds of the record except for its `updatedAt`; every retry adds an event to the stream.

## Model

| member | source | states |
|---|---|---|
| Mission.Index | backend/app/models/mission.py:59-68 | a state's index is its place in the ordered lifecycle, and -1 exactly for strings outside it |
| Mission.BackfillIsClosureOfNormalMoves | backend/app/models/mission.py:71-101 | a backfill may enter or jump exactly where some walk of normal single moves leads |
| Mission.NormalMoves | backend/app/models/mission.py:92-101 | the legal normal moves are the twelve written out: entering at Created, staying, and going one state on |
| Projection.ProjectIsIdempotent | backend/app/services/pipeline.py:241-267 | projecting a body onto its own result is projecting it once, and the repeated update is legal |
| Projection.ReplayIsSummary | backend/app/services/pipeline.py:241-267 | the incremental record is the declarative summary of the history: first time, first time at or past Running, first Completed, last state, last non-empty metadata |
| Projection.SummaryCharacterisesReplay | backend/app/services/pipeline.py:241-267 | the summary determines the record: it holds of a record if and only if replay produces it |
| Projection.HistoryIsSafe | backend/app/services/pipeline.py:211-217 | along a legal history started is set iff at or past Running, completed iff Completed, no field regresses, texts stay storable |
| Projection.DurationIsNonNegative | backend/app/models/mission.py:151-156 | with source times that never go back a known duration is non-negative |
| Projection.DurationIsRunningToCompleted | backend/app/models/mission.py:151-156 | the duration is unknown iff no event reached Running or none Completed, and otherwise the time from the first event at or past Running to the first Completed |
| Ingestion.UpsertActsAtomically | backend/app/services/pipeline.py:241-267 | under any interleaving, an upsert that takes effect writes what re-reading the store in the same step would have written |
| Ingestion.RunKeepsInv | backend/app/api/v1/events.py:122-160 | every interleaving of attempts keeps the store equal to the replay of the upserts that took effect, all legal |
| Ingestion.ReachableInv | backend/app/api/v1/events.py:122-160 | the same from the empty backend, for every run |
| Retries.RunsProjectTheirHistory | backend/app/api/v1/events.py:122-160 | in every reachable backend a mission is present iff an upsert of it took effect, and its record is consistent and the summary of them |
| Retries.RunsNeverRegress | backend/app/models/mission.py:71-101 | no run regresses a mission: state only advances, Completed is final, times are fixed once set |
| Retries.SessionRun | backend/app/api/v1/events.py:122-160 | the invariant of any number of overlapping attempts of one body, whatever other missions are doing |
| Retries.RetriesActAsOneAttempt | backend/app/api/v1/events.py:146-160 | from a state in which the mission is idle, overlapping, failing and unanswered attempts of one body add up to one clean attempt if the body is legal, and to nothing if not; a legal body is never refused |
| Retries.FirstArrivalFindsIdle | collectors/observatory_collectors/client.py:63-71 | the mission is idle whenever a new body first arrives |
| Overlaps.DifferentBodiesCanRegress | backend/app/services/pipeline.py:241-267 | without serialisation per mission there is, for every mission, a run from the empty backend in which an old reading written late leaves the earlier of two legal states |
| Overlaps.StaleValidationRegresses | backend/app/services/pipeline.py:202-217 | nor is a fresh reading enough: for every mission another run ends with an upsert that projects onto the very record stored and takes it back, its attempt having been validated earlier |
| Overlaps.WriteAdvancesIff | backend/app/services/pipeline.py:241-267 | a write projected onto any reading advances the stored record iff its state is not behind and each stored time was read or is set to the same value |
| Overlaps.RunAdvancesIff | backend/app/api/v1/events.py:122-160 | in every run from the empty backend, overlapping requests included, all steps advance the projection iff all upserts that take effect are safe in that sense |
| Overlaps.SafeRunsNeverRegress | backend/app/models/mission.py:71-101 | in such a run every record advances from any state to any later one |
| Overlaps.SerialisedStepsAreSafe | backend/app/api/v1/events.py:122-160 | serialisation per mission makes every upsert safe |
| Overlaps.OverlapAdvancesIff | backend/app/services/pipeline.py:241-267 | of two writes projected onto the same reading, the second advances the record iff its state is not behind and it sets each time the first was the first to set to the same value |
| MemoryStore.ListingIsUnique | backend/app/storage/memory.py:172-176 | a dictionary store has exactly one listing in key order |
| Sorting.LessIsLexicographic | backend/app/storage/memory.py:172-176 | the order of the listing is lexicographic by code point |
| MemoryStore.MissionStore.UpsertMission | backend/app/storage/memory.py:160-164 | replaces the record under its id, or fails before or after doing so |
| MemoryStore.MissionStore.ListMissions | backend/app/storage/memory.py:172-176 | returns each record once in ascending order of id |
| Handlers.MissionUpdateHandler.Validate | backend/app/services/pipeline.py:202-227 | passes exactly legal updates, answers 422 before reading the store iff the payload is not well formed or has no mission id, and 409 after |
| Handlers.MissionUpdateHandler.Apply | backend/app/services/pipeline.py:241-267 | writes the projection of the event onto the stored record, or fails before or after the write |
| Handlers.IngestRoute.IngestEvent | backend/app/api/v1/events.py:84-165 | one request has one of the allowed outcomes for its status, is answered 422 iff the identity fits and the payload is not well formed or has no mission id, counts an accepted event, and moves at most one failure counter, none on an uncaught storage error |
| Handlers.SoloOutcomesAreSoloRuns | backend/app/api/v1/events.py:119-165 | those outcomes are exactly the completed runs of the step machine with one attempt |
| Collector.AgentTelemetry.ProduceMissionUpdates | collectors/observatory_collectors/openclaw_agent/collector.py:91-113 | one poll returns the specified events and leaves the specified dedup map |
| Collector.PollForwardsChanges | collectors/observatory_collectors/openclaw_agent/collector.py:94-113 | with distinct ids a poll sends exactly the changed entries, stamped against the map it began with, and then remembers every entry |
| Collector.PollCarriesEntries | collectors/observatory_collectors/openclaw_agent/collector.py:94-113 | with distinct ids the events are the entries with news, in their order, each with every field of its entry; only backfill may differ, and holds iff the entry asks for it or it is the first sync of a mission past Created |
| Collector.EventsAreEntries | collectors/observatory_collectors/openclaw_agent/collector.py:101-110 | every event is such a copy of some entry with news, and every entry with news has one |
| Convergence.DeliveredEvent | collectors/observatory_collectors/openclaw_agent/collector.py:111-112 | with its mission idle, a delivered event is projected once if legal, and is refused iff it is not |
| Convergence.DeliveredState | collectors/observatory_collectors/openclaw_agent/collector.py:111-112 | with harmless stragglers in flight the same holds of the state, and a legal event leaves the mission harmless again |
| Stragglers.ForwardsRun | backend/app/api/v1/events.py:122-160 | the state-level invariant behind it, over every interleaving of stragglers and new attempts |
| Stragglers.AnswersLastRun | backend/app/api/v1/events.py:122-160 | whatever else is in flight, an accepted state is never fallen behind, and a refused import stays behind |
| Convergence.FirstSyncIsLegal | collectors/observatory_collectors/openclaw_agent/collector.py:102-110 | a first-sync event is legal iff its state is valid and not behind the projection |
| Convergence.RestartConverges | collectors/observatory_collectors/openclaw_agent/collector.py:91-113 | from any reachable backend with anything in flight, a restart and one delivered poll bring every mission whose file state is valid and not behind to the file's state; missions idle at the start are judged by where they stood, then also show the file's title, agent, PR and commit where it has any, and are untouched if behind or not mentioned |
| Convergence.LockstepRound | collectors/observatory_collectors/openclaw_agent/collector.py:94-113 | while map and projection agree and stragglers of the missions in map and file are harmless, a delivered poll is refused nothing iff every entry moved as the lifecycle allows; then both equal the file and stragglers of the missions in the map are harmless again |
| Convergence.LockstepHolds | collectors/observatory_collectors/openclaw_agent/collector.py:94-113 | over any number of such polls, answers lost or not, nothing is refused and after each both equal the file |
| Convergence.LockstepAfterRestart | collectors/observatory_collectors/openclaw_agent/collector.py:91-113 | from any reachable backend with anything in flight, a restart poll after which no file state is behind leaves map and projection equal to the file, and lockstep holds from there |
| Convergence.RepeatedPollIsSilent | collectors/observatory_collectors/openclaw_agent/collector.py:99-100 | polling an unchanged file sends nothing and keeps the map, delivered or not |
| Convergence.AfterALossOnlyBackfillOrRestart | collectors/observatory_collectors/openclaw_agent/collector.py:99-112 | once the projection lags the map, or the mission is missing, further progress is legal iff the file asks for a backfill; after a restart it is legal |
| Convergence.LostDeliveryLeavesALag | collectors/observatory_collectors/openclaw_agent/collector.py:111-112 | news that was polled but took no effect at the backend leaves exactly such a lag |
| Client.ObservatoryClient.SubmitEvent | collectors/observatory_collectors/client.py:73-110 | between one and max_retries + 1 posts, repeating after 500, 502, 503, 504 and connection errors and stopping at the first success or other status; one failure counted iff it returns false; total time slept |
| Client.TotalDelayClosedForm | collectors/observatory_collectors/client.py:73-110 | n retries sleep 2^n - 1 seconds up to five and 31 + 30(n - 5) beyond |
| Delivery.VerdictIsTruthful | collectors/observatory_collectors/client.py:73-110 | acceptance means one clean attempt's record, refusal means an illegal update and no change, giving up means either no change or exactly one clean attempt's |
| Delivery.OnlyOutagesAreRetried | collectors/observatory_collectors/client.py:28-29 | of the route's answers the client repeats exactly those a failed storage call gave, and never a 409 or 422 |
| VersionedRows.RoundTripIffStorable | backend/app/storage/clickhouse.py:569-631 | encoding and decoding a record is the identity iff no optional text is the empty string |
| VersionedRows.ProjectedRecordsAreStorable | backend/app/services/pipeline.py:255-266 | every record a legal history upserts is storable |
| VersionedRows.MissionTable.UpsertMission | backend/app/storage/clickhouse.py:569-586 | appends the encoded row, or fails before or after doing so |
| VersionedRows.MissionTable.GetMission | backend/app/storage/clickhouse.py:588-598 | returns the decoded newest row of the id, or nothing iff there is no row |
| VersionedRows.MissionTable.ListMissions | backend/app/storage/clickhouse.py:600-603 | returns the decoded newest row of every mission in ascending order of id |
| VersionedRows.TableRefinesDictionary | backend/app/storage/clickhouse.py:15-19 | any interleaving of upserts and merges leaves a table that stands for the dictionary |
| VersionedRows.ReadsAgree | backend/app/storage/clickhouse.py:588-603 | get and list return exactly what the dictionary store returns |
| VersionedRows.TableHoldsTheSummary | backend/app/storage/clickhouse.py:569-603 | end to end, a read of the table after any ingestion run and any merges is the summary of the mission's history |
| Migrations.Server.Startup | backend/app/storage/clickhouse.py:255-287 | executes the pending files' commands in order up to some point; if nothing fails, every statement of every pending file is executed once and in order before that file's row, and nothing of any other file |
| Migrations.StartupKeepsSound | backend/app/storage/clickhouse.py:276-285 | a startup that stops anywhere keeps the state sound, and an unstopped one over all files completes the ledger |
| Migrations.StartupsAreSound | backend/app/storage/clickhouse.py:272-285 | after any sequence of crashing startups the ledger is a prefix of the files, the commands just before each row are its file's statements one by one and in order, nothing recorded runs again, and a pass over a complete ledger runs no migration |
| Migrations.PassRunsPending | backend/app/storage/clickhouse.py:272-285 | a pass that nothing stops runs each pending file whole and once, and no other |
| Telemetry.NewestFirstSorts | backend/app/storage/memory.py:73-74 | the sort is a descending permutation that keeps the order of ties |
| Telemetry.InMemoryEventStorage.QueryEvents | backend/app/storage/memory.py:56-74 | every row is a stored event that meets each given filter, newest first and up to the limit; below the limit no stored match is missing, at the limit none that is missing was received later than a row |
| Telemetry.LatestIsFirstRow | backend/app/storage/base.py:71-78 | the latest event is the first row of the query it is read by |
| Telemetry.LatestIsReceivedLast | backend/app/storage/base.py:71-78 | it is the matching event received last, the first inserted among ties, and absent iff nothing matches |
| Registry.CountsAddUp | backend/app/services/registry.py:60-106 | the views online, offline and unknown add up to all views |
| Registry.RegistryService.BuildViewOf | backend/app/services/registry.py:64-104 | the read model's own steps over the store give the view that the lemmas are about, or fail with the store |
| Registry.RegistryService.ViewsOf | backend/app/services/registry.py:60-62 | one view for each asset in order, each on the clock as it then reads and on the stream as it then is, which only grows from one to the next |
| Liveness.DetectorAndReadModelAgree | backend/app/services/offline.py:111-118 | detector and read model judge every asset alike on the same store and clock |
| Liveness.ChangesFormChains | backend/app/services/offline.py:79-104 | over a process lifetime with any storage errors each asset's changes form one chain from its baseline to its known state, and unknown is never re-entered |
| Liveness.ChangesAreWrittenAtMostOnce | backend/app/services/offline.py:120-146 | whatever fails or arrives in between, what the detector puts on the stream is the transition events of some of its changes, in order and each once, and the rest of the stream came from elsewhere |
| Liveness.TypesAlternate | backend/app/services/offline.py:87-104 | consecutive transitions of one asset are of opposite types |
| Liveness.NothingIsLostWithoutErrors | backend/app/services/offline.py:120-146 | if each change is written before the next look and no write fails, what the detector puts on the stream is the transition events of all its changes but a pending one, in order |
| Liveness.EventsTellTheirChange | backend/app/services/offline.py:87-146 | every event of the detector is asset_offline iff its change is to offline and asset_online iff it is to online, and carries the change's asset, its time as both times, both states and the last heartbeat |
| Liveness.OnlyHeartbeatsCount | backend/app/services/offline.py:111-118 | an event that is no heartbeat of an asset changes no judgement of it |
| Liveness.SilenceIsReportedInTime | backend/app/services/offline.py:74-118 | an online asset that falls silent at h gets exactly one offline change, stamped in (h + timeout, h + timeout + gap], as soon as a sweep is late enough and not before |
| Liveness.SilenceIsWrittenInTime | backend/app/services/offline.py:74-146 | on the stream, if writes succeed: exactly one event about the silent asset, an asset_offline stamped in (h + timeout, h + timeout + gap] from online to offline with last heartbeat h, and none before a look is late enough |
| Liveness.BeatingBackendStaysOnline | backend/app/services/offline.py:184-213 | while every look at the backend's asset comes within the timeout of its last beat the backend never reports itself offline |
| Liveness.ScheduledCollectorStaysOnline | collectors/observatory_collectors/runner.py:82-99 | a collector whose heartbeats start on the runner's schedule and arrive in order within a delay is never reported offline while interval + pass gap + delay is within the timeout |
| Liveness.LateBeatsAreReported | backend/app/config.py:214-219 | with any larger gap a run of the detector, from its start, reports the backend offline |
| Liveness.StaleHeartbeat | backend/app/services/offline.py:111-118 | an old heartbeat never makes an asset look online, and makes an online one look offline iff it is received last |
| Liveness.OldHeartbeatFakesSilence | backend/app/services/offline.py:22-23 | a concrete stream on which an online asset is judged offline because of an old heartbeat |
| OfflineDetection.OfflineDetector.RunOnce | backend/app/services/offline.py:74-109 | a sweep runs the detector's looks over the listed assets while other events arrive at any storage call, stopping at a storage error; a completed one sets each gauge to the number of assets judged so, the gauges add up, and they equal the read model's counts if no heartbeat of an asset arrived behind the look at it |
| OfflineDetection.UndisturbedSweepAgrees | backend/app/services/offline.py:74-118 | in such a sweep the judgements made one after the other count up to what the read model shows at its end |
| OfflineDetection.BeatKeepsJudgementIff | backend/app/services/offline.py:111-118 | a beat arriving behind the look leaves the judgement standing iff it is not the newest or is judged alike |
| OfflineDetection.GaugesCanLag | backend/app/services/offline.py:79-109 | a sweep after which the gauges and the read model differ, because a first beat arrived behind the look |
| OfflineDetection.BackendHeartbeat.BeatOnce | backend/app/services/offline.py:184-202 | writes one heartbeat of the backend with one clock as source and receipt time, which becomes the latest unless one received no earlier is there, which then stays the latest |
| Schedule.StartsAreSpaced | collectors/observatory_collectors/runner.py:82-99 | starts of a task are at least one interval and less than interval plus gap apart, and none is overdue after a pass |
| Schedule.WindowHoldsFewStarts | collectors/observatory_collectors/runner.py:82-99 | a window of length T holds at most floor(T / interval) + 1 starts of a task |
| Runner.CollectorRunner.RunPending | collectors/observatory_collectors/runner.py:82-99 | a pass starts every due task once and no other, submits everything the producers returned, in order, keeps the counters equal to what happened, and returns the number of accepted events |
| Runner.EventsAreConserved | collectors/observatory_collectors/runner.py:90-99 | between passes the events submitted are exactly those the producers returned, in order, so events produced are events accepted plus delivery failures |
| Runner.ReportsNeverDecrease | collectors/observatory_collectors/runner.py:70-80 | failure totals reported by heartbeats never decrease |
| ApiKeys.ApiKeyBindings | backend/app/config.py:128-179 | returns the parse of the setting or its first error |
| ApiKeys.JsonFormBinds | backend/app/config.py:143-159 | after a leading brace: an accepted object binds exactly its members' names to their keys, single or listed, all stripped; each error is returned exactly when it applies, in order |
| ApiKeys.TextFormBinds | backend/app/config.py:160-178 | otherwise the same for the non-blank comma-separated pieces, each cut at its first colon, a piece without one being refused |
| Text.StripCuts | backend/app/config.py:143-171 | stripping takes white space off both ends and nothing else |
| ApiKeys.Authenticate | backend/app/auth.py:93-104 | no subject iff nothing is presented or no binding has the key, otherwise an identity bound to it |
| ApiKeys.AuthenticationIsLookup | backend/app/auth.py:93-104 | over an accepted setting the scan is a lookup and does not depend on the order of bindings |
| ApiKeys.ParseOfPrint | backend/app/config.py:160-179 | printing and parsing gives the same bindings iff they are trimmed, free of separators and bind each key to one identity |
| ApiKeys.TextFormRoundTrips | backend/app/config.py:143-179 | whatever the text form accepts can be printed and read back, unless its first id begins with a brace |
| LogicalNames.NameIsInjective | collectors/observatory_collectors/host_pi/inventory.py:317-318 | prefix and ordinal can be read back from a name |
| LogicalNames.DecimalDenotes | collectors/observatory_collectors/host_pi/inventory.py:318 | the ordinal is written in decimal without a leading zero |
| LogicalNames.OrdinalsCountUp | collectors/observatory_collectors/host_pi/inventory.py:310-319 | under each prefix the names are 1 to k in order of first appearance |
| LogicalNames.NamesIdentifyDevices | collectors/observatory_collectors/host_pi/inventory.py:304-319 | two entries share a name iff they share a physical device |
| LogicalNames.AssignLogicalNames | collectors/observatory_collectors/host_pi/inventory.py:304-319 | names every entry in place: two share a name iff their own fields put them on one device, and the name is the prefix for the type of the first entry on that device followed by the count of devices first seen under that prefix so far |

## Left out

- HTTP, the web framework's wiring, logging, Prometheus objects and the database driver; stores are state, counters are integers.
- Requests with different bodies for one mission that overlap; see the assumptions above.
- The heartbeat and host-inventory handlers (payload schema, future-skew and known-identity checks).
- JSON text, event ids, time zones and the millisecond rounding of stored times; the JSON form of `API_KEYS` enters as its decoded value.
- Field constraints of the payload schema other than the non-empty mission id are one flag, `wellFormed`; the payload's free-text note is not projected and not modelled.
- Exceptions outside those the client's retry loop catches.
- Read outages of the mission table driver, and the registry and inventory tables, which follow the same versioned-row pattern.
- Revision ties and several writers, which the code excludes at backend/app/storage/clickhouse.py:142-146; rows form a set because revisions are unique.
- Reading and splitting migration files; the model starts from the sorted list of files with their statements.
- `run_once` of the runner, which resets the schedule, and the clock's progress within a pass.
- Health scores, seeding, the HTML monitor, the frontend, host probes and formatting helpers; they would add only easy members.
- RestartConverges: requires distinct mission ids in the document; a document that lists one mission twice sends its entries in order and is covered only by `Produce` itself.
