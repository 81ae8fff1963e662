# Feature flag service: a verified model

The service stores feature flags in PostgreSQL and evaluates them from a cache that every serving
process keeps in memory. A write publishes an invalidation over Redis; each process drops the flag
it names. This project models that protocol, the evaluation engine whose decisions must survive
edits and normalisation, the percentage rollout, and the time-to-live cache of the client SDK.

## How it is organised

| file | what it holds |
|---|---|
| `Values.dfy` | JSON values, Python's equality, and the library functions (`mmh3.hash`, `str.lower`, `str.isspace`, `float` of text and of numbers) as fields of a `Host` |
| `StableSorting.dfy` | `sorted(key=...)` by its promise, and the search that follows it |
| `Targeting.dfy`, `Evaluation.dfy` | operators, rules, and the precedence chain |
| `Rollout.dfy`, `Names.dfy` | buckets and their exact shares; keys, hash inputs and normalised names |
| `EnvironmentConfigs.dfy`, `RuleEdits.dfy`, `RuleHandlers.dfy` | typed configurations, edits as values, and the rule endpoints on shared nested dictionaries |
| `FlagCaches.dfy`, `TtlCaches.dfy` | the two caches as objects, and the evaluation endpoints |
| `Writes.dfy` | rows, requests, audit rows, and the handlers and session as objects |
| `Replicas.dfy`, `StartUp.dfy` | the pub/sub listener as an object, a process and its start-up |
| `Protocol.dfy` | all of it as one transition system: requests and processes interleaved step by step |
| `Coherence.dfy`, `AuditTrail.dfy`, `References.dfy`, `Versions.dfy` | the invariants of every run |
| `Schedules.dfy` | composite runs: a process starting or handling its messages in any order, a request going through or rolling back |
| `Guarantees.dfy` | what callers may rely on |
| `Failures.dfy`, `Witnesses.dfy` | what the protocol does not give them, and a run from empty tables to each failure |

Objects whose methods update their fields are classes here; each method is tied to a function of
values, and the lemmas and the transition system use those functions. A run starts with empty tables
and stopped processes; requests, processes and steps are unbounded in number and order.

Two history variables record what the code forgets, and both are accounted for by lemmas of their own.
`missed` collects the keys whose invalidation passed a process by (`Coherence.MissedOnlyWhen` gives
the three causes). It is an over-approximation: a missed key is current when its change was rolled
back (`Failures.MissedMayBeCurrent`). `overwritten` collects the flags on which a request committed
over a change it had not read (`AuditTrail.OverwrittenOnlyWhen`); it can be read off the two tables,
by comparing the version with the audit log (`AuditTrail.VersionCountsEdits`).

Whether a served snapshot is the committed row needs no history: in every reachable state it is
exactly when it carries the row's id and version (`Versions.VersionDecidesCurrency`), provided the
tables show no lost update of the flag. After a lost update the equivalence still holds for every
process that loads the row later, until the next one (`Versions.VersionDecidesSince`,
`Witnesses.VersionTellsAgain`). A process that loads between two overlapping commits is the case where
the version does not tell (`Failures.SameVersionOtherContents`, `Witnesses.VersionDoesNotTell`).

Facts about `str.lower` and `str.strip` that a few lemmas about names need are collected in
`Names.Lawful`; `Names.AsciiHostIsLawful` shows that they can be met together.

## Where the code and its documentation differ

- ADR 002 says that a message older than the cached version is ignored. `handle_invalidation_message`
  never reads the version, for any action: the model follows the code, and `FlagCaches.Confluence`
  shows why this is harmless.
- ADR 002 draws the commit before the publish. The code publishes inside the handler and commits
  after it returns. Coherence holds all the same, because nothing is inserted into a cache after
  warm-up; but a change that is rolled back still evicts its flag
  (`Failures.RolledBackChangeStillEvicts`).
- ADR 002 relies on `warm_up` for a consistent start. An invalidation published before the process
  subscribes is lost, and the old row is then served until the next announcement or restart
  (`Failures.EarlySnapshotIsServedStale`, `Failures.StaleStaysStale`).
- `models/flag.py` says that the version grows with every change. Under overlapping updates it grows
  by less (`Failures.OverlappingUpdatesLoseAVersion`); `AuditTrail.VersionCountsEdits` says exactly when.
- ADR 002 offers `version` for detecting what was missed. It decides unless an update of the flag was
  lost after the process loaded it (`Versions.VersionDecidesSinceLoad`): a lost update is necessary for
  the test to fail (`Failures.SameVersionOtherContents`) and not sufficient
  (`Witnesses.VersionTellsAgain`).
- `DELETE /flags/{key}` publishes and returns before its commit. The audit row it adds refers to the
  flag under `ondelete="RESTRICT"`, so a database that enforces the key refuses the commit of every
  delete (`References.KeyRefusesDeletes`), after the flag has been taken out of the caches.

## Model

| member | source | states |
|---|---|---|
| Guarantees.ServedIsCommittedOrCovered | feature-flags/src/core/cache.py:58-133 | coherence over every interleaving: whatever a process holds for a key is the committed row, or an invalidation of the key is queued or running there, or it was missed |
| Guarantees.AnswersMatchDatabase | feature-flags/src/core/evaluation.py:156-183 | a key that is known to be current (neither in flight nor missed, or cached with the row's id and version) is unknown to every endpoint, or answered by POST /evaluate and `evaluate_from_cache` with exactly the result of evaluating the committed row |
| Guarantees.AnswerShowsCurrency | feature-flags/docs/adr/002-eventual-consistency-tradeoff.md:68 | a served answer is that of the committed row if and only if the version in the response is the row's, as long as the version counts the audited changes; the flag is in the table under its id because the audit log refers to it (or by assumption, where the key is not enforced) |
| Guarantees.AnswerShowsCurrencySinceLoad | feature-flags/docs/adr/002-eventual-consistency-tradeoff.md:68 | the same whatever updates were lost earlier, as long as none of the flag is lost after the process has loaded its snapshot |
| Versions.VersionDecidesCurrency | feature-flags/docs/adr/002-eventual-consistency-tradeoff.md:68 | in every reachable state, whatever was missed or rolled back, a process holds the committed row if and only if it holds its id and version, provided the version counts the audited changes |
| Versions.VersionDecidesSince | feature-flags/docs/adr/002-eventual-consistency-tradeoff.md:68 | lost updates of the past do not matter: from any state in which the process holds the committed row, the same equivalence holds over every run without a restart on which no commit on the flag goes over a change its request had not read |
| Versions.VersionDecidesSinceLoad | feature-flags/docs/adr/002-eventual-consistency-tradeoff.md:69 | in particular over every such run since the process loaded its snapshot |
| Versions.HeldFlagExists | feature-flags/src/models/audit.py:27 | while the audit log's references hold, every flag a process holds is in the table, under the same key and id |
| Versions.NeverAhead | feature-flags/src/api/v1/flags.py:222 | a held snapshot of the same flag never has a version above the row's, under the same condition |
| Versions.StepKeepsVersions | feature-flags/src/infra/redis.py:84-126 | every step of every request and process keeps held snapshots identified (no other key has their flag) and, unless the flag was overwritten, in the past of their rows |
| Versions.CommitKeepsPast | feature-flags/src/api/deps.py:27-34 | a commit that does not go over an unread change keeps every snapshot of the flag in the past of its row: the version is lower, or it is the row |
| Guarantees.DisabledFlagIsOff | feature-flags/src/api/v1/environments.py:67-84 | with the environment disabled in the committed row and no override, a key known to be current is answered with the row's default and FLAG_DISABLED, or is unknown to every endpoint |
| Guarantees.QuiescentCacheIsSubmap | feature-flags/src/core/cache.py:81-113 | with nothing in flight and nothing missed, the cache is a sub-map of the database |
| Guarantees.NothingBeforeWarmUp | feature-flags/src/main.py:146-156 | before the snapshot is installed every evaluation is refused with 503, and no invalidation has been received: none can fall between load and install |
| Guarantees.BatchAnswersRequestedKeys | feature-flags/src/api/v1/evaluation.py:81-95 | in every reachable state the keys of a batch response are the requested keys the cache holds, in order and with repetition |
| Guarantees.ShrinkStep | feature-flags/src/core/cache.py:115-133 | no step of a ready process other than a restart adds a flag or changes a snapshot |
| Guarantees.ServedOnlyShrinks | feature-flags/src/core/cache.py:81-113 | over any run without a restart, a ready process serves fewer and fewer flags and never a different snapshot |
| Guarantees.KillSwitch | feature-flags/src/core/cache.py:115-133 | once a process has run the handler of any invalidation of a flag, no endpoint there answers for the flag until the process restarts: `evaluate_from_cache` gives the caller's default, POST /evaluate 404, and batches omit it |
| Schedules.AnyHandlingDrains | feature-flags/src/infra/redis.py:97-106 | in whatever order a process reads its messages and runs its handler tasks, it ends up without exactly the mentioned keys, and nothing else is touched |
| Schedules.HandlingKeepsDrained | feature-flags/src/infra/redis.py:97-106 | every read and every task takes one off the backlog and leaves open what remains in the end |
| Schedules.DrainHandlesAll | feature-flags/src/infra/redis.py:97-106 | reading the whole connection and then running every task is one such order, and always possible |
| Guarantees.DrainedCacheIsCurrent | feature-flags/src/infra/redis.py:84-126 | once everything in flight is handled, in any order, every flag a process serves is the committed row, except for missed keys |
| Guarantees.RestartServesTable | feature-flags/docs/adr/002-eventual-consistency-tradeoff.md:69-71 | from every reachable state a restart leads to a subscribed process that serves the whole table as it is, with only announced and uncommitted keys missed |
| Schedules.Announces | feature-flags/src/api/v1/flags.py:208-252 | every accepted request, deletes included, reaches the end of its handler: tables unchanged, its write pending, and every process has been told or has missed it |
| Schedules.WriteGoesThrough | feature-flags/src/api/deps.py:27-34 | undisturbed, every accepted request commits: its write is applied, one audit row is added, nothing is overwritten |
| Schedules.AnnouncedThenRolledBack | feature-flags/src/api/deps.py:27-34 | for every accepted request, a rollback after the publish leaves tables and requests as they were and the message with every subscriber |
| Schedules.RestOfHandler | feature-flags/src/api/v1/flags.py:227-229 | a handler that has read its row can flush and publish whatever was committed in between |
| Schedules.ProcessStarts | feature-flags/src/main.py:146-156 | loading, installing and subscribing is a legal run after which the process serves the loaded rows and has missed what was announced before |
| Guarantees.DeliveredWriteEvicts | feature-flags/src/api/v1/flags.py:91-97 | every accepted request whose message is delivered leaves the flag unknown to every endpoint of every subscribed process once everything in flight there is handled, in any order; a new flag is therefore not served before a restart |
| Failures.MissedWriteIsServedStale | feature-flags/src/api/v1/flags.py:91-97 | when the publish fails or the process is not subscribed, a committed change or delete leaves the process serving a snapshot that is not the row, with nothing in flight; where the audit log's key is enforced this is about changes, since no delete commits |
| Failures.LostMessageIsServedStale | feature-flags/src/infra/redis.py:110-121 | a message that was delivered but unread when the connection broke leaves the process serving a snapshot that is not the row, with nothing in flight; where the audit log's key is enforced this is about changes, since no delete commits |
| Failures.EarlySnapshotIsServedStale | feature-flags/src/main.py:146-156 | a process that loads its snapshot between the announcement and the commit of a change or delete serves the old row once it is committed, although it is subscribed and nothing failed; where the audit log's key is enforced this is about changes, since no delete commits |
| Failures.StaleStaysStale | feature-flags/src/infra/redis.py:110-126 | reconnecting does not repair a stale flag: it is served unchanged until its key is announced again or the process restarts |
| Failures.StaleStep | feature-flags/src/infra/redis.py:84-126 | the same for one step of any request or process |
| References.KeyRefusesDeletes | feature-flags/src/models/audit.py:27 | a commit keeps the audit log's references to flags intact if and only if it is not the commit of a delete |
| References.ReferencesHoldWithoutDeletes | feature-flags/src/models/audit.py:27 | after any run the references hold if and only if no delete was committed on it |
| References.StepKeepsGone | feature-flags/src/api/v1/flags.py:246-252 | a deleted flag never comes back under its id, so broken references stay broken |
| Failures.RolledBackChangeStillEvicts | feature-flags/src/api/v1/flags.py:246-252 | any accepted request that is announced and rolled back, a refused delete included, still makes the flag unknown to every endpoint of every subscribed process, although its row never changed; in whatever order the messages are handled |
| Failures.MissedMayBeCurrent | feature-flags/src/api/v1/flags.py:91-97 | an announcement that fails and a change that is rolled back leave the key counted as missed while the process serves the committed row |
| Failures.OverlappingUpdatesLoseAVersion | feature-flags/src/api/v1/flags.py:208-230 | two overlapping updates of one flag are both audited while the version grows by one |
| Failures.SameVersionOtherContents | feature-flags/docs/adr/002-eventual-consistency-tradeoff.md:68 | a process that starts between the commits of two overlapping updates serves the row's id and version, subscribed and with nothing in flight; what it serves is stale exactly when the second change altered the contents |
| Witnesses.FailedPublishLeavesStale | feature-flags/src/api/v1/flags.py:91-97 | a run from empty tables to a subscribed process that serves a stale flag after a failed publish |
| Witnesses.DeletedFlagIsServed | feature-flags/src/api/v1/flags.py:246-252 | the same for a flag whose row is gone; the references of the audit log are broken in that state, so it needs a database that does not enforce the key |
| Witnesses.LostMessageLeavesStale | feature-flags/src/infra/redis.py:110-121 | a run to a stale flag after a lost connection |
| Witnesses.EarlySnapshotLeavesStale | feature-flags/src/main.py:146-156 | a run without any failure to a subscribed process that serves a stale flag |
| Witnesses.RefusedDeleteEvicts | feature-flags/src/models/audit.py:27 | a run after which the flag is in the table and unknown to every endpoint, because its delete was refused |
| Witnesses.MissedKeyIsCurrent | feature-flags/src/api/v1/flags.py:91-97 | a run to a missed key that is served as it is in the table |
| Witnesses.VersionIsLost | feature-flags/src/api/v1/environments.py:35-48 | a run that switches a flag on and off with overlapping requests: two audited changes, version 2 |
| Witnesses.VersionDoesNotTell | feature-flags/src/api/v1/environments.py:35-48 | a run to a subscribed process that serves the flag switched on, at the version of the row that is switched off |
| Witnesses.VersionTellsAgain | feature-flags/docs/adr/002-eventual-consistency-tradeoff.md:69 | a run to a state in which an update of the flag was lost and a restarted process serves the row, at its id and version |
| Coherence.StepKeepsInv | feature-flags/src/infra/redis.py:84-126 | every step of every request and process keeps the coherence invariant |
| Coherence.PublishKeeps | feature-flags/src/api/v1/flags.py:91-97 | announcing a change covers its key at every process, whether or not the message arrives |
| Coherence.CommitKeeps | feature-flags/src/api/deps.py:27-34 | a commit after the announcement keeps every process coherent, because the one key that changes was covered before |
| Coherence.LoadKeeps | feature-flags/src/main.py:111-127 | loading a snapshot while changes are announced but not committed keeps coherence |
| Coherence.TaskKeeps | feature-flags/src/core/cache.py:115-133 | running any one of the created handler tasks keeps coherence |
| Coherence.ReplicaStepKeeps | feature-flags/src/infra/redis.py:90-126 | installing, subscribing, receiving, losing the connection and restarting keep coherence |
| Coherence.LoadedSnapshots | feature-flags/src/main.py:111-127 | whatever order the rows are returned in, the loaded cache is the table, each row under its own key |
| Coherence.RunKeepsInv | feature-flags/src/main.py:131-166 | the invariant holds after every finite run |
| Coherence.MissedOnlyWhen | feature-flags/src/infra/redis.py:84-126 | a key becomes missed exactly when its message does not reach a running process, was unread when the connection broke, or had been announced but not committed when the snapshot was loaded |
| AuditTrail.VersionCountsEdits | feature-flags/src/api/v1/flags.py:222-226 | under every interleaving with rollbacks, `version - 1` is at most the number of audited changes, and equal to it exactly when no commit on the flag went over a change its request had not read |
| AuditTrail.OverwrittenOnlyWhen | feature-flags/src/api/v1/flags.py:63-68 | a flag becomes overwritten exactly when a request commits on it and another one has committed since its unlocked read |
| AuditTrail.AuditReplays | feature-flags/src/api/v1/environments.py:35-48 | as long as no update was lost and no rule endpoint was used, each audit row's "before" is where the earlier rows lead and the whole log leads to the stored environments |
| AuditTrail.SerialSchedule | feature-flags/src/api/v1/flags.py:208-226 | on every serial schedule the version counts the changes exactly and the audit log replays |
| AuditTrail.OneAuditRowPerCommit | feature-flags/src/api/v1/flags.py:71-88 | over any run the audit log grows by one row per commit, only at the end, and a rolled-back request leaves none |
| AuditTrail.StepKeepsAudit | feature-flags/src/api/deps.py:27-34 | every step keeps the invariant tying rows, requests in progress and audit log |
| AuditTrail.CommitKeepsRow | feature-flags/src/api/v1/flags.py:217-226 | a commit keeps version, log and replay of its own flag in step, and notices when it overwrites |
| AuditTrail.CommitKeepsChange | feature-flags/src/api/v1/flags.py:63-68 | a commit by another request leaves it known whether a request's read row is still the row |
| FlagCaches.HandledAllRemovesMentioned | feature-flags/src/core/cache.py:115-133 | any sequence of messages leaves the cache without the mentioned keys and otherwise as it was |
| FlagCaches.Confluence | feature-flags/src/core/cache.py:115-133 | order, repetition, versions and actions of the messages are irrelevant: the same keys give the same cache |
| FlagCaches.AnyTaskOrder | feature-flags/src/infra/redis.py:100-106 | handler tasks may run in any order and any number of times |
| FlagCaches.IndexedIsKeyed | feature-flags/src/core/cache.py:107 | the warm-up map stores every loaded snapshot's key, and each snapshot under its own key |
| FlagCaches.LastSnapshotCounts | feature-flags/src/core/cache.py:107 | of several loaded snapshots with one key the last one is installed |
| FlagCaches.BatchKeys | feature-flags/src/api/v1/evaluation.py:81-95 | for a keyed cache the keys of a batch are the requested keys present, in order and with multiplicity |
| FlagCaches.BatchValues | feature-flags/src/api/v1/evaluation.py:81-95 | each answer of a batch is the evaluation of the cached snapshot of its key, one for every requested key present |
| FlagCaches.AbsentIsNotFound | feature-flags/src/core/evaluation.py:156-183 | a ready cache lacks a key exactly when every endpoint treats it as unknown: the caller's default, 404, no entry in any batch |
| FlagCaches.FlagCache.MarkReady | feature-flags/src/core/cache.py:55-56 | becomes ready and changes nothing else |
| FlagCaches.FlagCache.Get | feature-flags/src/core/cache.py:58-73 | refused before warm-up; afterwards the snapshot or nothing |
| FlagCaches.FlagCache.Set | feature-flags/src/core/cache.py:75-79 | stores the snapshot; the cache stays keyed exactly when the snapshot carries that key |
| FlagCaches.FlagCache.Invalidate | feature-flags/src/core/cache.py:81-94 | removes the key without data, replaces the snapshot with data |
| FlagCaches.FlagCache.WarmUp | feature-flags/src/core/cache.py:96-113 | installs the whole snapshot and becomes ready at once; a snapshot without a key changes nothing |
| FlagCaches.FlagCache.HandleInvalidationMessage | feature-flags/src/core/cache.py:115-133 | removes the key for every action and never looks at the version; a message without a key does nothing |
| FlagCaches.EvaluateSingle | feature-flags/src/api/v1/evaluation.py:33-60 | 503 before warm-up, 404 for an unknown flag, else the evaluation of the cached snapshot for the request's attributes, its user id without outer white space and its lowered environment |
| FlagCaches.EvaluateBatch | feature-flags/src/api/v1/evaluation.py:69-95 | the loop returns the single evaluations that succeed, in order, for the same context of the request, or 503 as a whole |
| Replicas.Listener.RunTask | feature-flags/src/infra/redis.py:100-106 | any created task may run next; it handles its message on the cache and disappears |
| Replicas.Listener.Receive | feature-flags/src/infra/redis.py:97-106 | the next message becomes a task |
| Replicas.Listener.Subscribe | feature-flags/src/infra/redis.py:91-95 | subscribing resets the attempt counter and brings no earlier message |
| Replicas.Listener.LoseConnection | feature-flags/src/infra/redis.py:114-126 | unread messages are lost, created tasks are not, and the next delay is 1, 2, 5, 10 and from then on 30 seconds |
| Replicas.ReceivedKeepsInFlight | feature-flags/src/infra/redis.py:97-106 | receiving neither adds nor loses an invalidation in flight |
| Replicas.WithoutTaskMentions | feature-flags/src/infra/redis.py:100-106 | running a task takes out of flight at most the key it removes |
| StartUp.Lifespan | feature-flags/src/main.py:131-156 | at the end of start-up the cache is ready and holds exactly the loaded rows, each field in its place, and the listener has received nothing |
| Writes.WorkIsLocal | feature-flags/src/api/v1/flags.py:109-145 | an accepted request writes one row under one non-empty key, records that flag, bumps the version it read by one, and fails only if another request changes the row |
| Writes.RequestStores | feature-flags/src/api/v1/flags.py:109-252 | field by field, what each accepted create, PATCH, toggle, rule edit and delete stores: given fields as given, every other field as it was, the version one higher |
| Writes.RequestRecords | feature-flags/src/api/v1/flags.py:71-88 | what each accepted request records: the flag, the action, the row before and the row as stored (the environments only for toggles and rule edits) |
| Writes.Refusals | feature-flags/src/api/v1/flags.py:63-68 | which requests are refused: 422 for a key without slug characters or an empty PATCH, 409 for a taken key, 404 for what does not exist, and nothing else |
| Writes.AppliedOnlyWhen | feature-flags/src/models/flag.py:25-27 | a write fails exactly when its key is taken or the row it is meant for is gone |
| Writes.AppliedIsLocal | feature-flags/src/models/flag.py:25-27 | a write touches the row under its key and no other, and keeps keys unique and in place |
| Writes.FreshWriteMatchesAudit | feature-flags/src/api/v1/flags.py:222-226 | applied to the row it was computed from, a change always succeeds and stores the recorded "after"; "before" is what was read |
| Writes.Session.Finish | feature-flags/src/api/deps.py:27-34 | row and audit rows are committed together, or neither is when the handler or the database fails |
| Writes.HandleCreate | feature-flags/src/api/v1/flags.py:109-146 | 422, 409 or a new row with the fields of the request, under the accepted key and with version 1, and its "created" audit row in the session |
| Writes.AssignGivenFields | feature-flags/src/api/v1/flags.py:211-222 | every field that is given and not null is assigned, every other one keeps its value, and the version grows by one |
| Writes.HandlePatch | feature-flags/src/api/v1/flags.py:202-230 | 422, 404 or the row with every given field as given, the others as they were and the version raised by one, and its audit row in the session |
| Writes.HandleToggle | feature-flags/src/api/v1/environments.py:28-84 | 404 or the row with that environment switched, created disabled first when it is new, and its audit row |
| Writes.HandleDelete | feature-flags/src/api/v1/flags.py:241-252 | 404 or a pending removal with its audit row; the table is unchanged until the commit |
| Protocol.MessageNamesChange | feature-flags/src/api/v1/flags.py:91-97 | the published message carries the flag's key, the version of its row after the request (of the removed row for a delete), and which of the two it was |
| RuleHandlers.EditInPlace | feature-flags/src/api/v1/flags.py:270-351 | on shared nested dictionaries the edit has the intended value, the recorded "before" already shows it when the environment existed, and refused edits change nothing |
| RuleHandlers.EditLoaded | feature-flags/src/api/v1/flags.py:270-277 | loaded into dictionaries of their own and edited in place, the environments get the edited value and the recorded "before" is the aliased one; 404 for what is missing |
| RuleHandlers.HandleRules | feature-flags/src/api/v1/flags.py:270-355 | 404 for a missing flag, environment or rule, or the edited row with the version raised by one and exactly one audit row in the session |
| Evaluation.Precedence | feature-flags/src/core/evaluation.py:4-13 | the documented precedence as conditions on the configuration and the hash of `flag:user`: which reason applies, in both directions, with which value, and the key, environment and version in the result; an unconfigured environment gives the default |
| Evaluation.ContextMeaning | feature-flags/src/schemas/evaluation.py:20-33 | the context of a request is the only one with its attributes, its user id without white space at the ends, and its environment without white space at the ends and lowered |
| Evaluation.WinningRule | feature-flags/src/core/evaluation.py:122-134 | the rule that is served is the matching one with the least (priority, position); none exactly when none matches |
| Evaluation.RuleOrderIrrelevant | feature-flags/src/core/evaluation.py:124-126 | reordering rules with pairwise distinct priorities changes no decision |
| Evaluation.RaisingRollout | feature-flags/src/core/evaluation.py:136-154 | raising the percentage changes a decision in one way only: DEFAULT becomes ROLLOUT with True, exactly for the users whose hash modulo 10000 is below the new threshold |
| StableSorting.StableSortUnique | feature-flags/src/core/evaluation.py:125 | sorted lists with the same elements in the same order key by key are equal |
| StableSorting.LibrarySortIsStableSort | feature-flags/src/core/evaluation.py:125 | any algorithm that sorts stably returns the list the model computes |
| StableSorting.WinnerIsLeast | feature-flags/src/core/targeting.py:135-145 | first match after a stable sort is the least (key, index) among the matching elements |
| StableSorting.WinnerConcat | feature-flags/src/core/targeting.py:135-145 | the winner of a concatenation is the better of the two winners, the left one on ties |
| StableSorting.ReorderKeepsWinner | feature-flags/src/core/evaluation.py:124-126 | any permutation of elements with distinct keys has the same winner |
| StableSorting.FilterWinner | feature-flags/src/api/v1/flags.py:349 | the winner among the kept elements is the winner under the stronger test |
| StableSorting.FilterPlaces | feature-flags/src/api/v1/flags.py:349 | a filtered list holds every kept element, in order and with multiplicity, and nothing else |
| StableSorting.MapWinner | feature-flags/src/models/environment.py:50-66 | rewriting elements without touching key or test rewrites the winner |
| StableSorting.MapSort | feature-flags/src/models/environment.py:51-52 | parsing rules and then sorting them is sorting them and then parsing |
| RuleEdits.AppendedRule | feature-flags/src/api/v1/flags.py:277 | appending a rule changes a decision exactly when the rules decide, it matches, and no matching rule had a priority number as low; then it is served |
| RuleEdits.AppendedToNewEnvironment | feature-flags/src/api/v1/flags.py:274-277 | a rule added to an unconfigured environment is not served: the value stays and the reason becomes FLAG_DISABLED |
| RuleEdits.DeletedRule | feature-flags/src/api/v1/flags.py:349-350 | deleting rules other than the winner by id changes no decision |
| RuleEdits.DeletedRuleDecision | feature-flags/src/api/v1/flags.py:349-350 | the decision after any deletion, the winner's included: the precedence chain with the best matching rule of another id |
| RuleEdits.RemainingRules | feature-flags/src/api/v1/flags.py:349-350 | after a deletion no rule has the id, and the rules with other ids are all there, in order and with multiplicity |
| RuleEdits.StoredRules | feature-flags/src/api/v1/flags.py:277-312 | appending keeps the rules and puts the new one last; replacing puts it at every place of the id and keeps the others |
| RuleEdits.EditedEnvironment | feature-flags/src/api/v1/flags.py:270-351 | an edit is refused with 404 exactly when the environment is missing (unless a rule is added) or no rule has the id to replace; otherwise only the rules of that environment change |
| RuleEdits.ReplacedRule | feature-flags/src/api/v1/flags.py:311-316 | the decision after any replacement, the winner's included: the precedence chain with the best of the rules ahead of the first replaced one, the new rule in its place, and the kept rules behind |
| RuleEdits.ReplacedWinnerStays | feature-flags/src/api/v1/flags.py:311-316 | a winner that is not replaced loses to the new rule exactly when that matches with a lower priority number, or an equal one from a place ahead |
| RuleEdits.EnvironmentFrame | feature-flags/src/api/v1/environments.py:35-43 | an edit of one environment changes no decision in another |
| RuleEdits.EditsStayInTheirEnvironment | feature-flags/src/api/v1/environments.py:35-43 | every edit leaves the other environments as they are |
| RuleEdits.UnreachableEnvironment | feature-flags/src/schemas/evaluation.py:24-27 | an environment stored under a name that normalisation would change is invisible: editing it changes no decision for any request |
| RuleEdits.DisabledServesDefault | feature-flags/src/api/v1/environments.py:67-75 | disabling an environment serves the default there, unless an override is set |
| RuleEdits.ToggledEnvironment | feature-flags/src/api/v1/environments.py:35-43 | a toggle sets the switch and keeps override, rollout, rules and every other environment; a new environment starts with none of them |
| RuleEdits.EnabledNewEnvironment | feature-flags/src/api/v1/environments.py:39-42 | enabling an environment that was not configured serves the default to everybody |
| RuleEdits.DisableThenEnable | feature-flags/src/api/v1/environments.py:39-84 | disabling and enabling again is enabling; an enabled environment comes back exactly as it was |
| EnvironmentConfigs.ParseConfig | feature-flags/src/models/environment.py:50-58 | fails exactly when some rule has no id; otherwise the rules are a stable sort of the parsed ones |
| EnvironmentConfigs.NormalizationKeepsDecision | feature-flags/src/models/environment.py:50-66 | reading a configuration and writing it back changes no decision, absent fields included |
| EnvironmentConfigs.NormalizationIdempotent | feature-flags/src/models/environment.py:50-66 | normalising twice is normalising once |
| EnvironmentConfigs.RoundTrip | feature-flags/src/models/environment.py:50-66 | `from_dict(to_dict(c))` is `c` exactly when its rules are sorted by priority |
| Targeting.RuleMeaning | feature-flags/src/core/targeting.py:114-132 | a rule whose combinator spells OR in any case matches if and only if some condition holds; any other rule, one without combinator included, if and only if it has conditions and all hold |
| Targeting.EqualityConditions | feature-flags/src/core/targeting.py:20-37 | conditions with `eq`, `neq`, `in`, `not_in`, an absent operator, attribute or value included: equality with the operand or with some item of it, and nothing is in an operand that is no list |
| Targeting.TextConditions | feature-flags/src/core/targeting.py:40-49 | `contains` and `starts_with` hold if and only if both sides are text and the attribute has the operand inside, or at its start |
| Targeting.OrderConditions | feature-flags/src/core/targeting.py:52-77 | `gt`, `gte`, `lt`, `lte` hold if and only if both sides convert to floats and the attribute stands in that order to the operand, infinities included |
| Targeting.UnknownOperator | feature-flags/src/core/targeting.py:100-104 | a condition with any other operator fails |
| Targeting.RuleDuality | feature-flags/src/core/targeting.py:114-132 | an OR rule is the negation of the AND rule with complementary operators, for missing attributes and non-list operands too |
| Targeting.OrderDuality | feature-flags/src/core/targeting.py:52-77 | gt/lte and lt/gte are complementary exactly when both sides convert to numbers; otherwise all four are false |
| Targeting.ContainsOperator | feature-flags/src/core/targeting.py:40-43 | `contains` on text is true exactly when the attribute is something, the operand, and something |
| Targeting.StartsWithOperator | feature-flags/src/core/targeting.py:46-49 | `starts_with` on text is true exactly when the attribute is the operand and a rest |
| Targeting.NumberOperators | feature-flags/src/core/targeting.py:52-77 | on numbers that `float` converts exactly the four order operators compare attribute with rule value |
| Targeting.OverflowFailsCondition | feature-flags/src/core/targeting.py:106-110 | an operand too large for a float makes every order condition false |
| Targeting.MembershipRespectsEquality | feature-flags/src/core/targeting.py:28-31 | `in` cannot tell values apart that Python considers equal |
| Values.PyEqIsPlainEquality | feature-flags/src/core/targeting.py:20-25 | two decoded JSON values are equal in Python if and only if they are the same once every boolean, however deep, is replaced by 1 or 0 |
| Values.PyEqTransitive | feature-flags/src/core/targeting.py:20-21 | Python's equality on nested JSON is transitive although booleans equal numbers |
| Values.PyEqSymmetric | feature-flags/src/core/targeting.py:20-21 | and symmetric |
| Rollout.RolloutMeaning | feature-flags/src/core/hashing.py:25-53 | a user is in if and only if the absolute hash of `flag:user`, modulo 10000, is below 100 times the percentage, for every integer percentage |
| Rollout.ExactShare | feature-flags/src/core/hashing.py:25-53 | the exact number of the 2^32 hash values admitted at each percentage: never short, at most 459648/100 too many, exact at 0 and 100 |
| Rollout.CountBelowExact | feature-flags/src/core/hashing.py:39 | how many of 0..n-1 fall below a threshold modulo the number of buckets |
| Rollout.AdmittedUpTo | feature-flags/src/core/hashing.py:37-53 | the admitted non-negative hash values below any bound, counted |
| Rollout.AdmittedDownTo | feature-flags/src/core/hashing.py:38-39 | the admitted negative hash values above any bound, folded by `abs` |
| Rollout.EarlyReturnsAgree | feature-flags/src/core/hashing.py:48-53 | the two early returns agree with the bucket threshold for every integer percentage |
| Rollout.CohortsNest | feature-flags/src/core/hashing.py:42-53 | raising the percentage never removes a user: each user is in from one percentage on, given by the hash of `flag:user` alone |
| Names.AcceptedKey | feature-flags/src/schemas/flag.py:71-78 | an accepted key is a non-empty slug without ':' and is accepted unchanged from then on |
| Names.RefusedKey | feature-flags/src/schemas/flag.py:75-77 | a key is refused exactly when it has no letter, digit, hyphen or underscore |
| Names.KeyMeaning | feature-flags/src/schemas/flag.py:71-78 | an accepted key is the lowered text with hyphens for underscores and all other characters left out: each remaining character stands behind exactly those before it |
| Names.UnderscoresBecomeHyphens | feature-flags/src/schemas/flag.py:75 | slug characters are kept in place and underscores become hyphens |
| Names.HashInputDecodes | feature-flags/src/core/hashing.py:37 | cutting the hash input at the first ':' recovers flag and user, whatever the user id contains |
| Names.HashInputInjective | feature-flags/src/core/hashing.py:37 | distinct (flag, user) pairs never share a hash input |
| Names.StripMeaning | feature-flags/src/schemas/evaluation.py:24-33 | stripping gives the one text that is left when white space is cut at both ends and that has none there |
| Names.NormalizeIdempotent | feature-flags/src/schemas/evaluation.py:24-27 | normalising an environment name twice is normalising it once |
| TtlCaches.StepRepresents | feature-flags/sdk/feature_flags_sdk/cache.py:25-50 | every call keeps store and history of writes in agreement, and a read answers as the history says |
| TtlCaches.LatestMeaning | feature-flags/sdk/feature_flags_sdk/cache.py:37-50 | what the history calls the stored entry is a `set` of the key that no later `set`, `invalidate` or `clear` touches |
| TtlCaches.LazyEvictionIsUnobservable | feature-flags/sdk/feature_flags_sdk/cache.py:25-50 | on every run with a monotonic clock all reads answer as a specification that never evicts |
| TtlCaches.TtlCache.Get | feature-flags/sdk/feature_flags_sdk/cache.py:25-35 | the value of the latest live write if its age is at most the time to live, else a miss; only an expired entry is evicted |
| TtlCaches.TtlCache.Set | feature-flags/sdk/feature_flags_sdk/cache.py:37-40 | stores the value with the current time and nothing else |
| TtlCaches.TtlCache.Invalidate | feature-flags/sdk/feature_flags_sdk/cache.py:42-45 | removes one entry |
| TtlCaches.TtlCache.Clear | feature-flags/sdk/feature_flags_sdk/cache.py:47-50 | removes all entries |

## Left out

- Row locks between flush and commit, and constraints that already fail at the flush: the model only refuses the commit. It allows every interleaving they would exclude, so each invariant covers the schedules the database permits.
- Change detection of the ORM: an UPDATE writes every column the handler assigned, and for the rule endpoints the environments column may or may not be written; both cases are part of every run.
- Rule endpoints in the audit replay: what they record as "before" is already edited (`RuleHandlers.EditInPlace`), so `AuditTrail.AuditReplays` excludes flags with such entries. Their commits count like all others in `AuditTrail.VersionCountsEdits`.
- The foreign key that protects the audit log is not a condition of the commit step: a delete is announced and then commits or rolls back, whichever the database decides. `References.KeyRefusesDeletes` and `References.ReferencesHoldWithoutDeletes` say what a database that enforces the key decides.
- The endless listener loop runs one iteration at a time, as methods of `Replicas.Listener` and as steps of `Protocol.Step`; the waiting time between reconnections is returned and not waited for.
- More than one registered handler per process, and messages that are not JSON: the service registers one handler and publishes JSON only.
- The locks of the two caches: every locked body is one step.
- Metrics, logging and tracing.
- Text normalisation beyond `Names.Lawful`: what `str.lower`, `str.isspace` and `float` do is left to the host; combinators are upper-cased for ASCII letters, which decides whether they spell OR.
- NaN: numbers are reals, infinities included for parsed text. How `float` rounds a number, and when it overflows, is left to the host.
- JSON serialisation of the audit row's `changes`, which is taken to succeed: `_flag_to_dict` puts a UUID and datetimes into a JSONB column (`flags.py:47-60`) and the engine in `infra/database.py` sets no `json_serializer`.
- Field limits and other schema validation besides the key, the empty PATCH and the context normalisers.
- The internals of `mmh3` and the distribution of real user ids: any function into 32-bit integers is allowed.
- The SDK's HTTP client, webhooks, listing and pagination, authentication, rate limiting, configuration, migrations and seed data: plumbing that would only add easy members.
