# Verified model of the elasticity orchestrator and its mesh agents

The control plane keeps, in one SQLite database, what every workload should have (policies, SLOs,
observations), what it decided (intents) and what has to be done about it (actions). Three loops
share that database:

- the **fast loop** turns observations, policies and SLOs into intents, with quotas, hysteresis and a
  cooldown, and enqueues the actions that carry a new intent out;
- the **slow loop** enqueues scaling actions for node groups, per 120-second window;
- the **dispatcher** drives each action row from `pending` over `accepted`, `queued` and `running` to a
  terminal status: POSTs with an Idempotency-Key, polls, backoff, TTL expiry, rollback.

On each node a **mesh agent** follows the polled node list with VXLAN peers and routes, the **runtime**
hands out container addresses and tracks routes, and the **command line** gathers manifest files.

The project proves what each of these keeps over whole runs, under any pattern of lost replies, lost
database writes and failed kernel operations.

## How the model is built

- `Json`, `JsonText`, `IdempotencyKey`: the canonical form of a payload, its text, and the key hashed from it.
- `ActionTable`: the action rows, the primary key and the unique key, and the insertion.
- `Database`: the one connection that all loops share, with its insertion.
- `RuntimeReply`, `Requests`, `Dispatch`: one candidate as a function of the row, the policies and all that
  the environment decides. `Dispatcher` has the procedures that update the database in place, each proved
  equal to that function. `DispatchRuns` is the labelled transition system, `DispatchSafety` its safety over
  runs, `Backoff` the bound on POSTs, `Drain` the measure that empties the table.
- `FastLoopMath`, `FastLoop`, `FastLoopRuns`, `FreshRows`, `SlowLoop`: the two loops as procedures over the
  database, and what they keep.
- `DispatchFacts`, `IntentFacts`: what a candidate's row, a request and an intent hold, said of the row, the clock,
  the answer and the observation alone, with the source's own names and numbers.
- `ControlPlane`: all three loops on one database in any order. A step demands only primary keys and enough
  draws; each theorem names the labels it needs more of (names without separator, names that are not blank).
- `Routes`, `Overlay`, `OverlayRuns`: route manager, VXLAN manager and agent as classes, and their runs.
- `Ipam`: the address allocator and its histories. `FiniteSets`, `Text`, `Wrappers`, `Vocabulary`: shared helpers and names.
- `Manifests`, `ManifestFacts`, `ManifestSources`: the directory walk, what it returns, and the joined text.

A state that the source updates is a class whose methods equate the new state with a function of the
old one; the theorems are about those functions and about runs of them.

## Assumptions

- SHA-256 is injective: a digest is the text that was hashed.
- JSON numbers are integers. Objects are insertion-ordered lists of members with distinct keys, so that the
  canonical form has something to do; in the locked `serde_json` build the map is sorted already.
- A stored payload is the value whose text was stored. `JsonText.PrintInjective` proves that the text loses
  nothing, and `FreshRows.ReadBack` states the dispatcher's side for any value with that text.
- `f64` is `real` without NaN. The 32-bit sum of hard quota and soft burst wraps, as a release build does.
- A clock reading is taken once per database closure. An insertion with a taken UUID fails; only the
  freshness theorems take the fast loop's UUIDs to be new (`ControlPlane.NewDraws`).
- The runtime never answers a POST with the status `pending` (`DispatchRuns.Speaks`). The need for it is
  exact: `DispatchRuns.DispatchedKeeps` and `DispatchRuns.PendingAnswerIsSentAgain`.
- The runtime carries a POST out at most once per Idempotency-Key. "Carried out exactly once" further needs
  that it acknowledges only what it carried out (`DispatchSafety.Truthful`).
- One candidate is processed in one step. Enqueues and policy upserts interleave between candidates; they
  commute with updates of a row (`Dispatcher.SameKeysSameEnqueue`).
- A failed read of the database ends the cycle (`DispatchRuns.Stop`).
- A netlink or RPC operation either has its effect or has none; which one is a parameter.
- File trees are finite, and a directory's entries have distinct names.

## What the code does that its reader may not expect

- A `|` in a tenant or workload name makes another pair share its key (`IdempotencyKey.PairUniqueIff`), and a
  `|` in a reason code changes the verdict on a refusal (`RuntimeReply.VerdictIff` says exactly when).
  Nothing in the source keeps the separator out.
- With a cooldown under 5 s a second write in one window loses every action whose payload did not change, such
  as the placement (`ControlPlane.FreshRowIff`, `FreshRows.SamePlacementIff`).
- A rollback can be swallowed by an equal one of the same window while its parent says it was enqueued
  (`DispatchSafety.RollbackRowIff`).
- Neither loop passes a rollback payload, so rollback rows come only from rows that other code wrote.
- `ScaleNodeGroupUp` and `ScaleNodeGroupDown` are sent as the same request; nothing is claimed about the
  direction at the receiving end.
- A malformed payload leaves the row as it is and ends the whole cycle. `ControlPlane.OnlyLostWritesAbort`
  proves that no payload the loops make is malformed unless a name was blank.
- A subnet counts as known even when its addition failed, so a failed addition is never retried and a changed
  host address is ignored while the subnet stays listed (`OverlayRuns.PeerFromAppearance`).
- The shutdown removes routes of VXLAN peers only, so a route whose peer could not be added stays behind
  (`OverlayRuns.ShutdownClears`).
- Two subnets with one host address share one forwarding entry; removing either uncovers the other
  (`Overlay.RemovalKeepsCoverIff`).
- A destination text with host bits set is tracked under its own text but installed as its network
  (`Routes.StepInStepIff`).

## Model

| member | source | states |
|---|---|---|
| Json.CanonicalIffSame | control/src/services/orchestrator.rs:108-124 | two values have one canonical form exactly when they differ only in object member order, at any depth |
| Json.CanonicalIdempotent | control/src/services/orchestrator.rs:108-124 | the canonical form of a canonical form is itself |
| Json.CanonicalKeepsLookups | control/src/services/orchestrator.rs:108-124 | every lookup path of keys and indices finds the canonical form of what it found before |
| Json.CanonicalSorted | control/src/services/orchestrator.rs:108-124 | keys are strictly sorted in every object at every depth |
| Json.CanonicalJson | control/src/services/orchestrator.rs:108-124 | the recursive procedure with its rebuilding loop returns the canonical form |
| Json.CanonicalObject | control/src/services/orchestrator.rs:110-119 | inserting the members in key order, each looked up, gives the sorted canonical members |
| JsonText.PrintInjective | control/src/services/orchestrator.rs:137 | two JSON values with one text are one value |
| JsonText.PrintPrefix | control/src/services/orchestrator.rs:137 | a JSON text can be read back from the front of a longer text |
| JsonText.ArrayHolds | control/src/services/orchestrator.rs:137 | an array's text is its items' texts with commas between, in brackets |
| JsonText.ObjectHolds | control/src/services/orchestrator.rs:137 | an object's text is its quoted keys, colons and values' texts with commas between, in braces |
| IdempotencyKey.KeyInjective | control/src/services/orchestrator.rs:130-145 | without the separator in names, keys agree exactly for the same tenant, workload, type and window and payloads that differ only in member order, whatever the payload text holds |
| IdempotencyKey.PairUniqueIff | control/src/services/orchestrator.rs:130-145 | a tenant and workload share their keys with no other pair exactly when neither name holds the separator |
| IdempotencyKey.KeyTextHolds | control/src/services/orchestrator.rs:130-145 | the hashed text is tenant, workload, type, canonical payload and window, in this order, between bars |
| IdempotencyKey.WindowMeans | control/src/services/orchestrator.rs:126-128 | the window of a time is the multiple of its length that the time lies in |
| ActionTable.EnqueueKeeps | control/src/services/orchestrator.rs:661-700 | an insertion keeps keys unique, alters no row, and leaves a row with its key unless the id was taken |
| ActionTable.InsertedRowHolds | control/src/services/orchestrator.rs:680-698 | an inserted row holds the caller's columns with canonical payloads, the hashed key, pending, no attempts, due at once |
| ActionTable.RowsComeFromCalls | control/src/services/orchestrator.rs:661-700 | after any sequence of enqueues old rows are unchanged and every new row is the fresh row of one call |
| ActionTable.EveryCallHasItsKey | control/src/services/orchestrator.rs:661-700 | after any sequence of enqueues with new ids every call's key is present, once |
| ActionTable.KeyIffDecision | control/src/services/orchestrator.rs:130-145 | keys agree exactly when the decisions do |
| ActionTable.OneRowPerDecision | control/migrations/003_orchestrator.sql:80-105 | from an empty table a decision has exactly one row when some call made it and none otherwise |
| RuntimeReply.ErrorRoundTrip | control/src/services/orchestrator.rs:171-207 | formatting and parsing an error keeps code, retry flag and detail exactly when the code holds no separator |
| RuntimeReply.ParsedCodeHasNoSeparator | control/src/services/orchestrator.rs:171-207 | no parsed code holds the separator, on either path |
| RuntimeReply.AnswerIsOperationIff | control/src/services/orchestrator.rs:1104-1155 | an answer is an operation exactly outside 400-599 or as a 4xx replay that names its operation, and then its five fields are the answer's members, with the defaults "" and "accepted" |
| RuntimeReply.RefusalText | control/src/services/orchestrator.rs:1117-1153 | a server error's text carries the body, a client error's the answer's code, flag and message with their defaults |
| RuntimeReply.PlainErrorMeans | control/src/services/orchestrator.rs:184-205 | a text without separator has the one of seven known codes that it starts with, else the dependency code, no flag, and itself as detail |
| RuntimeReply.JudgeIsRule | control/src/services/orchestrator.rs:1454-1505 | the branches amount to one rule: SetPoolTarget retries exactly on retryable=true outside two codes, other types retry outside two codes |
| RuntimeReply.VerdictIff | control/src/services/orchestrator.rs:1454-1505 | the verdict from the error text is that of the rule, for every flag and detail, exactly for safe codes: without a separator, or for types other than SetPoolTarget with a leading code outside three |
| RuntimeReply.StringPathIsDirect | control/src/services/orchestrator.rs:1104-1155 | for all refusals with a code, deciding from the error text equals deciding from the answer, exactly when the code is safe |
| RuntimeReply.ReadsLeadingParts | control/src/services/orchestrator.rs:171-207 | when the code holds a separator, the code and flag read back are fixed by the code alone |
| RuntimeReply.SeparatorInCodeChangesVerdict | control/src/services/orchestrator.rs:171-207 | for any code with a separator and any detail some flag gets the wrong verdict for SetPoolTarget |
| DispatchRuns.EnabledIff | control/src/services/orchestrator.rs:1513-1527 | which steps are possible in a state: nothing but an idle dispatcher, a batch of the table, a queued candidate and the assumed answers is demanded |
| DispatchRuns.DispatchedKeeps | control/src/services/orchestrator.rs:1404-1445 | recording an answer keeps the row coherent exactly when the answered status is not pending |
| DispatchRuns.PendingAnswerIsSentAgain | control/src/services/orchestrator.rs:1404-1445 | after a pending answer the row has an operation id and is sent again with the same key |
| DispatchRuns.OutcomeKeeps | control/src/services/orchestrator.rs:1157-1510 | processing keeps the row coherent and its decision, keeps an operation id and then sends nothing, and sends only the row's own request |
| DispatchRuns.TableAfter | control/src/services/orchestrator.rs:1157-1510 | processing changes the candidate's row to its outcome, adds at most one row, and changes no other |
| DispatchRuns.NextKeepsInv | control/src/services/orchestrator.rs:1513-1527 | every step keeps unique keys, coherent rows, current snapshots, POSTs rooted in their row, and effects that were asked for, one per key |
| DispatchRuns.InvHolds | control/src/services/orchestrator.rs:1513-1527 | that invariant holds in every reachable state |
| DispatchSafety.TerminalIsAbsorbing | control/src/services/orchestrator.rs:1003-1019 | in every run a terminal row never changes again |
| DispatchSafety.RowsCoherentSnapshotsCurrent | control/src/services/orchestrator.rs:935-966 | in every run pending rows have no operation id, running ones have one, terminal ones have status, time and latency recorded, and snapshots equal the stored rows until processed |
| DispatchSafety.OneRequestPerKey | control/src/services/orchestrator.rs:1059-1081 | in every run all POSTs with one key come from one row with one path and body |
| DispatchSafety.NoPostAfterOperationId | control/src/services/orchestrator.rs:1182-1243 | in every run no POST carries a row's key once the row stores its operation id |
| DispatchSafety.AppliedAtMostOncePerDecision | control/src/services/orchestrator.rs:1138-1141 | in every run, with replies and writes lost, two effects for one decision are one effect |
| DispatchSafety.EffectsAreRequests | control/src/services/orchestrator.rs:1268-1402 | in every run an effect is the request built from the row that owns its key |
| DispatchSafety.AcknowledgedExactlyOnce | control/src/services/orchestrator.rs:1404-1445 | with a truthful runtime every row with an operation id was carried out, and no key twice |
| DispatchSafety.SpawnIsSound | control/src/services/orchestrator.rs:1021-1046 | a row spawned by processing is a RollbackAction without a rollback of its own |
| DispatchSafety.SpawnIsRollback | control/src/services/orchestrator.rs:1163-1180 | processing spawns a row only for an expired row with a rollback payload, which is then failed, and it is that rollback |
| DispatchSafety.RollbackRowIff | control/src/services/orchestrator.rs:1021-1046 | an expired row's rollback gets a row of its own exactly when no row stands for the same decision, while the expired row says it was enqueued either way |
| Requests.PoolRequestHolds | control/src/services/orchestrator.rs:1270-1290 | a pool payload yields a request exactly with a named function and two counts, which are posted each in its place to that function |
| Requests.BurstRequestHolds | control/src/services/orchestrator.rs:1291-1319 | the same for a burst payload, whose container is not trimmed |
| Requests.PlacementRequestHolds | control/src/services/orchestrator.rs:1320-1350 | a placement payload yields a request exactly with a named workload and group; the group is posted trimmed, anti-affinity true only for true |
| Requests.ScaleRequestHolds | control/src/services/orchestrator.rs:1351-1376 | both scaling types post the payload's delta to the named group |
| Requests.RollbackRequestHolds | control/src/services/orchestrator.rs:1377-1399 | a rollback always yields a request: to its named target or its own row, with the payload's members or null |
| Requests.TrimMeans | control/src/services/orchestrator.rs:1281-1283 | trimming cuts exactly the white space off both ends |
| DispatchFacts.BatchHolds | control/src/services/orchestrator.rs:935-966 | a batch is the at most 100 oldest due rows, none older left out |
| DispatchFacts.DueIff | control/src/services/orchestrator.rs:935-942 | selected are rows of four statuses whose retry time has come |
| DispatchFacts.LateRowFails | control/src/services/orchestrator.rs:1163-1180 | a row past its TTL fails with its times and reason, spawns its rollback, and is not sent, for each number of writes |
| DispatchFacts.PollHolds | control/src/services/orchestrator.rs:1182-1225 | a polled running status is stored, a terminal one ends the row, any other changes nothing |
| DispatchFacts.PollFailureHolds | control/src/services/orchestrator.rs:1226-1240 | a failed poll reschedules the row by the doubling delay of its attempts |
| DispatchFacts.UnownedRowFails | control/src/services/orchestrator.rs:1245-1266 | an unsent row without policy that is not the platform's fails with its reason |
| DispatchFacts.PostIff | control/src/services/orchestrator.rs:1059-1081 | a POST leaves exactly for a row that is not late, unsent, owned, with a request and a base URL, and carries its key and request |
| DispatchFacts.AnsweredRowHolds | control/src/services/orchestrator.rs:1404-1445 | an answered POST leaves the operation's id, type, status and reasons in the row, ended if terminal |
| DispatchFacts.RefusedRowHolds | control/src/services/orchestrator.rs:1454-1505 | a refused POST fails the row, retries in 15 s or by the doubling delay, as the rule on the parsed error says |
| DispatchFacts.LostReplyHolds | control/src/services/orchestrator.rs:1079-1080 | a POST without reply fails a pool-target row and reschedules any other |
| DispatchFacts.NoBaseUrlHolds | control/src/services/orchestrator.rs:1066-1068 | without base URL nothing is sent, and the row is treated as after a lost reply |
| DispatchFacts.UnsupportedRowFails | control/src/services/orchestrator.rs:1401 | a row of another type fails without a POST |
| DispatchFacts.MalformedRowStays | control/src/services/orchestrator.rs:1269-1376 | a row whose payload yields no request is left as it is and ends the cycle |
| DispatchFacts.DeliveryHolds | control/src/services/orchestrator.rs:1059-1081 | processing appends its POST to the log, and the runtime carries out a key it has not seen |
| DispatchFacts.ReplayEndsSending | control/src/services/orchestrator.rs:1138-1141 | in every run a recorded replay, not pending, leaves the replayed operation and status in the row and no later POST carries its key |
| DispatchFacts.NewRowIsRollback | control/src/services/orchestrator.rs:1021-1046 | a row new after processing holds the candidate's rollback payload, tenant, workload, ttl and id as parent, in the 5-second window of its creation |
| DispatchFacts.RowsAreDecidedOrRollbacks | control/src/services/orchestrator.rs:1021-1046 | in every run each row was decided or holds the rollback of its parent row |
| Database.OrchestratorDb.EnqueueAction | control/src/services/orchestrator.rs:661-700 | the insertion in place equals the table function, and fails only on a taken id with a new key |
| Dispatcher.SetActionStatus | control/src/services/orchestrator.rs:968-983 | the new table: one row's status and reasons |
| Dispatcher.ScheduleRetry | control/src/services/orchestrator.rs:985-1001 | the new table: one row's attempt count, retry time and reasons |
| Dispatcher.MarkTerminal | control/src/services/orchestrator.rs:1003-1019 | the new table: one row terminal with its time and latency |
| Dispatcher.EnqueueRollback | control/src/services/orchestrator.rs:1021-1046 | the rollback row and the parent's reason, for every number of writes the database accepts |
| Dispatcher.ExpireAction | control/src/services/orchestrator.rs:1163-1180 | expiry in statement order equals the specified outcome for every lost write |
| Dispatcher.PollAction | control/src/services/orchestrator.rs:1182-1243 | a poll updates, finishes, reschedules or leaves the row as specified |
| Dispatcher.DisownAction | control/src/services/orchestrator.rs:1245-1266 | an unowned row fails |
| Dispatcher.SendAction | control/src/services/orchestrator.rs:1268-1452 | the POST is logged and delivered and the outcome recorded as specified |
| Dispatcher.RecordAnswer | control/src/services/orchestrator.rs:1404-1445 | the two updates for a running and a terminal answer |
| Dispatcher.RecordRefusal | control/src/services/orchestrator.rs:1454-1505 | a refusal fails or reschedules the row by the verdict on its error text |
| Dispatcher.ProcessAction | control/src/services/orchestrator.rs:1157-1510 | processing in place is the process function of the transition system, for table, log and effects |
| Dispatcher.RunDispatchCycle | control/src/services/orchestrator.rs:1513-1527 | a cycle processes its candidates in order, each with a snapshot that is still current, until one ends it |
| Dispatcher.SameKeysSameEnqueue | control/src/services/orchestrator.rs:661-700 | an insertion commutes with an update of a row that keeps its key |
| Backoff.RecordedPostsBounded | control/src/services/orchestrator.rs:985-1001 | with a forward clock an action with TTL of at least 14 has at most 4 + (ttl - 14) / 15 recorded POSTs, and at most 3, 2 or 1 under 14, 6 and 2 |
| Backoff.PostsBounded | control/src/services/orchestrator.rs:1157-1510 | all POSTs of an action, recorded or not, exceed that bound by at most the number of cycles that were ended early |
| Backoff.RetryTimeBounds | control/src/services/orchestrator.rs:1454-1505 | a pending row's retry time is at least creation plus the sum of min(15, 2^min(i,6)), and no retry time is more than 64 s past the last update |
| Backoff.LeastWaitValue | control/src/services/orchestrator.rs:985-1001 | the closed form of that sum |
| Drain.ExpiryLowersWeight | control/src/services/orchestrator.rs:1163-1180 | expiring a candidate lowers the number of live rows plus live rows with rollback, and touches no other row |
| Drain.LateCycleLowersWeight | control/src/services/orchestrator.rs:935-966 | a cycle past all deadlines completes and lowers that weight by the smaller of 100 and the number of live rows |
| Drain.TableDrains | control/src/services/orchestrator.rs:1513-1527 | as many late cycles as the weight leave no live row, rollbacks included |
| Drain.SelectionExists | control/src/services/orchestrator.rs:935-966 | the candidate query has an answer on every table: due rows, oldest first, at most 100 |
| Drain.LateCycleExists | control/src/services/orchestrator.rs:935-966 | every world has a cycle past all deadlines, with new UUIDs |
| Drain.EveryTableCanDrain | control/src/services/orchestrator.rs:1513-1527 | every world has a sequence of such cycles that leaves no live row |
| Drain.WeightNeverGrows | control/src/services/orchestrator.rs:1157-1510 | in any run, between new decisions the weight never grows, whatever replies and writes are lost |
| Drain.CycleKeepsInv | control/src/services/orchestrator.rs:1513-1527 | a procedural cycle is a sequence of steps and keeps the invariant |
| FastLoopMath.ComputeDesired | control/src/services/orchestrator.rs:744-768 | the updates in source order give the specified desired units |
| IntentFacts.BoostMeans | control/src/services/orchestrator.rs:744-750 | active units are raised by as many percent as requests wait, at most 100, rounded up |
| IntentFacts.BaseMeans | control/src/services/orchestrator.rs:750-752 | the base is the larger of boosted units and concurrency, cut to the 32-bit quota sum and the limit |
| IntentFacts.DesiredMeans | control/src/services/orchestrator.rs:757-768 | a violation adds the soft burst up to the limit, and nothing else changes the base |
| IntentFacts.PoolsMean | control/src/services/orchestrator.rs:775-777 | the pool sizes are 10, 20 and 30 percent of the desired units, rounded up |
| FastLoopMath.TargetAndPools | control/src/services/orchestrator.rs:744-794 | 0 <= pool min <= pool target <= pool max <= target, 1 <= target <= max(1, limit), and target <= max(1, quota + 2 burst) |
| FastLoopMath.TargetMonotone | control/src/services/orchestrator.rs:744-752 | more queue or more active units never lower the target |
| FastLoopMath.ViolationRaises | control/src/services/orchestrator.rs:757-768 | an SLO violation never lowers the target and raises it exactly when there is burst and room |
| FastLoopMath.BurstMemRange | control/src/services/orchestrator.rs:756-790 | burst memory stays between 64 MB and double the policy's, and a violation never lowers it |
| FastLoopMath.HottestGroupFor | control/src/services/orchestrator.rs:702-717 | the scan answers exactly when the workload sits on the first group of highest pressure and that is at least 0.85 |
| FastLoopMath.CoolestIndex | control/src/services/orchestrator.rs:719-730 | the first group of lowest pressure |
| FastLoop.RunFastLoop | control/src/services/orchestrator.rs:731-866 | a run in place leaves the intents and rows of the specified plan |
| FastLoop.EnqueueIntent | control/src/services/orchestrator.rs:814-863 | a written intent enqueues pool target, one burst policy per container, placement, in that order |
| IntentFacts.IntentHolds | control/src/services/orchestrator.rs:785-801 | names, target, the three pool sizes in their places, CPU cap, ttl and times of an intent, against observation, policy and SLO |
| IntentFacts.BurstMemMeans | control/src/services/orchestrator.rs:756-790 | burst memory is the policy's, 15 percent up and rounded down on a violation, kept between 64 MB and double |
| IntentFacts.PlacementMeans | control/src/services/orchestrator.rs:778-783 | anti-affinity holds exactly on the first hottest group at 0.85 or more; then the first coolest group is preferred, else the workload's own |
| IntentFacts.ReasonMeans | control/src/services/orchestrator.rs:754-773 | the reason is a hot node, else waiting requests, else the SLO, else a steady state |
| IntentFacts.WritesIff | control/src/services/orchestrator.rs:737-812 | an intent is written exactly with a policy and no intent yet, or after the cooldown with a target at least 2 away and at least 1 beyond its hysteresis share |
| IntentFacts.ActionsHold | control/src/services/orchestrator.rs:814-863 | the actions of a written intent in order, with their types, names, ttl and window |
| IntentFacts.PoolPosted | control/src/services/orchestrator.rs:814-828 | the bounds posted for a loop-made pool row are the intent's, to the policy's function |
| IntentFacts.PoolBoundsPosted | control/src/services/orchestrator.rs:775-828 | the posted bounds are 10 and 30 percent of the desired units, min <= max <= target |
| IntentFacts.BurstPosted | control/src/services/orchestrator.rs:830-846 | the posted limits are the intent's memory and its CPU cap in percent, to the nearest, for that container |
| IntentFacts.PlacementPosted | control/src/services/orchestrator.rs:848-863 | the posted placement is the intent's group and anti-affinity, for its workload |
| FastLoopRuns.PlanPerWorkload | control/src/services/orchestrator.rs:731-866 | a run treats each workload by itself |
| FastLoopRuns.HistoryPerWorkload | control/src/services/orchestrator.rs:731-866 | over any number of runs the intent table develops workload by workload |
| FastLoopRuns.ActionsComeFromWrites | control/src/services/orchestrator.rs:812-863 | every planned action belongs to an intent that the run wrote |
| FastLoopRuns.OverwriteRule | control/src/services/orchestrator.rs:802-811 | an intent is replaced only by a target at least 2 away and after the cooldown |
| FastLoopRuns.UpdatedAtMonotone | control/src/services/orchestrator.rs:802-811 | an intent's time stamp never decreases, even when the clock does |
| FastLoopRuns.WritesAreSpaced | control/src/services/orchestrator.rs:802-811 | successive writes are at least a cooldown apart |
| FastLoopRuns.WritesBounded | control/src/services/orchestrator.rs:802-811 | writes in a span number at most 1 + span / cooldown |
| FastLoopRuns.Settles | control/src/services/orchestrator.rs:737-812 | under a fixed observation, policy and SLO any number of runs writes the intent at most once |
| FreshRows.CooldownLeavesKeysFree | control/src/services/orchestrator.rs:802-863 | with cooldowns of at least 5 s no action of a run finds its key taken |
| FreshRows.FreshIffKeyFree | control/src/services/orchestrator.rs:661-700 | an action of a run gets a row that was not there before exactly when no row had its key |
| FreshRows.SamePlacementIff | control/src/services/orchestrator.rs:848-863 | two writes of a workload make one placement decision exactly when group and anti-affinity agree, whatever their targets |
| FreshRows.RunKeepsRows | control/src/services/orchestrator.rs:802-863 | every run keeps fast-loop rows no newer than the last write of their workload |
| FreshRows.PoolDispatchable | control/src/services/orchestrator.rs:1270-1290 | a stored and re-read pool payload yields a request exactly when the function id is not blank |
| FreshRows.BurstDispatchable | control/src/services/orchestrator.rs:1291-1319 | a stored and re-read burst payload always yields a request |
| FreshRows.PlacementDispatchable | control/src/services/orchestrator.rs:1320-1350 | a stored and re-read placement payload yields a request exactly when workload and group are not blank |
| FreshRows.RunIsDispatchable | control/src/services/orchestrator.rs:814-863 | every action of a run yields a request after being stored and re-read |
| SlowLoop.RunSlowLoop | control/src/services/orchestrator.rs:868-911 | a run in place inserts the specified plan |
| SlowLoop.ScalesIff | control/src/services/orchestrator.rs:872-908 | a run scales a group up exactly over 0.80 use, and down exactly under 0.35 with warm capacity |
| SlowLoop.ScaleActionHolds | control/src/services/orchestrator.rs:879-908 | a scaling action is the platform's, for one unit of the group, with 120 s to live |
| SlowLoop.ScalePosted | control/src/services/orchestrator.rs:1351-1376 | what is posted for a scaling row: one unit, to the group |
| SlowLoop.NeverBothWays | control/src/services/orchestrator.rs:872-908 | one run never scales a group both ways |
| SlowLoop.OnePerWindow | control/src/services/orchestrator.rs:126-128 | a group has at most one row of each kind per window |
| SlowLoop.AtMostOnePerWindow | control/src/services/orchestrator.rs:126-128 | all rows of one kind for a group in a range of windows number at most the windows |
| SlowLoop.RunKeepsScaleRows | control/src/services/orchestrator.rs:868-911 | every run keeps scaling rows keyed by their own action and aligned to 120-second windows |
| SlowLoop.WindowIsMultiple | control/src/services/orchestrator.rs:126-128 | a decision's window is the multiple of 120 that holds its time |
| SlowLoop.ScaleDispatchable | control/src/services/orchestrator.rs:1351-1376 | a stored and re-read scaling payload yields a request exactly when the group is not blank |
| ControlPlane.PlaneEnabledIff | control/src/services/orchestrator.rs:1529-1572 | a loop's step is possible on any inputs with primary keys and enough draws, any other whenever the dispatcher's system has it |
| ControlPlane.PlaneInvHolds | control/src/services/orchestrator.rs:1529-1572 | with all loops interleaved in any order, on any policies and names, the dispatcher's invariant holds in every reachable state |
| ControlPlane.FreshRowIff | control/src/services/orchestrator.rs:802-863 | an action of a fast run gets a row of its own exactly when no earlier fast run planned the same decision in the same 5-second window |
| ControlPlane.EveryFastRunGetsFreshRows | control/src/services/orchestrator.rs:802-863 | whatever happened before, in a fast run with cooldowns of at least 5 s each action gets a new row |
| ControlPlane.ScalingIsRateLimited | control/src/services/orchestrator.rs:868-911 | at any time, on any policies and names, a group has at most floor(t2/120) - floor(t1/120) + 1 rows of one kind decided from t1 to t2 |
| ControlPlane.OnlyLostWritesAbort | control/src/services/orchestrator.rs:1269-1376 | when no needed name was blank, no stored payload ends a dispatch cycle; only a lost write can |
| ControlPlane.RowsSettle | control/src/services/orchestrator.rs:1003-1019 | across all loops a row keeps its decision, a terminal row never changes, and its key is not sent again |
| ControlPlane.EachDecisionAtMostOnce | control/src/services/orchestrator.rs:1059-1081 | across all loops, when names hold no separator, each decision is carried out at most once, as the request of its row |
| Routes.RouteManager.AddRoute | runtime/src/route_manager.rs:70-152 | the new tracked and kernel routes and the answer, for every netlink outcome |
| Routes.RouteManager.RemoveRoute | runtime/src/route_manager.rs:177-229 | the same for a removal |
| Routes.RouteManager.CleanupAllRoutes | runtime/src/route_manager.rs:251-269 | the loop drops exactly the tracked destinations whose removal goes through, in any order |
| Routes.AddedHolds | runtime/src/route_manager.rs:70-152 | when an addition succeeds, and the tracked and installed interface it leaves |
| Routes.RemovedHolds | runtime/src/route_manager.rs:177-229 | when a removal succeeds, and that it takes the text, its network and nothing else |
| Routes.NetworkMeans | runtime/src/route_manager.rs:106-116 | a network keeps the prefix bits and clears the others |
| Routes.AddInStepIff | runtime/src/route_manager.rs:70-152 | an addition that reaches the kernel keeps tracked and installed equal exactly when its text is in network form |
| Routes.StepInStepIff | runtime/src/route_manager.rs:177-229 | an operation keeps tracked and installed destinations equal exactly when it does not reach the kernel with host bits set, or names an untracked network |
| Routes.TrackedIsInstalled | runtime/src/route_manager.rs:70-269 | after any operations in network form, with any outcomes, tracked destinations are the installed ones |
| Routes.CleanupInStep | runtime/src/route_manager.rs:251-269 | a cleanup leaves exactly the destinations whose removal failed |
| Routes.InterfaceAgreesIff | runtime/src/route_manager.rs:74-90 | re-adding a destination keeps tracked and installed interfaces equal exactly when the interface is the tracked one |
| Overlay.VxlanManager.AddPeer | agent/src/overlay/vxlan.rs:84-96 | the new peers and entries; a failed addition changes nothing |
| Overlay.VxlanManager.RemovePeer | agent/src/overlay/vxlan.rs:98-108 | the peer is forgotten even when its entry cannot be deleted |
| Overlay.PeerAddedHolds | agent/src/overlay/vxlan.rs:84-96 | an addition succeeds exactly when accepted, and then adds this peer and its entry only |
| Overlay.PeerRemovedHolds | agent/src/overlay/vxlan.rs:98-108 | a removal forgets the peer in any case, and deletes its entry exactly when accepted |
| Overlay.RemovalKeepsCoverIff | agent/src/overlay/vxlan.rs:98-108 | a removal keeps the other peers' entries exactly when it fails in the kernel or none shares its address |
| Overlay.Agent.PeerSyncCycle | agent/src/main.rs:286-378 | a cycle in place equals the specified cycle for every listing and every pattern of failures |
| Overlay.Agent.GracefulShutdown | agent/src/main.rs:228-264 | the shutdown in place equals the specified one |
| OverlayRuns.CurrentMeans | agent/src/main.rs:309-322 | the peers of a listing are its nodes that are up and not the agent's own, and the first of each subnet in listing order |
| OverlayRuns.CycleFollowsListing | agent/src/main.rs:304-377 | after a cycle whose listing succeeds, whatever failed, a subnet is known exactly when some up node but the agent's own lists it, and all peers are known |
| OverlayRuns.KnownIsLastListed | agent/src/main.rs:286-378 | in any run a subnet is known exactly when the last listing that succeeded has it up, and every peer is known |
| OverlayRuns.PeersMatchIff | agent/src/main.rs:324-354 | the peers equal the known subnets after a cycle exactly when old ones had peers and each new one has an address and was added |
| OverlayRuns.RoutesMatchIff | agent/src/main.rs:324-377 | the tracked routes equal the known subnets exactly when each new one got its route and each gone one lost it |
| OverlayRuns.PeerFromAppearance | agent/src/main.rs:324-354 | in any run the peer of a listed subnet is the address of the first up node that listed it in the cycle it last came up in, or none if that was no address or the addition failed |
| OverlayRuns.CleanRunFollowsListing | agent/src/main.rs:286-378 | without failures peers and routes are exactly the subnets last listed |
| OverlayRuns.RunKeepsRoutesInStep | agent/src/main.rs:286-378 | in any run over tidy listings tracked routes are the installed ones |
| OverlayRuns.RunKeepsOverVxlan | agent/src/main.rs:342-346 | in any run every route goes over the VXLAN interface |
| OverlayRuns.ShutdownClears | agent/src/main.rs:228-264 | a shutdown always leaves no peer; it leaves no route, and no entry, exactly under the stated conditions |
| OverlayRuns.CleanRunShutsDownClean | agent/src/main.rs:228-264 | a run and a shutdown without failures leave every table empty, the kernel's too |
| Ipam.IpamManager.ConfigureSubnet | runtime/src/ipam.rs:40-65 | accepts exactly a /24 whose network lies in 10.42.0.0/16, and then resets the allocations |
| Ipam.IpamManager.AllocateIp | runtime/src/ipam.rs:67-86 | the scan answers and updates as the specification |
| Ipam.IpamManager.ReleaseIp | runtime/src/ipam.rs:88-93 | takes the address back |
| Ipam.AcceptsIff | runtime/src/ipam.rs:40-65 | accepted are exactly 10.42.c.d/24, and their hosts are 10.42.c.1 to 10.42.c.254 |
| Ipam.AllocatesLeast | runtime/src/ipam.rs:67-86 | an allocation gives the least free host, and fails exactly without a subnet or without a free host |
| Ipam.ExhaustedAt254 | runtime/src/ipam.rs:67-86 | a configured manager is exhausted exactly when 254 addresses are out |
| Ipam.ReleaseUndoesAllocation | runtime/src/ipam.rs:88-93 | releasing a new address restores the state and it is handed out next |
| Ipam.ReleasedIsNextIff | runtime/src/ipam.rs:88-93 | a released address is handed out next exactly when it is below every free one |
| Ipam.AllocatedIsOutstanding | runtime/src/ipam.rs:40-93 | in any history the allocated set is what was handed out and not taken back since |
| Ipam.NoDoubleHandout | runtime/src/ipam.rs:67-93 | no address is handed out twice without a release or accepted configuration in between |
| Ipam.OutstandingIsHost | runtime/src/ipam.rs:40-86 | every outstanding address is a host of the last accepted /24, inside 10.42.0.0/16 |
| Manifests.CollectManifestFilesInDir | cli/src/main.rs:2929-2953 | the stack walk with its final sort ends on every finite tree and returns the recursive definition's answer |
| Manifests.ManifestNameIff | cli/src/main.rs:2955-2960 | the extension rule: a non-empty stem, a dot, and yaml, yml or json |
| Manifests.SortCanonical | cli/src/main.rs:2951 | sorting gives one list for every order of the same paths |
| ManifestFacts.PathBeforeMeans | cli/src/main.rs:2951 | path order is the order by the first component that differs, a directory before what is below it |
| ManifestFacts.FileCount | cli/src/main.rs:2929-2953 | the recursive definition holds each manifest file of the tree once and nothing else |
| ManifestFacts.WalkedFiles | cli/src/main.rs:2929-2953 | the walk returns exactly the manifest files, ascending and without repetition |
| ManifestFacts.FailsIff | cli/src/main.rs:2933-2943 | the walk of a directory fails exactly when some path leads to a node that cannot be listed or read |
| ManifestFacts.WalkedIgnoresListingOrder | cli/src/main.rs:2932-2951 | the answer does not depend on the order in which directories list their entries |
| ManifestSources.CollectManifestSources | cli/src/main.rs:2889-2927 | the loop over sources returns all documents in order, or fails as specified |
| ManifestSources.ReadSource | cli/src/main.rs:2905-2918 | the file and directory cases give the specified documents |
| ManifestSources.SingleDocuments | cli/src/main.rs:2889-2910 | a URL gives its body, a file its content, and anything else but a directory fails |
| ManifestSources.DocumentsAppend | cli/src/main.rs:2889-2927 | the documents are those of each source in source order |
| ManifestSources.DirectoryDocuments | cli/src/main.rs:2911-2918 | a directory gives one document per manifest file in path order, and fails exactly when a node or a manifest file is unreadable |
| ManifestSources.CollectedFailsIff | cli/src/main.rs:2889-2927 | collecting fails exactly when a source fails or no source has a document |
| ManifestSources.DocumentsIgnoreListingOrder | cli/src/main.rs:2889-2927 | the documents depend on the trees alone |
| ManifestSources.ManifestAppend | cli/src/main.rs:2881-2887 | one document is the manifest itself, and each further one comes after a separator |
| ManifestSources.DocumentCountIff | cli/src/main.rs:2881-2887 | the separator lines of the joined text tell the number of documents exactly when no document holds such a line |
| ManifestSources.JoinInjective | cli/src/main.rs:2881-2887 | documents without separator lines can be told apart in the joined text |

## Left out

- `update_action_result` (control/src/services/orchestrator.rs:443-468): an outside override that can set any status; no run contains it.
- Floating-point rounding and NaN, and the panic of a debug build when the quota sum overflows.
- Inside of SHA-256, the JSON text parser, and the parsing of CIDR and address texts; a destination is its 32 address bits and prefix length, so two spellings of one prefix length are one text.
- HTTP, gRPC, netlink, TLS, SQLite: only their outcomes appear. A URL source is the body it was answered with.
- Steps of other writers inside the processing of one candidate, and of concurrent calls inside the route manager.
- Backoff.RecordedPostsBounded: counts the POSTs whose outcome was recorded, because a lost write leaves no trace in the row; `Backoff.PostsBounded` bounds all of them by adding the cycles that ended early.
- Manifests.CollectManifestFilesInDir: a tree is finite, so a directory that contains itself through a link is outside, as are entries that the listing itself skips as unreadable.
- Which of several errors a failing walk or collection reports first, and all error texts of the command line.
- The rest of the command line, the HTTP API modules, the thin service wrappers, certificates, the placement backend and the high-availability design.
