# Verified models of event delivery, pivot totals and SQL Lab runs

This project models the parts of the repository whose correctness depends on order, on
interleaving or on an invariant, and proves what they promise. `dafny verify dfyconfig.toml`
checks it.

**Async event delivery.** Publishers append every job event first to a stream of its channel
and then to a global stream. The WebSocket server follows the global stream with a cursor,
broadcasts each event to the sockets of its channel, and catches a reconnecting client up
from its channel's stream over a range that ends at the cursor.

- `StreamIds.dfy`, `Decimal.dfy`: entry identifiers, their order, their text, and the two
  textual increments (TypeScript and Python).
- `Streams.dfy`, `Paging.dfy`: append-only streams, range reads, and the polling reader.
- `SocketRegistry.dfy`: the registries `sockets` and `channels` as values, their operations
  and their invariant. `channels` is cleaned lazily, so it may name sockets that are gone.
- `WebSocketServer.dfy`: the server as a class whose methods are proved against those
  operations, including the loop that walks a list which is replaced under it.
- `AsyncQueryManager.dfy`: the publisher.
- `Wrappers.dfy`, `Ordering.dfy`: values that may be missing, and lexicographic order; used
  throughout.
- `DeliveryProtocol.dfy`, `DeliveryInvariants.dfy`, `DeliveryTheorems.dfy`: publishers, store,
  server and sockets as one transition system. Every step is one callback or one store
  operation, a range read is answered and processed in separate steps, and runs are arbitrary
  interleavings. Send faults, clocks and socket failures are chosen by the environment.

**Pivot totals.** `PivotAxis.dfy`, `PivotTotals.dfy`: totals are inserted, level by level and
in set order, into the axis that is being aggregated. `PivotProperties.dfy`: what the result
promises. `PivotTable.dfy`, `PivotBothAxes.dfy`: subtotals of subtotals, and both axes at once.

**SQL Lab.** `SqlLab.dfy`: the checks, the limits, the blocks, the commit, the storing of
results and the handling of errors of one run. What the database, the results backend and
other workers do is an `Env` that the run is given.

**Smaller algorithms.** `Partition.dfy` (group sums nested into a tree), `Dedup.dfy`
(column names), `FindModels.dfy` (foreign-key closure and dependency order).

## Where the code and its promises part

- The Python `increment_id` increments the last character only, so it is the successor exactly
  for sequence numbers below 10 or not ending in 9 (`IncrementPyIsSuccessorIff`). Polling
  is complete exactly when no entry lies in the gap this leaves behind a full page
  (`PollingIsCompleteIff`); `PollingLosesEvents` is a stream on which events are lost.
- Catch-up compares the identifier a client reports, usually a global one, with identifiers
  of the channel stream. `DeliveredIff` says exactly which events a reconnected client is
  sent, `NoGap` that nothing is missed while the two streams' identifiers keep in step, and
  `GapRun` is a run of three events in one millisecond in which one is missed.
- `dedup` documents that its output is always unique. It is unique exactly when no kept name
  equals a generated one (`DistinctIff`); `NotAlwaysUnique` has three names.
- A timed-out query is recorded as failed, as a comment in `handle_query_error` admits.
- A mutating statement is run with no limit but its own, so its trimmed result can exceed
  the limit (`MutatingResultExceeds`).
- Forcing a limit writes it into the LIMIT clause of a statement, but a command that is kept
  as raw text, such as SHOW or EXPLAIN, has none. So the result is the first rows, and keeps
  to the configured maximum, whatever the data, if and only if the limit is not forced on such
  a text (`FirstRowsIff`, `MaximumKeptIff`); where it is, this fails exactly when the rows
  exceed the bound by two or more (`LimitedRun`), as for three rows under a limit of one
  (`ShowExceeds`).
- Forcing a limit replaces a statement's own LIMIT. Whatever the data, the result is still
  the first rows of what the statement as written yields if and only if it has a place for a
  LIMIT and its own LIMIT is not smaller (`OwnLimitKeptIff`), and `NOT_LIMITED` still tells whether that was all if and only
  if its own LIMIT is larger (`OwnLimitToldIff`).
- `nest_values` takes its columns from level 0, which sums every numeric column, group
  columns included; a level that groups by such a column no longer has it. So no tree is
  built at all exactly when some group column is numeric (`NestedLevels`), as for sales
  grouped by an integer year (`GroupedByYear`).
- Totals go right only where no label part is the name of a total at its level, and always
  where, in addition, groups are contiguous (`AllGoRightIff`). Otherwise a lookup fails, or
  meets an earlier total, or a label is used twice. Nothing need be raised: of two columns,
  the first in a group named like the overall total, that group's subtotal silently counts
  the overall total (`OverallTotalCounted`).
- `find_models` fails exactly on reference cycles through two or more of the models it finds.

## Model

| member | source | states |
|---|---|---|
| StreamIds.Successor | superset-websocket/src/index.ts:312-320 | the increment of an identifier is the least identifier above it |
| StreamIds.ParseRender | superset/async_events/async_query_manager.py:72-78 | the text of an identifier reads back as the identifier |
| StreamIds.IncrementTsIsSuccessor | superset-websocket/src/index.ts:315-320 | the TypeScript increment denotes the successor for sequence numbers up to 2^53 - 1 |
| StreamIds.IncrementTsWithoutDash | superset-websocket/src/index.ts:317-318 | an identifier without a dash is left as it is |
| StreamIds.IncrementPyDenotes | superset/async_events/async_query_manager.py:72-78 | what the Python increment denotes for every identifier |
| StreamIds.IncrementPyIsSuccessorIff | superset/async_events/async_query_manager.py:72-78 | it is the successor exactly below 10 or when the last digit is not 9 |
| StreamIds.IncrementPyFails | superset/async_events/async_query_manager.py:72-78 | 19 becomes 110, above all numbers from 20 to 109 |
| Streams.RangeMember | superset-websocket/src/index.ts:219-221 | a range read returns exactly the entries of the inclusive range |
| Streams.RangeIsSegment | superset-websocket/src/index.ts:219-221 | as neighbouring entries, in the order of the stream |
| Streams.AfterEntry | superset-websocket/src/index.ts:240-248 | a read after an entry returns exactly the entries behind it |
| Paging.ReadEventsReturns | superset/async_events/async_query_manager.py:260-284 | what a call returns or raises, for every last identifier: the first events, at most 100, at or above its increment, with their identifiers and data |
| Paging.ReadEventsAfter | superset/async_events/async_query_manager.py:72-78 | an identifier that was received can be passed back |
| Paging.ReadEventsIsPage | superset/async_events/async_query_manager.py:260-284 | passing back a received identifier yields the page behind its increment |
| Paging.PollingIsCompleteIff | superset/async_events/async_query_manager.py:260-284 | polling a fixed stream returns all of it, in order and once each, if and only if no page boundary is skipped over |
| Paging.PollingIsComplete | superset/async_events/async_query_manager.py:260-284 | so it does when every full page ends where the increment is the successor |
| Paging.PollingNeverRepeats | superset/async_events/async_query_manager.py:260-284 | polling never repeats, reorders or invents an event |
| Paging.PollingLosesEvents | superset/async_events/async_query_manager.py:72-78 | 120 events of one millisecond of which polling loses some |
| SocketRegistry.TrackValid | superset-websocket/src/index.ts:165-181 | tracking a client keeps the registry invariant |
| SocketRegistry.CleanValid | superset-websocket/src/index.ts:448-463 | cleaning a channel keeps it |
| SocketRegistry.CheckValid | superset-websocket/src/index.ts:416-442 | checking all sockets keeps it, leaving stale identifiers listed |
| SocketRegistry.ChangeStateValid | superset-websocket/src/index.ts:151-151 | a ready state that moves forward keeps it and revives no socket |
| SocketRegistry.CollectedIsGrouping | superset-websocket/src/index.ts:416-488 | after a check and a collection pass `channels` groups `sockets` exactly, survivors in order |
| SocketRegistry.BroadcastReaches | superset-websocket/src/index.ts:188-206 | a broadcast sends once to each tracked listed socket and to no socket of another channel |
| SocketRegistry.ProcessReaches | superset-websocket/src/index.ts:269-280 | a batch reaches every live socket with the messages of its channel, in order, once each, whatever sends throw |
| SocketRegistry.ProcessConfined | superset-websocket/src/index.ts:188-206 | no message goes to a socket of another channel |
| WebSocketServer.Server.TrackClient | superset-websocket/src/index.ts:165-181 | the new registry, and its invariant |
| WebSocketServer.Server.CleanChannel | superset-websocket/src/index.ts:448-463 | the channel's live sockets in order, or no channel at all |
| WebSocketServer.Server.SendToChannel | superset-websocket/src/index.ts:188-206 | one attempt per tracked socket listed at the start, though the list is replaced on the way |
| WebSocketServer.Server.ProcessStreamResults | superset-websocket/src/index.ts:269-280 | the broadcasts of a batch one after the other, undecodable entries dropped |
| WebSocketServer.Server.CheckSockets | superset-websocket/src/index.ts:416-442 | exactly the timely active sockets stay and are pinged once, exactly the late ones are terminated |
| WebSocketServer.Server.CollectChannels | superset-websocket/src/index.ts:483-488 | the collection pass cleans every channel, in any order |
| WebSocketServer.Server.OnPong | superset-websocket/src/index.ts:350-359 | a pong of a tracked socket renews its time, any other changes nothing |
| WebSocketServer.Server.WsConnection | superset-websocket/src/index.ts:325-347 | the client is tracked, and the range asked for starts at the successor of the last identifier and ends at the cursor |
| WebSocketServer.EarlierRead | superset-websocket/src/index.ts:240-250 | a reply read before the stream grew is still a reply of the grown stream, with some smaller count |
| WebSocketServer.Server.OnReading | superset-websocket/src/index.ts:237-258 | how far each reading brings the segment: to the end of the reply or by its full count, and nowhere on a time-out or an error |
| WebSocketServer.Server.SubscribeToGlobalStream | superset-websocket/src/index.ts:233-264 | over any run of timeouts, errors and replies one contiguous segment is handed over and broadcast, ending at the cursor, which never moves back and holds nothing back |
| AsyncQueryManager.Manager.UpdateJob | superset/async_events/async_query_manager.py:286-308 | the event goes to the channel stream, then to the global stream, and to neither when the arguments or the backend are missing |
| DeliveryInvariants.StepReg | superset-websocket/src/index.ts:165-463 | every step keeps the registry invariant, and only a connection makes a socket live |
| DeliveryInvariants.StepInv | superset-websocket/src/index.ts:165-463 | every step keeps all invariants of the protocol |
| DeliveryTheorems.PublishedAccounting | superset/async_events/async_query_manager.py:298-308 | a channel's events in the global stream and its pending publishers make up its own stream exactly |
| DeliveryTheorems.RegistryAlwaysValid | superset-websocket/src/index.ts:153-155 | the registry invariant holds in every run |
| DeliveryTheorems.FirehoseContiguous | superset-websocket/src/index.ts:233-264 | in every run the firehose has handed over one contiguous segment ending at the cursor |
| DeliveryTheorems.CursorMonotone | superset-websocket/src/index.ts:156-160 | the cursor never moves back |
| DeliveryTheorems.UpkeepIsComplete | superset-websocket/src/index.ts:416-488 | in every run a check and a collection pass leave exactly the open and connecting sockets that answered in time, grouped by channel |
| DeliveryTheorems.PongCarriesOver | superset-websocket/src/index.ts:350-359 | a pong carries a live socket over a check that comes in time |
| DeliveryTheorems.ConnectionCarriesOver | superset-websocket/src/index.ts:325-330 | so does a fresh connection |
| DeliveryTheorems.ClosedIsForgotten | superset-websocket/src/index.ts:416-442 | a closed socket is forgotten by the next check |
| DeliveryTheorems.FailedNeverPasses | superset/async_events/async_query_manager.py:298-308 | the event of a publisher that failed between its appends stays in the channel's stream alone for good |
| DeliveryTheorems.FailedReadBringsNothing | superset-websocket/src/index.ts:336-345 | nothing is handed over for a connection whose range read failed |
| DeliveryTheorems.LiveSocketSees | superset-websocket/src/index.ts:188-280 | a live socket was sent exactly its channel's share of everything handed over since it connected |
| DeliveryTheorems.DeliveredIff | superset-websocket/src/index.ts:325-346 | exactly which events a reconnected client is sent |
| DeliveryTheorems.NoGap | superset-websocket/src/index.ts:325-346 | no later event is missed on reconnection while identifiers keep in step |
| DeliveryTheorems.GapRun | superset-websocket/src/index.ts:333-346 | a run in which an event is missed because they do not |
| PivotAxis.GetLocTakesUnder | superset/charts/client_processing.py:173-174 | a lookup that yields a slice yields exactly the lines that carry the prefix, even where they are evenly scattered |
| PivotAxis.GetLocOf | superset/charts/client_processing.py:173-173 | the lookup of a prefix finds the lines that alone carry it |
| PivotTotals.TotalNotUnder | superset/charts/client_processing.py:176-178 | no earlier total passes for a line of the next group |
| PivotTotals.TotalMistakenIff | superset/charts/client_processing.py:176-178 | a total would pass for one exactly if the group's label used its name |
| PivotTotals.InsertStep | superset/charts/client_processing.py:172-180 | each lookup yields exactly the original lines of its group as one slice, and the total goes right behind them |
| PivotTotals.AddTotal | superset/charts/client_processing.py:172-180 | one insertion: the aggregate of the slice found, right behind it; it raises where there is no slice, or for a column whose label is in use |
| PivotTotals.TotalsAddedIs | superset/charts/client_processing.py:169-180 | whatever the order within the levels, the insertions add up to the order-free description |
| PivotTotals.AddTotals | superset/charts/client_processing.py:155-180 | on a regular axis the order-free description, so it does not depend on the order of the sets; on any other, what the insertions give one after the other |
| PivotTotals.AllGoRightIff | superset/charts/client_processing.py:155-208 | if every lookup yields exactly the original lines of its group, under a label that is new, the labels are clean; on contiguous groups also conversely |
| PivotTotals.OverallTotalCounted | superset/charts/client_processing.py:171-180 | two columns for which a subtotal silently counts the overall total |
| PivotProperties.DeletingTotalsRestores | superset/charts/client_processing.py:155-180 | deleting the totals gives back the original lines in order |
| PivotProperties.EveryGroupHasTotal | superset/charts/client_processing.py:169-180 | every group has its total over exactly its original lines |
| PivotProperties.NothingElse | superset/charts/client_processing.py:169-180 | there is nothing but original lines and such totals |
| PivotProperties.SortedIsContiguous | superset/charts/client_processing.py:122-137 | lines sorted by their keys have contiguous groups |
| PivotProperties.SortedColumnsAreContiguous | superset/charts/client_processing.py:51-61 | so columns sorted by the column key are fit for totals |
| PivotTable.SumIs | superset/charts/client_processing.py:237-237 | a sum is the sum of the cells that are not missing |
| PivotTable.AggIsExtremum | superset/charts/client_processing.py:244-245 | minimum and maximum skip missing cells and are attained |
| PivotTable.SubtotalOfSubtotals | superset/charts/client_processing.py:171-180 | a subtotal is the aggregate of the subtotals one level deeper |
| PivotBothAxes.GrandTotal | superset/charts/client_processing.py:155-208 | aggregating row aggregates or column aggregates agrees |
| PivotBothAxes.RowTotalsCells | superset/charts/client_processing.py:182-208 | every cell is an aggregate of original cells of its column |
| PivotBothAxes.TotalsCommute | superset/charts/client_processing.py:155-208 | folding rows or columns first gives the same table, corners included |
| PivotBothAxes.DeletingBothRestores | superset/charts/client_processing.py:155-208 | deleting the total columns and rows of the finished table gives back the original one, labels and cells in order |
| PivotBothAxes.AddBothTotals | superset/charts/client_processing.py:155-208 | the code's order of folding yields that table |
| SqlLab.ClampIs | superset/sql_lab.py:236-237 | the user's own limit where it is positive and at most the maximum, otherwise the maximum where there is one |
| SqlLab.ApplyLimit | superset/sql_lab.py:223-244 | which statements are limited, and to what |
| SqlLab.TrimKeepsLimitIff | superset/sql_lab.py:283-289 | trimming keeps to the limit exactly when at most one row above it was fetched |
| SqlLab.LimitedResult | superset/sql_lab.py:227-289 | under each limit method, exactly when the result is the first rows up to the clamped limit and keeps to the maximum; the extra row always tells whether the limit is all there is |
| SqlLab.LimitedRun | superset/sql_lab.py:227-289 | the same of a whole run, for its last statement: exactly when its result is the first rows, and that a query of one statement is marked as not limited exactly if nothing exceeds the limit |
| SqlLab.FirstRowsIff | superset/sql/parse.py:765-786 | whatever the data, the result is the first rows, if and only if no limit is forced on a text without a LIMIT clause |
| SqlLab.MaximumKeptIff | superset/sql_lab.py:227-236 | whatever the data, the result keeps to the configured maximum, if and only if the same holds |
| SqlLab.ShowExceeds | superset/sql/parse.py:774-777 | a SHOW of three rows that returns two under a limit and a maximum of one |
| SqlLab.OwnLimitKeptIff | superset/sql/parse.py:765-786 | whatever the data, the result is that of the statement as written, if and only if no limit is forced on a text without a LIMIT clause or over a smaller one of its own |
| SqlLab.OwnLimitToldIff | superset/sql/parse.py:765-786 | whatever the data, the extra row tells whether the statement as written yields more, if and only if no limit is forced over one of its own that is no larger |
| SqlLab.MutatingResultExceeds | superset/sql_lab.py:230-234 | when the result of a mutating statement exceeds the limit |
| SqlLab.ExecuteQuery | superset/sql_lab.py:247-321 | result, status and limiting factor for every answer of the database |
| SqlLab.HandleQueryError | superset/sql_lab.py:90-124 | the query ends failed with its error and without a temporary table |
| SqlLab.EndingMeans | superset/sql_lab.py:469-507 | nothing runs after a stop shows, and a run finishes exactly if no stop shows and every block succeeds |
| SqlLab.RunBlocks | superset/sql_lab.py:469-507 | the executed blocks are an in-order prefix, each run once; the rows of the last one and the limiting factor |
| SqlLab.PrepareBlocks | superset/sql_lab.py:434-460 | one block for each statement in the order of the script, or one for all; CTAS wraps the last statement and no other |
| SqlLab.RunBlocksAre | superset/sql_lab.py:434-460 | the same with how every statement is limited |
| SqlLab.LimitOfIs | superset/sql_lab.py:227-237 | when the query's limit ends up clamped |
| SqlLab.RefusedIff | superset/sql_lab.py:393-440 | exactly when a run sends nothing to the database |
| SqlLab.CompletedIff | superset/sql_lab.py:469-507 | exactly when all blocks of an accepted script succeed |
| SqlLab.SucceedsIff | superset/sql_lab.py:372-668 | exactly when a run succeeds, condition by condition |
| SqlLab.StoresIff | superset/sql_lab.py:545-624 | exactly when its payload is stored |
| SqlLab.StoreResults | superset/sql_lab.py:545-624 | a key is set exactly when the payload was written under it |
| SqlLab.ExecuteSqlStatements | superset/sql_lab.py:372-668 | statements sent in the order of the script, executed blocks, commit, status, limit, payload and stored results of a run |
| SqlLab.GetSqlResults | superset/sql_lab.py:169-197 | the query never stays running, and when exactly it succeeds, stops, commits and has a results key; a script that mutates where that is not allowed sends nothing and fails |
| Partition.LevelsFor | superset/viz.py:2374-2388 | one level for each number of keys, with the group sums of every numeric column that is not grouped by there |
| Partition.GroupSumIs | superset/viz.py:2381-2387 | a level holds exactly the observed groups, sorted, with the sums of their rows |
| Partition.DescendIs | superset/viz.py:2475-2479 | descending reaches exactly the groups below, and fails only where there are none |
| Partition.NestIsTree | superset/viz.py:2463-2489 | nesting gives the tree of observed groups |
| Partition.ChildrenSumUp | superset/viz.py:2441-2489 | a node's value is the sum of its rows and of its children |
| Partition.PathsAreObserved | superset/viz.py:2441-2489 | the paths are exactly the observed prefixes |
| Partition.NestedLevels | superset/viz.py:2441-2489 | nesting raises if and only if some group column is numeric; otherwise all of this holds for every column, with the overall sum at the root |
| Partition.GroupedByYear | superset/viz.py:2455-2466 | sales grouped by an integer year, for which nesting raises |
| Partition.GetData | superset/viz.py:2525-2545 | no data, no groups, a failing lookup or the trees: exactly which, and what the trees are |
| Dedup.DedupNames | superset/result_set.py:49-59 | the loop computes the names described without its counters |
| Dedup.DedupedIs | superset/result_set.py:49-59 | a name is suffixed with the number of earlier names that are like it, if there are any |
| Dedup.KeepsLengthAndFirsts | superset/result_set.py:36-47 | as many names as given, first occurrences unchanged |
| Dedup.GeneratedInjective | superset/result_set.py:53-57 | generated names never collide with one another under the default suffix |
| Dedup.DistinctIff | superset/result_set.py:36-59 | the output is unique if and only if no kept name equals a generated one |
| Dedup.NotAlwaysUnique | superset/result_set.py:39-40 | three names for which the documented uniqueness fails |
| FindModels.CollectNames | scripts/benchmark_migration.py:78-88 | exactly the names nested anywhere in the module's lists and dictionaries |
| FindModels.NamesOfIff | scripts/benchmark_migration.py:79-88 | the names are those that some path into the lists and dictionaries leads to |
| FindModels.FindReachable | scripts/benchmark_migration.py:99-116 | each table visited at most once, the models found are the mapped tables reachable through mapped ones |
| FindModels.CycleIn | scripts/benchmark_migration.py:121-130 | models that wait for one another contain a cycle of references |
| FindModels.StaticOrder | scripts/benchmark_migration.py:121-130 | an order in which everything follows its dependencies; it fails if and only if the references run in a cycle |
| FindModels.FindModels | scripts/benchmark_migration.py:73-133 | the reachable models, each behind all others it references; it fails if and only if two or more of them reference one another in a cycle |

## Left out

- StreamIds.IncrementTsIsSuccessor: sequence numbers above 2^53 - 1 and the other notations that JavaScript's `Number` reads are not modelled, because their text depends on floating-point formatting.
- Trimming of streams: streams only grow here, so the guarantees are those of streams that are not trimmed past what is read.
- The phase before the firehose has its first concrete cursor: guarantees about catch-up begin there, because reads from `$` do not see entries added between them.
- Exactly-once delivery: catching one client up broadcasts to its whole channel, so repeated messages are by design.
- Tokens, cookies, HTTP, TLS, statistics and logging of the WebSocket server; the channel of a client is an input.
- Sockets that are still connecting: `ws.ping` raises for them, but the server is only handed open ones.
- SocketRegistry.TrackValid: identifiers are assumed fresh, as version 4 UUIDs are in practice.
- WebSocketServer.Server.SubscribeToGlobalStream: the endless loop is modelled over every finite run of its readings.
- PivotBothAxes.AddBothTotals: where totals are inserted into an axis that is not regular, only the insertions themselves are described, not the whole table.
- Pivoting itself, the fraction variants, and the aggregates that do not fold (averages, medians, deviations, string lists): they belong to pandas or to floating point.
- Transposing for metrics on rows, and the replacement of missing-value placeholders.
- SQL parsing, row-level security, engine specifics, Celery and the ORM: a statement is its flags and its rows, and preparation may fail for any reason.
- SqlLab.HandleQueryError: the end time, the extracted errors and the message are not modelled.
- SqlLab.ExecuteSqlStatements: failures of the metadata database, of the hook that rewrites a block and of building a result set from fetched rows are not modelled, nor what a raising write leaves in the results backend.
- SqlLab.ApplyLimit: Kusto statements, which accept a forced limit only.
- SqlLab.GetSqlResults: looking the query up and recording the error are assumed to succeed; a stop request that arrives after the last refresh of a run is not seen by it, and the run's own status then stands.
- Serialization and compression of stored payloads: the stored value stands for its encoding, and its size is part of the environment.
- The mean, time-series and difference variants of the partition diagram, and null group keys, which grouping drops.
- Partition.LevelsFor: group keys are integers, standing for labels in their sort order, and the sums are exact.
- Dedup.DedupNames: case folding is an arbitrary function.
- FindModels.CollectNames: scanning the migration's source text for table names is an input, and so is the reflected schema.
- FindModels.StaticOrder: the library's sorter is modelled by its contract, any order in which dependencies come first.
- Charts, templates, REST endpoints, commands, sample data and front-end code elsewhere in the repository.
