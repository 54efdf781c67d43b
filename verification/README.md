# Per-client trace statistics of apollo-engine-reporting

This project models `ContextualizedStats` from the `apollo-engine-reporting`
package of Apollo Server. It is the aggregate that an Apollo Engine reporting
agent keeps for one client context (client reference id and client version).
Every trace of an executed GraphQL operation is folded into it with
`addTrace`. The model proves what that fold does.

The behaviour modelled is the one the package's test suite,
`contextualizedStats.test.ts`, pins down; the choices listed further below
settle what the suite leaves open. Each call of `addTrace`:

- adds one request;
- files the trace's duration in the latency histogram, or in the cache
  latency histogram (also counting a cache hit) when the whole response came
  from the cache;
- for an executed (not fully cached) trace, files the cache policy's
  max-age in the private or the public TTL histogram, according to the
  policy's scope;
- counts the persisted-query hit, persisted-query register, forbidden and
  registered flags, each in its own counter;
- walks the trace's execution tree, and the traces embedded in a federated
  query plan, to grow two structures:
  - `rootErrorStats`, a tree keyed by response-path segment that counts
    erroring requests and error entries at the exact path of each erroring
    field;
  - `perTypeStat`, which maps parent type, then field name, to the field's
    return type, resolution count, error count, erroring-request count and
    latency histogram.

Modules, one per file:

| file | module | concept |
|---|---|---|
| trace_record.dfy | `TraceRecord` | the trace record, its execution tree and its query plan |
| histogram.dfy | `Histograms` | the duration histogram, as the multiset of durations recorded |
| path_errors.dfy | `PathErrors` | the response-path error tree |
| type_stats.dfy | `TypeStats` | the per-type field statistics table |
| tree_walker.dfy | `TraceTreeWalker` | the walk over a trace tree, and a reference listing of what a tree contains |
| contextualized_stats.dfy | `StatsAggregator` | the aggregate, `AddTrace` and the fold over many traces |
| scenarios.dfy | `Scenarios` | the suite's concrete traces and the values it expects |

The walk (`TraceTreeWalker.WalkTrace`) is a depth-first pass that threads one
shared state. It is checked against an independent reference: the list of
field resolutions and erroring nodes that a trace contains. `WalkTraceSpec`
proves that walking equals folding those lists into the two aggregates. The
general lemmas then reason about the lists alone.

Choices the suite leaves open, and that the model settles:

- The root node of a trace is the response itself. It adds no field
  statistics. Errors on it would be counted at the empty path.
- `perTypeStat` is keyed by parent type and `originalFieldName`.
  `rootErrorStats` is keyed by `responseName`.
- An absent `originalFieldName` reads as the empty string, and the field is
  filed in `perTypeStat` under the key `""`. The suite never checks the type
  table of the traces that omit it (lines 130-274).
- A trace with both its own execution tree and a query plan feeds both:
  first its own tree, then the traces its plan embeds. The suite never builds
  such a trace.
- A trace embedded in a federated fetch feeds `perTypeStat` and the
  top-level erroring-request flag. It does not feed `rootErrorStats`.
- The top-level `requestsWithErrorsCount` grows by one for a trace when any
  node of the trace, nested ones included, carries errors. The suite only
  asserts the error-free case.
- A full-query cache hit files no TTL, whatever its cache policy. The suite
  never combines a cache hit with a policy, but it writes
  `fullQueryCacheHit: false` explicitly beside every policy it sets
  (lines 53, 70, 282, 292), which only matters if the flag gates the TTL.
- Flags that the suite never sets together on one trace (a persisted-query
  hit with a persisted-query register, a forbidden with a registered
  operation) are each counted by their own counter, independently.
- A field's return type is taken from its first resolution.

The suite's titles "adding a public cached trace" (line 48) and "adding a
private cached trace" (line 65) are swapped relative to their assertions. The
first builds a PRIVATE policy and checks the private histogram. The model
follows the assertions. The title "add multiple federated trace" is used
twice; the second use (line 541) adds one flat trace with two errors on a
field.

## Model

| member | source | states |
|---|---|---|
| StatsAggregator.NewStats | packages/apollo-engine-reporting/src/__tests__/contextualizedStats.test.ts:24 | a new aggregate keeps its context, has every counter at zero and every histogram empty, an error tree with only its root, whose request and error counts are zero, and an empty per-type table |
| StatsAggregator.AddTrace | packages/apollo-engine-reporting/src/__tests__/contextualizedStats.test.ts:22-129 | one more request. The duration goes to the latency histogram, or to the cache histogram with one more cache hit when the response was cached. For an executed trace the max-age goes to the histogram of the policy's scope; a cache hit files none. Each flag raises only its own counter. One more erroring request exactly when some node erred. The error tree and type table are the folds of the trace's erroring nodes and field resolutions |
| StatsAggregator.AddTraces | packages/apollo-engine-reporting/src/__tests__/contextualizedStats.test.ts:162-240 | the repeated `addTrace` calls: a fold of the traces in order that keeps the context. Its totals are stated by AddTracesLatencies, AddTracesTtls, AddTracesFlags and AddTracesTrees |
| StatsAggregator.AddTraceErrorTree | packages/apollo-engine-reporting/src/__tests__/contextualizedStats.test.ts:162-273 | after one trace, every response path gains one erroring request per node of the trace that erred exactly there, plus those nodes' error entries. A node exists afterwards exactly when it existed before or lies on the path to an erroring node |
| StatsAggregator.AddTraceTypeStats | packages/apollo-engine-reporting/src/__tests__/contextualizedStats.test.ts:421-455 | after one trace, each field's entry is its previous entry accumulated over exactly the trace's resolutions of that field, nested ones included |
| StatsAggregator.FederatedEqualsFlat | packages/apollo-engine-reporting/src/__tests__/contextualizedStats.test.ts:370-383 | a federated trace whose fetch embeds a flat trace leaves the same per-type table as the flat trace, and leaves the error tree unchanged |
| StatsAggregator.ErrorFreeTrace | packages/apollo-engine-reporting/src/__tests__/contextualizedStats.test.ts:30-32 | a trace without an erroring node changes neither the erroring-request count nor the error tree |
| StatsAggregator.OneErroringRequestPerPath | packages/apollo-engine-reporting/src/__tests__/contextualizedStats.test.ts:242-257 | when sibling response names are distinct, one trace adds at most one erroring request at any response path |
| StatsAggregator.AddTracesLatencies | packages/apollo-engine-reporting/src/__tests__/contextualizedStats.test.ts:275-331 | after a sequence of traces: one request per trace, one cache hit per cached trace, and the cached and executed traces' durations in the cache and latency histograms respectively |
| StatsAggregator.AddTracesTtls | packages/apollo-engine-reporting/src/__tests__/contextualizedStats.test.ts:318-322 | after a sequence of traces, the private and public TTL histograms hold exactly the max-ages of the executed traces with a private or public policy |
| StatsAggregator.AddTracesFlags | packages/apollo-engine-reporting/src/__tests__/contextualizedStats.test.ts:82-129 | after a sequence of traces, each flag counter holds the number of traces with that flag, and the erroring-request count the number of traces with an erroring node |
| StatsAggregator.AddTracesTrees | packages/apollo-engine-reporting/src/__tests__/contextualizedStats.test.ts:162-240 | after a sequence of traces, the error tree and the type table are the folds of all the traces' erroring nodes and field resolutions, in order |
| StatsAggregator.NewStatsConsistent | packages/apollo-engine-reporting/src/__tests__/contextualizedStats.test.ts:24 | a new aggregate satisfies the counter relations |
| StatsAggregator.AddTraceKeepsConsistent | packages/apollo-engine-reporting/src/__tests__/contextualizedStats.test.ts:307-330 | adding a trace keeps the counter relations: both latency histograms together count the requests, cache hits count the cache histogram, no request counter exceeds the request count, only executed requests file a TTL, a field's erroring requests are at most its resolutions and at most its errors, and every error-tree node has at least as many errors as erroring requests |
| StatsAggregator.AddTracesKeepsConsistent | packages/apollo-engine-reporting/src/__tests__/contextualizedStats.test.ts:275-331 | a fold of any traces from a consistent aggregate stays consistent |
| Histograms.Empty | packages/apollo-engine-reporting/src/__tests__/contextualizedStats.test.ts:28 | a new histogram has no increments |
| Histograms.IncrementDuration | packages/apollo-engine-reporting/src/__tests__/contextualizedStats.test.ts:28 | one more increment, filed under the duration (negatives under zero), every other duration's count unchanged |
| Histograms.OfDurations | packages/apollo-engine-reporting/src/__tests__/contextualizedStats.test.ts:308-314 | the chained increments that build the expected values: one increment per duration. OfDurationsRecords gives their content |
| Histograms.OfDurationsRecords | packages/apollo-engine-reporting/src/__tests__/contextualizedStats.test.ts:308-314 | a histogram built by chained increments records exactly the multiset of the durations given |
| Histograms.OfDurationsOrderFree | packages/apollo-engine-reporting/src/__tests__/contextualizedStats.test.ts:326-330 | the order of increments does not matter |
| PathErrors.FindFresh | packages/apollo-engine-reporting/src/__tests__/contextualizedStats.test.ts:259-265 | a fresh node has no descendants, and every path reads zero on it |
| PathErrors.RecordErrors | packages/apollo-engine-reporting/src/__tests__/contextualizedStats.test.ts:242-257 | one erroring node recorded: the node at its path exists afterwards and has one more request and k more errors. RecordErrorsCounts and RecordErrorsShape state that nothing else changes |
| PathErrors.RecordAll | packages/apollo-engine-reporting/src/__tests__/contextualizedStats.test.ts:162-273 | every erroring node of a list recorded in turn. RecordAllCounts and RecordAllShape give its closed form |
| PathErrors.RecordErrorsCounts | packages/apollo-engine-reporting/src/__tests__/contextualizedStats.test.ts:242-257 | recording k errors at a path adds one request and k errors at that path and changes no other path's counts, ancestors included |
| PathErrors.RecordErrorsShape | packages/apollo-engine-reporting/src/__tests__/contextualizedStats.test.ts:258-265 | after recording, a node exists at a path exactly when it existed before or the path is a prefix of the recorded path |
| PathErrors.RecordAllAppend | packages/apollo-engine-reporting/src/__tests__/contextualizedStats.test.ts:162-240 | recording two lists of visits equals recording their concatenation |
| PathErrors.RecordAllCounts | packages/apollo-engine-reporting/src/__tests__/contextualizedStats.test.ts:242-273 | after recording a list of visits, each path's counts grow by the visits at exactly that path and their errors |
| PathErrors.RecordAllShape | packages/apollo-engine-reporting/src/__tests__/contextualizedStats.test.ts:258-273 | after recording a list of visits, a node exists exactly where one existed before or on the path to some visit |
| PathErrors.RecordErrorsKeepsBound | packages/apollo-engine-reporting/src/__tests__/contextualizedStats.test.ts:246-257 | recording at least one error keeps every node's erroring-request count at most its error count |
| PathErrors.RecordAllKeepsBound | packages/apollo-engine-reporting/src/__tests__/contextualizedStats.test.ts:242-273 | the same bound holds after recording any list of visits that each carry an error |
| TypeStats.AddField | packages/apollo-engine-reporting/src/__tests__/contextualizedStats.test.ts:541-575 | one resolution raises its field's count by one, adds its errors to the error count, adds one erroring request only when it had errors, and files its latency. The return type is the one first seen. Every other field is unchanged, and the only type key that can appear is the resolution's parent type |
| TypeStats.AddFields | packages/apollo-engine-reporting/src/__tests__/contextualizedStats.test.ts:456-497 | every resolution of a list added in turn: the table gains a type entry for each parent type resolved and no other. AddFieldsLookup gives each field's entry |
| TypeStats.AddFieldsAppend | packages/apollo-engine-reporting/src/__tests__/contextualizedStats.test.ts:456-459 | adding two lists of resolutions equals adding their concatenation |
| TypeStats.AccumulateStep | packages/apollo-engine-reporting/src/__tests__/contextualizedStats.test.ts:456-497 | accumulating a resolution and then a list equals accumulating the longer list |
| TypeStats.AddFieldsLookup | packages/apollo-engine-reporting/src/__tests__/contextualizedStats.test.ts:456-497 | closed form: after a list of resolutions, each field's entry is its previous entry accumulated over exactly that field's resolutions. It exists exactly when it existed before or was resolved |
| TypeStats.AddFieldsKeepsBounds | packages/apollo-engine-reporting/src/__tests__/contextualizedStats.test.ts:549-551 | a field's erroring-request count never exceeds its resolution count or its error count |
| TraceTreeWalker.VisitNodeSpec | packages/apollo-engine-reporting/src/__tests__/contextualizedStats.test.ts:398-406 | visiting one node equals folding its own field resolution and its own error entry into the state |
| TraceTreeWalker.VisitNode | packages/apollo-engine-reporting/src/__tests__/contextualizedStats.test.ts:398-406 | the handling of one node: its field resolution into the type table, and its errors into the error tree and the error mark. VisitNodeSpec states it |
| TraceTreeWalker.WalkNode | packages/apollo-engine-reporting/src/__tests__/contextualizedStats.test.ts:335-368 | the depth-first walk of a subtree. WalkNodeSpec states it |
| TraceTreeWalker.WalkTrace | packages/apollo-engine-reporting/src/__tests__/contextualizedStats.test.ts:334-419 | the walk of a trace: its own tree, then the traces its plan embeds. WalkTraceSpec states it |
| TraceTreeWalker.WalkPlan | packages/apollo-engine-reporting/src/__tests__/contextualizedStats.test.ts:370-383 | the walk of a federated fetch's embedded trace, which feeds the type table but not the error tree. WalkPlanSpec states it |
| TraceTreeWalker.WalkNodeSpec | packages/apollo-engine-reporting/src/__tests__/contextualizedStats.test.ts:335-368 | walking a subtree equals folding its reference lists of field resolutions and erroring nodes |
| TraceTreeWalker.WalkTraceSpec | packages/apollo-engine-reporting/src/__tests__/contextualizedStats.test.ts:334-419 | walking a trace equals folding its reference lists. The error tree gets the erroring nodes of its own tree (when tracked), the type table gets every resolution including nested traces, and the walk is marked erroring exactly when some node erred |
| TraceTreeWalker.WalkPlanSpec | packages/apollo-engine-reporting/src/__tests__/contextualizedStats.test.ts:370-383 | walking a query plan changes only the type table and the erroring mark |
| TraceTreeWalker.NodeErrorVisitsEmpty | packages/apollo-engine-reporting/src/__tests__/contextualizedStats.test.ts:315-317 | a tree lists no erroring node exactly when no node of it carries errors |
| TraceTreeWalker.NodeErrorVisitsShape | packages/apollo-engine-reporting/src/__tests__/contextualizedStats.test.ts:194-206 | every listed erroring node carries at least one error, at a path extending its subtree's path |
| TraceTreeWalker.AtMostOneVisitPerPath | packages/apollo-engine-reporting/src/__tests__/contextualizedStats.test.ts:405 | with distinct sibling response names, at most one node of a tree is listed at any response path |
| Scenarios.SingleTrace | packages/apollo-engine-reporting/src/__tests__/contextualizedStats.test.ts:23-33 | one plain trace: one request, its duration in the latency histogram, no erroring request |
| Scenarios.FullyCachedTrace | packages/apollo-engine-reporting/src/__tests__/contextualizedStats.test.ts:34-47 | one cached trace: one request, one cache hit, its duration in the cache histogram, the latency histogram empty |
| Scenarios.ScopedCacheTraces | packages/apollo-engine-reporting/src/__tests__/contextualizedStats.test.ts:48-81 | a private policy's max-age goes to the private TTL histogram only, a public one's to the public histogram only |
| Scenarios.FlaggedTraces | packages/apollo-engine-reporting/src/__tests__/contextualizedStats.test.ts:82-129 | each flag raises its own counter and leaves the other three flag counters at zero |
| Scenarios.CachedTraceFilesNoTtl | packages/apollo-engine-reporting/src/__tests__/contextualizedStats.test.ts:48-63 | a full-query cache hit counts as a cache hit and leaves both TTL histograms empty, whatever the scope and max-age of its policy |
| Scenarios.ErroredTrace | packages/apollo-engine-reporting/src/__tests__/contextualizedStats.test.ts:130-161 | one error on `user` gives `user` one erroring request and one error |
| Scenarios.MergingErroredTraces | packages/apollo-engine-reporting/src/__tests__/contextualizedStats.test.ts:162-274 | after the four traces: `user` 1/1, `user.email` 2/2, `account` present with 0/0, `account.name` 1/1 |
| Scenarios.MergingNonErroredLatencies | packages/apollo-engine-reporting/src/__tests__/contextualizedStats.test.ts:275-330 | six requests, four durations in the latency histogram, two cache hits and two durations in the cache histogram |
| Scenarios.MergingNonErroredTtlsAndErrors | packages/apollo-engine-reporting/src/__tests__/contextualizedStats.test.ts:315-322 | the two private max-ages in the private TTL histogram and no erroring request |
| Scenarios.SingleTypeTrace | packages/apollo-engine-reporting/src/__tests__/contextualizedStats.test.ts:421-455 | the type table after one flat trace is exactly the expected table |
| Scenarios.RepeatedTypeTrace | packages/apollo-engine-reporting/src/__tests__/contextualizedStats.test.ts:456-497 | the type table after the flat trace twice is exactly the expected table |
| Scenarios.RepeatedFederatedTrace | packages/apollo-engine-reporting/src/__tests__/contextualizedStats.test.ts:499-540 | the type table after the federated trace twice is the same table |
| Scenarios.ErroredTypeTrace | packages/apollo-engine-reporting/src/__tests__/contextualizedStats.test.ts:541-575 | two errors on `email` give it two errors and one erroring request, and the other fields are error-free |

## Left out

- The histogram's bucket formula, merging and serialization. The bucket index is a floating-point logarithm. The model records exact durations, which is finer than any bucketing, so every equality it proves also holds of the bucketed histogram.
- Protobuf construction of `Trace` and `TypeStat`, the conversion of dates into timestamps, and the trace fields `startTime`, `endTime`, `signature`, `details` and the fetch's `sentTime`/`receivedTime`. The aggregate does not read them.
- Query-plan node kinds other than a fetch (sequence, parallel, flatten). The suite shows only the fetch.
- List-index nodes of the execution tree. Every modelled node is a field with a response name.
- StatsAggregator.AddTrace: the top-level `requestsWithErrorsCount` for traces with errors, whether errors of an embedded federated trace reach `rootErrorStats`, that a full-query cache hit files no TTL, and that two flags set on one trace are counted independently, are choices this model makes. The suite asserts none of them.
- Choosing a `ContextualizedStats` per client context, batching of reports, transport and the reporting agent's timers.
