/** The per-client aggregator: the statistics of every trace added for one
    (client reference id, client version) context. `AddTrace` is its only
    update; `AddTraces` folds a sequence of traces in order. */
module StatsAggregator {
  import opened TraceRecord
  import opened Histograms
  import opened PathErrors
  import opened TypeStats
  import opened TraceTreeWalker

  datatype StatsContext = StatsContext(clientReferenceId: string, clientVersion: string)

  datatype QueryLatencyStats = QueryLatencyStats(
    latencyCount: DurationHistogram,
    requestCount: nat,
    cacheHits: nat,
    persistedQueryHits: nat,
    persistedQueryMisses: nat,
    cacheLatencyCount: DurationHistogram,
    rootErrorStats: PathErrorStats,
    requestsWithErrorsCount: nat,
    publicCacheTtlCount: DurationHistogram,
    privateCacheTtlCount: DurationHistogram,
    registeredOperationCount: nat,
    forbiddenOperationCount: nat)

  datatype ContextualizedStats = ContextualizedStats(
    statsContext: StatsContext,
    queryLatencyStats: QueryLatencyStats,
    perTypeStat: PerTypeStat)

  /** The aggregate of a context before any trace. */
  function NewStats(context: StatsContext): (r: ContextualizedStats)
    ensures r.statsContext == context
    ensures var q := r.queryLatencyStats;
            && q.requestCount == 0 && q.requestsWithErrorsCount == 0 && q.cacheHits == 0
            && q.persistedQueryHits == 0 && q.persistedQueryMisses == 0
            && q.forbiddenOperationCount == 0 && q.registeredOperationCount == 0
            && TotalCount(q.latencyCount) == 0 && TotalCount(q.cacheLatencyCount) == 0
            && TotalCount(q.privateCacheTtlCount) == 0 && TotalCount(q.publicCacheTtlCount) == 0
    ensures forall path :: Find(r.queryLatencyStats.rootErrorStats, path).Some? <==> path == []
    ensures RequestsAt(r.queryLatencyStats.rootErrorStats, []) == 0 && ErrorsAt(r.queryLatencyStats.rootErrorStats, []) == 0
    ensures r.perTypeStat == map[]
  {
    ContextualizedStats(
      context,
      QueryLatencyStats(Empty(), 0, 0, 0, 0, Empty(), Fresh(), 0, Empty(), Empty(), 0, 0),
      map[])
  }

  /** Whether the trace carries a cache policy of the given scope. */
  predicate HasScope(t: Trace, scope: Scope) {
    t.cachePolicy.Some? && t.cachePolicy.value.scope == scope
  }

  /** The trace's cache max-age, zero when it carries no policy. */
  function MaxAge(t: Trace): nat {
    if t.cachePolicy.Some? then t.cachePolicy.value.maxAgeNs else 0
  }

  /** Folds one trace into the aggregate. */
  function AddTrace(cs: ContextualizedStats, t: Trace): (r: ContextualizedStats)
    ensures r.statsContext == cs.statsContext
    ensures var q, q' := cs.queryLatencyStats, r.queryLatencyStats;
            && q'.requestCount == q.requestCount + 1
            && (if t.fullQueryCacheHit then
                  && q'.cacheHits == q.cacheHits + 1
                  && q'.cacheLatencyCount == IncrementDuration(q.cacheLatencyCount, t.durationNs)
                  && q'.latencyCount == q.latencyCount
                else
                  && q'.cacheHits == q.cacheHits
                  && q'.latencyCount == IncrementDuration(q.latencyCount, t.durationNs)
                  && q'.cacheLatencyCount == q.cacheLatencyCount)
            && q'.privateCacheTtlCount
               == (if IsPrivate(t) then IncrementDuration(q.privateCacheTtlCount, MaxAge(t)) else q.privateCacheTtlCount)
            && q'.publicCacheTtlCount
               == (if IsPublic(t) then IncrementDuration(q.publicCacheTtlCount, MaxAge(t)) else q.publicCacheTtlCount)
            && q'.persistedQueryHits == q.persistedQueryHits + (if t.persistedQueryHit then 1 else 0)
            && q'.persistedQueryMisses == q.persistedQueryMisses + (if t.persistedQueryRegister then 1 else 0)
            && q'.forbiddenOperationCount == q.forbiddenOperationCount + (if t.forbiddenOperation then 1 else 0)
            && q'.registeredOperationCount == q.registeredOperationCount + (if t.registeredOperation then 1 else 0)
            && q'.requestsWithErrorsCount == q.requestsWithErrorsCount + (if TraceHasError(t) then 1 else 0)
    ensures r.queryLatencyStats.rootErrorStats == RecordAll(cs.queryLatencyStats.rootErrorStats, TraceErrorVisits(t))
    ensures r.perTypeStat == AddFields(cs.perTypeStat, TraceFieldVisits(t))
  {
    var q := cs.queryLatencyStats;
    var q1 := q.(requestCount := q.requestCount + 1);
    var q2 :=
      if t.fullQueryCacheHit then
        q1.(cacheLatencyCount := IncrementDuration(q1.cacheLatencyCount, t.durationNs), cacheHits := q1.cacheHits + 1)
      else
        q1.(latencyCount := IncrementDuration(q1.latencyCount, t.durationNs));
    var q3 :=
      if t.fullQueryCacheHit || t.cachePolicy.None? then q2
      else match t.cachePolicy.value.scope
        case Private => q2.(privateCacheTtlCount := IncrementDuration(q2.privateCacheTtlCount, t.cachePolicy.value.maxAgeNs))
        case Public => q2.(publicCacheTtlCount := IncrementDuration(q2.publicCacheTtlCount, t.cachePolicy.value.maxAgeNs))
        case Unknown => q2;
    var q4 := q3.(
      persistedQueryHits := q3.persistedQueryHits + (if t.persistedQueryHit then 1 else 0),
      persistedQueryMisses := q3.persistedQueryMisses + (if t.persistedQueryRegister then 1 else 0),
      forbiddenOperationCount := q3.forbiddenOperationCount + (if t.forbiddenOperation then 1 else 0),
      registeredOperationCount := q3.registeredOperationCount + (if t.registeredOperation then 1 else 0));
    var w := WalkTrace(t, true, WalkState(q4.rootErrorStats, cs.perTypeStat, false));
    WalkTraceSpec(t, true, WalkState(q4.rootErrorStats, cs.perTypeStat, false));
    var q5 := q4.(
      rootErrorStats := w.errorStats,
      requestsWithErrorsCount := q4.requestsWithErrorsCount + (if w.sawError then 1 else 0));
    ContextualizedStats(cs.statsContext, q5, w.perTypeStat)
  }

  /** Folds the traces in order; the context never changes. */
  function AddTraces(cs: ContextualizedStats, ts: seq<Trace>): (r: ContextualizedStats)
    ensures r.statsContext == cs.statsContext
    decreases |ts|
  {
    if ts == [] then cs else AddTraces(AddTrace(cs, ts[0]), ts[1..])
  }

  /** Error-tree effect of one trace: at every response path, one more
      erroring request per node of the trace's own tree that erred exactly
      there and all of those nodes' error entries; ancestors of an erroring
      node are created but keep their counts. */
  lemma AddTraceErrorTree(cs: ContextualizedStats, t: Trace, path: seq<string>)
    ensures var before, after := cs.queryLatencyStats.rootErrorStats, AddTrace(cs, t).queryLatencyStats.rootErrorStats;
            && RequestsAt(after, path) == RequestsAt(before, path) + VisitsAt(TraceErrorVisits(t), path)
            && ErrorsAt(after, path) == ErrorsAt(before, path) + ErrorsReportedAt(TraceErrorVisits(t), path)
            && (Find(after, path).Some? <==>
                  || Find(before, path).Some?
                  || exists i :: 0 <= i < |TraceErrorVisits(t)| && path <= TraceErrorVisits(t)[i].path)
  {
    RecordAllCounts(cs.queryLatencyStats.rootErrorStats, TraceErrorVisits(t), path);
    RecordAllShape(cs.queryLatencyStats.rootErrorStats, TraceErrorVisits(t), path);
  }

  /** Per-type effect of one trace: every field's entry is accumulated over
      exactly the trace's resolutions of that field (its own tree's and those
      of the traces its plan embeds): one count and one latency each, all
      their error entries, one erroring request per resolution with errors. */
  lemma AddTraceTypeStats(cs: ContextualizedStats, t: Trace, typeName: string, fieldName: string)
    ensures Lookup(AddTrace(cs, t).perTypeStat, typeName, fieldName)
         == Summarize(Lookup(cs.perTypeStat, typeName, fieldName), Matching(TraceFieldVisits(t), typeName, fieldName))
  {
    AddFieldsLookup(cs.perTypeStat, TraceFieldVisits(t), typeName, fieldName);
  }

  /** A federated trace whose plan fetches `flat` (and that has no tree of its
      own) leaves the same per-type statistics as adding `flat` directly, and
      leaves the error tree untouched. */
  lemma FederatedEqualsFlat(cs: ContextualizedStats, federated: Trace, flat: Trace, serviceName: string)
    requires federated.root.None?
    requires federated.queryPlan == Some(Fetch(serviceName, Some(flat)))
    ensures AddTrace(cs, federated).perTypeStat == AddTrace(cs, flat).perTypeStat
    ensures AddTrace(cs, federated).queryLatencyStats.rootErrorStats == cs.queryLatencyStats.rootErrorStats
  {
    assert TraceFieldVisits(federated) == [] + TraceFieldVisits(flat);
    assert [] + TraceFieldVisits(flat) == TraceFieldVisits(flat);
  }

  // Folding many traces.

  function CountWhere(ts: seq<Trace>, p: Trace -> bool): nat
    decreases |ts|
  {
    if ts == [] then 0 else (if p(ts[0]) then 1 else 0) + CountWhere(ts[1..], p)
  }

  /** The values `d` takes on the traces satisfying `p`. */
  function ValuesWhere(ts: seq<Trace>, p: Trace -> bool, d: Trace -> nat): multiset<nat>
    decreases |ts|
  {
    if ts == [] then multiset{} else (if p(ts[0]) then multiset{d(ts[0])} else multiset{}) + ValuesWhere(ts[1..], p, d)
  }

  lemma {:induction false} CountWhereAppend(a: seq<Trace>, b: seq<Trace>, p: Trace -> bool)
    ensures CountWhere(a + b, p) == CountWhere(a, p) + CountWhere(b, p)
    decreases |a|
  {
    if a == [] {
      assert a + b == b;
    } else {
      assert (a + b)[0] == a[0];
      assert (a + b)[1..] == a[1..] + b;
      CountWhereAppend(a[1..], b, p);
    }
  }

  lemma {:induction false} ValuesWhereAppend(a: seq<Trace>, b: seq<Trace>, p: Trace -> bool, d: Trace -> nat)
    ensures ValuesWhere(a + b, p, d) == ValuesWhere(a, p, d) + ValuesWhere(b, p, d)
    decreases |a|
  {
    if a == [] {
      assert a + b == b;
    } else {
      assert (a + b)[0] == a[0];
      assert (a + b)[1..] == a[1..] + b;
      ValuesWhereAppend(a[1..], b, p, d);
    }
  }

  predicate IsCacheHit(t: Trace) { t.fullQueryCacheHit }
  predicate IsExecuted(t: Trace) { !t.fullQueryCacheHit }
  /** An executed trace whose cache policy has private scope: its max-age is
      filed as a private TTL. A full-query cache hit files no TTL. */
  predicate IsPrivate(t: Trace) { !t.fullQueryCacheHit && HasScope(t, Private) }
  predicate IsPublic(t: Trace) { !t.fullQueryCacheHit && HasScope(t, Public) }
  predicate IsPersistedHit(t: Trace) { t.persistedQueryHit }
  predicate IsPersistedRegister(t: Trace) { t.persistedQueryRegister }
  predicate IsForbidden(t: Trace) { t.forbiddenOperation }
  predicate IsRegistered(t: Trace) { t.registeredOperation }
  function Duration(t: Trace): nat { t.durationNs }

  /** Request and latency totals after a sequence of traces: one request
      per trace, and each duration in exactly one of the two latency
      histograms according to the cache-hit flag. */
  lemma {:induction false} AddTracesLatencies(cs: ContextualizedStats, ts: seq<Trace>)
    ensures var q, q' := cs.queryLatencyStats, AddTraces(cs, ts).queryLatencyStats;
            && q'.requestCount == q.requestCount + |ts|
            && q'.cacheHits == q.cacheHits + CountWhere(ts, IsCacheHit)
            && q'.cacheLatencyCount.recorded == q.cacheLatencyCount.recorded + ValuesWhere(ts, IsCacheHit, Duration)
            && q'.latencyCount.recorded == q.latencyCount.recorded + ValuesWhere(ts, IsExecuted, Duration)
    decreases |ts|
  {
    if ts != [] {
      var t := ts[0];
      var cs' := AddTrace(cs, t);
      AddTracesLatencies(cs', ts[1..]);
      assert AddTraces(cs, ts) == AddTraces(cs', ts[1..]);
    }
  }

  /** Cache-policy totals: the max-age of each executed trace with a
      private policy in the private TTL histogram, of each with a public
      policy in the public histogram; cache hits file none. */
  lemma {:induction false} AddTracesTtls(cs: ContextualizedStats, ts: seq<Trace>)
    ensures var q, q' := cs.queryLatencyStats, AddTraces(cs, ts).queryLatencyStats;
            && q'.privateCacheTtlCount.recorded == q.privateCacheTtlCount.recorded + ValuesWhere(ts, IsPrivate, MaxAge)
            && q'.publicCacheTtlCount.recorded == q.publicCacheTtlCount.recorded + ValuesWhere(ts, IsPublic, MaxAge)
    decreases |ts|
  {
    if ts != [] {
      var t := ts[0];
      var cs' := AddTrace(cs, t);
      AddTracesTtls(cs', ts[1..]);
      assert AddTraces(cs, ts) == AddTraces(cs', ts[1..]);
    }
  }

  /** Flag totals: each flag counted by its own counter only, and one
      erroring request per trace with any error. */
  lemma {:induction false} AddTracesFlags(cs: ContextualizedStats, ts: seq<Trace>)
    ensures var q, q' := cs.queryLatencyStats, AddTraces(cs, ts).queryLatencyStats;
            && q'.persistedQueryHits == q.persistedQueryHits + CountWhere(ts, IsPersistedHit)
            && q'.persistedQueryMisses == q.persistedQueryMisses + CountWhere(ts, IsPersistedRegister)
            && q'.forbiddenOperationCount == q.forbiddenOperationCount + CountWhere(ts, IsForbidden)
            && q'.registeredOperationCount == q.registeredOperationCount + CountWhere(ts, IsRegistered)
            && q'.requestsWithErrorsCount == q.requestsWithErrorsCount + CountWhere(ts, TraceHasError)
    decreases |ts|
  {
    if ts != [] {
      var t := ts[0];
      var cs' := AddTrace(cs, t);
      AddTracesFlags(cs', ts[1..]);
      assert AddTraces(cs, ts) == AddTraces(cs', ts[1..]);
    }
  }

  function AllErrorVisits(ts: seq<Trace>): seq<ErrorVisit>
    decreases |ts|
  {
    if ts == [] then [] else TraceErrorVisits(ts[0]) + AllErrorVisits(ts[1..])
  }

  function AllFieldVisits(ts: seq<Trace>): seq<FieldVisit>
    decreases |ts|
  {
    if ts == [] then [] else TraceFieldVisits(ts[0]) + AllFieldVisits(ts[1..])
  }

  /** The two tree-shaped aggregates after a sequence of traces are the
      folds of all their erroring nodes and all their field resolutions. */
  lemma {:induction false} AddTracesTrees(cs: ContextualizedStats, ts: seq<Trace>)
    ensures AddTraces(cs, ts).queryLatencyStats.rootErrorStats
         == RecordAll(cs.queryLatencyStats.rootErrorStats, AllErrorVisits(ts))
    ensures AddTraces(cs, ts).perTypeStat == AddFields(cs.perTypeStat, AllFieldVisits(ts))
    decreases |ts|
  {
    if ts != [] {
      var cs' := AddTrace(cs, ts[0]);
      AddTracesTrees(cs', ts[1..]);
      RecordAllAppend(cs.queryLatencyStats.rootErrorStats, TraceErrorVisits(ts[0]), AllErrorVisits(ts[1..]));
      AddFieldsAppend(cs.perTypeStat, TraceFieldVisits(ts[0]), AllFieldVisits(ts[1..]));
    }
  }

  /** A trace with no erroring node leaves the erroring-request count and
      the error tree as they were. */
  lemma ErrorFreeTrace(cs: ContextualizedStats, t: Trace)
    requires !TraceHasError(t)
    ensures AddTrace(cs, t).queryLatencyStats.requestsWithErrorsCount == cs.queryLatencyStats.requestsWithErrorsCount
    ensures AddTrace(cs, t).queryLatencyStats.rootErrorStats == cs.queryLatencyStats.rootErrorStats
  {
    if t.root.Some? {
      NodeErrorVisitsEmpty(t.root.value, []);
    }
  }

  /** When sibling fields have distinct response names, one trace adds at
      most one erroring request at any response path, however many error
      entries the node there carries. */
  lemma OneErroringRequestPerPath(cs: ContextualizedStats, t: Trace, path: seq<string>)
    requires t.root.Some? ==> DistinctSiblings(t.root.value)
    ensures RequestsAt(AddTrace(cs, t).queryLatencyStats.rootErrorStats, path)
         <= RequestsAt(cs.queryLatencyStats.rootErrorStats, path) + 1
  {
    AddTraceErrorTree(cs, t, path);
    if t.root.Some? {
      AtMostOneVisitPerPath(t.root.value, [], path);
    }
  }

  /** The relations between the counters that every reachable aggregate
      keeps: every request lands in exactly one latency histogram, cache hits
      are the requests timed in the cache histogram, no counter of requests
      exceeds the request count, only executed requests file a TTL, and the
      field and error-tree bounds hold. */
  ghost predicate Consistent(cs: ContextualizedStats) {
    var q := cs.queryLatencyStats;
    && TotalCount(q.latencyCount) + TotalCount(q.cacheLatencyCount) == q.requestCount
    && q.cacheHits == TotalCount(q.cacheLatencyCount)
    && TotalCount(q.privateCacheTtlCount) + TotalCount(q.publicCacheTtlCount) <= TotalCount(q.latencyCount)
    && q.requestsWithErrorsCount <= q.requestCount
    && q.persistedQueryHits <= q.requestCount
    && q.persistedQueryMisses <= q.requestCount
    && q.forbiddenOperationCount <= q.requestCount
    && q.registeredOperationCount <= q.requestCount
    && RequestsBoundedByErrors(q.rootErrorStats)
    && Bounded(cs.perTypeStat)
  }

  lemma NewStatsConsistent(context: StatsContext)
    ensures Consistent(NewStats(context))
  {
    forall path {
      FindFresh(path);
    }
  }

  lemma AddTraceKeepsConsistent(cs: ContextualizedStats, t: Trace)
    requires Consistent(cs)
    ensures Consistent(AddTrace(cs, t))
  {
    var vs := TraceErrorVisits(t);
    if t.root.Some? {
      NodeErrorVisitsShape(t.root.value, []);
    }
    RecordAllKeepsBound(cs.queryLatencyStats.rootErrorStats, vs);
    AddFieldsKeepsBounds(cs.perTypeStat, TraceFieldVisits(t));
  }

  lemma {:induction false} AddTracesKeepsConsistent(cs: ContextualizedStats, ts: seq<Trace>)
    requires Consistent(cs)
    ensures Consistent(AddTraces(cs, ts))
    decreases |ts|
  {
    if ts != [] {
      AddTraceKeepsConsistent(cs, ts[0]);
      AddTracesKeepsConsistent(AddTrace(cs, ts[0]), ts[1..]);
    }
  }
}
