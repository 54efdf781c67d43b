/** The trace record consumed by the aggregator: one execution report for a
    single graph query. Only the fields the statistics read are modelled; the
    wire encoding, timestamps and signature are not. Absent optional scalars of
    the wire format read as zero or the empty string. */
module TraceRecord {

  datatype Option<+T> = None | Some(value: T)

  /** Scope of the cache policy computed for the response. */
  datatype Scope = Unknown | Public | Private

  datatype CachePolicy = CachePolicy(scope: Scope, maxAgeNs: nat)

  /** One error entry attached to an execution node. */
  datatype TraceError = TraceError(message: string)

  /** One node of the execution tree. The trace's root node stands for the
      response as a whole; every node below it is the resolution of one field:
      `responseName` is its segment of the response path (the alias, if any),
      `originalFieldName` the schema field, `parentType` the type the field
      belongs to and `returnType` its declared type. Start and end are
      nanosecond offsets from the start of the trace. */
  datatype Node = Node(
    responseName: string,
    originalFieldName: string,
    parentType: string,
    returnType: string,
    startTime: nat,
    endTime: nat,
    errors: seq<TraceError>,
    children: seq<Node>)

  /** A query-plan node of a federated trace: a fetch from a downstream
      service, carrying the trace that service reported (when it sent one). */
  datatype QueryPlanNode = Fetch(serviceName: string, trace: Option<Trace>)

  datatype Trace = Trace(
    durationNs: nat,
    root: Option<Node>,
    fullQueryCacheHit: bool,
    cachePolicy: Option<CachePolicy>,
    persistedQueryHit: bool,
    persistedQueryRegister: bool,
    forbiddenOperation: bool,
    registeredOperation: bool,
    queryPlan: Option<QueryPlanNode>)
}
