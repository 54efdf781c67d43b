/** The behaviours the test suite of the aggregator pins down, stated on the
    model for its concrete traces. Absent wire fields read as zero or the
    empty string. */
module Scenarios {
  import opened TraceRecord
  import opened Histograms
  import opened PathErrors
  import opened TypeStats
  import opened TraceTreeWalker
  import opened StatsAggregator

  const Duration30000Ns: nat := 30 * 1000

  function Context(): StatsContext {
    StatsContext("reference", "version")
  }

  /** The base trace: 30000 ns, no tree, no flags. */
  function BaseTrace(): Trace {
    Trace(Duration30000Ns, None, false, None, false, false, false, false, None)
  }

  function Err(message: string): TraceError {
    TraceError(message)
  }

  /** A field node as the error tests write it: response name, parent and
      return type, errors and children only. */
  function ErrField(responseName: string, parentType: string, returnType: string,
                    errors: seq<TraceError>, children: seq<Node>): Node {
    Node(responseName, "", parentType, returnType, 0, 0, errors, children)
  }

  function Root(children: seq<Node>): Node {
    Node("", "", "", "", 0, 0, [], children)
  }

  function WithRoot(children: seq<Node>): Trace {
    BaseTrace().(registeredOperation := true, root := Some(Root(children)))
  }

  lemma SingleTrace()
    ensures var q := AddTrace(NewStats(Context()), BaseTrace()).queryLatencyStats;
            && q.requestCount == 1
            && q.latencyCount == OfDurations([Duration30000Ns])
            && q.requestsWithErrorsCount == 0
  {
  }

  function UserErrorTrace(): Trace {
    WithRoot([ErrField("user", "Query", "User!", [Err("error 1")], [])])
  }

  function AccountNameErrorTrace(): Trace {
    WithRoot([ErrField("account", "Query", "Account!", [],
                [ErrField("name", "Account", "String!", [Err("has error")], [])])])
  }

  function UserEmailErrorTrace(): Trace {
    WithRoot([ErrField("user", "Query", "User!", [],
                [ErrField("email", "User", "String!", [Err("has error")], [])])])
  }

  lemma LeafErrorVisits(n: Node, path: seq<string>)
    requires n.children == []
    ensures NodeErrorVisits(n, path) == if |n.errors| > 0 then [ErrorVisit(path, |n.errors|)] else []
  {
    assert ChildErrorVisits(n, 0, path) == [];
  }

  lemma OnlyChildErrorVisits(n: Node, path: seq<string>)
    requires |n.children| == 1
    ensures NodeErrorVisits(n, path)
         == (if |n.errors| > 0 then [ErrorVisit(path, |n.errors|)] else [])
            + NodeErrorVisits(n.children[0], path + [n.children[0].responseName])
  {
    var c := n.children[0];
    assert ChildErrorVisits(n, 1, path) == [];
    assert ChildErrorVisits(n, 0, path) == NodeErrorVisits(c, path + [c.responseName]) + [];
  }

  lemma ErroredTraceVisits()
    ensures TraceErrorVisits(UserErrorTrace()) == [ErrorVisit(["user"], 1)]
    ensures TraceErrorVisits(AccountNameErrorTrace()) == [ErrorVisit(["account", "name"], 1)]
    ensures TraceErrorVisits(UserEmailErrorTrace()) == [ErrorVisit(["user", "email"], 1)]
  {
    var u := UserErrorTrace().root.value;
    OnlyChildErrorVisits(u, []);
    LeafErrorVisits(u.children[0], ["user"]);
    assert [] + ["user"] == ["user"];

    var a := AccountNameErrorTrace().root.value;
    OnlyChildErrorVisits(a, []);
    OnlyChildErrorVisits(a.children[0], ["account"]);
    LeafErrorVisits(a.children[0].children[0], ["account", "name"]);
    assert [] + ["account"] == ["account"];
    assert ["account"] + ["name"] == ["account", "name"];

    var e := UserEmailErrorTrace().root.value;
    OnlyChildErrorVisits(e, []);
    OnlyChildErrorVisits(e.children[0], ["user"]);
    LeafErrorVisits(e.children[0].children[0], ["user", "email"]);
    assert ["user"] + ["email"] == ["user", "email"];
  }

  /** One error at `user`: one erroring request and one error entry there. */
  lemma ErroredTrace()
    ensures var q := AddTrace(NewStats(Context()), UserErrorTrace()).queryLatencyStats;
            && q.requestCount == 1
            && RequestsAt(q.rootErrorStats, ["user"]) == 1
            && ErrorsAt(q.rootErrorStats, ["user"]) == 1
  {
    ErroredTraceVisits();
    var ev := [ErrorVisit(["user"], 1)];
    RecordAllCounts(Fresh(), ev, ["user"]);
  }

  function MergedErrorTraces(): seq<Trace> {
    [UserErrorTrace(), AccountNameErrorTrace(), UserEmailErrorTrace(), UserEmailErrorTrace()]
  }

  function MergedErrorVisits(): seq<ErrorVisit> {
    [ErrorVisit(["user"], 1), ErrorVisit(["account", "name"], 1),
     ErrorVisit(["user", "email"], 1), ErrorVisit(["user", "email"], 1)]
  }

  lemma MergedErrorVisitsOf(ts: seq<Trace>)
    requires ts == MergedErrorTraces()
    ensures AllErrorVisits(ts) == MergedErrorVisits()
  {
    ErroredTraceVisits();
    var u, a, e := UserErrorTrace(), AccountNameErrorTrace(), UserEmailErrorTrace();
    assert ts[1..] == [a, e, e];
    assert [a, e, e][1..] == [e, e];
    assert [e, e][1..] == [e];
    assert [e][1..] == [];
    assert AllErrorVisits([e]) == [ErrorVisit(["user", "email"], 1)];
    assert AllErrorVisits([e, e]) == [ErrorVisit(["user", "email"], 1), ErrorVisit(["user", "email"], 1)];
    assert AllErrorVisits([a, e, e]) == MergedErrorVisits()[1..];

  }

  lemma MergedErrorTree()
    ensures AddTraces(NewStats(Context()), MergedErrorTraces()).queryLatencyStats.rootErrorStats == RecordAll(Fresh(), MergedErrorVisits())
  {
    var cs, ts := NewStats(Context()), MergedErrorTraces();
    AddTracesTrees(cs, ts);
    MergedErrorVisitsOf(ts);
  }

  /** Errors count at the exact response path only and accumulate across
      traces: `user` keeps the first trace's 1/1 while `user.email` reaches
      2/2; `account` exists with zero counts while `account.name` is 1/1. */
  lemma MergingErroredTraces()
    ensures var q := AddTraces(NewStats(Context()), MergedErrorTraces()).queryLatencyStats;
            && q.requestCount == 4
            && RequestsAt(q.rootErrorStats, ["user"]) == 1
            && ErrorsAt(q.rootErrorStats, ["user"]) == 1
            && RequestsAt(q.rootErrorStats, ["user", "email"]) == 2
            && ErrorsAt(q.rootErrorStats, ["user", "email"]) == 2
            && Find(q.rootErrorStats, ["account"]).Some?
            && RequestsAt(q.rootErrorStats, ["account"]) == 0
            && ErrorsAt(q.rootErrorStats, ["account"]) == 0
            && RequestsAt(q.rootErrorStats, ["account", "name"]) == 1
            && ErrorsAt(q.rootErrorStats, ["account", "name"]) == 1
  {
    var cs, ts := NewStats(Context()), MergedErrorTraces();
    AddTracesLatencies(cs, ts);
    MergedErrorTree();
    var ev := MergedErrorVisits();
    RecordAllCounts(Fresh(), ev, ["user"]);
    RecordAllCounts(Fresh(), ev, ["user", "email"]);
    RecordAllCounts(Fresh(), ev, ["account"]);
    RecordAllCounts(Fresh(), ev, ["account", "name"]);
    RecordAllShape(Fresh(), ev, ["account"]);
    assert ["account"] <= ev[1].path;
  }

  function CacheHitTrace(): Trace {
    BaseTrace().(fullQueryCacheHit := true)
  }

  function ScopedTrace(scope: Scope): Trace {
    BaseTrace().(cachePolicy := Some(CachePolicy(scope, 1000)))
  }

  lemma FullyCachedTrace()
    ensures var q := AddTrace(NewStats(Context()), CacheHitTrace()).queryLatencyStats;
            && q.requestCount == 1
            && q.cacheHits == 1
            && q.cacheLatencyCount == OfDurations([Duration30000Ns])
            && q.latencyCount == Empty()
  {
  }

  /** A private policy feeds the private TTL histogram only, a public one the
      public histogram only. */
  lemma ScopedCacheTraces()
    ensures var q := AddTrace(NewStats(Context()), ScopedTrace(Private)).queryLatencyStats;
            && q.requestCount == 1
            && q.privateCacheTtlCount == OfDurations([1000])
            && q.publicCacheTtlCount == Empty()
    ensures var q := AddTrace(NewStats(Context()), ScopedTrace(Public)).queryLatencyStats;
            && q.requestCount == 1
            && q.publicCacheTtlCount == OfDurations([1000])
            && q.privateCacheTtlCount == Empty()
  {
  }

  /** The counters a trace's four flags feed, in the order persisted hits,
      persisted misses, forbidden operations, registered operations. */
  function FlagCounters(q: QueryLatencyStats): (nat, nat, nat, nat) {
    (q.persistedQueryHits, q.persistedQueryMisses, q.forbiddenOperationCount, q.registeredOperationCount)
  }

  /** Each flag raises its own counter and none of the other three. */
  lemma FlaggedTraces()
    ensures var q := AddTrace(NewStats(Context()), BaseTrace().(persistedQueryHit := true)).queryLatencyStats;
            q.requestCount == 1 && FlagCounters(q) == (1, 0, 0, 0)
    ensures var q := AddTrace(NewStats(Context()), BaseTrace().(persistedQueryRegister := true)).queryLatencyStats;
            q.requestCount == 1 && FlagCounters(q) == (0, 1, 0, 0)
    ensures var q := AddTrace(NewStats(Context()), BaseTrace().(forbiddenOperation := true)).queryLatencyStats;
            q.requestCount == 1 && FlagCounters(q) == (0, 0, 1, 0)
    ensures var q := AddTrace(NewStats(Context()), BaseTrace().(registeredOperation := true)).queryLatencyStats;
            q.requestCount == 1 && FlagCounters(q) == (0, 0, 0, 1)
  {
  }

  /** A full-query cache hit files no TTL, whatever its cache policy. */
  lemma CachedTraceFilesNoTtl(scope: Scope, maxAgeNs: nat)
    ensures var q := AddTrace(NewStats(Context()), CacheHitTrace().(cachePolicy := Some(CachePolicy(scope, maxAgeNs)))).queryLatencyStats;
            && q.cacheHits == 1
            && q.privateCacheTtlCount == Empty()
            && q.publicCacheTtlCount == Empty()
  {
  }

  /** Two plain traces, two with a private cache policy, two cache hits. */
  function NonErroredTraces(): seq<Trace> {
    [BaseTrace(), BaseTrace()] + [ScopedTrace(Private), ScopedTrace(Private)] + [CacheHitTrace(), CacheHitTrace()]
  }

  lemma CountWhereOne(t: Trace, p: Trace -> bool)
    ensures CountWhere([t], p) == if p(t) then 1 else 0
  {
    assert [t][0] == t && [t][1..] == [];
  }

  lemma ValuesWhereOne(t: Trace, p: Trace -> bool, d: Trace -> nat)
    ensures ValuesWhere([t], p, d) == if p(t) then multiset{d(t)} else multiset{}
  {
    assert [t][0] == t && [t][1..] == [];
  }

  lemma PairCount(t: Trace, p: Trace -> bool)
    ensures CountWhere([t, t], p) == if p(t) then 2 else 0
  {
    assert [t, t] == [t] + [t];
    CountWhereOne(t, p);
    CountWhereAppend([t], [t], p);
  }

  lemma PairValues(t: Trace, p: Trace -> bool, d: Trace -> nat)
    ensures ValuesWhere([t, t], p, d) == if p(t) then multiset{d(t), d(t)} else multiset{}
  {
    assert [t, t] == [t] + [t];
    ValuesWhereOne(t, p, d);
    ValuesWhereAppend([t], [t], p, d);
  }

  /** A count over the three pairs is the sum over the pairs. */
  lemma PairsCount(x: Trace, y: Trace, z: Trace, p: Trace -> bool)
    ensures CountWhere([x, x] + [y, y] + [z, z], p)
         == (if p(x) then 2 else 0) + (if p(y) then 2 else 0) + (if p(z) then 2 else 0)
  {
    PairCount(x, p);
    PairCount(y, p);
    PairCount(z, p);
    CountWhereAppend([x, x] + [y, y], [z, z], p);
    CountWhereAppend([x, x], [y, y], p);
  }

  lemma PairsValues(x: Trace, y: Trace, z: Trace, p: Trace -> bool, d: Trace -> nat)
    ensures ValuesWhere([x, x] + [y, y] + [z, z], p, d)
         == (if p(x) then multiset{d(x), d(x)} else multiset{})
          + (if p(y) then multiset{d(y), d(y)} else multiset{})
          + (if p(z) then multiset{d(z), d(z)} else multiset{})
  {
    PairValues(x, p, d);
    PairValues(y, p, d);
    PairValues(z, p, d);
    ValuesWhereAppend([x, x] + [y, y], [z, z], p, d);
    ValuesWhereAppend([x, x], [y, y], p, d);
  }

  lemma NoErrorsInBase()
    ensures !TraceHasError(BaseTrace())
    ensures !TraceHasError(ScopedTrace(Private))
    ensures !TraceHasError(CacheHitTrace())
  {
  }

  lemma NonErroredLatencyValues(ts: seq<Trace>)
    requires ts == NonErroredTraces()
    ensures ValuesWhere(ts, IsExecuted, Duration) == multiset{Duration30000Ns, Duration30000Ns, Duration30000Ns, Duration30000Ns}
    ensures ValuesWhere(ts, IsCacheHit, Duration) == multiset{Duration30000Ns, Duration30000Ns}
    ensures CountWhere(ts, IsCacheHit) == 2
  {
    PairsValues(BaseTrace(), ScopedTrace(Private), CacheHitTrace(), IsExecuted, Duration);
    PairsValues(BaseTrace(), ScopedTrace(Private), CacheHitTrace(), IsCacheHit, Duration);
    PairsCount(BaseTrace(), ScopedTrace(Private), CacheHitTrace(), IsCacheHit);
  }

  lemma NonErroredOtherValues(ts: seq<Trace>)
    requires ts == NonErroredTraces()
    ensures ValuesWhere(ts, IsPrivate, MaxAge) == multiset{1000, 1000}
    ensures CountWhere(ts, TraceHasError) == 0
  {
    NoErrorsInBase();
    PairsValues(BaseTrace(), ScopedTrace(Private), CacheHitTrace(), IsPrivate, MaxAge);
    PairsCount(BaseTrace(), ScopedTrace(Private), CacheHitTrace(), TraceHasError);
  }

  /** Four executed and two cache-hit traces: six requests, four durations
      in the latency histogram, two in the cache histogram.

      The aggregate and the traces are parameters pinned by the requires
      rather than written into the ensures: with the literal call there, the
      verifier unfolds the fold over all six traces and does not finish. */
  lemma MergingNonErroredLatencies(cs: ContextualizedStats, ts: seq<Trace>)
    requires cs == NewStats(Context()) && ts == NonErroredTraces()
    ensures var q := AddTraces(cs, ts).queryLatencyStats;
            && q.requestCount == 6
            && q.latencyCount == OfDurations([Duration30000Ns, Duration30000Ns, Duration30000Ns, Duration30000Ns])
            && q.cacheHits == 2
            && q.cacheLatencyCount == OfDurations([Duration30000Ns, Duration30000Ns])
  {
    AddTracesLatencies(cs, ts);
    NonErroredLatencyValues(ts);
    OfDurationsRecords([Duration30000Ns, Duration30000Ns, Duration30000Ns, Duration30000Ns]);
    OfDurationsRecords([Duration30000Ns, Duration30000Ns]);
  }

  /** The same traces: two private max-ages and no erroring request. */
  lemma MergingNonErroredTtlsAndErrors()
    ensures var q := AddTraces(NewStats(Context()), NonErroredTraces()).queryLatencyStats;
            && q.privateCacheTtlCount == OfDurations([1000, 1000])
            && q.requestsWithErrorsCount == 0
  {
    var cs, ts := NewStats(Context()), NonErroredTraces();
    AddTracesTtls(cs, ts);
    AddTracesFlags(cs, ts);
    NonErroredOtherValues(ts);
    OfDurationsRecords([1000, 1000]);
  }

  /** A field node as the type-stat tests write it: response name and schema
      field name coincide. */
  function Field(name: string, parentType: string, returnType: string, startTime: nat, endTime: nat,
                 errors: seq<TraceError>, children: seq<Node>): Node {
    Node(name, name, parentType, returnType, startTime, endTime, errors, children)
  }

  function UserTree(emailErrors: seq<TraceError>): Node {
    Field("user", "Query", "User!", 0, 100 * 1000, [], [
      Field("email", "User", "String!", 1000, 1005, emailErrors, []),
      Field("friends", "User", "[String!]!", 1000, 1005, [], [])])
  }

  function TypeTrace(): Trace {
    WithRoot([UserTree([])])
  }

  function FederatedTrace(): Trace {
    BaseTrace().(registeredOperation := true, queryPlan := Some(Fetch("A", Some(TypeTrace()))))
  }

  function ErrorTypeTrace(): Trace {
    WithRoot([UserTree([Err("error message"), Err("error2")])])
  }

  function UserVisits(emailErrors: nat): seq<FieldVisit> {
    [FieldVisit("Query", "user", "User!", 100 * 1000, 0),
     FieldVisit("User", "email", "String!", 5, emailErrors),
     FieldVisit("User", "friends", "[String!]!", 5, 0)]
  }

  lemma UserTreeVisits(emailErrors: seq<TraceError>)
    ensures NodeFieldVisits(Root([UserTree(emailErrors)]), false) == UserVisits(|emailErrors|)
  {
    var r := Root([UserTree(emailErrors)]);
    var u := UserTree(emailErrors);
    var e := u.children[0];
    var f := u.children[1];
    assert NodeFieldVisits(e, true) == [FieldVisitOf(e)] + [] by {
      assert ChildFieldVisits(e, 0) == [];
    }
    assert NodeFieldVisits(f, true) == [FieldVisitOf(f)] + [] by {
      assert ChildFieldVisits(f, 0) == [];
    }
    assert ChildFieldVisits(u, 2) == [];
    assert ChildFieldVisits(u, 0) == NodeFieldVisits(e, true) + (NodeFieldVisits(f, true) + []);
    assert ChildFieldVisits(r, 1) == [];
    assert ChildFieldVisits(r, 0) == NodeFieldVisits(u, true) + [];
  }

  /** The per-type table the tests expect after `n` resolutions of the
      user tree, the email field carrying `emailErrors` entries each time. */
  function ExpectedTypeStats(n: nat, emailErrors: nat, latencies: (multiset<nat>, multiset<nat>)): PerTypeStat {
    map[
      "Query" := TypeStat(map["user" := UserStat(n, latencies.0)]),
      "User" := TypeStat(map["email" := EmailStat(n, emailErrors, latencies.1), "friends" := FriendsStat(n, latencies.1)])]
  }

  /** `AddField` spelled out on the entry it creates or updates. */
  lemma AddFieldAs(tbl: PerTypeStat, v: FieldVisit, s: FieldStat)
    requires var p := Prior(tbl, v);
             && s.returnType == p.returnType
             && s.errorsCount == p.errorsCount + v.errorCount
             && s.count == p.count + 1
             && s.requestsWithErrorsCount == p.requestsWithErrorsCount + (if v.errorCount > 0 then 1 else 0)
             && s.latencyCount.recorded == p.latencyCount.recorded + multiset{Clamp(v.durationNs)}
    ensures AddField(tbl, v) == tbl[v.parentType := TypeStat(FieldsOf(tbl, v.parentType)[v.fieldName := s])]
  {
  }

  lemma AddUserVisitsSteps(tbl: PerTypeStat, emailErrors: nat)
    ensures var vs := UserVisits(emailErrors);
            AddFields(tbl, vs) == AddField(AddField(AddField(tbl, vs[0]), vs[1]), vs[2])
  {
    var vs := UserVisits(emailErrors);
    var t1 := AddField(tbl, vs[0]);
    var t2 := AddField(t1, vs[1]);
    var t3 := AddField(t2, vs[2]);
    assert AddFields(tbl, vs) == AddFields(t1, vs[1..]);
    assert AddFields(t1, vs[1..]) == AddFields(t2, vs[2..]);
    assert AddFields(t2, vs[2..]) == AddFields(t3, vs[3..]);
    assert vs[3..] == [];
  }

  function UserStat(n: nat, latencies: multiset<nat>): FieldStat {
    FieldStat("User!", 0, n, 0, DurationHistogram(latencies))
  }

  function EmailStat(n: nat, emailErrors: nat, latencies: multiset<nat>): FieldStat {
    FieldStat("String!", n * emailErrors, n, if emailErrors > 0 then n else 0, DurationHistogram(latencies))
  }

  function FriendsStat(n: nat, latencies: multiset<nat>): FieldStat {
    FieldStat("[String!]!", 0, n, 0, DurationHistogram(latencies))
  }

  // The table after each step of adding the user tree to an empty table.

  function OnceAfterUser(): PerTypeStat {
    map["Query" := TypeStat(map["user" := UserStat(1, multiset{100 * 1000})])]
  }

  function OnceAfterEmail(emailErrors: nat): PerTypeStat {
    OnceAfterUser()["User" := TypeStat(map["email" := EmailStat(1, emailErrors, multiset{5})])]
  }

  // The table after each step of adding the user tree a second time.

  function TwiceAfterUser(): PerTypeStat {
    ExpectedTypeStats(1, 0, (multiset{100 * 1000}, multiset{5}))["Query" := TypeStat(map["user" := UserStat(2, multiset{100 * 1000, 100 * 1000})])]
  }

  function TwiceAfterEmail(): PerTypeStat {
    TwiceAfterUser()["User" := TypeStat(map["email" := EmailStat(2, 0, multiset{5, 5}), "friends" := FriendsStat(1, multiset{5})])]
  }

  lemma OnceUser(emailErrors: nat)
    ensures AddField(map[], UserVisits(emailErrors)[0]) == OnceAfterUser()
  {
    AddFieldAs(map[], UserVisits(emailErrors)[0], UserStat(1, multiset{100 * 1000}));
  }

  lemma OnceEmail(emailErrors: nat)
    ensures AddField(OnceAfterUser(), UserVisits(emailErrors)[1]) == OnceAfterEmail(emailErrors)
  {
    var t1 := map["Query" := TypeStat(map["user" := UserStat(1, multiset{100 * 1000})])];
    assert Prior(t1, UserVisits(emailErrors)[1]) == FreshStat("String!");
    AddFieldAs(t1, UserVisits(emailErrors)[1], EmailStat(1, emailErrors, multiset{5}));
  }

  lemma OnceFriends(emailErrors: nat)
    ensures AddField(OnceAfterEmail(emailErrors), UserVisits(emailErrors)[2])
         == ExpectedTypeStats(1, emailErrors, (multiset{100 * 1000}, multiset{5}))
  {
    var t1 := map["Query" := TypeStat(map["user" := UserStat(1, multiset{100 * 1000})])];
    var t2 := t1["User" := TypeStat(map["email" := EmailStat(1, emailErrors, multiset{5})])];
    assert Prior(t2, UserVisits(emailErrors)[2]) == FreshStat("[String!]!");
    AddFieldAs(t2, UserVisits(emailErrors)[2], FriendsStat(1, multiset{5}));
  }

  lemma AddUserVisitsOnce(emailErrors: nat)
    ensures AddFields(map[], UserVisits(emailErrors))
         == ExpectedTypeStats(1, emailErrors, (multiset{100 * 1000}, multiset{5}))
  {
    AddUserVisitsSteps(map[], emailErrors);
    OnceUser(emailErrors);
    OnceEmail(emailErrors);
    OnceFriends(emailErrors);
  }

  lemma TwiceUser()
    ensures AddField(ExpectedTypeStats(1, 0, (multiset{100 * 1000}, multiset{5})), UserVisits(0)[0]) == TwiceAfterUser()
  {
    var t0 := ExpectedTypeStats(1, 0, (multiset{100 * 1000}, multiset{5}));
    assert "Query" in t0 && "user" in t0["Query"].perFieldStat;
    assert Lookup(t0, "Query", "user") == Some(UserStat(1, multiset{100 * 1000}));
    assert Prior(t0, UserVisits(0)[0]) == UserStat(1, multiset{100 * 1000});
    AddFieldAs(t0, UserVisits(0)[0], UserStat(2, multiset{100 * 1000, 100 * 1000}));
    assert FieldsOf(t0, "Query")["user" := UserStat(2, multiset{100 * 1000, 100 * 1000})]
        == map["user" := UserStat(2, multiset{100 * 1000, 100 * 1000})];
  }

  lemma TwiceEmail()
    ensures AddField(TwiceAfterUser(), UserVisits(0)[1]) == TwiceAfterEmail()
  {
    var t0 := ExpectedTypeStats(1, 0, (multiset{100 * 1000}, multiset{5}));
    var t1 := t0["Query" := TypeStat(map["user" := UserStat(2, multiset{100 * 1000, 100 * 1000})])];
    assert Prior(t1, UserVisits(0)[1]) == EmailStat(1, 0, multiset{5});
    AddFieldAs(t1, UserVisits(0)[1], EmailStat(2, 0, multiset{5, 5}));
    assert t1["User"].perFieldStat["email" := EmailStat(2, 0, multiset{5, 5})]
        == map["email" := EmailStat(2, 0, multiset{5, 5}), "friends" := FriendsStat(1, multiset{5})];
  }

  lemma TwiceFriends()
    ensures AddField(TwiceAfterEmail(), UserVisits(0)[2])
         == ExpectedTypeStats(2, 0, (multiset{100 * 1000, 100 * 1000}, multiset{5, 5}))
  {
    var t0 := ExpectedTypeStats(1, 0, (multiset{100 * 1000}, multiset{5}));
    var t1 := t0["Query" := TypeStat(map["user" := UserStat(2, multiset{100 * 1000, 100 * 1000})])];
    var t2 := t1["User" := TypeStat(map["email" := EmailStat(2, 0, multiset{5, 5}), "friends" := FriendsStat(1, multiset{5})])];
    assert Prior(t2, UserVisits(0)[2]) == FriendsStat(1, multiset{5});
    AddFieldAs(t2, UserVisits(0)[2], FriendsStat(2, multiset{5, 5}));
    assert t2["User"].perFieldStat["friends" := FriendsStat(2, multiset{5, 5})]
        == map["email" := EmailStat(2, 0, multiset{5, 5}), "friends" := FriendsStat(2, multiset{5, 5})];
  }

  lemma AddUserVisitsTwice()
    ensures AddFields(AddFields(map[], UserVisits(0)), UserVisits(0))
         == ExpectedTypeStats(2, 0, (multiset{100 * 1000, 100 * 1000}, multiset{5, 5}))
  {
    AddUserVisitsOnce(0);
    AddUserVisitsSteps(ExpectedTypeStats(1, 0, (multiset{100 * 1000}, multiset{5})), 0);
    TwiceUser();
    TwiceEmail();
    TwiceFriends();
  }

  /** One flat trace: each field counted once with its own latency and the
      return type its node declares. */
  lemma SingleTypeTrace()
    ensures AddTrace(NewStats(Context()), TypeTrace()).perTypeStat
         == ExpectedTypeStats(1, 0, (multiset{100 * 1000}, multiset{5}))
  {
    UserTreeVisits([]);
    assert TraceFieldVisits(TypeTrace()) == UserVisits(0) + [];
    assert UserVisits(0) + [] == UserVisits(0);
    AddUserVisitsOnce(0);
  }

  lemma RepeatedTypeTrace()
    ensures AddTrace(AddTrace(NewStats(Context()), TypeTrace()), TypeTrace()).perTypeStat
         == ExpectedTypeStats(2, 0, (multiset{100 * 1000, 100 * 1000}, multiset{5, 5}))
  {
    UserTreeVisits([]);
    assert TraceFieldVisits(TypeTrace()) == UserVisits(0) + [];
    assert UserVisits(0) + [] == UserVisits(0);
    AddUserVisitsTwice();
  }

  /** Two federated traces embedding the flat trace give the same table as
      two flat ones. */
  lemma RepeatedFederatedTrace()
    ensures AddTrace(AddTrace(NewStats(Context()), FederatedTrace()), FederatedTrace()).perTypeStat
         == ExpectedTypeStats(2, 0, (multiset{100 * 1000, 100 * 1000}, multiset{5, 5}))
  {
    var cs := NewStats(Context());
    FederatedEqualsFlat(cs, FederatedTrace(), TypeTrace(), "A");
    FederatedEqualsFlat(AddTrace(cs, FederatedTrace()), FederatedTrace(), TypeTrace(), "A");
    RepeatedTypeTrace();
    assert AddTrace(AddTrace(cs, FederatedTrace()), FederatedTrace()).perTypeStat
        == AddFields(AddFields(cs.perTypeStat, TraceFieldVisits(TypeTrace())), TraceFieldVisits(TypeTrace()));
  }

  /** Two error entries on one field: two errors, one erroring request. */
  lemma ErroredTypeTrace()
    ensures AddTrace(NewStats(Context()), ErrorTypeTrace()).perTypeStat
         == ExpectedTypeStats(1, 2, (multiset{100 * 1000}, multiset{5}))
  {
    UserTreeVisits([Err("error message"), Err("error2")]);
    assert TraceFieldVisits(ErrorTypeTrace()) == UserVisits(2) + [];
    assert UserVisits(2) + [] == UserVisits(2);
    AddUserVisitsOnce(2);
  }
}
