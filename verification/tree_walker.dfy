/** The walk over one trace's execution tree, and over the traces a
    federated query plan embeds, that feeds the error tree and the per-type
    field statistics.

    `WalkTrace` is the walk itself: a depth-first pass threading one shared
    state. The `...Visits` functions are an independent reference: the list
    of field resolutions and erroring nodes the trace contains, in the same
    order. `WalkTraceSpec` proves the walk equals folding those lists into
    the two aggregates. */
module TraceTreeWalker {
  import opened TraceRecord
  import opened PathErrors
  import opened TypeStats

  /** What a walk accumulates: the shared error tree, the shared per-type
      table, and whether any node met so far carried errors. */
  datatype WalkState = WalkState(errorStats: PathErrorStats, perTypeStat: PerTypeStat, sawError: bool)

  /** The field resolution a non-root node stands for. */
  function FieldVisitOf(n: Node): FieldVisit {
    FieldVisit(n.parentType, n.originalFieldName, n.returnType, n.endTime - n.startTime, |n.errors|)
  }

  /** Handles one node: a field node is added to the per-type table; a node
      with errors marks the walk as erroring and, when the walk feeds the
      error tree, records its errors at its own response path. */
  function VisitNode(n: Node, path: seq<string>, isField: bool, trackErrors: bool, s: WalkState): WalkState {
    var types := if isField then AddField(s.perTypeStat, FieldVisitOf(n)) else s.perTypeStat;
    if |n.errors| > 0 then
      var errs := if trackErrors then RecordErrors(s.errorStats, path, |n.errors|) else s.errorStats;
      WalkState(errs, types, true)
    else
      WalkState(s.errorStats, types, s.sawError)
  }

  function WalkNode(n: Node, path: seq<string>, isField: bool, trackErrors: bool, s: WalkState): WalkState
    decreases n, |n.children| + 1
  {
    WalkChildren(n, 0, path, trackErrors, VisitNode(n, path, isField, trackErrors, s))
  }

  /** Walks the children of `n` from index `i` on; each child's response
      path extends `path` by the child's response name. */
  function WalkChildren(n: Node, i: nat, path: seq<string>, trackErrors: bool, s: WalkState): WalkState
    requires i <= |n.children|
    decreases n, |n.children| - i
  {
    if i == |n.children| then s
    else
      var c := n.children[i];
      WalkChildren(n, i + 1, path, trackErrors, WalkNode(c, path + [c.responseName], true, trackErrors, s))
  }

  /** Walks a trace: its own execution tree from the root (which is the
      response, not a field), then the traces its query plan embeds. */
  function WalkTrace(t: Trace, trackErrors: bool, s: WalkState): WalkState
    decreases t
  {
    var afterRoot := if t.root.Some? then WalkNode(t.root.value, [], false, trackErrors, s) else s;
    if t.queryPlan.Some? then WalkPlan(t.queryPlan.value, afterRoot) else afterRoot
  }

  /** A fetch's embedded trace feeds the shared per-type table but not the
      error tree. */
  function WalkPlan(p: QueryPlanNode, s: WalkState): WalkState
    decreases p
  {
    match p
    case Fetch(_, nested) => if nested.Some? then WalkTrace(nested.value, false, s) else s
  }

  // The reference: what a trace contains, listed in walk order.

  function NodeFieldVisits(n: Node, isField: bool): seq<FieldVisit>
    decreases n, |n.children| + 1
  {
    (if isField then [FieldVisitOf(n)] else []) + ChildFieldVisits(n, 0)
  }

  function ChildFieldVisits(n: Node, i: nat): seq<FieldVisit>
    requires i <= |n.children|
    decreases n, |n.children| - i
  {
    if i == |n.children| then [] else NodeFieldVisits(n.children[i], true) + ChildFieldVisits(n, i + 1)
  }

  function NodeErrorVisits(n: Node, path: seq<string>): seq<ErrorVisit>
    decreases n, |n.children| + 1
  {
    (if |n.errors| > 0 then [ErrorVisit(path, |n.errors|)] else []) + ChildErrorVisits(n, 0, path)
  }

  function ChildErrorVisits(n: Node, i: nat, path: seq<string>): seq<ErrorVisit>
    requires i <= |n.children|
    decreases n, |n.children| - i
  {
    if i == |n.children| then []
    else
      var c := n.children[i];
      NodeErrorVisits(c, path + [c.responseName]) + ChildErrorVisits(n, i + 1, path)
  }

  predicate NodeHasError(n: Node)
    decreases n, |n.children| + 1
  {
    |n.errors| > 0 || ChildHasError(n, 0)
  }

  predicate ChildHasError(n: Node, i: nat)
    requires i <= |n.children|
    decreases n, |n.children| - i
  {
    i < |n.children| && (NodeHasError(n.children[i]) || ChildHasError(n, i + 1))
  }

  /** Every field resolution of a trace: its own tree's fields, then those of
      the traces its plan embeds. */
  function TraceFieldVisits(t: Trace): seq<FieldVisit>
    decreases t
  {
    (if t.root.Some? then NodeFieldVisits(t.root.value, false) else [])
    + (if t.queryPlan.Some? then PlanFieldVisits(t.queryPlan.value) else [])
  }

  function PlanFieldVisits(p: QueryPlanNode): seq<FieldVisit>
    decreases p
  {
    match p
    case Fetch(_, nested) => if nested.Some? then TraceFieldVisits(nested.value) else []
  }

  /** The erroring nodes of a trace's own tree, with their response paths. */
  function TraceErrorVisits(t: Trace): seq<ErrorVisit> {
    if t.root.Some? then NodeErrorVisits(t.root.value, []) else []
  }

  /** Whether any node of the trace, or of a trace its plan embeds, carries
      errors. */
  predicate TraceHasError(t: Trace)
    decreases t
  {
    (t.root.Some? && NodeHasError(t.root.value)) || (t.queryPlan.Some? && PlanHasError(t.queryPlan.value))
  }

  predicate PlanHasError(p: QueryPlanNode)
    decreases p
  {
    match p
    case Fetch(_, nested) => nested.Some? && TraceHasError(nested.value)
  }

  // The walk equals the reference.

  /** What folding the reference lists into `s` gives. */
  function Folded(s: WalkState, trackErrors: bool, fs: seq<FieldVisit>, es: seq<ErrorVisit>, err: bool): WalkState {
    WalkState(
      if trackErrors then RecordAll(s.errorStats, es) else s.errorStats,
      AddFields(s.perTypeStat, fs),
      s.sawError || err)
  }

  lemma VisitNodeSpec(n: Node, path: seq<string>, isField: bool, trackErrors: bool, s: WalkState)
    ensures VisitNode(n, path, isField, trackErrors, s)
         == Folded(s, trackErrors,
                   if isField then [FieldVisitOf(n)] else [],
                   if |n.errors| > 0 then [ErrorVisit(path, |n.errors|)] else [],
                   |n.errors| > 0)
  {
    var fv := FieldVisitOf(n);
    assert [fv][0] == fv && [fv][1..] == [];
    assert AddFields(s.perTypeStat, [fv]) == AddFields(AddField(s.perTypeStat, fv), []);
    var ev := ErrorVisit(path, |n.errors|);
    assert [ev][0] == ev && [ev][1..] == [];
    assert RecordAll(s.errorStats, [ev]) == RecordAll(RecordErrors(s.errorStats, path, |n.errors|), []);
  }

  lemma FoldedNothing(s: WalkState, trackErrors: bool)
    ensures Folded(s, trackErrors, [], [], false) == s
  {
  }

  lemma FoldedTwice(s: WalkState, trackErrors: bool, fs1: seq<FieldVisit>, es1: seq<ErrorVisit>, e1: bool,
                    fs2: seq<FieldVisit>, es2: seq<ErrorVisit>, e2: bool)
    ensures Folded(Folded(s, trackErrors, fs1, es1, e1), trackErrors, fs2, es2, e2)
         == Folded(s, trackErrors, fs1 + fs2, es1 + es2, e1 || e2)
  {
    AddFieldsAppend(s.perTypeStat, fs1, fs2);
    RecordAllAppend(s.errorStats, es1, es2);
  }

  lemma {:induction false} WalkNodeSpec(n: Node, path: seq<string>, isField: bool, trackErrors: bool, s: WalkState)
    ensures WalkNode(n, path, isField, trackErrors, s)
         == Folded(s, trackErrors, NodeFieldVisits(n, isField), NodeErrorVisits(n, path), NodeHasError(n))
    decreases n, |n.children| + 1
  {
    var s' := VisitNode(n, path, isField, trackErrors, s);
    VisitNodeSpec(n, path, isField, trackErrors, s);
    WalkChildrenSpec(n, 0, path, trackErrors, s');
    FoldedTwice(s, trackErrors,
                if isField then [FieldVisitOf(n)] else [],
                if |n.errors| > 0 then [ErrorVisit(path, |n.errors|)] else [],
                |n.errors| > 0,
                ChildFieldVisits(n, 0), ChildErrorVisits(n, 0, path), ChildHasError(n, 0));
  }

  lemma {:induction false} WalkChildrenSpec(n: Node, i: nat, path: seq<string>, trackErrors: bool, s: WalkState)
    requires i <= |n.children|
    ensures WalkChildren(n, i, path, trackErrors, s)
         == Folded(s, trackErrors, ChildFieldVisits(n, i), ChildErrorVisits(n, i, path), ChildHasError(n, i))
    decreases n, |n.children| - i
  {
    if i == |n.children| {
      FoldedNothing(s, trackErrors);
    } else {
      var c := n.children[i];
      var cpath := path + [c.responseName];
      var s' := WalkNode(c, cpath, true, trackErrors, s);
      WalkNodeSpec(c, cpath, true, trackErrors, s);
      WalkChildrenSpec(n, i + 1, path, trackErrors, s');
      FoldedTwice(s, trackErrors,
                  NodeFieldVisits(c, true), NodeErrorVisits(c, cpath), NodeHasError(c),
                  ChildFieldVisits(n, i + 1), ChildErrorVisits(n, i + 1, path), ChildHasError(n, i + 1));
    }
  }

  /** Walking a trace equals folding its reference lists: the error tree
      receives exactly the erroring nodes of the trace's own tree (when the
      walk feeds it), the per-type table exactly its field resolutions, nested
      ones included, and the walk is marked erroring exactly when some node
      carries errors. */
  lemma {:induction false} WalkTraceSpec(t: Trace, trackErrors: bool, s: WalkState)
    ensures WalkTrace(t, trackErrors, s)
         == Folded(s, trackErrors, TraceFieldVisits(t), TraceErrorVisits(t), TraceHasError(t))
    decreases t, 1
  {
    var afterRoot := if t.root.Some? then WalkNode(t.root.value, [], false, trackErrors, s) else s;
    var rootF := if t.root.Some? then NodeFieldVisits(t.root.value, false) else [];
    var rootErr := t.root.Some? && NodeHasError(t.root.value);
    WalkRootSpec(t, trackErrors, s);
    if t.queryPlan.Some? {
      WalkPlanAfterRoot(t, trackErrors, s, afterRoot, rootF, rootErr);
    } else {
      assert WalkTrace(t, trackErrors, s) == afterRoot;
      assert TraceFieldVisits(t) == rootF + [];
      assert TraceHasError(t) == rootErr;
      assert rootF + [] == rootF;
    }
  }

  /** The part of `WalkTraceSpec` for a trace with a query plan. */
  lemma {:induction false} WalkPlanAfterRoot(t: Trace, trackErrors: bool, s: WalkState, afterRoot: WalkState,
                                             rootF: seq<FieldVisit>, rootErr: bool)
    requires t.queryPlan.Some?
    requires afterRoot == (if t.root.Some? then WalkNode(t.root.value, [], false, trackErrors, s) else s)
    requires rootF == (if t.root.Some? then NodeFieldVisits(t.root.value, false) else [])
    requires rootErr == (t.root.Some? && NodeHasError(t.root.value))
    requires afterRoot == Folded(s, trackErrors, rootF, TraceErrorVisits(t), rootErr)
    ensures WalkTrace(t, trackErrors, s)
         == Folded(s, trackErrors, TraceFieldVisits(t), TraceErrorVisits(t), TraceHasError(t))
    decreases t, 0
  {
    var p := t.queryPlan.value;
    var rootE := TraceErrorVisits(t);
    assert WalkTrace(t, trackErrors, s) == WalkPlan(p, afterRoot);
    assert TraceFieldVisits(t) == rootF + PlanFieldVisits(p);
    assert TraceHasError(t) == (rootErr || PlanHasError(p));
    WalkPlanSpec(p, afterRoot);
    FoldedTwice(s, trackErrors, rootF, rootE, rootErr, PlanFieldVisits(p), [], PlanHasError(p));
    assert rootE + [] == rootE;
  }

  lemma FoldedIgnoresErrors(s: WalkState, fs: seq<FieldVisit>, es: seq<ErrorVisit>, err: bool)
    ensures Folded(s, false, fs, es, err) == Folded(s, false, fs, [], err)
  {
  }

  /** The part of `WalkTraceSpec` for the trace's own tree. */
  lemma WalkRootSpec(t: Trace, trackErrors: bool, s: WalkState)
    ensures (if t.root.Some? then WalkNode(t.root.value, [], false, trackErrors, s) else s)
         == Folded(s, trackErrors,
                   if t.root.Some? then NodeFieldVisits(t.root.value, false) else [],
                   TraceErrorVisits(t),
                   t.root.Some? && NodeHasError(t.root.value))
  {
    if t.root.Some? {
      WalkNodeSpec(t.root.value, [], false, trackErrors, s);
    } else {
      FoldedNothing(s, trackErrors);
    }
  }

  /** An embedded trace changes only the per-type table and the error mark. */
  lemma {:induction false} WalkPlanSpec(p: QueryPlanNode, s: WalkState)
    ensures WalkPlan(p, s) == Folded(s, false, PlanFieldVisits(p), [], PlanHasError(p))
    decreases p
  {
    match p
    case Fetch(_, nested) =>
      if nested.Some? {
        WalkTraceSpec(nested.value, false, s);
        FoldedIgnoresErrors(s, TraceFieldVisits(nested.value), TraceErrorVisits(nested.value), TraceHasError(nested.value));
      } else {
        FoldedNothing(s, false);
      }
  }

  // Facts about the reference lists.

  /** A tree lists an erroring node exactly when some node of it has errors. */
  lemma {:induction false} NodeErrorVisitsEmpty(n: Node, path: seq<string>)
    ensures NodeErrorVisits(n, path) == [] <==> !NodeHasError(n)
    decreases n, |n.children| + 1
  {
    ChildErrorVisitsEmpty(n, 0, path);
  }

  lemma {:induction false} ChildErrorVisitsEmpty(n: Node, i: nat, path: seq<string>)
    requires i <= |n.children|
    ensures ChildErrorVisits(n, i, path) == [] <==> !ChildHasError(n, i)
    decreases n, |n.children| - i
  {
    if i < |n.children| {
      var c := n.children[i];
      NodeErrorVisitsEmpty(c, path + [c.responseName]);
      ChildErrorVisitsEmpty(n, i + 1, path);
    }
  }

  /** Every listed erroring node carries at least one error entry, at a path
      that extends the path of the subtree it was found in. */
  lemma {:induction false} NodeErrorVisitsShape(n: Node, path: seq<string>)
    ensures forall k :: 0 <= k < |NodeErrorVisits(n, path)| ==>
              NodeErrorVisits(n, path)[k].errorCount >= 1 && path <= NodeErrorVisits(n, path)[k].path
    decreases n, |n.children| + 1
  {
    ChildErrorVisitsShape(n, 0, path);
  }

  lemma {:induction false} ChildErrorVisitsShape(n: Node, i: nat, path: seq<string>)
    requires i <= |n.children|
    ensures forall k :: 0 <= k < |ChildErrorVisits(n, i, path)| ==>
              ChildErrorVisits(n, i, path)[k].errorCount >= 1
              && |path| < |ChildErrorVisits(n, i, path)[k].path|
              && path <= ChildErrorVisits(n, i, path)[k].path
    decreases n, |n.children| - i
  {
    if i < |n.children| {
      var c := n.children[i];
      NodeErrorVisitsShape(c, path + [c.responseName]);
      ChildErrorVisitsShape(n, i + 1, path);
      forall k | 0 <= k < |NodeErrorVisits(c, path + [c.responseName])|
        ensures path <= NodeErrorVisits(c, path + [c.responseName])[k].path
      {
        var e := NodeErrorVisits(c, path + [c.responseName])[k];
        assert e.path[..|path|] == (path + [c.responseName])[..|path|];
      }
    }
  }

  /** Within one response, sibling fields have distinct response names. */
  ghost predicate DistinctSiblings(n: Node)
    decreases n
  {
    && (forall i, j :: 0 <= i < j < |n.children| ==> n.children[i].responseName != n.children[j].responseName)
    && (forall i :: 0 <= i < |n.children| ==> DistinctSiblings(n.children[i]))
  }

  lemma {:induction false} VisitsAtAppend(a: seq<ErrorVisit>, b: seq<ErrorVisit>, q: seq<string>)
    ensures VisitsAt(a + b, q) == VisitsAt(a, q) + VisitsAt(b, q)
    decreases |a|
  {
    if a == [] {
      assert a + b == b;
    } else {
      assert (a + b)[0] == a[0];
      assert (a + b)[1..] == a[1..] + b;
      VisitsAtAppend(a[1..], b, q);
    }
  }

  lemma {:induction false} VisitsAtNone(vs: seq<ErrorVisit>, q: seq<string>)
    requires forall k :: 0 <= k < |vs| ==> vs[k].path != q
    ensures VisitsAt(vs, q) == 0
    decreases |vs|
  {
    if vs != [] {
      VisitsAtNone(vs[1..], q);
    }
  }

  /** When sibling response names are distinct, at most one node of a tree
      sits at any given response path, so one trace adds at most one
      erroring request to any node of the error tree. */
  lemma {:induction false} AtMostOneVisitPerPath(n: Node, path: seq<string>, q: seq<string>)
    requires DistinctSiblings(n)
    ensures VisitsAt(NodeErrorVisits(n, path), q) <= 1
    decreases n, |n.children| + 1
  {
    var own := if |n.errors| > 0 then [ErrorVisit(path, |n.errors|)] else [];
    var rest := ChildErrorVisits(n, 0, path);
    VisitsAtAppend(own, rest, q);
    assert VisitsAt(own, q) <= 1 by {
      if own != [] {
        assert own[1..] == [];
      }
    }
    ChildErrorVisitsShape(n, 0, path);
    if path < q {
      assert VisitsAt(own, q) == 0 by {
        if own != [] {
          assert own[1..] == [];
        }
      }
      ChildrenAtMostOne(n, 0, path, q);
    } else {
      VisitsAtNone(rest, q);
    }
  }

  lemma {:induction false} ChildrenAtMostOne(n: Node, i: nat, path: seq<string>, q: seq<string>)
    requires i <= |n.children|
    requires DistinctSiblings(n)
    requires path < q
    ensures VisitsAt(ChildErrorVisits(n, i, path), q) <= 1
    ensures (forall j :: i <= j < |n.children| ==> n.children[j].responseName != q[|path|])
            ==> VisitsAt(ChildErrorVisits(n, i, path), q) == 0
    decreases n, |n.children| - i
  {
    if i < |n.children| {
      var c := n.children[i];
      var cpath := path + [c.responseName];
      var mine := NodeErrorVisits(c, cpath);
      var later := ChildErrorVisits(n, i + 1, path);
      VisitsAtAppend(mine, later, q);
      ChildrenAtMostOne(n, i + 1, path, q);
      if c.responseName == q[|path|] {
        AtMostOneVisitPerPath(c, cpath, q);
        assert forall j :: i + 1 <= j < |n.children| ==> n.children[j].responseName != q[|path|];
      } else {
        NodeErrorVisitsShape(c, cpath);
        forall k | 0 <= k < |mine|
          ensures mine[k].path != q
        {
          var e := mine[k].path;
          assert cpath <= e;
          assert e[|path|] == cpath[|path|] == c.responseName;
        }
        VisitsAtNone(mine, q);
      }
    }
  }
}
