/** The response-path error tree (`rootErrorStats`): one node per response
    path on which some erroring field was seen, holding how many requests
    reported errors exactly there and how many error entries they carried.
    Children are keyed by response-path segment and created on first need;
    nothing is ever removed. */
module PathErrors {
  import opened TraceRecord

  datatype PathErrorStats = PathErrorStats(
    requestsWithErrorsCount: nat,
    errorsCount: nat,
    children: map<string, PathErrorStats>)

  /** A node created on demand: no counts, no children. */
  function Fresh(): PathErrorStats {
    PathErrorStats(0, 0, map[])
  }

  /** The node at `path` below `t`, if the tree has one. */
  function Find(t: PathErrorStats, path: seq<string>): Option<PathErrorStats>
    decreases |path|
  {
    if path == [] then Some(t)
    else if path[0] in t.children then Find(t.children[path[0]], path[1..])
    else None
  }

  /** The request count at `path`; a missing node reads as zero, as the
      tests' falsy checks do. */
  function RequestsAt(t: PathErrorStats, path: seq<string>): nat {
    match Find(t, path)
    case None => 0
    case Some(n) => n.requestsWithErrorsCount
  }

  /** The error-entry count at `path`; a missing node reads as zero. */
  function ErrorsAt(t: PathErrorStats, path: seq<string>): nat {
    match Find(t, path)
    case None => 0
    case Some(n) => n.errorsCount
  }

  lemma FindFresh(path: seq<string>)
    ensures Find(Fresh(), path).Some? <==> path == []
    ensures RequestsAt(Fresh(), path) == 0 && ErrorsAt(Fresh(), path) == 0
  {
  }

  /** Records that one erroring node with `k` error entries sat at `path`:
      walks down from the root, creating missing nodes with zero counts, and
      adds one request and `k` errors at the end of the path only. */
  function RecordErrors(t: PathErrorStats, path: seq<string>, k: nat): (r: PathErrorStats)
    ensures Find(r, path).Some?
    ensures RequestsAt(r, path) == RequestsAt(t, path) + 1
    ensures ErrorsAt(r, path) == ErrorsAt(t, path) + k
    decreases |path|
  {
    if path == [] then
      t.(requestsWithErrorsCount := t.requestsWithErrorsCount + 1, errorsCount := t.errorsCount + k)
    else
      var child := if path[0] in t.children then t.children[path[0]] else Fresh();
      t.(children := t.children[path[0] := RecordErrors(child, path[1..], k)])
  }

  /** Counts change at the recorded path only, by one request and `k` errors;
      ancestors and every other path keep their counts. */
  lemma {:induction false} RecordErrorsCounts(t: PathErrorStats, path: seq<string>, k: nat, q: seq<string>)
    ensures RequestsAt(RecordErrors(t, path, k), q) == RequestsAt(t, q) + (if q == path then 1 else 0)
    ensures ErrorsAt(RecordErrors(t, path, k), q) == ErrorsAt(t, q) + (if q == path then k else 0)
    decreases |path|
  {
    var r := RecordErrors(t, path, k);
    if q == [] {
    } else if path == [] {
      assert Find(r, q) == Find(t, q);
    } else if q[0] != path[0] {
      assert Find(r, q) == Find(t, q);
    } else {
      var child := if path[0] in t.children then t.children[path[0]] else Fresh();
      RecordErrorsCounts(child, path[1..], k, q[1..]);
      assert Find(r, q) == Find(RecordErrors(child, path[1..], k), q[1..]);
      if path[0] !in t.children {
        FindFresh(q[1..]);
      }
      assert q == path <==> q[1..] == path[1..];
    }
  }

  /** After recording, a node exists at `q` exactly when one existed before or
      `q` lies on the recorded path (the path itself or one of its ancestors). */
  lemma {:induction false} RecordErrorsShape(t: PathErrorStats, path: seq<string>, k: nat, q: seq<string>)
    ensures Find(RecordErrors(t, path, k), q).Some? <==> Find(t, q).Some? || q <= path
    decreases |path|
  {
    var r := RecordErrors(t, path, k);
    if q == [] {
    } else if path == [] {
      assert Find(r, q) == Find(t, q);
    } else if q[0] != path[0] {
      assert Find(r, q) == Find(t, q);
    } else {
      var child := if path[0] in t.children then t.children[path[0]] else Fresh();
      RecordErrorsShape(child, path[1..], k, q[1..]);
      assert Find(r, q) == Find(RecordErrors(child, path[1..], k), q[1..]);
      if path[0] !in t.children {
        FindFresh(q[1..]);
      }
      assert q <= path <==> q[1..] <= path[1..];
    }
  }

  /** One erroring node seen during a trace walk: its response path and its
      number of error entries. */
  datatype ErrorVisit = ErrorVisit(path: seq<string>, errorCount: nat)

  /** Records every visit, in order. */
  function RecordAll(t: PathErrorStats, vs: seq<ErrorVisit>): PathErrorStats
    decreases |vs|
  {
    if vs == [] then t else RecordAll(RecordErrors(t, vs[0].path, vs[0].errorCount), vs[1..])
  }

  /** Number of visits at exactly `q`. */
  function VisitsAt(vs: seq<ErrorVisit>, q: seq<string>): nat
    decreases |vs|
  {
    if vs == [] then 0 else (if vs[0].path == q then 1 else 0) + VisitsAt(vs[1..], q)
  }

  /** Error entries reported at exactly `q`. */
  function ErrorsReportedAt(vs: seq<ErrorVisit>, q: seq<string>): nat
    decreases |vs|
  {
    if vs == [] then 0 else (if vs[0].path == q then vs[0].errorCount else 0) + ErrorsReportedAt(vs[1..], q)
  }

  lemma {:induction false} RecordAllAppend(t: PathErrorStats, a: seq<ErrorVisit>, b: seq<ErrorVisit>)
    ensures RecordAll(t, a + b) == RecordAll(RecordAll(t, a), b)
    decreases |a|
  {
    if a != [] {
      assert (a + b)[0] == a[0];
      assert (a + b)[1..] == a[1..] + b;
      RecordAllAppend(RecordErrors(t, a[0].path, a[0].errorCount), a[1..], b);
    } else {
      assert a + b == b;
    }
  }

  /** Every path gains one request per visit there and the visits' error
      entries; no other path changes. */
  lemma {:induction false} RecordAllCounts(t: PathErrorStats, vs: seq<ErrorVisit>, q: seq<string>)
    ensures RequestsAt(RecordAll(t, vs), q) == RequestsAt(t, q) + VisitsAt(vs, q)
    ensures ErrorsAt(RecordAll(t, vs), q) == ErrorsAt(t, q) + ErrorsReportedAt(vs, q)
    decreases |vs|
  {
    if vs != [] {
      var t' := RecordErrors(t, vs[0].path, vs[0].errorCount);
      RecordErrorsCounts(t, vs[0].path, vs[0].errorCount, q);
      RecordAllCounts(t', vs[1..], q);
    }
  }

  /** Nodes exist only where they existed before or along the path of some
      visit. */
  lemma {:induction false} RecordAllShape(t: PathErrorStats, vs: seq<ErrorVisit>, q: seq<string>)
    ensures Find(RecordAll(t, vs), q).Some? <==>
            Find(t, q).Some? || exists i :: 0 <= i < |vs| && q <= vs[i].path
    decreases |vs|
  {
    if vs != [] {
      var t' := RecordErrors(t, vs[0].path, vs[0].errorCount);
      RecordErrorsShape(t, vs[0].path, vs[0].errorCount, q);
      RecordAllShape(t', vs[1..], q);
      if exists i :: 0 <= i < |vs| && q <= vs[i].path {
        var i :| 0 <= i < |vs| && q <= vs[i].path;
        if i > 0 {
          assert vs[1..][i - 1] == vs[i];
        }
      }
      if exists j :: 0 <= j < |vs[1..]| && q <= vs[1..][j].path {
        var j :| 0 <= j < |vs[1..]| && q <= vs[1..][j].path;
        assert vs[1..][j] == vs[j + 1];
      }
    }
  }

  /** A tree in which every node's request count is at most its error count:
      each erroring node carries at least one error entry. */
  ghost predicate RequestsBoundedByErrors(t: PathErrorStats) {
    forall q :: RequestsAt(t, q) <= ErrorsAt(t, q)
  }

  /** Recording a visit with at least one error keeps that bound. */
  lemma RecordErrorsKeepsBound(t: PathErrorStats, path: seq<string>, k: nat)
    requires RequestsBoundedByErrors(t)
    requires k >= 1
    ensures RequestsBoundedByErrors(RecordErrors(t, path, k))
  {
    forall q {
      RecordErrorsCounts(t, path, k, q);
    }
  }

  lemma {:induction false} RecordAllKeepsBound(t: PathErrorStats, vs: seq<ErrorVisit>)
    requires RequestsBoundedByErrors(t)
    requires forall k :: 0 <= k < |vs| ==> vs[k].errorCount >= 1
    ensures RequestsBoundedByErrors(RecordAll(t, vs))
    decreases |vs|
  {
    if vs != [] {
      RecordErrorsKeepsBound(t, vs[0].path, vs[0].errorCount);
      RecordAllKeepsBound(RecordErrors(t, vs[0].path, vs[0].errorCount), vs[1..]);
    }
  }
}
