/** The per-type field statistics table (`perTypeStat`): parent type name to
    a `TypeStat`, whose `perFieldStat` maps schema field name to the counters
    and latency histogram of that field. */
module TypeStats {
  import opened TraceRecord
  import opened Histograms

  datatype FieldStat = FieldStat(
    returnType: string,
    errorsCount: nat,
    count: nat,
    requestsWithErrorsCount: nat,
    latencyCount: DurationHistogram)

  datatype TypeStat = TypeStat(perFieldStat: map<string, FieldStat>)

  type PerTypeStat = map<string, TypeStat>

  /** One field resolution seen during a trace walk. */
  datatype FieldVisit = FieldVisit(
    parentType: string,
    fieldName: string,
    returnType: string,
    durationNs: int,
    errorCount: nat)

  /** The statistics of field `fieldName` of type `typeName`, if any. */
  function Lookup(tbl: PerTypeStat, typeName: string, fieldName: string): Option<FieldStat> {
    if typeName in tbl && fieldName in tbl[typeName].perFieldStat
    then Some(tbl[typeName].perFieldStat[fieldName])
    else None
  }

  /** The statistics a field starts from when first seen: its return type is
      taken from that first observation. */
  function FreshStat(returnType: string): FieldStat {
    FieldStat(returnType, 0, 0, 0, Empty())
  }

  /** The statistics `v` is added to: the existing entry, or a fresh one. */
  function Prior(tbl: PerTypeStat, v: FieldVisit): FieldStat {
    match Lookup(tbl, v.parentType, v.fieldName)
    case Some(s) => s
    case None => FreshStat(v.returnType)
  }

  /** The field map a table holds for `typeName`, empty when absent. */
  function FieldsOf(tbl: PerTypeStat, typeName: string): map<string, FieldStat> {
    if typeName in tbl then tbl[typeName].perFieldStat else map[]
  }

  /** Adds one field resolution to the table. */
  function AddField(tbl: PerTypeStat, v: FieldVisit): (r: PerTypeStat)
    ensures r.Keys == tbl.Keys + {v.parentType}
    ensures Lookup(r, v.parentType, v.fieldName).Some?
    ensures var s, p := Lookup(r, v.parentType, v.fieldName).value, Prior(tbl, v);
            && s.returnType == p.returnType
            && s.count == p.count + 1
            && s.errorsCount == p.errorsCount + v.errorCount
            && s.requestsWithErrorsCount == p.requestsWithErrorsCount + (if v.errorCount > 0 then 1 else 0)
            && s.latencyCount == IncrementDuration(p.latencyCount, v.durationNs)
    ensures forall t, f :: (t != v.parentType || f != v.fieldName) ==> Lookup(r, t, f) == Lookup(tbl, t, f)
  {
    var p := Prior(tbl, v);
    var s := FieldStat(
      p.returnType,
      p.errorsCount + v.errorCount,
      p.count + 1,
      p.requestsWithErrorsCount + (if v.errorCount > 0 then 1 else 0),
      IncrementDuration(p.latencyCount, v.durationNs));
    tbl[v.parentType := TypeStat(FieldsOf(tbl, v.parentType)[v.fieldName := s])]
  }

  /** The parent types of a list of resolutions. */
  function ParentTypes(vs: seq<FieldVisit>): set<string>
    decreases |vs|
  {
    if vs == [] then {} else {vs[0].parentType} + ParentTypes(vs[1..])
  }

  lemma {:induction false} ParentTypesMembers(vs: seq<FieldVisit>, t: string)
    ensures t in ParentTypes(vs) <==> exists i :: 0 <= i < |vs| && vs[i].parentType == t
    decreases |vs|
  {
    if vs != [] {
      ParentTypesMembers(vs[1..], t);
      if exists i :: 0 <= i < |vs| && vs[i].parentType == t {
        var i :| 0 <= i < |vs| && vs[i].parentType == t;
        if i > 0 {
          assert vs[1..][i - 1] == vs[i];
        }
      }
      if exists j :: 0 <= j < |vs[1..]| && vs[1..][j].parentType == t {
        var j :| 0 <= j < |vs[1..]| && vs[1..][j].parentType == t;
        assert vs[1..][j] == vs[j + 1];
      }
    }
  }

  /** Adds every field resolution, in order. The table gains a type entry
      for each parent type resolved, and no other. */
  function AddFields(tbl: PerTypeStat, vs: seq<FieldVisit>): (r: PerTypeStat)
    ensures r.Keys == tbl.Keys + ParentTypes(vs)
    decreases |vs|
  {
    if vs == [] then tbl else AddFields(AddField(tbl, vs[0]), vs[1..])
  }

  lemma {:induction false} AddFieldsAppend(tbl: PerTypeStat, a: seq<FieldVisit>, b: seq<FieldVisit>)
    ensures AddFields(tbl, a + b) == AddFields(AddFields(tbl, a), b)
    decreases |a|
  {
    if a != [] {
      assert (a + b)[0] == a[0];
      assert (a + b)[1..] == a[1..] + b;
      AddFieldsAppend(AddField(tbl, a[0]), a[1..], b);
    } else {
      assert a + b == b;
    }
  }

  // Reference accounting of a list of resolutions of one field, independent
  // of the table.

  /** The resolutions of field `f` of type `t`, in order. */
  function Matching(vs: seq<FieldVisit>, t: string, f: string): seq<FieldVisit>
    decreases |vs|
  {
    if vs == [] then []
    else if vs[0].parentType == t && vs[0].fieldName == f then [vs[0]] + Matching(vs[1..], t, f)
    else Matching(vs[1..], t, f)
  }

  function SumErrors(vs: seq<FieldVisit>): nat
    decreases |vs|
  {
    if vs == [] then 0 else vs[0].errorCount + SumErrors(vs[1..])
  }

  /** Number of resolutions that carried at least one error. */
  function CountErroring(vs: seq<FieldVisit>): nat
    decreases |vs|
  {
    if vs == [] then 0 else (if vs[0].errorCount > 0 then 1 else 0) + CountErroring(vs[1..])
  }

  function Latencies(vs: seq<FieldVisit>): multiset<nat>
    decreases |vs|
  {
    if vs == [] then multiset{} else multiset{Clamp(vs[0].durationNs)} + Latencies(vs[1..])
  }

  /** `base` after the resolutions `ms`: one count and one latency per
      resolution, all their error entries, one erroring request per
      resolution that had errors. */
  function Accumulate(base: FieldStat, ms: seq<FieldVisit>): FieldStat {
    FieldStat(
      base.returnType,
      base.errorsCount + SumErrors(ms),
      base.count + |ms|,
      base.requestsWithErrorsCount + CountErroring(ms),
      DurationHistogram(base.latencyCount.recorded + Latencies(ms)))
  }

  /** What the table holds for one field after resolutions `ms` of it, given
      what it held before. */
  function Summarize(prior: Option<FieldStat>, ms: seq<FieldVisit>): Option<FieldStat> {
    match prior
    case Some(s) => Some(Accumulate(s, ms))
    case None => if ms == [] then None else Some(Accumulate(FreshStat(ms[0].returnType), ms))
  }

  lemma {:induction false} AccumulateStep(base: FieldStat, v: FieldVisit, ms: seq<FieldVisit>)
    ensures Accumulate(base, [v] + ms) == Accumulate(Accumulate(base, [v]), ms)
  {
    var vms := [v] + ms;
    assert vms[0] == v && vms[1..] == ms;
    assert [v][0] == v && [v][1..] == [];
    assert SumErrors([v]) == v.errorCount;
    assert CountErroring([v]) == (if v.errorCount > 0 then 1 else 0);
    assert Latencies([v]) == multiset{Clamp(v.durationNs)};
    assert SumErrors(vms) == v.errorCount + SumErrors(ms);
    assert CountErroring(vms) == (if v.errorCount > 0 then 1 else 0) + CountErroring(ms);
    assert Latencies(vms) == multiset{Clamp(v.durationNs)} + Latencies(ms);
  }

  lemma AccumulateOne(base: FieldStat, v: FieldVisit)
    ensures Accumulate(base, [v]) == FieldStat(
      base.returnType,
      base.errorsCount + v.errorCount,
      base.count + 1,
      base.requestsWithErrorsCount + (if v.errorCount > 0 then 1 else 0),
      IncrementDuration(base.latencyCount, v.durationNs))
  {
    assert [v][0] == v && [v][1..] == [];
    assert SumErrors([v]) == v.errorCount;
    assert CountErroring([v]) == (if v.errorCount > 0 then 1 else 0);
    assert Latencies([v]) == multiset{Clamp(v.durationNs)};
  }

  /** The entry of the resolved field, in the terms of `Accumulate`. */
  lemma AddFieldAt(tbl: PerTypeStat, v: FieldVisit)
    ensures Lookup(AddField(tbl, v), v.parentType, v.fieldName) == Some(Accumulate(Prior(tbl, v), [v]))
  {
    AccumulateOne(Prior(tbl, v), v);
  }

  lemma {:induction false} MatchingStep(vs: seq<FieldVisit>, t: string, f: string)
    requires vs != []
    ensures vs[0].parentType == t && vs[0].fieldName == f ==> Matching(vs, t, f) == [vs[0]] + Matching(vs[1..], t, f)
    ensures !(vs[0].parentType == t && vs[0].fieldName == f) ==> Matching(vs, t, f) == Matching(vs[1..], t, f)
  {
  }

  /** Closed form of the table after a list of resolutions: for every field,
      the entry is what it was, accumulated over exactly that field's
      resolutions; a field appears when it had an entry or was resolved at
      least once, and its return type is the one first seen. */
  lemma {:induction false} AddFieldsLookup(tbl: PerTypeStat, vs: seq<FieldVisit>, t: string, f: string)
    ensures Lookup(AddFields(tbl, vs), t, f) == Summarize(Lookup(tbl, t, f), Matching(vs, t, f))
    decreases |vs|
  {
    if vs == [] {
      match Lookup(tbl, t, f)
      case None =>
      case Some(s) =>
        assert Accumulate(s, []) == s;
    } else {
      var v := vs[0];
      var tbl' := AddField(tbl, v);
      assert AddFields(tbl, vs) == AddFields(tbl', vs[1..]);
      AddFieldsLookup(tbl', vs[1..], t, f);
      var rest := Matching(vs[1..], t, f);
      MatchingStep(vs, t, f);
      if v.parentType == t && v.fieldName == f {
        AddFieldsLookupHit(tbl, v, rest);
      } else {
        assert Lookup(tbl', t, f) == Lookup(tbl, t, f);
      }
    }
  }

  /** The step of `AddFieldsLookup` where the first resolution is of the
      field looked at. */
  lemma AddFieldsLookupHit(tbl: PerTypeStat, v: FieldVisit, rest: seq<FieldVisit>)
    ensures Summarize(Lookup(AddField(tbl, v), v.parentType, v.fieldName), rest)
         == Summarize(Lookup(tbl, v.parentType, v.fieldName), [v] + rest)
  {
    var p := Prior(tbl, v);
    AddFieldAt(tbl, v);
    AccumulateStep(p, v, rest);
    assert ([v] + rest)[0] == v;
  }

  /** The bounds the table keeps: an erroring resolution is one resolution
      and carries at least one error entry. */
  ghost predicate Bounded(tbl: PerTypeStat) {
    forall t, f :: Lookup(tbl, t, f).Some? ==>
      && Lookup(tbl, t, f).value.requestsWithErrorsCount <= Lookup(tbl, t, f).value.count
      && Lookup(tbl, t, f).value.requestsWithErrorsCount <= Lookup(tbl, t, f).value.errorsCount
  }

  lemma AddFieldKeepsBounds(tbl: PerTypeStat, v: FieldVisit)
    requires Bounded(tbl)
    ensures Bounded(AddField(tbl, v))
  {
  }

  lemma {:induction false} AddFieldsKeepsBounds(tbl: PerTypeStat, vs: seq<FieldVisit>)
    requires Bounded(tbl)
    ensures Bounded(AddFields(tbl, vs))
    decreases |vs|
  {
    if vs != [] {
      AddFieldKeepsBounds(tbl, vs[0]);
      AddFieldsKeepsBounds(AddField(tbl, vs[0]), vs[1..]);
    }
  }
}
