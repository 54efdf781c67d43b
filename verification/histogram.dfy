/** The latency histogram, modelled by the durations recorded into it.

    The real histogram files every duration into an exponentially growing
    bucket. Recording the durations themselves is a finer view: two
    histograms built from the same multiset of durations have the same
    bucket counts, so every equality stated on this model also holds of the
    bucketed one. Negative durations are filed under zero. */
module Histograms {

  /** The duration the histogram actually files: negatives become zero. */
  function Clamp(d: int): nat {
    if d < 0 then 0 else d
  }

  datatype DurationHistogram = DurationHistogram(recorded: multiset<nat>)

  /** How many increments were applied. */
  function TotalCount(h: DurationHistogram): nat {
    |h.recorded|
  }

  /** How many increments recorded the duration `d`. */
  function Count(h: DurationHistogram, d: nat): nat {
    h.recorded[d]
  }

  function Empty(): (h: DurationHistogram)
    ensures TotalCount(h) == 0
    ensures forall d: nat :: Count(h, d) == 0
  {
    DurationHistogram(multiset{})
  }

  /** Records one duration. */
  function IncrementDuration(h: DurationHistogram, d: int): (r: DurationHistogram)
    ensures TotalCount(r) == TotalCount(h) + 1
    ensures forall v: nat :: Count(r, v) == Count(h, v) + (if v == Clamp(d) then 1 else 0)
  {
    DurationHistogram(h.recorded + multiset{Clamp(d)})
  }

  /** A fresh histogram incremented by each duration of `ds` in turn: the
      chained `new DurationHistogram().incrementDuration(..)...` the tests
      build as expected values. */
  function OfDurations(ds: seq<nat>): (h: DurationHistogram)
    ensures TotalCount(h) == |ds|
  {
    if ds == [] then Empty() else IncrementDuration(OfDurations(ds[..|ds| - 1]), ds[|ds| - 1])
  }

  /** The histogram built from a list of durations records exactly that list's
      durations, in any order. */
  lemma {:induction false} OfDurationsRecords(ds: seq<nat>)
    ensures OfDurations(ds).recorded == multiset(ds)
    decreases |ds|
  {
    if ds != [] {
      var init := ds[..|ds| - 1];
      OfDurationsRecords(init);
      assert ds == init + [ds[|ds| - 1]];
    }
  }

  /** The order in which durations are recorded does not matter. */
  lemma OfDurationsOrderFree(ds: seq<nat>, es: seq<nat>)
    requires multiset(ds) == multiset(es)
    ensures OfDurations(ds) == OfDurations(es)
  {
    OfDurationsRecords(ds);
    OfDurationsRecords(es);
  }
}
