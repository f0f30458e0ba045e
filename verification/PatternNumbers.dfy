/**
 What the numbers of a detected pattern are, term by term: its times and its event ids are
 given by the events of the occurrences it keeps, in whole nanoseconds and 60-second minutes.
 */
module PatternNumbers {
  import opened Occurrences
  import opened Detector
  import opened Wrappers
  import DetectorTheorems

  // --- the time claimed ---

  ghost predicate IsRunningTotal(totals: seq<int>, terms: seq<int>) {
    && |totals| == |terms| + 1 && totals[0] == 0
    && forall i :: 0 <= i < |terms| ==> totals[i + 1] == totals[i] + terms[i]
  }

  /** How long each occurrence lasts. */
  ghost predicate AreDurations(terms: seq<int>, times: seq<int>, kept: seq<nat>, w: nat)
    requires 1 <= w && InRange(kept, w, |times|)
  {
    |terms| == |kept| && forall i :: 0 <= i < |kept| ==> terms[i] == times[kept[i] + w - 1] - times[kept[i]]
  }

  lemma {:induction false} TotalsOf(times: seq<int>, kept: seq<nat>, w: nat) returns (terms: seq<int>, totals: seq<int>)
    requires 1 <= w && InRange(kept, w, |times|)
    ensures AreDurations(terms, times, kept, w) && IsRunningTotal(totals, terms)
    ensures totals[|kept|] == TotalSpan(times, kept, w)
  {
    if kept == [] {
      terms, totals := [], [0];
    } else {
      var init, s := kept[..|kept| - 1], kept[|kept| - 1];
      var before, sums := TotalsOf(times, init, w);
      var last := times[s + w - 1] - times[s];
      terms, totals := before + [last], sums + [sums[|init|] + last];
      assert forall i :: 0 <= i < |init| ==> init[i] == kept[i];
    }
  }

  lemma SixtySeconds(total: int)
    ensures Minutes(total) == total as real / 60_000_000_000.0
  {
  }

  lemma TimesAt(events: History, k: nat)
    requires k < |events|
    ensures Times(events)[k] == events[k].occurredAt.Instant()
  {
  }

  /** Each term is the time from the first to the last event of one kept occurrence. */
  ghost predicate LastAsLong(terms: seq<int>, events: History, kept: seq<nat>, w: nat)
    requires 1 <= w && InRange(kept, w, |events|)
  {
    && |terms| == |kept|
    && forall i :: 0 <= i < |kept| ==>
         terms[i] == events[kept[i] + w - 1].occurredAt.Instant() - events[kept[i]].occurredAt.Instant()
  }

  lemma DurationsLast(terms: seq<int>, events: History, kept: seq<nat>, w: nat)
    requires 1 <= w && InRange(kept, w, |events|) && AreDurations(terms, Times(events), kept, w)
    ensures LastAsLong(terms, events, kept, w)
  {
    forall i | 0 <= i < |kept|
      ensures terms[i] == events[kept[i] + w - 1].occurredAt.Instant() - events[kept[i]].occurredAt.Instant()
    {
      TimesAt(events, kept[i]);
      TimesAt(events, kept[i] + w - 1);
    }
  }

  lemma TotalsLast(events: History, kept: seq<nat>, w: nat) returns (terms: seq<int>, totals: seq<int>)
    requires 1 <= w && InRange(kept, w, |events|)
    ensures LastAsLong(terms, events, kept, w) && IsRunningTotal(totals, terms)
    ensures totals[|kept|] == TotalSpan(Times(events), kept, w)
  {
    terms, totals := TotalsOf(Times(events), kept, w);
    DurationsLast(terms, events, kept, w);
  }

  /** Estimate times count is this many nanoseconds, in minutes of sixty seconds. */
  predicate ClaimsNanoseconds(p: DetectedPattern, total: int) {
    p.minutesPerOccurrence * p.occurrenceCount as real == total as real / 60_000_000_000.0
  }

  lemma ClaimInMinutes(events: History, p: DetectedPattern, kept: seq<nat>, total: int)
    requires kept != [] && p.signature != [] && InRange(kept, |p.signature|, |events|)
    requires p == Summarize(events, p.signature, kept) && total == TotalSpan(Times(events), kept, |p.signature|)
    ensures ClaimsNanoseconds(p, total)
  {
    ClaimOfSummary(events, p.signature, kept);
  }

  lemma ClaimOfSummary(events: History, sig: seq<string>, kept: seq<nat>)
    requires kept != [] && sig != [] && InRange(kept, |sig|, |events|)
    ensures ClaimsNanoseconds(Summarize(events, sig, kept), TotalSpan(Times(events), kept, |sig|))
  {
    var total := TotalSpan(Times(events), kept, |sig|);
    DetectorTheorems.SummaryTotal(events, sig, kept);
    SixtySeconds(total);
    InMinutes(Summarize(events, sig, kept), total);
  }

  lemma InMinutes(p: DetectedPattern, total: int)
    requires DetectorTheorems.ClaimedMinutes(p) == total as real / 60_000_000_000.0
    ensures ClaimsNanoseconds(p, total)
  {
  }

  /**
   The time a pattern claims, its estimate times its count, is the sum over its kept
   occurrences of the time from the first to the last event of each.
   */
  lemma ClaimIsTheSum(d: PatternDetector, events: History, ps: seq<DetectedPattern>, p: DetectedPattern)
    returns (terms: seq<int>, totals: seq<int>)
    requires IsDetection(d, events, ps) && p in ps
    ensures p.signature != [] && p.occurrenceCount == |Kept(events, p.signature)| > 0
    ensures LastAsLong(terms, events, Kept(events, p.signature), |p.signature|) && IsRunningTotal(totals, terms)
    ensures ClaimsNanoseconds(p, totals[p.occurrenceCount])
  {
    DetectorTheorems.PatternIsSummary(d, events, ps, p);
    terms, totals := TotalsLast(events, Kept(events, p.signature), |p.signature|);
    ClaimInMinutes(events, p, Kept(events, p.signature), totals[p.occurrenceCount]);
  }

  ghost predicate AllBetween(terms: seq<int>, lo: int, hi: int) {
    forall i :: 0 <= i < |terms| ==> lo <= terms[i] <= hi
  }

  lemma {:induction false} TotalIsBetween(terms: seq<int>, totals: seq<int>, n: nat, lo: int, hi: int)
    requires n <= |terms| && IsRunningTotal(totals, terms) && AllBetween(terms, lo, hi)
    ensures n * lo <= totals[n] <= n * hi
  {
    if n > 0 {
      TotalIsBetween(terms, totals, n - 1, lo, hi);
      assert totals[n - 1 + 1] == totals[n - 1] + terms[n - 1];
      assert n * lo == (n - 1) * lo + lo && n * hi == (n - 1) * hi + hi;
    }
  }

  lemma ShareIsBetween(total: int, n: nat, lo: int, hi: int, share: real)
    requires 0 < n && n * lo <= total <= n * hi && share * n as real == total as real / 60_000_000_000.0
    ensures lo as real / 60_000_000_000.0 <= share <= hi as real / 60_000_000_000.0
  {
    var minute, count := 60_000_000_000.0, n as real;
    assert share * count * minute == total as real;
    assert (share * minute) * count == total as real;
    Cancel(lo as real, share * minute, count);
    Cancel(share * minute, hi as real, count);
  }

  lemma Cancel(a: real, b: real, count: real)
    requires 0.0 < count && a * count <= b * count
    ensures a <= b
  {
    assert a > b ==> a * count > b * count;
  }

  ghost predicate AllLastBetween(events: History, kept: seq<nat>, w: nat, lo: int, hi: int)
    requires 1 <= w && InRange(kept, w, |events|)
  {
    forall i :: 0 <= i < |kept| ==>
      lo <= events[kept[i] + w - 1].occurredAt.Instant() - events[kept[i]].occurredAt.Instant() <= hi
  }

  lemma TermsAreBetween(terms: seq<int>, events: History, kept: seq<nat>, w: nat, lo: int, hi: int)
    requires 1 <= w && InRange(kept, w, |events|)
    requires LastAsLong(terms, events, kept, w) && AllLastBetween(events, kept, w, lo, hi)
    ensures AllBetween(terms, lo, hi)
  {
    forall i | 0 <= i < |terms| ensures lo <= terms[i] <= hi {
      assert terms[i] == events[kept[i] + w - 1].occurredAt.Instant() - events[kept[i]].occurredAt.Instant();
    }
  }

  /** If every occurrence lasts between two durations, so does the estimate; if all last the same, it is that. */
  lemma EstimateIsBetween(
    d: PatternDetector, events: History, ps: seq<DetectedPattern>, p: DetectedPattern, lo: int, hi: int)
    requires IsDetection(d, events, ps) && p in ps && p.signature != []
    requires AllLastBetween(events, Kept(events, p.signature), |p.signature|, lo, hi)
    ensures lo as real / 60_000_000_000.0 <= p.minutesPerOccurrence <= hi as real / 60_000_000_000.0
  {
    var terms, totals := ClaimIsTheSum(d, events, ps, p);
    TermsAreBetween(terms, events, Kept(events, p.signature), |p.signature|, lo, hi);
    MeanIsBetween(p, terms, totals, lo, hi);
  }

  lemma MeanIsBetween(p: DetectedPattern, terms: seq<int>, totals: seq<int>, lo: int, hi: int)
    requires 0 < p.occurrenceCount == |terms| && IsRunningTotal(totals, terms) && AllBetween(terms, lo, hi)
    requires ClaimsNanoseconds(p, totals[p.occurrenceCount])
    ensures lo as real / 60_000_000_000.0 <= p.minutesPerOccurrence <= hi as real / 60_000_000_000.0
  {
    TotalIsBetween(terms, totals, p.occurrenceCount, lo, hi);
    ShareIsBetween(totals[p.occurrenceCount], p.occurrenceCount, lo, hi, p.minutesPerOccurrence);
  }

  // --- first and last sighting ---

  /** t is the least of the times at which kept occurrences begin. */
  ghost predicate IsEarliestStart(t: int, times: seq<int>, kept: seq<nat>, w: nat)
    requires 1 <= w && InRange(kept, w, |times|)
  {
    && (forall i :: 0 <= i < |kept| ==> t <= times[kept[i]])
    && (exists i :: 0 <= i < |kept| && t == times[kept[i]])
  }

  /** t is the greatest of the times at which kept occurrences end. */
  ghost predicate IsLatestEnd(t: int, times: seq<int>, kept: seq<nat>, w: nat)
    requires 1 <= w && InRange(kept, w, |times|)
  {
    && (forall i :: 0 <= i < |kept| ==> times[kept[i] + w - 1] <= t)
    && (exists i :: 0 <= i < |kept| && t == times[kept[i] + w - 1])
  }

  lemma {:induction false} EarliestStartIsLeast(times: seq<int>, kept: seq<nat>, w: nat)
    requires kept != [] && 1 <= w && InRange(kept, w, |times|)
    ensures IsEarliestStart(EarliestStart(times, kept, w), times, kept, w)
  {
    var last := |kept| - 1;
    assert times[kept[last]] == times[kept[last]];
    if |kept| > 1 {
      var init := kept[..last];
      EarliestStartIsLeast(times, init, w);
      var i :| 0 <= i < |init| && EarliestStart(times, init, w) == times[init[i]];
      assert init[i] == kept[i];
      assert forall i :: 0 <= i < |init| ==> init[i] == kept[i];
    }
  }

  lemma {:induction false} LatestEndIsGreatest(times: seq<int>, kept: seq<nat>, w: nat)
    requires kept != [] && 1 <= w && InRange(kept, w, |times|)
    ensures IsLatestEnd(LatestEnd(times, kept, w), times, kept, w)
  {
    var last := |kept| - 1;
    assert times[kept[last] + w - 1] == times[kept[last] + w - 1];
    if |kept| > 1 {
      var init := kept[..last];
      LatestEndIsGreatest(times, init, w);
      var i :| 0 <= i < |init| && LatestEnd(times, init, w) == times[init[i] + w - 1];
      assert init[i] == kept[i];
      assert forall i :: 0 <= i < |init| ==> init[i] == kept[i];
    }
  }

  /** A pattern was first seen when its first occurrence began and last when its last one ended, by the clock. */
  lemma SightingsAreExact(d: PatternDetector, events: History, ps: seq<DetectedPattern>, p: DetectedPattern)
    requires IsDetection(d, events, ps) && p in ps
    ensures p.signature != []
    ensures IsEarliestStart(p.firstSeenAt, Times(events), Kept(events, p.signature), |p.signature|)
    ensures IsLatestEnd(p.lastSeenAt, Times(events), Kept(events, p.signature), |p.signature|)
  {
    DetectorTheorems.PatternIsSummary(d, events, ps, p);
    EarliestStartIsLeast(Times(events), Kept(events, p.signature), |p.signature|);
    LatestEndIsGreatest(Times(events), Kept(events, p.signature), |p.signature|);
  }

  // --- contributing events ---

  lemma {:induction false} PositionAt(kept: seq<nat>, w: nat, i: nat, j: nat)
    requires i < |kept| && j < w
    ensures |DetectorTheorems.Positions(kept, w)| == w * |kept| && 0 <= w * i + j < w * |kept|
    ensures DetectorTheorems.Positions(kept, w)[w * i + j] == kept[i] + j
  {
    var last := |kept| - 1;
    PositionsCount(kept, w);
    PositionsCount(kept[..last], w);
    Distribute(w, last);
    if i < last {
      PositionAt(kept[..last], w, i, j);
    }
  }

  lemma {:induction false} PositionsCount(kept: seq<nat>, w: nat)
    ensures |DetectorTheorems.Positions(kept, w)| == w * |kept|
  {
    if kept != [] {
      PositionsCount(kept[..|kept| - 1], w);
      Distribute(w, |kept| - 1);
    }
  }

  /** The ids come occurrence by occurrence, and within one in the order of the history. */
  lemma IdsAreInOrder(
    d: PatternDetector, events: History, ps: seq<DetectedPattern>, p: DetectedPattern, i: nat, j: nat)
    requires IsDetection(d, events, ps) && p in ps && DetectorTheorems.DistinctIds(events)
    requires i < p.occurrenceCount && j < |p.signature|
    ensures i < |Kept(events, p.signature)| && 0 <= |p.signature| * i + j < |p.contributingEventIds|
    ensures Some(p.contributingEventIds[|p.signature| * i + j]) == events[Kept(events, p.signature)[i] + j].id
  {
    DetectorTheorems.PatternIsSummary(d, events, ps, p);
    var kept, w := Kept(events, p.signature), |p.signature|;
    DetectorTheorems.IdsAreAtPositions(events, kept, w);
    PositionAt(kept, w, i, j);
  }
}
