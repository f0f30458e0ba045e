/**
 Layer 1: repeated action sequences found by sliding windows over an event history,
 the counts and times derived from them, and what those numbers mean.
 */
module Detector {
  import opened Domain
  import opened Occurrences
  import Sorting

  const NANOS_PER_MINUTE: real := 60_000_000_000.0

  /** Instants are nanoseconds; minutes are exact reals. */
  datatype DetectedPattern = DetectedPattern(
    signature: seq<string>,
    occurrenceCount: nat,
    firstSeenAt: int,
    lastSeenAt: int,
    minutesPerOccurrence: real,
    contributingEventIds: seq<int>,
    containsVerbatimStrings: bool)

  /** Inclusive range of window sizes, and the count below which nothing is reported. */
  datatype PatternDetector = PatternDetector(minWindow: nat, maxWindow: nat, minOccurrences: nat)

  const DEFAULT_DETECTOR := PatternDetector(2, 5, 3)

  type History = seq<EventSummary>

  function Keys(events: History): (r: seq<string>)
    ensures |r| == |events|
  {
    seq(|events|, i requires 0 <= i < |events| => ActionKey(events[i]))
  }

  function Times(events: History): (r: seq<int>)
    ensures |r| == |events|
  {
    seq(|events|, i requires 0 <= i < |events| => events[i].occurredAt.Instant())
  }

  predicate ContainsVerbatim(signature: seq<string>) {
    exists i :: 0 <= i < |signature| && VERBATIM_PREFIX <= signature[i]
  }

  // --- numbers over the kept occurrences ---

  predicate InRange(kept: seq<nat>, w: nat, n: nat) {
    forall i :: 0 <= i < |kept| ==> kept[i] + w <= n
  }

  function EarliestStart(times: seq<int>, kept: seq<nat>, w: nat): int
    requires kept != [] && 1 <= w && InRange(kept, w, |times|)
  {
    var t := times[kept[|kept| - 1]];
    if |kept| == 1 then t
    else
      var rest := EarliestStart(times, kept[..|kept| - 1], w);
      if rest <= t then rest else t
  }

  function LatestEnd(times: seq<int>, kept: seq<nat>, w: nat): int
    requires kept != [] && 1 <= w && InRange(kept, w, |times|)
  {
    var t := times[kept[|kept| - 1] + w - 1];
    if |kept| == 1 then t
    else
      var rest := LatestEnd(times, kept[..|kept| - 1], w);
      if rest > t then rest else t
  }

  function TotalSpan(times: seq<int>, kept: seq<nat>, w: nat): int
    requires 1 <= w && InRange(kept, w, |times|)
  {
    if kept == [] then 0
    else
      var s := kept[|kept| - 1];
      TotalSpan(times, kept[..|kept| - 1], w) + (times[s + w - 1] - times[s])
  }

  function IdsOf(slice: seq<EventSummary>): seq<int> {
    if slice == [] then []
    else
      var id := slice[|slice| - 1].id;
      IdsOf(slice[..|slice| - 1]) + (if id.Some? then [id.value] else [])
  }

  function ContributingIds(events: History, kept: seq<nat>, w: nat): seq<int>
    requires InRange(kept, w, |events|)
  {
    if kept == [] then []
    else
      var s := kept[|kept| - 1];
      ContributingIds(events, kept[..|kept| - 1], w) + IdsOf(events[s..s + w])
  }

  function Minutes(nanos: int): real {
    nanos as real / NANOS_PER_MINUTE
  }

  function Summarize(events: History, sig: seq<string>, kept: seq<nat>): DetectedPattern
    requires kept != [] && sig != [] && InRange(kept, |sig|, |events|)
  {
    var times, w := Times(events), |sig|;
    DetectedPattern(
      sig, |kept|,
      EarliestStart(times, kept, w), LatestEnd(times, kept, w),
      Minutes(TotalSpan(times, kept, w)) / |kept| as real,
      ContributingIds(events, kept, w),
      ContainsVerbatim(sig))
  }

  // --- what a detection run has to return ---

  function Kept(events: History, sig: seq<string>): (r: seq<nat>)
    ensures InRange(r, |sig|, |events|)
  {
    SelectedIsAChoice(Keys(events), sig);
    var r := Selected(Keys(events), sig);
    assert forall i :: 0 <= i < |r| ==> r[i] in r;
    r
  }

  ghost predicate Reported(d: PatternDetector, events: History, sig: seq<string>) {
    && d.minWindow <= |sig| <= d.maxWindow
    && 1 <= |sig|
    && 1 <= |Kept(events, sig)|
    && d.minOccurrences <= |Kept(events, sig)|
  }

  ghost predicate DistinctSignatures(ps: seq<DetectedPattern>) {
    forall i, j :: 0 <= i < j < |ps| ==> ps[i].signature != ps[j].signature
  }

  ghost predicate IsPatternOf(d: PatternDetector, events: History, p: DetectedPattern) {
    Reported(d, events, p.signature) && p == Summarize(events, p.signature, Kept(events, p.signature))
  }

  /** In any order: one pattern for each reported signature and no other. */
  ghost predicate IsDetection(d: PatternDetector, events: History, ps: seq<DetectedPattern>) {
    && DistinctSignatures(ps)
    && (forall p :: p in ps ==> IsPatternOf(d, events, p))
    && (forall sig :: Reported(d, events, sig) ==> exists p :: p in ps && p.signature == sig)
  }

  // --- the algorithm ---

  method SelectNonOverlapping(occurrences: seq<nat>, w: nat) returns (selected: seq<nat>)
    ensures selected == Greedy(Sorting.StableSort((a: nat, b: nat) => a <= b, occurrences), w, 0)
  {
    var sorted := Sorting.StableSort((a: nat, b: nat) => a <= b, occurrences);
    selected := [];
    var nextAllowedStart: nat := 0;
    for i := 0 to |sorted|
      invariant selected + Greedy(sorted[i..], w, nextAllowedStart) == Greedy(sorted, w, 0)
    {
      var start := sorted[i];
      assert sorted[i..][1..] == sorted[i + 1..];
      if nextAllowedStart <= start {
        nextAllowedStart := start + w;
        selected := selected + [start];
      }
    }
  }

  lemma StartsStopEarly(keys: seq<string>, sig: seq<string>, bound: nat)
    requires sig != [] && |sig| <= |keys| && |keys| - |sig| < bound <= |keys|
    ensures StartsBelow(keys, sig, bound) == Starts(keys, sig)
    decreases |keys| - bound
  {
    if bound < |keys| {
      StartsStopEarly(keys, sig, bound + 1);
    }
  }

  method DetectForWindow(d: PatternDetector, events: History, window: nat)
    returns (results: seq<DetectedPattern>)
    requires 1 <= window <= |events|
    ensures IsDetection(d.(minWindow := window, maxWindow := window), events, results)
  {
    var groups := GroupBySignature(Keys(events), window);
    results := SummarizeGroups(d, events, window, groups);
  }

  ghost predicate IsGrouping(keys: seq<string>, window: nat, bound: nat, groups: map<seq<string>, seq<nat>>) {
    forall sig ::
      && (sig in groups <==> |sig| == window && StartsBelow(keys, sig, bound) != [])
      && (sig in groups ==> groups[sig] == StartsBelow(keys, sig, bound))
  }

  method GroupBySignature(keys: seq<string>, window: nat) returns (groups: map<seq<string>, seq<nat>>)
    requires 1 <= window <= |keys|
    ensures IsGrouping(keys, window, |keys|, groups)
  {
    groups := map[];
    for start := 0 to |keys| - window + 1
      invariant IsGrouping(keys, window, start, groups)
    {
      var signature := keys[start..start + window];
      GroupStep(keys, window, start, groups);
      groups := groups[signature := (if signature in groups then groups[signature] else []) + [start]];
    }
    GroupingIsComplete(keys, window, groups);
  }

  lemma GroupStep(keys: seq<string>, window: nat, start: nat, groups: map<seq<string>, seq<nat>>)
    requires 1 <= window && start + window <= |keys|
    requires IsGrouping(keys, window, start, groups)
    ensures var signature := keys[start..start + window];
      IsGrouping(keys, window, start + 1,
        groups[signature := (if signature in groups then groups[signature] else []) + [start]])
  {
    var signature := keys[start..start + window];
    var groups' := groups[signature := (if signature in groups then groups[signature] else []) + [start]];
    forall sig
      ensures sig in groups' <==> |sig| == window && StartsBelow(keys, sig, start + 1) != []
      ensures sig in groups' ==> groups'[sig] == StartsBelow(keys, sig, start + 1)
    {
      if |sig| == window {
        assert OccursAt(keys, sig, start) <==> sig == signature;
      }
    }
  }

  lemma GroupingIsComplete(keys: seq<string>, window: nat, groups: map<seq<string>, seq<nat>>)
    requires 1 <= window <= |keys| && IsGrouping(keys, window, |keys| - window + 1, groups)
    ensures IsGrouping(keys, window, |keys|, groups)
  {
    forall sig
      ensures sig in groups <==> |sig| == window && StartsBelow(keys, sig, |keys|) != []
      ensures sig in groups ==> groups[sig] == StartsBelow(keys, sig, |keys|)
    {
      if |sig| == window {
        StartsStopEarly(keys, sig, |keys| - window + 1);
      }
    }
  }

  /** The groups outside `remaining` have been turned into `results`. */
  ghost predicate Summarized(
    d: PatternDetector, events: History,
    groups: map<seq<string>, seq<nat>>, remaining: map<seq<string>, seq<nat>>, results: seq<DetectedPattern>)
  {
    && DistinctSignatures(results)
    && (forall p :: p in results ==> p.signature in groups && p.signature !in remaining && IsPatternOf(d, events, p))
    && (forall sig :: sig in groups && sig !in remaining && Reported(d, events, sig) ==>
          exists p :: p in results && p.signature == sig)
  }

  method SummarizeGroups(
    d: PatternDetector, events: History, window: nat, groups: map<seq<string>, seq<nat>>)
    returns (results: seq<DetectedPattern>)
    requires 1 <= window && IsGrouping(Keys(events), window, |events|, groups)
    ensures IsDetection(d.(minWindow := window, maxWindow := window), events, results)
  {
    ghost var w := d.(minWindow := window, maxWindow := window);
    results := [];
    var remaining := groups;
    while remaining.Keys != {}
      invariant remaining.Keys <= groups.Keys
      invariant forall sig :: sig in remaining ==> remaining[sig] == groups[sig]
      invariant Summarized(w, events, groups, remaining, results)
      decreases |remaining.Keys|
    {
      var signature :| signature in remaining;
      GroupSelection(events, window, groups, signature);
      var occurrences := SelectNonOverlapping(remaining[signature], |signature|);
      SummarizeStep(w, events, groups, remaining, results, signature);
      if |occurrences| >= d.minOccurrences {
        results := results + [Summarize(events, signature, occurrences)];
      }
      remaining := remaining - {signature};
    }
    NothingElseIsReported(d, events, window, groups);
  }

  lemma SummarizeStep(
    d: PatternDetector, events: History,
    groups: map<seq<string>, seq<nat>>, remaining: map<seq<string>, seq<nat>>, results: seq<DetectedPattern>,
    sig: seq<string>)
    requires Summarized(d, events, groups, remaining, results)
    requires sig in groups && sig in remaining && sig != [] && d.minWindow == |sig| == d.maxWindow
    requires Kept(events, sig) != []
    ensures Summarized(d, events, groups, remaining - {sig},
      if |Kept(events, sig)| >= d.minOccurrences then results + [Summarize(events, sig, Kept(events, sig))] else results)
  {
    var p := Summarize(events, sig, Kept(events, sig));
    if |Kept(events, sig)| >= d.minOccurrences {
      var results' := results + [p];
      assert Reported(d, events, sig) && p in results' && p.signature == sig;
      assert forall q :: q in results ==> q in results';
      assert forall i :: 0 <= i < |results| ==> results[i] in results;
    }
  }

  lemma NothingElseIsReported(d: PatternDetector, events: History, window: nat, groups: map<seq<string>, seq<nat>>)
    requires 1 <= window && IsGrouping(Keys(events), window, |events|, groups)
    ensures forall sig :: Reported(d.(minWindow := window, maxWindow := window), events, sig) ==> sig in groups
  {
    forall sig | Reported(d.(minWindow := window, maxWindow := window), events, sig) ensures sig in groups {
      SelectedBounds(Keys(events), sig);
    }
  }

  lemma GroupSelection(events: History, window: nat, groups: map<seq<string>, seq<nat>>, sig: seq<string>)
    requires 1 <= window && IsGrouping(Keys(events), window, |events|, groups) && sig in groups
    ensures Greedy(Sorting.StableSort((a: nat, b: nat) => a <= b, groups[sig]), |sig|, 0) == Kept(events, sig)
    ensures Kept(events, sig) != []
  {
    assert groups[sig] == Starts(Keys(events), sig);
    Sorting.SortedIsKept((a: nat, b: nat) => a <= b, groups[sig]);
  }

  method Detect(d: PatternDetector, events: History) returns (results: seq<DetectedPattern>)
    ensures IsDetection(d, events, results)
  {
    results := [];
    if d.minWindow > d.maxWindow {
      return;
    }
    for window := d.minWindow to d.maxWindow + 1
      invariant DetectedBelow(d, events, window, results)
    {
      if window == 0 || |events| < window {
        WindowDoesNotFit(d, events, window);
        continue;
      }
      var more := DetectForWindow(d, events, window);
      AddWindow(d, events, window, results, more);
      results := results + more;
    }
  }

  ghost predicate DetectedBelow(d: PatternDetector, events: History, bound: nat, ps: seq<DetectedPattern>) {
    && DistinctSignatures(ps)
    && (forall p :: p in ps ==> |p.signature| < bound && IsPatternOf(d, events, p))
    && (forall sig :: Reported(d, events, sig) && |sig| < bound ==> exists p :: p in ps && p.signature == sig)
  }

  lemma WindowDoesNotFit(d: PatternDetector, events: History, window: nat)
    requires window == 0 || |events| < window
    ensures forall sig | |sig| == window :: !Reported(d, events, sig)
  {
    forall sig | |sig| == window ensures !Reported(d, events, sig) {
      if sig != [] {
        SelectedBounds(Keys(events), sig);
      }
    }
  }

  lemma AddWindow(
    d: PatternDetector, events: History, window: nat, a: seq<DetectedPattern>, b: seq<DetectedPattern>)
    requires d.minWindow <= window <= d.maxWindow
    requires DetectedBelow(d, events, window, a)
    requires IsDetection(d.(minWindow := window, maxWindow := window), events, b)
    ensures DetectedBelow(d, events, window + 1, a + b)
  {
    var w := d.(minWindow := window, maxWindow := window);
    forall p | p in a + b ensures |p.signature| < window + 1 && IsPatternOf(d, events, p) {
      assert p in a || IsPatternOf(w, events, p);
    }
    forall i, j | 0 <= i < j < |a + b| ensures (a + b)[i].signature != (a + b)[j].signature {
      if i < |a| <= j {
        assert a[i] in a && IsPatternOf(w, events, b[j - |a|]);
      }
    }
    forall sig | Reported(d, events, sig) && |sig| < window + 1
      ensures exists p :: p in a + b && p.signature == sig
    {
      if |sig| < window {
        var p :| p in a && p.signature == sig;
        assert p in a + b;
      } else {
        assert Reported(w, events, sig);
        var p :| p in b && p.signature == sig;
        assert p in a + b;
      }
    }
  }
}
