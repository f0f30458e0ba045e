/** What the reported patterns mean: for every history, detector setting and result order. */
module DetectorTheorems {
  import opened Domain
  import opened Wrappers
  import opened Occurrences
  import opened Detector

  // --- counts ---

  lemma CountIsMaximum(d: PatternDetector, events: History, ps: seq<DetectedPattern>, p: DetectedPattern)
    requires IsDetection(d, events, ps) && p in ps
    ensures IsLargestDisjoint(Keys(events), p.signature, p.occurrenceCount)
  {
    assert IsPatternOf(d, events, p);
    SelectedIsMaximum(Keys(events), p.signature);
  }

  /** A signature is reported exactly when enough disjoint occurrences of it exist. */
  lemma ReportedExactly(d: PatternDetector, events: History, ps: seq<DetectedPattern>, sig: seq<string>)
    requires IsDetection(d, events, ps)
    ensures (exists p :: p in ps && p.signature == sig)
       <==> (sig != [] && d.minWindow <= |sig| <= d.maxWindow
             && exists chosen: set<nat> ::
                  DisjointOccurrences(Keys(events), sig, chosen) && 1 <= |chosen| && d.minOccurrences <= |chosen|)
  {
    if p :| p in ps && p.signature == sig {
      assert IsPatternOf(d, events, p);
    }
    if sig != [] {
      SelectedIsMaximum(Keys(events), sig);
      var n := |Selected(Keys(events), sig)|;
      assert Reported(d, events, sig) <==> d.minWindow <= |sig| <= d.maxWindow && 1 <= n && d.minOccurrences <= n;
    }
  }

  /** Every part of a reported signature whose length is searched is reported at least as often. */
  lemma DownwardClosure(
    d: PatternDetector, events: History, ps: seq<DetectedPattern>, p: DetectedPattern, from: nat, to: nat)
    requires IsDetection(d, events, ps) && p in ps
    requires from < to <= |p.signature| && d.minWindow <= to - from
    ensures exists q :: q in ps && q.signature == p.signature[from..to] && p.occurrenceCount <= q.occurrenceCount
  {
    assert IsPatternOf(d, events, p);
    var part := p.signature[from..to];
    SubSignatureCount(Keys(events), p.signature, from, to);
    assert Reported(d, events, part);
    var q :| q in ps && q.signature == part;
    assert IsPatternOf(d, events, q);
  }

  lemma CountBounds(d: PatternDetector, events: History, ps: seq<DetectedPattern>, p: DetectedPattern)
    requires IsDetection(d, events, ps) && p in ps
    ensures |Starts(Keys(events), p.signature)| <= |p.signature| * p.occurrenceCount
    ensures |p.signature| * p.occurrenceCount <= |events|
  {
    assert IsPatternOf(d, events, p);
    SelectedBounds(Keys(events), p.signature);
  }

  // --- every history has a detection ---

  ghost function Candidates(d: PatternDetector, events: History): set<seq<string>> {
    set i, j | 0 <= i <= j <= |events| && Reported(d, events, Keys(events)[i..j]) :: Keys(events)[i..j]
  }

  lemma ReportedIsCandidate(d: PatternDetector, events: History, sig: seq<string>)
    requires Reported(d, events, sig)
    ensures sig in Candidates(d, events)
  {
    SelectedIsAChoice(Keys(events), sig);
    var i := Kept(events, sig)[0];
    assert OccursAt(Keys(events), sig, i);
    assert Keys(events)[i..i + |sig|] == sig;
  }

  /** One pattern for each of these signatures. */
  ghost predicate DetectsAll(d: PatternDetector, events: History, sigs: set<seq<string>>, ps: seq<DetectedPattern>) {
    && DistinctSignatures(ps)
    && (forall p :: p in ps ==> p.signature in sigs && IsPatternOf(d, events, p))
    && (forall sig :: sig in sigs ==> exists p :: p in ps && p.signature == sig)
  }

  lemma OneMoreDetected(
    d: PatternDetector, events: History, sigs: set<seq<string>>, ps: seq<DetectedPattern>, p: DetectedPattern)
    requires DetectsAll(d, events, sigs, ps) && IsPatternOf(d, events, p) && p.signature !in sigs
    ensures DetectsAll(d, events, sigs + {p.signature}, ps + [p])
  {
    assert forall i :: 0 <= i < |ps| ==> ps[i] in ps;
    assert (ps + [p])[|ps|] == p;
    forall sig | sig in sigs ensures exists q :: q in ps + [p] && q.signature == sig {
      var q :| q in ps && q.signature == sig;
      assert q in ps + [p];
    }
  }

  lemma {:induction false} DetectionOfSome(d: PatternDetector, events: History, sigs: set<seq<string>>)
    returns (ps: seq<DetectedPattern>)
    requires forall sig :: sig in sigs ==> Reported(d, events, sig)
    ensures DetectsAll(d, events, sigs, ps)
    decreases |sigs|
  {
    if sigs == {} {
      ps := [];
    } else {
      var sig :| sig in sigs;
      ps := DetectionOfSome(d, events, sigs - {sig});
      OneMoreDetected(d, events, sigs - {sig}, ps, Summarize(events, sig, Kept(events, sig)));
      assert sigs - {sig} + {sig} == sigs;
      ps := ps + [Summarize(events, sig, Kept(events, sig))];
    }
  }

  lemma DetectionExists(d: PatternDetector, events: History) returns (ps: seq<DetectedPattern>)
    ensures IsDetection(d, events, ps)
  {
    ps := DetectionOfSome(d, events, Candidates(d, events));
    forall sig | Reported(d, events, sig) ensures exists p :: p in ps && p.signature == sig {
      ReportedIsCandidate(d, events, sig);
    }
  }

  // --- times ---

  /** Oldest first, up to `slack` nanoseconds of disorder. */
  ghost predicate OldestFirst(times: seq<int>, slack: nat) {
    forall i, j :: 0 <= i < j < |times| ==> times[i] <= times[j] + slack
  }

  lemma {:induction false} EndsAreBounded(times: seq<int>, kept: seq<nat>, w: nat, bound: int)
    requires kept != [] && 1 <= w && InRange(kept, w, |times|)
    requires forall i :: 0 <= i < |kept| ==> times[kept[i] + w - 1] <= bound
    ensures LatestEnd(times, kept, w) <= bound
  {
    if |kept| > 1 {
      EndsAreBounded(times, kept[..|kept| - 1], w, bound);
    }
  }

  lemma {:induction false} SpanBounds(times: seq<int>, kept: seq<nat>, w: nat, slack: nat)
    requires kept != [] && 1 <= w && InRange(kept, w, |times|) && Spaced(kept, w)
    requires OldestFirst(times, slack)
    ensures -(|kept| * slack) <= TotalSpan(times, kept, w)
    ensures TotalSpan(times, kept, w)
      <= LatestEnd(times, kept, w) - EarliestStart(times, kept, w) + (|kept| - 1) * slack
  {
    var init, s := kept[..|kept| - 1], kept[|kept| - 1];
    assert w > 1 ==> times[s] <= times[s + w - 1] + slack;
    if |kept| == 1 {
      assert TotalSpan(times, init, w) == 0;
    } else {
      SpanBounds(times, init, w, slack);
      forall i | 0 <= i < |init| ensures times[init[i] + w - 1] <= times[s] + slack {
        assert kept[i] + w <= s;
      }
      EndsAreBounded(times, init, w, times[s] + slack);
      assert |kept| * slack == |init| * slack + slack && (|kept| - 1) * slack == (|init| - 1) * slack + slack;
    }
  }

  lemma MinutesAreMonotone(a: int, b: int)
    requires a <= b
    ensures Minutes(a) <= Minutes(b)
  {
  }

  lemma ShareTimesCount(total: real, n: nat)
    requires n > 0
    ensures total / n as real * n as real == total
  {
  }

  predicate IsBoundedTotal(times: seq<int>, kept: seq<nat>, w: nat, slack: nat)
    requires kept != [] && 1 <= w && InRange(kept, w, |times|)
  {
    var total := Minutes(TotalSpan(times, kept, w));
    && Minutes(-(|kept| * slack)) <= total
    && total <= Minutes(LatestEnd(times, kept, w) - EarliestStart(times, kept, w) + (|kept| - 1) * slack)
  }

  lemma BoundedMinutes(times: seq<int>, kept: seq<nat>, w: nat, slack: nat)
    requires kept != [] && 1 <= w && InRange(kept, w, |times|) && Spaced(kept, w)
    requires OldestFirst(times, slack)
    ensures IsBoundedTotal(times, kept, w, slack)
  {
    SpanBounds(times, kept, w, slack);
    var total := TotalSpan(times, kept, w);
    MinutesAreMonotone(-(|kept| * slack), total);
    MinutesAreMonotone(total, LatestEnd(times, kept, w) - EarliestStart(times, kept, w) + (|kept| - 1) * slack);
  }

  /** The total time a pattern claims: estimate per occurrence times count. */
  function ClaimedMinutes(p: DetectedPattern): real {
    p.minutesPerOccurrence * p.occurrenceCount as real
  }

  /** Between minus one slack per occurrence and the elapsed time plus one slack per gap. */
  predicate ClaimWithin(p: DetectedPattern, slack: nat) {
    && Minutes(-(p.occurrenceCount * slack)) <= ClaimedMinutes(p)
    && ClaimedMinutes(p) <= Minutes(p.lastSeenAt - p.firstSeenAt + (p.occurrenceCount - 1) * slack)
  }

  lemma SummaryTotal(events: History, sig: seq<string>, kept: seq<nat>)
    requires kept != [] && sig != [] && InRange(kept, |sig|, |events|)
    ensures ClaimedMinutes(Summarize(events, sig, kept)) == Minutes(TotalSpan(Times(events), kept, |sig|))
  {
    var p, total := Summarize(events, sig, kept), TotalSpan(Times(events), kept, |sig|);
    assert p.minutesPerOccurrence == Minutes(total) / |kept| as real;
    ClaimOfShare(p, Minutes(total));
  }

  lemma ClaimOfShare(p: DetectedPattern, total: real)
    requires p.occurrenceCount > 0 && p.minutesPerOccurrence == total / p.occurrenceCount as real
    ensures ClaimedMinutes(p) == total
  {
    ShareTimesCount(total, p.occurrenceCount);
  }

  lemma SummaryClaim(events: History, sig: seq<string>, kept: seq<nat>, slack: nat)
    requires kept != [] && sig != [] && InRange(kept, |sig|, |events|) && Spaced(kept, |sig|)
    requires OldestFirst(Times(events), slack)
    ensures ClaimWithin(Summarize(events, sig, kept), slack)
  {
    var times, w := Times(events), |sig|;
    SummaryTotal(events, sig, kept);
    BoundedMinutes(times, kept, w, slack);
    ClaimFromTotal(Summarize(events, sig, kept), times, kept, w, slack);
  }

  lemma ClaimFromTotal(p: DetectedPattern, times: seq<int>, kept: seq<nat>, w: nat, slack: nat)
    requires kept != [] && 1 <= w && InRange(kept, w, |times|)
    requires p.occurrenceCount == |kept|
    requires p.firstSeenAt == EarliestStart(times, kept, w) && p.lastSeenAt == LatestEnd(times, kept, w)
    requires ClaimedMinutes(p) == Minutes(TotalSpan(times, kept, w))
    requires IsBoundedTotal(times, kept, w, slack)
    ensures ClaimWithin(p, slack)
  {
    WithinOf(p, Minutes(TotalSpan(times, kept, w)), |kept|, slack, LatestEnd(times, kept, w) - EarliestStart(times, kept, w));
  }

  lemma WithinOf(p: DetectedPattern, total: real, n: nat, slack: nat, elapsed: int)
    requires ClaimedMinutes(p) == total && p.occurrenceCount == n && p.lastSeenAt - p.firstSeenAt == elapsed
    requires Minutes(-(n * slack)) <= total <= Minutes(elapsed + (n - 1) * slack)
    ensures ClaimWithin(p, slack)
  {
  }

  /**
   The claimed total is the sum of the disjoint spans.  For a history in order up to
   `slack` it is bounded by the elapsed time plus the slack; with slack 0 it lies
   between 0 and the time from the first to the last sighting.
   */
  lemma TimeIsBounded(
    d: PatternDetector, events: History, ps: seq<DetectedPattern>, p: DetectedPattern, slack: nat)
    requires IsDetection(d, events, ps) && p in ps
    requires OldestFirst(Times(events), slack)
    ensures ClaimedMinutes(p) == Minutes(TotalSpan(Times(events), Kept(events, p.signature), |p.signature|))
    ensures ClaimWithin(p, slack)
  {
    assert IsPatternOf(d, events, p);
    assert Spaced(Kept(events, p.signature), |p.signature|) by {
      SelectedIsAChoice(Keys(events), p.signature);
    }
    SummaryTotal(events, p.signature, Kept(events, p.signature));
    SummaryClaim(events, p.signature, Kept(events, p.signature), slack);
  }

  lemma TimeWithinWallClock(d: PatternDetector, events: History, ps: seq<DetectedPattern>, p: DetectedPattern)
    requires IsDetection(d, events, ps) && p in ps
    requires OldestFirst(Times(events), 0)
    ensures 0.0 <= ClaimedMinutes(p) <= Minutes(p.lastSeenAt - p.firstSeenAt)
  {
    TimeIsBounded(d, events, ps, p, 0);
    assert p.occurrenceCount * 0 == 0 && (p.occurrenceCount - 1) * 0 == 0;
  }

  // --- contributing events ---

  ghost predicate DistinctIds(events: History) {
    && (forall i :: 0 <= i < |events| ==> events[i].id.Some?)
    && (forall i, j :: 0 <= i < j < |events| ==> events[i].id != events[j].id)
  }

  /** The history positions that the kept occurrences cover, in order. */
  function Positions(kept: seq<nat>, w: nat): seq<nat> {
    if kept == [] then []
    else Positions(kept[..|kept| - 1], w) + seq(w, i requires 0 <= i < w => kept[|kept| - 1] + i)
  }

  lemma {:induction false} PositionsAreAscending(kept: seq<nat>, w: nat, n: nat)
    requires Spaced(kept, w) && InRange(kept, w, n)
    ensures |Positions(kept, w)| == w * |kept|
    ensures Ascending(Positions(kept, w))
    ensures forall x :: x in Positions(kept, w) ==> x < n
  {
    if kept != [] {
      var init, s := kept[..|kept| - 1], kept[|kept| - 1];
      PositionsAreAscending(init, w, s);
      Distribute(w, |init|);
      var p := Positions(init, w);
      assert forall i :: 0 <= i < |p| ==> p[i] in p;
    }
  }

  lemma {:induction false} IdsOfSlice(slice: seq<EventSummary>)
    requires forall i :: 0 <= i < |slice| ==> slice[i].id.Some?
    ensures |IdsOf(slice)| == |slice|
    ensures forall i :: 0 <= i < |slice| ==> IdsOf(slice)[i] == slice[i].id.value
  {
    if slice != [] {
      IdsOfSlice(slice[..|slice| - 1]);
    }
  }

  ghost predicate AreIdsAt(events: History, at: seq<nat>, ids: seq<int>) {
    |ids| == |at| && forall i :: 0 <= i < |ids| ==> at[i] < |events| && events[at[i]].id == Some(ids[i])
  }

  lemma IdsOfWindow(events: History, s: nat, w: nat)
    requires DistinctIds(events) && s + w <= |events|
    ensures AreIdsAt(events, seq(w, i requires 0 <= i < w => s + i), IdsOf(events[s..s + w]))
  {
    IdsOfSlice(events[s..s + w]);
  }

  lemma IdsAtConcat(events: History, a: seq<nat>, b: seq<nat>, x: seq<int>, y: seq<int>)
    requires AreIdsAt(events, a, x) && AreIdsAt(events, b, y)
    ensures AreIdsAt(events, a + b, x + y)
  {
  }

  lemma {:induction false} IdsAreAtPositions(events: History, kept: seq<nat>, w: nat)
    requires DistinctIds(events) && InRange(kept, w, |events|)
    ensures AreIdsAt(events, Positions(kept, w), ContributingIds(events, kept, w))
  {
    if kept != [] {
      var init, s := kept[..|kept| - 1], kept[|kept| - 1];
      IdsAreAtPositions(events, init, w);
      IdsOfWindow(events, s, w);
      IdsAtConcat(events, Positions(init, w), seq(w, i requires 0 <= i < w => s + i),
                  ContributingIds(events, init, w), IdsOf(events[s..s + w]));
    }
  }

  /** window * count ids, no repeats: no event is attributed to two occurrences. */
  lemma IdsAreConserved(d: PatternDetector, events: History, ps: seq<DetectedPattern>, p: DetectedPattern)
    requires IsDetection(d, events, ps) && p in ps
    requires DistinctIds(events)
    ensures var ids := p.contributingEventIds;
      && |ids| == |p.signature| * p.occurrenceCount
      && (forall i, j :: 0 <= i < j < |ids| ==> ids[i] != ids[j])
      && (forall i :: 0 <= i < |ids| ==> exists k :: 0 <= k < |events| && events[k].id == Some(ids[i]))
  {
    assert IsPatternOf(d, events, p);
    var kept, w := Kept(events, p.signature), |p.signature|;
    SelectedIsAChoice(Keys(events), p.signature);
    PositionsAreAscending(kept, w, |events|);
    IdsAreAtPositions(events, kept, w);
    var at, ids := Positions(kept, w), p.contributingEventIds;
    forall i, j | 0 <= i < j < |ids| ensures ids[i] != ids[j] {
      assert at[i] < at[j];
      assert events[at[i]].id != events[at[j]].id;
    }
    forall i | 0 <= i < |ids| ensures exists k :: 0 <= k < |events| && events[k].id == Some(ids[i]) {
      assert events[at[i]].id == Some(ids[i]);
    }
  }

  // --- appending events ---

  lemma {:induction false} ExtensionOfTimes(times: seq<int>, times': seq<int>, kept: seq<nat>, kept': seq<nat>, w: nat)
    requires 1 <= w && kept != [] && kept <= kept' && times <= times'
    requires InRange(kept, w, |times|) && InRange(kept', w, |times'|)
    ensures EarliestStart(times', kept', w) <= EarliestStart(times, kept, w)
    ensures LatestEnd(times, kept, w) <= LatestEnd(times', kept', w)
    decreases |kept'|
  {
    if |kept| < |kept'| {
      ExtensionOfTimes(times, times', kept, kept'[..|kept'| - 1], w);
    } else if |kept| > 1 {
      assert kept == kept';
      ExtensionOfTimes(times, times', kept[..|kept| - 1], kept[..|kept| - 1], w);
    }
  }

  lemma {:induction false} ExtensionOfIds(events: History, more: History, kept: seq<nat>, kept': seq<nat>, w: nat)
    requires kept <= kept' && InRange(kept, w, |events|) && InRange(kept', w, |events + more|)
    ensures ContributingIds(events, kept, w) <= ContributingIds(events + more, kept', w)
    decreases |kept'|
  {
    if |kept| < |kept'| {
      ExtensionOfIds(events, more, kept, kept'[..|kept'| - 1], w);
    } else if kept != [] {
      assert kept == kept';
      SameContributors(events, more, kept, w);
    }
  }

  lemma {:induction false} SameContributors(events: History, more: History, kept: seq<nat>, w: nat)
    requires InRange(kept, w, |events|)
    ensures ContributingIds(events, kept, w) == ContributingIds(events + more, kept, w)
  {
    if kept != [] {
      var s := kept[|kept| - 1];
      SameContributors(events, more, kept[..|kept| - 1], w);
      assert (events + more)[s..s + w] == events[s..s + w];
    }
  }

  predicate Confirms(p: DetectedPattern, q: DetectedPattern) {
    && q.signature == p.signature
    && p.occurrenceCount <= q.occurrenceCount
    && p.contributingEventIds <= q.contributingEventIds
    && q.firstSeenAt <= p.firstSeenAt && p.lastSeenAt <= q.lastSeenAt
  }

  /** Newer events can only confirm a pattern: nothing reported before is lost or lowered. */
  lemma AppendingIsMonotone(
    d: PatternDetector, events: History, more: History,
    ps: seq<DetectedPattern>, ps': seq<DetectedPattern>, p: DetectedPattern)
    requires IsDetection(d, events, ps) && IsDetection(d, events + more, ps') && p in ps
    ensures exists q :: q in ps' && Confirms(p, q)
  {
    var sig := p.signature;
    PatternIsSummary(d, events, ps, p);
    KeptGrows(events, more, sig);
    var q := ReportedPattern(d, events + more, ps', sig);
    SummariesConfirm(events, more, sig, Kept(events, sig), Kept(events + more, sig));
  }

  lemma PatternIsSummary(d: PatternDetector, events: History, ps: seq<DetectedPattern>, p: DetectedPattern)
    requires IsDetection(d, events, ps) && p in ps
    ensures Reported(d, events, p.signature)
    ensures p == Summarize(events, p.signature, Kept(events, p.signature))
  {
    assert IsPatternOf(d, events, p);
  }

  lemma ReportedPattern(d: PatternDetector, events: History, ps: seq<DetectedPattern>, sig: seq<string>)
    returns (q: DetectedPattern)
    requires IsDetection(d, events, ps) && Reported(d, events, sig)
    ensures q in ps && q == Summarize(events, sig, Kept(events, sig))
  {
    q :| q in ps && q.signature == sig;
    PatternIsSummary(d, events, ps, q);
  }

  lemma KeptGrows(events: History, more: History, sig: seq<string>)
    requires sig != []
    ensures Kept(events, sig) <= Kept(events + more, sig)
  {
    assert Keys(events + more) == Keys(events) + Keys(more);
    SelectedIsStable(Keys(events), Keys(more), sig);
  }

  lemma SummariesConfirm(events: History, more: History, sig: seq<string>, kept: seq<nat>, kept': seq<nat>)
    requires sig != [] && kept != [] && kept <= kept'
    requires InRange(kept, |sig|, |events|) && InRange(kept', |sig|, |events + more|)
    ensures Confirms(Summarize(events, sig, kept), Summarize(events + more, sig, kept'))
  {
    ExtensionOfIds(events, more, kept, kept', |sig|);
    ExtensionOfTimes(Times(events), Times(events + more), kept, kept', |sig|);
  }

  // --- what the patterns do not depend on ---

  ghost predicate SameShapes(events: History, events': History) {
    |events| == |events'| && forall i :: 0 <= i < |events| ==> SameShape(events[i], events'[i])
  }

  ghost predicate SameEventIds(events: History, events': History) {
    |events| == |events'| && forall i :: 0 <= i < |events| ==> events[i].id == events'[i].id
  }

  lemma {:induction false} SameIds(events: History, events': History, kept: seq<nat>, w: nat)
    requires SameEventIds(events, events') && InRange(kept, w, |events|)
    ensures ContributingIds(events, kept, w) == ContributingIds(events', kept, w)
  {
    if kept != [] {
      SameIds(events, events', kept[..|kept| - 1], w);
      SameIdsInWindow(events, events', kept[|kept| - 1], w);
    }
  }

  lemma SameIdsInWindow(events: History, events': History, s: nat, w: nat)
    requires SameEventIds(events, events') && s + w <= |events|
    ensures IdsOf(events[s..s + w]) == IdsOf(events'[s..s + w])
  {
    SameIdsOf(events[s..s + w], events'[s..s + w]);
  }

  lemma {:induction false} SameIdsOf(a: seq<EventSummary>, b: seq<EventSummary>)
    requires |a| == |b| && forall i :: 0 <= i < |a| ==> a[i].id == b[i].id
    ensures IdsOf(a) == IdsOf(b)
  {
    if a != [] {
      SameIdsOf(a[..|a| - 1], b[..|b| - 1]);
    }
  }

  /** Histories of the same shape give the same patterns, whatever content they hold. */
  lemma ContentDoesNotInterfere(
    d: PatternDetector, events: History, events': History,
    ps: seq<DetectedPattern>, ps': seq<DetectedPattern>)
    requires SameShapes(events, events')
    requires IsDetection(d, events, ps) && IsDetection(d, events', ps')
    ensures forall p :: p in ps <==> p in ps'
  {
    ShapeDecides(d, events, events', ps, ps');
    ShapeDecides(d, events', events, ps', ps);
  }

  lemma ShapeDecides(
    d: PatternDetector, events: History, events': History,
    ps: seq<DetectedPattern>, ps': seq<DetectedPattern>)
    requires SameShapes(events, events')
    requires IsDetection(d, events, ps) && IsDetection(d, events', ps')
    ensures forall p :: p in ps ==> p in ps'
  {
    assert Keys(events) == Keys(events') by {
      forall i | 0 <= i < |events| ensures ActionKey(events[i]) == ActionKey(events'[i]) {
        SameShapeSameKey(events[i], events'[i]);
      }
    }
    assert Times(events) == Times(events');
    forall p | p in ps ensures p in ps' {
      assert IsPatternOf(d, events, p);
      assert Reported(d, events', p.signature);
      var q :| q in ps' && q.signature == p.signature;
      assert IsPatternOf(d, events', q);
      SameIds(events, events', Kept(events, p.signature), |p.signature|);
    }
  }

  // --- the flag the dispatch gate relies on ---

  ghost predicate KeyLooksVerbatim(e: EventSummary) {
    CarriesDomain(e) || (Subject(e).None? && LooksLikeDomainSource(e.sourceId))
  }

  /**
   In any kept occurrence, the flag is set exactly when some event carries a browser
   domain or has no subject and a source named like the prefix.
   */
  lemma FlagIsExact(
    d: PatternDetector, events: History, ps: seq<DetectedPattern>, p: DetectedPattern, s: nat)
    requires IsDetection(d, events, ps) && p in ps && s in Kept(events, p.signature)
    ensures s + |p.signature| <= |events|
    ensures p.containsVerbatimStrings
       <==> exists j :: s <= j < s + |p.signature| && KeyLooksVerbatim(events[j])
  {
    assert IsPatternOf(d, events, p);
    var sig := p.signature;
    SelectedIsAChoice(Keys(events), sig);
    assert OccursAt(Keys(events), sig, s);
    forall j | s <= j < s + |sig|
      ensures VERBATIM_PREFIX <= sig[j - s] <==> KeyLooksVerbatim(events[j])
    {
      VerbatimPrefixMeaning(events[j]);
      assert sig[j - s] == Keys(events)[s..s + |sig|][j - s];
    }
    if p.containsVerbatimStrings {
      var i :| 0 <= i < |sig| && VERBATIM_PREFIX <= sig[i];
      assert KeyLooksVerbatim(events[s + i]);
    }
    if j :| s <= j < s + |sig| && KeyLooksVerbatim(events[j]) {
      assert VERBATIM_PREFIX <= sig[j - s];
    }
  }
}
