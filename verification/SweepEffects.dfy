/** What one whole sweep leaves in the store, when nothing comes between its steps. */
module SweepEffects {
  import opened Domain
  import opened Wrappers
  import opened EventStore
  import opened Rfc3339
  import opened Detector
  import opened System
  import DetectorTheorems
  import Gate
  import Synthesizer

  /** What answers the calls made for the k-th pattern of a sweep. */
  type Providers = nat -> Synthesizer.Replies

  /** What a sweep works with while it goes through its patterns. */
  datatype Context = Context(
    reader: Synthesizer.Reader, gate: Gate.Consents, level: PrivacyLevel, known: map<int, PatternRow>,
    providers: Providers)

  // --- one pattern ---

  /** What the first usable reply builds, unless a failure or the last attempt comes before it. */
  ghost function Answer(
    reader: Synthesizer.Reader, id: int, p: DetectedPattern, replies: Synthesizer.Replies, attempt: nat)
    : Option<Synthesizer.Recommendation>
    decreases MAX_ATTEMPTS - attempt
  {
    if attempt >= MAX_ATTEMPTS || replies(attempt).Err? then None
    else
      match Synthesizer.Built(reader, id, p, replies(attempt).value)
      case Ok(r) => Some(r)
      case Err(_) => Answer(reader, id, p, replies, attempt + 1)
  }

  /** There is a usable provider, and the gate lets the pattern through to it. */
  predicate MayAsk(c: Context, s: StoreState, p: DetectedPattern) {
    var config := ActiveProvider(s);
    && Usable(config)
    && Gate.Evaluate(c.gate, IsLocalProvider(config.value), c.level, CONTENT_CLASS, p.containsVerbatimStrings) == Gate.Allow
  }

  ghost function Explained(c: Context, s: StoreState, id: int, p: DetectedPattern, k: nat): StoreState {
    var r := Answer(c.reader, id, p, c.providers(k), 0);
    if MayAsk(c, s, p) && r.Some? then InsertRecommendationRow(s, r.value) else s
  }

  /** A new row for the pattern, linked to its events. */
  function StoredPattern(s: StoreState, p: DetectedPattern): StoreState {
    LinkEvents(InsertPatternRow(s, RowOf(p)), s.lastPatternId + 1, p.contributingEventIds)
  }

  /** The row the sweep knew for a signature when it began with its patterns. */
  ghost function KnownRow(known: map<int, PatternRow>, signature: seq<string>): Option<int> {
    if IsKnown(known, signature) then Some(KnownId(known, signature)) else None
  }

  ghost function ProcessedAs(c: Context, id: Option<int>, s: StoreState, p: DetectedPattern, k: nat): StoreState {
    match id
    case Some(i) => UpdateStats(s, i, p.lastSeenAt, p.occurrenceCount, p.minutesPerOccurrence)
    case None => Explained(c, StoredPattern(s, p), s.lastPatternId + 1, p, k)
  }

  ghost function Processed(c: Context, s: StoreState, p: DetectedPattern, k: nat): StoreState {
    ProcessedAs(c, KnownRow(c.known, p.signature), s, p, k)
  }

  lemma LearnedIsProcessed(c: Context, s: StoreState, p: DetectedPattern, k: nat, stored: StoreState, id: int, t: StoreState)
    requires stored == StoredPattern(s, p) && id == s.lastPatternId + 1 && t == Explained(c, stored, id, p, k)
    ensures t == ProcessedAs(c, None, s, p, k)
  {
  }

  /** The store after the first n patterns. */
  ghost function ProcessedUpTo(c: Context, s: StoreState, detected: seq<DetectedPattern>, n: nat): StoreState
    requires n <= |detected|
    decreases n, 0
  {
    if n == 0 then s else ProcessedNext(c, s, detected, n - 1)
  }

  ghost function ProcessedNext(c: Context, s: StoreState, detected: seq<DetectedPattern>, n: nat): StoreState
    requires n < |detected|
    decreases n, 1
  {
    Processed(c, ProcessedUpTo(c, s, detected, n), detected[n], n)
  }

  lemma OneMoreProcessed(
    c: Context, s: StoreState, detected: seq<DetectedPattern>, n: nat, id: Option<int>, t: StoreState, t': StoreState)
    requires n < |detected| && id == KnownRow(c.known, detected[n].signature)
    requires t == ProcessedUpTo(c, s, detected, n) && t' == ProcessedAs(c, id, t, detected[n], n)
    ensures t' == ProcessedUpTo(c, s, detected, n + 1)
  {
    assert ProcessedUpTo(c, s, detected, n + 1) == ProcessedNext(c, s, detected, n);
  }

  /** The answer is what the retry loop ends with. */
  lemma {:induction false} SynthesisIsTheAnswer(
    reader: Synthesizer.Reader, id: int, p: DetectedPattern, replies: Synthesizer.Replies,
    r: Result<Synthesizer.Recommendation, Synthesizer.SynthesisError>, calls: nat, attempt: nat)
    requires Synthesizer.IsSynthesis(reader, id, p, MAX_ATTEMPTS, replies, r, calls) && attempt < calls
    ensures Answer(reader, id, p, replies, attempt) == if r.Ok? then Some(r.value) else None
    decreases calls - attempt
  {
    if attempt < calls - 1 {
      assert Synthesizer.Unusable(reader, id, p, replies(attempt));
      SynthesisIsTheAnswer(reader, id, p, replies, r, calls, attempt + 1);
    }
  }

  // --- what a sweep keeps and changes ---

  type Rows = map<int, PatternRow>

  /** Row `id` now shows p: as a new row, or as the old row of that signature brought up to date. */
  predicate Shows(before: Rows, after: Rows, id: int, p: DetectedPattern) {
    && id in after && after[id].signature == p.signature
    && after[id].firstSeenAt == (if id in before then before[id].firstSeenAt else p.firstSeenAt)
    && after[id].lastSeenAt == p.lastSeenAt && after[id].occurrenceCount == p.occurrenceCount
    && after[id].minutesPerOccurrence == p.minutesPerOccurrence
  }

  ghost predicate IsShown(before: Rows, after: Rows, p: DetectedPattern) {
    exists id :: Shows(before, after, id, p)
  }

  predicate IsUntouched(before: Rows, after: Rows, id: int) {
    id in before && id in after && after[id] == before[id]
  }

  ghost predicate ShowsOneOf(before: Rows, after: Rows, id: int, detected: seq<DetectedPattern>) {
    exists p :: p in detected && Shows(before, after, id, p)
  }

  /** Every row is still there, and each row now is untouched or shows a detected pattern. */
  ghost predicate RowsAreExplained(before: Rows, after: Rows, detected: seq<DetectedPattern>) {
    && (forall id :: id in before ==> id in after && after[id].signature == before[id].signature)
    && (forall id :: id in after ==> IsUntouched(before, after, id) || ShowsOneOf(before, after, id, detected))
  }

  ghost predicate AllShown(before: Rows, after: Rows, detected: seq<DetectedPattern>, n: nat)
    requires n <= |detected|
  {
    forall k {:trigger IsShown(before, after, detected[k])} :: 0 <= k < n ==> IsShown(before, after, detected[k])
  }

  ghost predicate ContributesTo(detected: seq<DetectedPattern>, signature: seq<string>, eventId: int) {
    exists p :: p in detected && p.signature == signature && eventId in p.contributingEventIds
  }

  /** Old links stay; a new row is linked to exactly the events that contribute to its pattern. */
  ghost predicate LinksAreExact(
    before: Rows, links: set<(int, int)>, after: Rows, links': set<(int, int)>, detected: seq<DetectedPattern>)
  {
    && (forall l :: l in links ==> l in links')
    && (forall l :: l in links' && l.0 in before ==> l in links)
    && (forall id, e :: id in after && id !in before ==>
          ((id, e) in links' <==> ContributesTo(detected, after[id].signature, e)))
  }

  /** Apart from patterns, links and new recommendations, nothing changes. */
  ghost predicate SameBeside(s: StoreState, t: StoreState) {
    && t == s.(patterns := t.patterns, lastPatternId := t.lastPatternId, links := t.links,
               recommendations := t.recommendations, lastRecommendationId := t.lastRecommendationId)
    && forall id :: id in s.recommendations ==> id in t.recommendations && t.recommendations[id] == s.recommendations[id]
  }

  predicate AreStored(s: StoreState, ids: seq<int>) {
    forall k :: 0 <= k < |ids| ==> ids[k] in s.events
  }

  ghost predicate ContributorsAreStored(s: StoreState, detected: seq<DetectedPattern>) {
    forall p :: p in detected ==> AreStored(s, p.contributingEventIds)
  }

  /** What holds of the store t reached from s with the first n patterns. */
  ghost predicate IsEffect(s: StoreState, t: StoreState, detected: seq<DetectedPattern>, n: nat)
    requires n <= |detected|
  {
    && Consistent(t) && SameBeside(s, t)
    && RowsAreExplained(s.patterns, t.patterns, detected) && AllShown(s.patterns, t.patterns, detected, n)
    && LinksAreExact(s.patterns, s.links, t.patterns, t.links, detected)
  }

  // --- refreshing and inserting rows ---

  lemma SameRowShows(before: Rows, rows: Rows, after: Rows, id: int, detected: seq<DetectedPattern>)
    requires id in rows && id in after && rows[id] == after[id]
    requires IsUntouched(before, rows, id) || ShowsOneOf(before, rows, id, detected)
    ensures IsUntouched(before, after, id) || ShowsOneOf(before, after, id, detected)
  {
    if p :| p in detected && Shows(before, rows, id, p) {
      assert Shows(before, after, id, p);
    }
  }

  /** One row comes to show p, the others stay. */
  lemma OneMoreExplained(before: Rows, rows: Rows, after: Rows, detected: seq<DetectedPattern>, id: int, p: DetectedPattern)
    requires RowsAreExplained(before, rows, detected) && p in detected && Shows(before, after, id, p)
    requires after == rows[id := after[id]] && (id in rows ==> rows[id].signature == p.signature)
    ensures RowsAreExplained(before, after, detected)
  {
    forall i | i in after ensures IsUntouched(before, after, i) || ShowsOneOf(before, after, i, detected) {
      if i != id {
        SameRowShows(before, rows, after, i, detected);
      }
    }
  }

  lemma OneMoreShown(before: Rows, rows: Rows, after: Rows, detected: seq<DetectedPattern>, n: nat, id: int)
    requires n < |detected| && DistinctSignatures(detected) && AllShown(before, rows, detected, n)
    requires Shows(before, after, id, detected[n])
    requires after == rows[id := after[id]] && (id in rows ==> rows[id].signature == detected[n].signature)
    ensures AllShown(before, after, detected, n + 1)
  {
    forall k | 0 <= k < n ensures IsShown(before, after, detected[k]) {
      assert IsShown(before, rows, detected[k]);
      var i :| Shows(before, rows, i, detected[k]);
      assert Shows(before, after, i, detected[k]);
    }
  }

  lemma RefreshIsAnEffect(s: StoreState, t: StoreState, detected: seq<DetectedPattern>, n: nat, id: int)
    requires n < |detected| && DistinctSignatures(detected) && IsEffect(s, t, detected, n)
    requires id in s.patterns && s.patterns[id].signature == detected[n].signature
    ensures var p := detected[n];
      IsEffect(s, UpdateStats(t, id, p.lastSeenAt, p.occurrenceCount, p.minutesPerOccurrence), detected, n + 1)
  {
    var p := detected[n];
    var t' := UpdateStats(t, id, p.lastSeenAt, p.occurrenceCount, p.minutesPerOccurrence);
    OneMoreExplained(s.patterns, t.patterns, t'.patterns, detected, id, p);
    OneMoreShown(s.patterns, t.patterns, t'.patterns, detected, n, id);
  }

  lemma {:induction false} AllAreLinkable(s: StoreState, patternId: int, ids: seq<int>)
    requires patternId in s.patterns && AreStored(s, ids)
    ensures LinkableCount(s, patternId, ids) == |ids|
  {
    if ids != [] {
      AllAreLinkable(s, patternId, ids[1..]);
    }
  }

  /** Nothing stops the linking of a new row while all its events are stored. */
  lemma StoredLinks(t: StoreState, p: DetectedPattern, id: int, e: int)
    requires AreStored(t, p.contributingEventIds)
    ensures (id, e) in StoredPattern(t, p).links
       <==> (id, e) in t.links || (id == t.lastPatternId + 1 && e in p.contributingEventIds)
  {
    var row, ids, patternId := InsertPatternRow(t, RowOf(p)), p.contributingEventIds, t.lastPatternId + 1;
    AllAreLinkable(row, patternId, ids);
    var linked := set k | 0 <= k < |ids| :: (patternId, ids[k]);
    assert StoredPattern(t, p).links == t.links + linked;
    assert (id, e) in linked <==> id == patternId && e in ids;
  }

  lemma ContributionIsItsOwn(detected: seq<DetectedPattern>, p: DetectedPattern, e: int)
    requires DistinctSignatures(detected) && p in detected
    ensures ContributesTo(detected, p.signature, e) <==> e in p.contributingEventIds
  {
    if q :| q in detected && q.signature == p.signature && e in q.contributingEventIds {
      var i :| 0 <= i < |detected| && detected[i] == p;
      var j :| 0 <= j < |detected| && detected[j] == q;
    }
  }

  lemma InsertKeepsLinks(s: StoreState, t: StoreState, detected: seq<DetectedPattern>, p: DetectedPattern)
    requires Consistent(t) && DistinctSignatures(detected) && p in detected
    requires RowsAreExplained(s.patterns, t.patterns, detected)
    requires LinksAreExact(s.patterns, s.links, t.patterns, t.links, detected)
    requires AreStored(t, p.contributingEventIds)
    ensures var t' := StoredPattern(t, p); LinksAreExact(s.patterns, s.links, t'.patterns, t'.links, detected)
  {
    var t' := StoredPattern(t, p);
    forall l | l in s.links ensures l in t'.links {
      StoredLinks(t, p, l.0, l.1);
    }
    forall l | l in t'.links && l.0 in s.patterns ensures l in s.links {
      StoredLinks(t, p, l.0, l.1);
    }
    forall id, e | id in t'.patterns && id !in s.patterns
      ensures (id, e) in t'.links <==> ContributesTo(detected, t'.patterns[id].signature, e)
    {
      StoredLinks(t, p, id, e);
      ContributionIsItsOwn(detected, p, e);
    }
  }

  lemma StoringKeepsConsistency(t: StoreState, p: DetectedPattern)
    requires Consistent(t)
    ensures Consistent(StoredPattern(t, p))
  {
    LinkingKeepsConsistency(InsertPatternRow(t, RowOf(p)), t.lastPatternId + 1, p.contributingEventIds);
  }

  lemma InsertIsAnEffect(s: StoreState, t: StoreState, detected: seq<DetectedPattern>, n: nat)
    requires n < |detected| && DistinctSignatures(detected) && IsEffect(s, t, detected, n)
    requires ContributorsAreStored(s, detected)
    ensures IsEffect(s, StoredPattern(t, detected[n]), detected, n + 1)
  {
    var p, id := detected[n], t.lastPatternId + 1;
    var t' := StoredPattern(t, p);
    assert id !in t.patterns && t'.patterns == t.patterns[id := RowOf(p)];
    StoringKeepsConsistency(t, p);
    OneMoreExplained(s.patterns, t.patterns, t'.patterns, detected, id, p);
    OneMoreShown(s.patterns, t.patterns, t'.patterns, detected, n, id);
    InsertKeepsLinks(s, t, detected, p);
  }

  lemma RecommendingIsAnEffect(
    s: StoreState, t: StoreState, detected: seq<DetectedPattern>, n: nat, r: Synthesizer.Recommendation)
    requires n <= |detected| && IsEffect(s, t, detected, n)
    ensures IsEffect(s, InsertRecommendationRow(t, r), detected, n)
  {
    RecommendingKeepsConsistency(t, r);
  }

  lemma ExplainingIsAnEffect(
    c: Context, s: StoreState, t: StoreState, detected: seq<DetectedPattern>, n: nat, id: int, p: DetectedPattern, k: nat)
    requires n <= |detected| && IsEffect(s, t, detected, n)
    ensures IsEffect(s, Explained(c, t, id, p, k), detected, n)
  {
    var r := Answer(c.reader, id, p, c.providers(k), 0);
    if r.Some? {
      RecommendingIsAnEffect(s, t, detected, n, r.value);
    }
  }

  // --- the whole sweep ---

  lemma ProcessingNewIsAnEffect(c: Context, s: StoreState, t: StoreState, detected: seq<DetectedPattern>, n: nat)
    requires n < |detected| && DistinctSignatures(detected) && ContributorsAreStored(s, detected)
    requires IsEffect(s, t, detected, n) && !IsKnown(c.known, detected[n].signature)
    ensures IsEffect(s, Processed(c, t, detected[n], n), detected, n + 1)
  {
    InsertIsAnEffect(s, t, detected, n);
    ExplainingIsAnEffect(c, s, StoredPattern(t, detected[n]), detected, n + 1, t.lastPatternId + 1, detected[n], n);
  }

  lemma ProcessingKnownIsAnEffect(c: Context, s: StoreState, t: StoreState, detected: seq<DetectedPattern>, n: nat)
    requires n < |detected| && DistinctSignatures(detected) && c.known == s.patterns
    requires IsEffect(s, t, detected, n) && IsKnown(c.known, detected[n].signature)
    ensures IsEffect(s, Processed(c, t, detected[n], n), detected, n + 1)
  {
    RefreshIsAnEffect(s, t, detected, n, KnownId(c.known, detected[n].signature));
  }

  lemma ProcessingOneIsAnEffect(c: Context, s: StoreState, t: StoreState, detected: seq<DetectedPattern>, n: nat)
    requires n < |detected| && DistinctSignatures(detected) && ContributorsAreStored(s, detected)
    requires c.known == s.patterns && IsEffect(s, t, detected, n)
    ensures IsEffect(s, Processed(c, t, detected[n], n), detected, n + 1)
  {
    if IsKnown(c.known, detected[n].signature) {
      ProcessingKnownIsAnEffect(c, s, t, detected, n);
    } else {
      ProcessingNewIsAnEffect(c, s, t, detected, n);
    }
  }

  lemma ProcessingNextIsAnEffect(c: Context, s: StoreState, detected: seq<DetectedPattern>, n: nat)
    requires n < |detected| && DistinctSignatures(detected) && ContributorsAreStored(s, detected)
    requires c.known == s.patterns && IsEffect(s, ProcessedUpTo(c, s, detected, n), detected, n)
    ensures IsEffect(s, ProcessedNext(c, s, detected, n), detected, n + 1)
  {
    ProcessingOneIsAnEffect(c, s, ProcessedUpTo(c, s, detected, n), detected, n);
  }

  /** Whatever the providers answer, the patterns of a detection leave exactly this in the store. */
  lemma {:induction false} ProcessingIsAnEffect(c: Context, s: StoreState, detected: seq<DetectedPattern>, n: nat)
    requires n <= |detected| && DistinctSignatures(detected) && ContributorsAreStored(s, detected)
    requires Consistent(s) && c.known == s.patterns
    ensures IsEffect(s, ProcessedUpTo(c, s, detected, n), detected, n)
  {
    if n > 0 {
      ProcessingIsAnEffect(c, s, detected, n - 1);
      ProcessingNextIsAnEffect(c, s, detected, n - 1);
    }
  }

  // --- what the sweep found ---

  lemma ContributorsAreListed(s: StoreState, listing: seq<EventSummary>, detected: seq<DetectedPattern>)
    requires IsRecentListing(s, EVENT_HISTORY_LIMIT, listing) && IsDetection(DEFAULT_DETECTOR, Reversed(listing), detected)
    ensures ContributorsAreStored(s, detected)
  {
    ListedIdsAreDistinct(s, listing);
    forall p | p in detected ensures AreStored(s, p.contributingEventIds) {
      DetectorTheorems.IdsAreConserved(DEFAULT_DETECTOR, Reversed(listing), detected, p);
      forall i | 0 <= i < |p.contributingEventIds| ensures p.contributingEventIds[i] in s.events {
        var k :| 0 <= k < |listing| && Reversed(listing)[k].id == Some(p.contributingEventIds[i]);
        assert IsStored(s.events, listing[|listing| - 1 - k]);
      }
    }
  }

  lemma ListedIdsAreDistinct(s: StoreState, listing: seq<EventSummary>)
    requires IsRecentListing(s, EVENT_HISTORY_LIMIT, listing)
    ensures DetectorTheorems.DistinctIds(Reversed(listing))
  {
    var events := Reversed(listing);
    forall i | 0 <= i < |events| ensures IsStored(s.events, events[i]) {
      assert events[i] == listing[|listing| - 1 - i];
    }
    forall i, j | 0 <= i < j < |events| ensures events[i] != events[j] {
      assert listing[|listing| - 1 - j] != listing[|listing| - 1 - i];
    }
  }

  lemma NothingInAnEmptyHistory(d: PatternDetector)
    ensures IsDetection(d, [], [])
  {
  }

  /**
   What a sweep that nothing interrupts does to a store: expired events go; every pattern
   of a detection over the latest events is shown by a row, new or brought up to date, and
   a new row is linked to exactly its events; all other rows, and all other tables except
   for new recommendations, stay as they were.
   */
  ghost predicate IsSweepOf(s: StoreState, now: DateTime, detected: seq<DetectedPattern>, t: StoreState) {
    var left := DeleteExpired(s, now);
    && (exists listing :: IsRecentListing(left, EVENT_HISTORY_LIMIT, listing)
                          && IsDetection(DEFAULT_DETECTOR, Reversed(listing), detected))
    && IsEffect(left, t, detected, |detected|)
  }

  lemma WholeSweep(
    c: Context, s: StoreState, now: DateTime, listing: seq<EventSummary>, detected: seq<DetectedPattern>)
    requires Consistent(s) && c.known == s.patterns
    requires IsRecentListing(DeleteExpired(s, now), EVENT_HISTORY_LIMIT, listing)
    requires IsDetection(DEFAULT_DETECTOR, Reversed(listing), detected)
    ensures IsSweepOf(s, now, detected, ProcessedUpTo(c, DeleteExpired(s, now), detected, |detected|))
  {
    var left := DeleteExpired(s, now);
    RemovalKeepsConsistency(s, ExpiredIds(s, now));
    ContributorsAreListed(left, listing, detected);
    ProcessingIsAnEffect(c, left, detected, |detected|);
  }
}
