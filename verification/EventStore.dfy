/**
 The tables of the encrypted store and the operations on them.  Functions on StoreState
 say what each operation does; the class performs it on its fields.
 */
module EventStore {
  import opened Domain
  import opened Rfc3339
  import opened Wrappers
  import Detector
  import Sorting
  import Synthesizer

  datatype PrivacyState = PrivacyState(level: PrivacyLevel, consentedManifestVersion: int, observationActive: bool)

  const INITIAL_PRIVACY := PrivacyState(Manual, 0, false)

  datatype PatternRow = PatternRow(
    signature: seq<string>, firstSeenAt: int, lastSeenAt: int, occurrenceCount: nat, minutesPerOccurrence: real)

  datatype ProviderConfig = ProviderConfig(providerType: string, hasModel: bool)

  /** Ids are handed out by AUTOINCREMENT counters, which deletion does not reset. */
  datatype StoreState = StoreState(
    privacy: PrivacyState,
    events: map<int, EventSummary>, lastEventId: nat,
    patterns: map<int, PatternRow>, lastPatternId: nat,
    links: set<(int, int)>,
    recommendations: map<int, Synthesizer.Recommendation>, lastRecommendationId: nat,
    cloudConsentSetting: Option<bool>,
    providers: map<string, ProviderConfig>, activeProvider: Option<string>)

  const EMPTY_STORE := StoreState(INITIAL_PRIVACY, map[], 0, map[], 0, {}, map[], 0, None, map[], None)

  /** Keys are ids already handed out, and no row refers to a row that is not there. */
  ghost predicate Consistent(s: StoreState) {
    && (forall id :: id in s.events ==> 1 <= id <= s.lastEventId && s.events[id].id == Some(id))
    && (forall id :: id in s.patterns ==> 1 <= id <= s.lastPatternId)
    && (forall l :: l in s.links ==> l.0 in s.patterns && l.1 in s.events)
    && (forall id :: id in s.recommendations ==>
          1 <= id <= s.lastRecommendationId && s.recommendations[id].patternId in s.patterns
          && 0.0 <= s.recommendations[id].confidence <= 1.0)
    && (s.activeProvider.Some? ==> s.activeProvider.value in s.providers)
  }

  // --- operations on the state ---

  function SetPrivacy(s: StoreState, p: PrivacyState): StoreState {
    s.(privacy := p)
  }

  function InsertEvent(s: StoreState, e: EventSummary): StoreState {
    var id := s.lastEventId + 1;
    s.(events := s.events[id := e.(id := Some(id))], lastEventId := id)
  }

  /** Deleting events also removes the links to them. */
  function RemoveEvents(s: StoreState, gone: set<int>): StoreState {
    s.(events := s.events - gone, links := set l | l in s.links && l.1 !in gone)
  }

  predicate HasExpired(e: EventSummary, now: DateTime) {
    e.ttlExpiresAt.Some? && !TextLess(ToRfc3339(now), ToRfc3339(e.ttlExpiresAt.value))
  }

  function ExpiredIds(s: StoreState, now: DateTime): set<int> {
    set id | id in s.events && HasExpired(s.events[id], now)
  }

  function DeleteExpired(s: StoreState, now: DateTime): StoreState {
    RemoveEvents(s, ExpiredIds(s, now))
  }

  /** Everything goes except the id counters; privacy falls back to its initial row. */
  function DeleteAll(s: StoreState): StoreState {
    s.(privacy := INITIAL_PRIVACY, events := map[], patterns := map[], links := {},
       recommendations := map[], cloudConsentSetting := None, providers := map[], activeProvider := None)
  }

  function RowOf(p: Detector.DetectedPattern): PatternRow {
    PatternRow(p.signature, p.firstSeenAt, p.lastSeenAt, p.occurrenceCount, p.minutesPerOccurrence)
  }

  function InsertPatternRow(s: StoreState, row: PatternRow): StoreState {
    var id := s.lastPatternId + 1;
    s.(patterns := s.patterns[id := row], lastPatternId := id)
  }

  /** No row, no effect; the signature and the first sighting stay. */
  function UpdateStats(s: StoreState, id: int, lastSeenAt: int, count: nat, minutes: real): StoreState {
    if id in s.patterns then
      s.(patterns := s.patterns[id := s.patterns[id].(
        lastSeenAt := lastSeenAt, occurrenceCount := count, minutesPerOccurrence := minutes)])
    else s
  }

  /** Linking stops at the first event, or at once if the pattern, is no longer stored. */
  function LinkableCount(s: StoreState, patternId: int, ids: seq<int>): nat {
    if ids == [] || patternId !in s.patterns || ids[0] !in s.events then 0
    else 1 + LinkableCount(s, patternId, ids[1..])
  }

  function LinkEvents(s: StoreState, patternId: int, ids: seq<int>): StoreState {
    var n := LinkableCount(s, patternId, ids);
    s.(links := s.links + set k | 0 <= k < n && k < |ids| :: (patternId, ids[k]))
  }

  /** A foreign key on the pattern and a check on the confidence guard the table. */
  predicate CanRecommend(s: StoreState, r: Synthesizer.Recommendation) {
    r.patternId in s.patterns && 0.0 <= r.confidence <= 1.0
  }

  function InsertRecommendationRow(s: StoreState, r: Synthesizer.Recommendation): StoreState {
    if CanRecommend(s, r) then
      var id := s.lastRecommendationId + 1;
      s.(recommendations := s.recommendations[id := r], lastRecommendationId := id)
    else s
  }

  /** A provider is registered, or registered anew, as inactive. */
  function UpsertProvider(s: StoreState, id: string, config: ProviderConfig): StoreState {
    s.(providers := s.providers[id := config],
       activeProvider := if s.activeProvider == Some(id) then None else s.activeProvider)
  }

  /** One provider becomes the only active one; an unregistered id changes nothing. */
  function ActivateProvider(s: StoreState, id: string): StoreState {
    if id in s.providers then s.(activeProvider := Some(id)) else s
  }

  function ActiveProvider(s: StoreState): Option<ProviderConfig> {
    if s.activeProvider.Some? && s.activeProvider.value in s.providers
    then Some(s.providers[s.activeProvider.value]) else None
  }

  // --- listing ---

  /** Later stored text first. */
  predicate NewestFirst(a: EventSummary, b: EventSummary) {
    !TextLess(ToRfc3339(a.occurredAt), ToRfc3339(b.occurredAt))
  }

  predicate IsStored(events: map<int, EventSummary>, e: EventSummary) {
    e.id.Some? && e.id.value in events && events[e.id.value] == e
  }

  /** `limit` stored events, latest texts first, ties in any order. */
  ghost predicate IsRecentListing(s: StoreState, limit: nat, r: seq<EventSummary>) {
    && |r| == (if limit < |s.events| then limit else |s.events|)
    && Sorting.NoRepeats(r) && Sorting.SortedBy(NewestFirst, r)
    && (forall e :: e in r ==> IsStored(s.events, e))
    && (forall e, f :: IsStored(s.events, e) && e !in r && f in r ==> NewestFirst(f, e))
  }

  lemma NewestFirstIsPreorder()
    ensures Sorting.TotalPreorder(NewestFirst)
  {
    forall a, b ensures NewestFirst(a, b) || NewestFirst(b, a) {
      TextLessIsTotal(ToRfc3339(a.occurredAt), ToRfc3339(b.occurredAt));
    }
    forall a, b, c | NewestFirst(a, b) && NewestFirst(b, c) ensures NewestFirst(a, c) {
      var x, y, z := ToRfc3339(a.occurredAt), ToRfc3339(b.occurredAt), ToRfc3339(c.occurredAt);
      TextLessIsTotal(x, y);
      TextLessIsTotal(y, z);
      TextLessIsTotal(x, z);
      if TextLess(y, x) && TextLess(z, y) {
        TextLessIsTransitive(z, y, x);
      }
    }
  }

  // --- the store ---

  class Store {
    var privacy: PrivacyState
    var events: map<int, EventSummary>
    var lastEventId: nat
    var patterns: map<int, PatternRow>
    var lastPatternId: nat
    var links: set<(int, int)>
    var recommendations: map<int, Synthesizer.Recommendation>
    var lastRecommendationId: nat
    var cloudConsentSetting: Option<bool>
    var providers: map<string, ProviderConfig>
    var activeProvider: Option<string>

    function State(): StoreState
      reads this
    {
      StoreState(privacy, events, lastEventId, patterns, lastPatternId, links,
                 recommendations, lastRecommendationId, cloudConsentSetting, providers, activeProvider)
    }

    constructor ()
      ensures State() == EMPTY_STORE
    {
      privacy := INITIAL_PRIVACY;
      events, lastEventId, patterns, lastPatternId, links := map[], 0, map[], 0, {};
      recommendations, lastRecommendationId := map[], 0;
      cloudConsentSetting, providers, activeProvider := None, map[], None;
    }

    method SetPrivacyState(p: PrivacyState)
      modifies this`privacy
      ensures State() == SetPrivacy(old(State()), p) && privacy == p
    {
      privacy := p;
    }

    method InsertEventSummary(e: EventSummary) returns (id: int)
      modifies this`events, this`lastEventId
      ensures State() == InsertEvent(old(State()), e)
      ensures id == lastEventId == old(lastEventId) + 1 && events == old(events)[id := e.(id := Some(id))]
    {
      id := lastEventId + 1;
      events := events[id := e.(id := Some(id))];
      lastEventId := id;
    }

    method ListRecentEvents(limit: nat) returns (r: seq<EventSummary>)
      requires Consistent(State())
      ensures IsRecentListing(State(), limit, r)
    {
      var rows: seq<EventSummary> := [];
      var pending := events.Keys;
      assert |pending| == |events|;
      while pending != {}
        invariant pending <= events.Keys && Collected(events, pending, rows)
        decreases |pending|
      {
        var id := AnyOf(pending);
        CollectOne(events, pending, rows, id);
        rows := rows + [events[id]];
        pending := pending - {id};
      }
      NewestFirstIsPreorder();
      AllCollected(events, pending, rows);
      Sorting.FirstOfIsBest(NewestFirst, rows, limit);
      r := Sorting.FirstOf(NewestFirst, rows, limit);
    }

    method DeleteEvents(ids: seq<int>) returns (count: nat)
      modifies this`events, this`links
      ensures State() == RemoveEvents(old(State()), set id | id in ids)
      ensures forall id :: id in events <==> id in old(events) && id !in ids
      ensures forall id :: id in events ==> events[id] == old(events[id])
      ensures forall l :: l in links <==> l in old(links) && l.1 !in ids
      ensures count == |old(events)| - |events|
    {
      var gone := set id | id in ids;
      var kept := events - gone;
      KeptIsSmaller(events, gone);
      count := |events| - |kept|;
      events := kept;
      links := set l | l in links && l.1 !in gone;
    }

    method DeleteExpiredEvents(now: DateTime) returns (count: nat)
      modifies this`events, this`links
      ensures State() == DeleteExpired(old(State()), now)
      ensures count == |old(events)| - |events|
    {
      var gone := ExpiredIds(State(), now);
      var kept := events - gone;
      KeptIsSmaller(events, gone);
      count := |events| - |kept|;
      events := kept;
      links := set l | l in links && l.1 !in gone;
    }

    method DeleteAllData()
      modifies this`privacy, this`events, this`patterns, this`links, this`recommendations
      modifies this`cloudConsentSetting, this`providers, this`activeProvider
      ensures State() == DeleteAll(old(State()))
      ensures privacy.level == Manual && privacy.consentedManifestVersion == 0 && !privacy.observationActive
      ensures events == map[] && patterns == map[] && links == {} && recommendations == map[]
      ensures cloudConsentSetting == None && providers == map[] && activeProvider == None
    {
      links, recommendations, patterns, events := {}, map[], map[], map[];
      cloudConsentSetting, providers, activeProvider := None, map[], None;
      privacy := INITIAL_PRIVACY;
    }

    method InsertPattern(row: PatternRow) returns (id: int)
      modifies this`patterns, this`lastPatternId
      ensures State() == InsertPatternRow(old(State()), row)
      ensures id == lastPatternId == old(lastPatternId) + 1 && patterns == old(patterns)[id := row]
    {
      id := lastPatternId + 1;
      patterns := patterns[id := row];
      lastPatternId := id;
    }

    method UpdatePatternStats(id: int, lastSeenAt: int, count: nat, minutes: real)
      modifies this`patterns
      ensures State() == UpdateStats(old(State()), id, lastSeenAt, count, minutes)
      ensures patterns.Keys == old(patterns.Keys) && forall i :: i in patterns && i != id ==> patterns[i] == old(patterns[i])
      ensures id in patterns ==>
        && patterns[id].signature == old(patterns[id].signature) && patterns[id].firstSeenAt == old(patterns[id].firstSeenAt)
        && patterns[id].lastSeenAt == lastSeenAt && patterns[id].occurrenceCount == count
        && patterns[id].minutesPerOccurrence == minutes
    {
      if id in patterns {
        patterns := patterns[id := patterns[id].(
          lastSeenAt := lastSeenAt, occurrenceCount := count, minutesPerOccurrence := minutes)];
      }
    }

    method LinkPatternEvents(patternId: int, ids: seq<int>) returns (complete: bool)
      modifies this`links
      ensures State() == LinkEvents(old(State()), patternId, ids)
      ensures complete <==> LinkableCount(old(State()), patternId, ids) == |ids|
    {
      ghost var before := State();
      for i := 0 to |ids|
        invariant State() == before.(links := before.links + set k | 0 <= k < i :: (patternId, ids[k]))
        invariant LinkableCount(before, patternId, ids) == i + LinkableCount(before, patternId, ids[i..])
      {
        assert ids[i..][1..] == ids[i + 1..];
        if patternId !in patterns || ids[i] !in events {
          return false;
        }
        links := links + {(patternId, ids[i])};
      }
      return true;
    }

    method InsertRecommendation(r: Synthesizer.Recommendation) returns (stored: bool)
      modifies this`recommendations, this`lastRecommendationId
      ensures State() == InsertRecommendationRow(old(State()), r)
      ensures stored <==> r.patternId in patterns && 0.0 <= r.confidence <= 1.0
      ensures stored ==>
        && lastRecommendationId == old(lastRecommendationId) + 1
        && recommendations == old(recommendations)[lastRecommendationId := r]
      ensures !stored ==> recommendations == old(recommendations) && lastRecommendationId == old(lastRecommendationId)
    {
      stored := r.patternId in patterns && 0.0 <= r.confidence <= 1.0;
      if stored {
        lastRecommendationId := lastRecommendationId + 1;
        recommendations := recommendations[lastRecommendationId := r];
      }
    }

    method SetCloudConsentSetting(granted: bool)
      modifies this`cloudConsentSetting
      ensures State() == old(State()).(cloudConsentSetting := Some(granted))
    {
      cloudConsentSetting := Some(granted);
    }

    method UpsertLlmProvider(id: string, config: ProviderConfig)
      modifies this`providers, this`activeProvider
      ensures State() == UpsertProvider(old(State()), id, config)
      ensures providers == old(providers)[id := config]
      ensures activeProvider == if old(activeProvider) == Some(id) then None else old(activeProvider)
    {
      providers := providers[id := config];
      if activeProvider == Some(id) {
        activeProvider := None;
      }
    }

    method SetActiveLlmProvider(id: string) returns (found: bool)
      modifies this`activeProvider
      ensures State() == ActivateProvider(old(State()), id)
      ensures found <==> id in providers
      ensures activeProvider == if found then Some(id) else old(activeProvider)
    {
      found := id in providers;
      if found {
        activeProvider := Some(id);
      }
    }

    method GetActiveLlmProvider() returns (config: Option<ProviderConfig>)
      ensures config == ActiveProvider(State())
      ensures config.Some? <==> activeProvider.Some? && activeProvider.value in providers
      ensures config.Some? ==> config.value == providers[activeProvider.value]
    {
      if activeProvider.Some? && activeProvider.value in providers {
        return Some(providers[activeProvider.value]);
      }
      return None;
    }
  }

  lemma KeptIsSmaller<V>(m: map<int, V>, gone: set<int>)
    ensures |m - gone| <= |m|
  {
    assert (m - gone).Keys == m.Keys - gone;
    assert |(m - gone).Keys| == |m - gone| && |m.Keys| == |m|;
  }

  ghost predicate Collected(events: map<int, EventSummary>, pending: set<int>, rows: seq<EventSummary>) {
    && |rows| + |pending| == |events|
    && Sorting.NoRepeats(rows)
    && (forall e :: e in rows ==> IsStored(events, e) && e.id.value !in pending)
    && (forall id :: id in events && id !in pending ==> events[id] in rows)
  }

  lemma CollectOne(events: map<int, EventSummary>, pending: set<int>, rows: seq<EventSummary>, id: int)
    requires forall i :: i in events ==> events[i].id == Some(i)
    requires Collected(events, pending, rows) && id in pending && id in events
    ensures Collected(events, pending - {id}, rows + [events[id]])
  {
    var rows', pending' := rows + [events[id]], pending - {id};
    assert forall i :: 0 <= i < |rows| ==> rows[i] in rows;
    assert rows'[|rows|] == events[id];
    forall i | i in events && i !in pending' ensures events[i] in rows' {
      if i != id {
        assert events[i] in rows;
      }
    }
  }

  method AnyOf<T>(ids: set<T>) returns (id: T)
    requires ids != {}
    ensures id in ids
  {
    id :| id in ids;
  }

  lemma AllCollected(events: map<int, EventSummary>, pending: set<int>, rows: seq<EventSummary>)
    requires Collected(events, pending, rows) && pending == {}
    ensures |rows| == |events| && forall e :: e in rows <==> IsStored(events, e)
  {
    forall e | IsStored(events, e) ensures e in rows {
      var id := e.id.value;
      assert id in events && id !in pending;
    }
  }

  // --- what the operations keep ---

  lemma RemovalKeepsConsistency(s: StoreState, gone: set<int>)
    requires Consistent(s)
    ensures Consistent(RemoveEvents(s, gone))
  {
  }

  lemma PatternChangesKeepConsistency(s: StoreState, row: PatternRow, id: int, time: int, n: nat, minutes: real)
    requires Consistent(s)
    ensures Consistent(InsertPatternRow(s, row)) && Consistent(UpdateStats(s, id, time, n, minutes))
  {
  }

  lemma LinkingKeepsConsistency(s: StoreState, id: int, ids: seq<int>)
    requires Consistent(s)
    ensures Consistent(LinkEvents(s, id, ids))
  {
    LinkableArePresent(s, id, ids);
  }

  lemma RecommendingKeepsConsistency(s: StoreState, r: Synthesizer.Recommendation)
    requires Consistent(s)
    ensures Consistent(InsertRecommendationRow(s, r)) && Consistent(DeleteAll(s))
  {
  }

  lemma {:induction false} LinkableArePresent(s: StoreState, patternId: int, ids: seq<int>)
    ensures var n := LinkableCount(s, patternId, ids);
      && n <= |ids|
      && (forall k :: 0 <= k < n ==> ids[k] in s.events)
      && (n > 0 ==> patternId in s.patterns)
      && (n < |ids| ==> patternId !in s.patterns || ids[n] !in s.events)
  {
    if ids != [] && patternId in s.patterns && ids[0] in s.events {
      LinkableArePresent(s, patternId, ids[1..]);
      assert forall k :: 0 < k < |ids| ==> ids[k] == ids[1..][k - 1];
    }
  }

  /** All contributing events are linked exactly when all of them, and the pattern, are still stored. */
  lemma TraceabilityIsComplete(s: StoreState, patternId: int, ids: seq<int>)
    requires Consistent(s) && ids != [] && forall k :: 0 <= k < |ids| ==> (patternId, ids[k]) !in s.links
    ensures (forall k :: 0 <= k < |ids| ==> (patternId, ids[k]) in LinkEvents(s, patternId, ids).links)
       <==> patternId in s.patterns && forall k :: 0 <= k < |ids| ==> ids[k] in s.events
  {
    LinkableArePresent(s, patternId, ids);
    var links, n := LinkEvents(s, patternId, ids).links, LinkableCount(s, patternId, ids);
    forall k | 0 <= k < |ids| ensures (patternId, ids[k]) in links ==> patternId in s.patterns && ids[k] in s.events {
      if (patternId, ids[k]) in links {
        var k' :| 0 <= k' < n && k' < |ids| && (patternId, ids[k]) == (patternId, ids[k']);
      }
    }
    if n == |ids| {
      forall k | 0 <= k < |ids| ensures (patternId, ids[k]) in links {
        assert k < n;
      }
    }
    assert (patternId, ids[0]) in links ==> patternId in s.patterns;
  }

  // --- retention ---

  /**
   The sweep removes every event whose expiry second has passed and none whose expiry
   second is still to come; it can only be wrong within one second.
   */
  lemma SweepIsExactToTheSecond(s: StoreState, now: DateTime, id: int)
    requires id in s.events && s.events[id].ttlExpiresAt.Some?
    ensures var due := s.events[id].ttlExpiresAt.value;
      && (due.Seconds() < now.Seconds() ==> id !in DeleteExpired(s, now).events)
      && (due.Seconds() > now.Seconds() ==> id in DeleteExpired(s, now).events)
      && (id in DeleteExpired(s, now).events && due.Instant() <= now.Instant() ==>
            now.Instant() - due.Instant() < NANOS_PER_SECOND)
      && (id !in DeleteExpired(s, now).events && now.Instant() < due.Instant() ==>
            due.Instant() - now.Instant() < NANOS_PER_SECOND)
  {
    var due := s.events[id].ttlExpiresAt.value;
    if due.Seconds() != now.Seconds() {
      TextOrderIsTimeOrderBySeconds(now, due);
    }
  }

  /** Within the second it is right exactly when neither fraction is a proper prefix of the other. */
  lemma SweepWithinTheSecond(s: StoreState, now: DateTime, id: int)
    requires id in s.events && s.events[id].ttlExpiresAt.Some?
    requires s.events[id].ttlExpiresAt.value.Seconds() == now.Seconds()
    ensures var due := s.events[id].ttlExpiresAt.value;
      (id !in DeleteExpired(s, now).events <==> due.Instant() <= now.Instant())
      <==> !(FractionDigits(now) < FractionDigits(due) || FractionDigits(due) < FractionDigits(now))
  {
    TextOrderWithinASecond(now, s.events[id].ttlExpiresAt.value);
  }

  /** Events without an expiry, and everything about the kept ones, survive the sweep. */
  lemma SweepTouchesNothingElse(s: StoreState, now: DateTime, id: int)
    requires id in s.events
    ensures s.events[id].ttlExpiresAt.None? ==> id in DeleteExpired(s, now).events
    ensures id in DeleteExpired(s, now).events ==> DeleteExpired(s, now).events[id] == s.events[id]
  {
  }

  // --- listings and time ---

  function Reversed<T>(s: seq<T>): (r: seq<T>)
    ensures |r| == |s| && forall i :: 0 <= i < |s| ==> r[i] == s[|s| - 1 - i]
  {
    seq(|s|, i requires 0 <= i < |s| => s[|s| - 1 - i])
  }

  /** A reversed listing is oldest first up to less than one second of disorder. */
  lemma ListingIsNearlyOldestFirst(s: StoreState, limit: nat, r: seq<EventSummary>, i: nat, j: nat)
    requires IsRecentListing(s, limit, r) && i < j < |r|
    ensures Reversed(r)[i].occurredAt.Seconds() <= Reversed(r)[j].occurredAt.Seconds()
    ensures Reversed(r)[i].occurredAt.Instant() <= Reversed(r)[j].occurredAt.Instant() + (NANOS_PER_SECOND - 1)
  {
    var older, newer := Reversed(r)[i], Reversed(r)[j];
    assert NewestFirst(newer, older);
    if newer.occurredAt.Seconds() < older.occurredAt.Seconds() {
      TextOrderIsTimeOrderBySeconds(newer.occurredAt, older.occurredAt);
    }
  }
}
