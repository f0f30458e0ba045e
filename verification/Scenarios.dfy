/**
 Pieces of concrete runs: commands issued one by one, one event captured several times,
 and a sweep that finds the pattern in it.
 */
module Scenarios {
  import opened Domain
  import opened Rfc3339
  import opened Wrappers
  import opened EventStore
  import opened Occurrences
  import opened Detector
  import opened System
  import Gate
  import Pipeline
  import Sorting

  // --- deep content and the level ---

  ghost predicate HoldsDeep(s: StoreState) {
    exists id :: id in s.events && s.events[id].levelAtCapture == MaximumAssistance
  }

  /** Level 4 is not left while an event captured at it is stored. */
  ghost predicate StaysDeep(s: State, t: State) {
    HoldsDeep(s.store) && s.store.privacy.level == MaximumAssistance ==> t.store.privacy.level == MaximumAssistance
  }

  ghost predicate NeverLowered(cfg: Config, trace: Trace) {
    trace != [] ==>
      NeverLowered(cfg, trace[..|trace| - 1]) && StaysDeep(Run(cfg, trace[..|trace| - 1]), Run(cfg, trace))
  }

  lemma NeverLoweredMore(cfg: Config, trace: Trace, l: Label)
    ensures NeverLowered(cfg, trace + [l]) <==> NeverLowered(cfg, trace) && StaysDeep(Run(cfg, trace), Run(cfg, trace + [l]))
  {
    assert (trace + [l])[..|trace|] == trace;
  }

  // --- commands ---

  /** Everything but the privacy row, the clock and what callers have read. */
  predicate SameBeside(s: State, t: State) {
    && t.store == s.store.(privacy := t.store.privacy)
    && t.gate == s.gate && t.observation == s.observation && t.sweep == s.sweep && t.dispatches == s.dispatches
  }

  lemma IssueRead(cfg: Config, trace: Trace)
    ensures var s, t := Run(cfg, trace), Run(cfg, trace + [CommandRead(0)]);
      && SameBeside(s, t) && t.store == s.store && 0 in t.pending && t.pending[0] == s.store.privacy
    ensures NeverLowered(cfg, trace) ==> NeverLowered(cfg, trace + [CommandRead(0)])
  {
    RunCommand(cfg, trace, CommandRead(0));
    NeverLoweredMore(cfg, trace, CommandRead(0));
  }

  lemma IssueWrite(cfg: Config, trace: Trace, command: Command)
    requires !Rejected(command) && 0 in Run(cfg, trace).pending
    ensures var s, t := Run(cfg, trace), Run(cfg, trace + [CommandWrite(0, command)]);
      SameBeside(s, t) && t.store.privacy == Apply(command, s.pending[0])
    ensures NeverLowered(cfg, trace) && StaysDeep(Run(cfg, trace), Run(cfg, trace + [CommandWrite(0, command)]))
      ==> NeverLowered(cfg, trace + [CommandWrite(0, command)])
  {
    RunCommand(cfg, trace, CommandWrite(0, command));
    NeverLoweredMore(cfg, trace, CommandWrite(0, command));
  }

  /** A privacy command that nothing overtakes. */
  lemma Issue(cfg: Config, trace: Trace, command: Command) returns (longer: Trace)
    requires !Rejected(command)
    ensures var s, t := Run(cfg, trace), Run(cfg, longer);
      SameBeside(s, t) && t.store.privacy == Apply(command, s.store.privacy)
    ensures NeverLowered(cfg, trace) && StaysDeep(Run(cfg, trace), Run(cfg, longer)) ==> NeverLowered(cfg, longer)
  {
    IssueRead(cfg, trace);
    IssueWrite(cfg, trace + [CommandRead(0)], command);
    longer := trace + [CommandRead(0)] + [CommandWrite(0, command)];
  }

  /** Acknowledge, choose a level, and resume. */
  lemma StartObserving(cfg: Config, trace: Trace, level: PrivacyLevel) returns (longer: Trace)
    requires Run(cfg, trace).store.events == map[]
    ensures var s, t := Run(cfg, trace), Run(cfg, longer);
      SameBeside(s, t) && t.store.privacy == PrivacyState(level, CURRENT_MANIFEST_VERSION, true)
    ensures NeverLowered(cfg, trace) ==> NeverLowered(cfg, longer)
  {
    var acknowledged := Issue(cfg, trace, AcknowledgeManifest);
    var levelled := Issue(cfg, acknowledged, SetPrivacyLevel(level, true, None));
    longer := Issue(cfg, levelled, ResumeObservation);
  }

  /** Consent to cloud providers, and one to ask. */
  lemma AllowCloud(cfg: Config, trace: Trace) returns (longer: Trace)
    ensures var s, t := Run(cfg, trace), Run(cfg, longer);
      && t.store.events == s.store.events && t.store.patterns == s.store.patterns && t.store.privacy == s.store.privacy
      && t.store.lastEventId == s.store.lastEventId
      && t.observation == s.observation && t.sweep == s.sweep && t.dispatches == s.dispatches
      && t.gate == s.gate.(general := true) && ActiveProvider(t.store) == Some(ProviderConfig("openai", true))
    ensures NeverLowered(cfg, trace) ==> NeverLowered(cfg, longer)
  {
    var consented := Consent(cfg, trace);
    longer := ChooseCloud(cfg, consented);
  }

  lemma Consent(cfg: Config, trace: Trace) returns (longer: Trace)
    ensures var s, t := Run(cfg, trace), Run(cfg, longer);
      && t.store == s.store.(cloudConsentSetting := Some(true)) && t.gate == s.gate.(general := true)
      && t.observation == s.observation && t.sweep == s.sweep && t.dispatches == s.dispatches
    ensures NeverLowered(cfg, trace) ==> NeverLowered(cfg, longer)
  {
    var half := trace + [ConsentSetting(0, true)];
    RunCommand(cfg, trace, ConsentSetting(0, true));
    RunCommand(cfg, half, ConsentGate(0));
    NeverLoweredMore(cfg, trace, ConsentSetting(0, true));
    NeverLoweredMore(cfg, half, ConsentGate(0));
    longer := half + [ConsentGate(0)];
  }

  lemma ChooseCloud(cfg: Config, trace: Trace) returns (longer: Trace)
    ensures var s, t := Run(cfg, trace), Run(cfg, longer);
      && t.store.events == s.store.events && t.store.patterns == s.store.patterns && t.store.privacy == s.store.privacy
      && t.store.lastEventId == s.store.lastEventId
      && t.observation == s.observation && t.sweep == s.sweep && t.dispatches == s.dispatches
      && t.gate == s.gate && ActiveProvider(t.store) == Some(ProviderConfig("openai", true))
    ensures NeverLowered(cfg, trace) ==> NeverLowered(cfg, longer)
  {
    var register, select := RegisterProvider("openai", ProviderConfig("openai", true)), SelectProvider("openai");
    RunCommand(cfg, trace, register);
    RunCommand(cfg, trace + [register], select);
    NeverLoweredMore(cfg, trace, register);
    NeverLoweredMore(cfg, trace + [register], select);
    longer := trace + [register] + [select];
  }

  // --- one event captured several times ---

  function InsertMany(s: StoreState, e: EventSummary, n: nat): StoreState {
    if n == 0 then s else InsertEvent(InsertMany(s, e, n - 1), e)
  }

  lemma {:induction false} ManyAreStored(s: StoreState, e: EventSummary, n: nat)
    ensures var t := InsertMany(s, e, n);
      && t == s.(events := t.events, lastEventId := s.lastEventId + n)
      && (s.events == map[] ==> t.events == map id | s.lastEventId < id <= s.lastEventId + n :: e.(id := Some(id)))
  {
    if n > 0 {
      ManyAreStored(s, e, n - 1);
    }
  }

  lemma OpenTick(cfg: Config, trace: Trace)
    requires Run(cfg, trace).observation == Waiting && MayObserve(Run(cfg, trace).store.privacy)
    ensures var s, t := Run(cfg, trace), Run(cfg, trace + [TickRead]);
      && t.store == s.store && t.gate == s.gate && t.sweep == s.sweep && t.dispatches == s.dispatches
      && t.observation.Ticking? && t.observation.seen == s.store.privacy
    ensures NeverLowered(cfg, trace) ==> NeverLowered(cfg, trace + [TickRead])
  {
    RunMore(cfg, trace, TickRead);
    TickStep(cfg, Run(cfg, trace), TickRead);
    NeverLoweredMore(cfg, trace, TickRead);
  }

  /** What a tick stores, and that it may. */
  ghost predicate IsCapture(cfg: Config, l: Label, level: PrivacyLevel) {
    && l.TickStore? && IsDeadline(cfg, l.now, l.deadline)
    && Pipeline.IsOutcome(cfg.engine, l.signal, level, l.now, l.deadline, Pipeline.Summarized(l.event))
  }

  lemma Capture(cfg: Config, trace: Trace, l: Label)
    requires Run(cfg, trace).observation.Ticking? && IsCapture(cfg, l, Run(cfg, trace).observation.seen.level)
    ensures var s, t := Run(cfg, trace), Run(cfg, trace + [l]);
      && t.store == InsertEvent(s.store, l.event) && t.observation == s.observation
      && t.gate == s.gate && t.sweep == s.sweep && t.dispatches == s.dispatches
    ensures NeverLowered(cfg, trace) ==> NeverLowered(cfg, trace + [l])
  {
    RunMore(cfg, trace, l);
    TickStep(cfg, Run(cfg, trace), l);
    NeverLoweredMore(cfg, trace, l);
  }

  ghost predicate Captured(s: State, t: State, e: EventSummary, n: nat) {
    && t.store == InsertMany(s.store, e, n) && t.observation == s.observation
    && t.gate == s.gate && t.sweep == s.sweep && t.dispatches == s.dispatches
  }

  lemma {:induction false} CaptureMany(cfg: Config, trace: Trace, l: Label, n: nat) returns (longer: Trace)
    requires Run(cfg, trace).observation.Ticking? && IsCapture(cfg, l, Run(cfg, trace).observation.seen.level)
    ensures Captured(Run(cfg, trace), Run(cfg, longer), l.event, n)
    ensures NeverLowered(cfg, trace) ==> NeverLowered(cfg, longer)
  {
    if n == 0 {
      longer := trace;
    } else {
      var shorter := CaptureMany(cfg, trace, l, n - 1);
      Capture(cfg, shorter, l);
      longer := shorter + [l];
    }
  }

  /** Nothing but six rows of one event. */
  ghost predicate SixOf(s: StoreState, e: EventSummary) {
    s.events == map id | s.lastEventId - 6 < id <= s.lastEventId :: e.(id := Some(id))
  }

  /** A whole tick that captures one event six times. */
  lemma TickSix(cfg: Config, trace: Trace, l: Label) returns (longer: Trace)
    requires var s := Run(cfg, trace); s.observation == Waiting && MayObserve(s.store.privacy) && s.store.events == map[]
    requires IsCapture(cfg, l, Run(cfg, trace).store.privacy.level)
    ensures var s, t := Run(cfg, trace), Run(cfg, longer);
      && SixOf(t.store, l.event) && t.store == s.store.(events := t.store.events, lastEventId := t.store.lastEventId)
      && t.observation.Ticking? && t.gate == s.gate && t.sweep == s.sweep && t.dispatches == s.dispatches
    ensures NeverLowered(cfg, trace) ==> NeverLowered(cfg, longer)
  {
    OpenTick(cfg, trace);
    longer := CaptureMany(cfg, trace + [TickRead], l, 6);
    ManyAreStored(Run(cfg, trace).store, l.event, 6);
  }

  // --- what a sweep makes of it ---

  function SixCopies(s: StoreState, e: EventSummary): (r: seq<EventSummary>)
    ensures |r| == 6
  {
    seq(6, i requires 0 <= i < 6 => e.(id := Some(s.lastEventId - i)))
  }

  lemma SixRows(s: StoreState, e: EventSummary)
    requires SixOf(s, e)
    ensures |s.events| == 6
  {
    var n: int := s.lastEventId;
    assert s.events.Keys == {n - 5, n - 4, n - 3, n - 2, n - 1, n};
    assert |s.events| == |s.events.Keys| == 6;
  }

  lemma CopiesAreInOrder(s: StoreState, e: EventSummary)
    ensures Sorting.NoRepeats(SixCopies(s, e)) && Sorting.SortedBy(NewestFirst, SixCopies(s, e))
    ensures forall f, g :: f in SixCopies(s, e) && g in SixCopies(s, e) ==> NewestFirst(f, g)
  {
    var r := SixCopies(s, e);
    forall i, j | 0 <= i < 6 && 0 <= j < 6 ensures NewestFirst(r[i], r[j]) && (i < j ==> r[i].id != r[j].id) {
      TextLessIsTotal(ToRfc3339(e.occurredAt), ToRfc3339(e.occurredAt));
    }
  }

  lemma CopiesAreTheRows(s: StoreState, e: EventSummary)
    requires SixOf(s, e)
    ensures forall f :: f in SixCopies(s, e) <==> IsStored(s.events, f)
  {
    var r, n := SixCopies(s, e), s.lastEventId;
    forall f | IsStored(s.events, f) ensures f in r {
      assert f == r[n - f.id.value];
    }
  }

  lemma SixAreListed(s: StoreState, e: EventSummary)
    requires SixOf(s, e)
    ensures IsRecentListing(s, EVENT_HISTORY_LIMIT, SixCopies(s, e))
  {
    SixRows(s, e);
    CopiesAreInOrder(s, e);
    CopiesAreTheRows(s, e);
  }

  predicate AllKeys(events: History, key: string) {
    |events| == 6 && forall k :: 0 <= k < 6 ==> ActionKey(events[k]) == key
  }

  lemma SameKeys(events: History, key: string, i: nat, w: nat)
    requires AllKeys(events, key) && i + w <= 6
    ensures var part := Keys(events)[i..i + w]; |part| == w && forall k :: 0 <= k < |part| ==> part[k] == key
  {
  }

  lemma PairIsKept(events: History, key: string)
    requires AllKeys(events, key)
    ensures |Kept(events, [key, key])| >= 3
  {
    var keys, pair := Keys(events), [key, key];
    forall i | 0 <= i <= 4 ensures OccursAt(keys, pair, i) {
      SameKeys(events, key, i, 2);
      assert keys[i..i + 2] == pair;
    }
    var chosen: set<nat> := {0, 2, 4};
    assert forall c :: c in chosen ==> c in Starts(keys, pair);
    GreedyIsLargest(Starts(keys, pair), 2, 0, chosen);
    assert |chosen| == 3;
  }

  lemma OnlyThePairIsReported(events: History, key: string, sig: seq<string>)
    requires AllKeys(events, key)
    requires Reported(DEFAULT_DETECTOR, events, sig)
    ensures sig == [key, key]
  {
    SelectedBounds(Keys(events), sig);
    assert |sig| * |Kept(events, sig)| <= 6;
    assert |sig| <= 2 by {
      if |sig| >= 3 {
        TooMany(|sig|, |Kept(events, sig)|);
      }
    }
    SelectedIsAChoice(Keys(events), sig);
    var i := Kept(events, sig)[0];
    assert OccursAt(Keys(events), sig, i);
    SameKeys(events, key, i, 2);
  }

  lemma TooMany(w: nat, n: nat)
    requires w >= 3 && n >= 3
    ensures w * n > 6
  {
    assert w * n >= 3 * n;
  }

  /** Six equal events hold one pattern, the pair of their key, seen three times. */
  lemma SixHoldAPattern(events: History, key: string) returns (p: DetectedPattern)
    requires AllKeys(events, key)
    ensures IsDetection(DEFAULT_DETECTOR, events, [p]) && p.signature == [key, key]
  {
    PairIsKept(events, key);
    p := Summarize(events, [key, key], Kept(events, [key, key]));
    assert IsPatternOf(DEFAULT_DETECTOR, events, p);
    forall sig | Reported(DEFAULT_DETECTOR, events, sig) ensures p in [p] && p.signature == sig {
      OnlyThePairIsReported(events, key, sig);
    }
  }

  lemma SweepLabel(cfg: Config, trace: Trace, l: Label)
    requires IsSweep(cfg, Run(cfg, trace), l)
    ensures var s, t := Run(cfg, trace), Run(cfg, trace + [l]);
      t == AfterSweep(s, l).(clock := s.clock + 1) && t.store.privacy == s.store.privacy
    ensures NeverLowered(cfg, trace) ==> NeverLowered(cfg, trace + [l])
  {
    RunMore(cfg, trace, l);
    SweepStep(cfg, Run(cfg, trace), l);
    SweepLeaves(Run(cfg, trace), l);
    NeverLoweredMore(cfg, trace, l);
  }

  predicate IsLater(d: Option<DateTime>, now: DateTime) {
    d.Some? ==> now.Seconds() < d.value.Seconds()
  }

  /** Every expiry is in a later second. */
  predicate NothingIsDue(s: StoreState, now: DateTime) {
    forall id :: id in s.events ==> IsLater(s.events[id].ttlExpiresAt, now)
  }

  lemma BeginSweep(cfg: Config, trace: Trace, now: DateTime)
    requires Run(cfg, trace).sweep == Resting && NothingIsDue(Run(cfg, trace).store, now)
    ensures var s, t := Run(cfg, trace), Run(cfg, trace + [SweepBegin(now)]);
      && t.store == s.store.(links := t.store.links) && t.observation == s.observation
      && t.gate == s.gate && t.dispatches == s.dispatches && t.sweep == Begun
    ensures NeverLowered(cfg, trace) ==> NeverLowered(cfg, trace + [SweepBegin(now)])
  {
    SweepLabel(cfg, trace, SweepBegin(now));
    NothingIsRemoved(Run(cfg, trace).store, now);
  }

  /** A sweep begins where nothing is due, and reads the level. */
  lemma ReadLevel(cfg: Config, trace: Trace, now: DateTime) returns (longer: Trace)
    requires Run(cfg, trace).sweep == Resting && NothingIsDue(Run(cfg, trace).store, now)
    ensures var s, t := Run(cfg, trace), Run(cfg, longer);
      && t.store == s.store.(links := t.store.links) && t.observation == s.observation
      && t.gate == s.gate && t.dispatches == s.dispatches
      && t.sweep.HasLevel? && t.sweep.level == s.store.privacy.level
    ensures NeverLowered(cfg, trace) ==> NeverLowered(cfg, longer)
  {
    BeginSweep(cfg, trace, now);
    SweepLabel(cfg, trace + [SweepBegin(now)], SweepReadPrivacy);
    longer := trace + [SweepBegin(now)] + [SweepReadPrivacy];
  }

  lemma NothingIsRemoved(s: StoreState, now: DateTime)
    requires NothingIsDue(s, now)
    ensures DeleteExpired(s, now) == s.(links := DeleteExpired(s, now).links)
  {
    forall id | id in s.events ensures id in DeleteExpired(s, now).events {
      if s.events[id].ttlExpiresAt.Some? {
        SweepIsExactToTheSecond(s, now, id);
      } else {
        SweepTouchesNothingElse(s, now, id);
      }
    }
    assert DeleteExpired(s, now).events == s.events;
  }

  lemma ListSix(cfg: Config, trace: Trace, e: EventSummary) returns (longer: Trace)
    requires Run(cfg, trace).sweep.HasLevel? && SixOf(Run(cfg, trace).store, e)
    ensures var s, t := Run(cfg, trace), Run(cfg, longer);
      && t.store == s.store && t.observation == s.observation && t.gate == s.gate && t.dispatches == s.dispatches
      && t.sweep == HasEvents(s.sweep.level, s.sweep.levelReadAt, Reversed(SixCopies(s.store, e)))
    ensures NeverLowered(cfg, trace) ==> NeverLowered(cfg, longer)
  {
    var l := SweepListEvents(SixCopies(Run(cfg, trace).store, e));
    SixAreListed(Run(cfg, trace).store, e);
    SweepLabel(cfg, trace, l);
    longer := trace + [l];
  }

  lemma DetectPair(cfg: Config, trace: Trace, key: string) returns (longer: Trace)
    requires Run(cfg, trace).sweep.HasEvents? && AllKeys(Run(cfg, trace).sweep.events, key)
    ensures var s, t := Run(cfg, trace), Run(cfg, longer);
      && t.store == s.store && t.observation == s.observation && t.gate == s.gate && t.dispatches == s.dispatches
      && HasPattern(t.sweep) && t.sweep.stage.Choosing? && t.sweep.known == s.store.patterns
      && t.sweep.run.level == s.sweep.level && t.sweep.run.events == s.sweep.events
      && CurrentPattern(t.sweep).signature == [key, key]
    ensures NeverLowered(cfg, trace) ==> NeverLowered(cfg, longer)
  {
    var p := SixHoldAPattern(Run(cfg, trace).sweep.events, key);
    SweepLabel(cfg, trace, SweepListPatterns([p]));
    longer := trace + [SweepListPatterns([p])];
  }

  lemma CopiesHaveTheKey(s: StoreState, e: EventSummary)
    ensures AllKeys(Reversed(SixCopies(s, e)), ActionKey(e))
  {
    forall k | 0 <= k < 6 ensures ActionKey(Reversed(SixCopies(s, e))[k]) == ActionKey(e) {
      SameKeyWithId(e, Reversed(SixCopies(s, e))[k].id);
    }
  }

  /** Listing and detecting in a store of six equal events. */
  lemma FindThePattern(cfg: Config, trace: Trace, e: EventSummary) returns (longer: Trace)
    requires Run(cfg, trace).sweep.HasLevel? && SixOf(Run(cfg, trace).store, e)
    ensures var s, t := Run(cfg, trace), Run(cfg, longer);
      && t.store == s.store && t.observation == s.observation && t.gate == s.gate && t.dispatches == s.dispatches
      && HasPattern(t.sweep) && t.sweep.stage.Choosing? && t.sweep.known == s.store.patterns
      && t.sweep.run.level == s.sweep.level && CurrentPattern(t.sweep).signature == [ActionKey(e), ActionKey(e)]
      && t.sweep.run.events == Reversed(SixCopies(s.store, e))
    ensures NeverLowered(cfg, trace) ==> NeverLowered(cfg, longer)
  {
    CopiesHaveTheKey(Run(cfg, trace).store, e);
    var listed := ListSix(cfg, trace, e);
    longer := DetectPair(cfg, listed, ActionKey(e));
  }

  lemma SameKeyWithId(e: EventSummary, id: Option<int>)
    ensures ActionKey(e.(id := id)) == ActionKey(e)
  {
    assert Subject(e.(id := id)) == Subject(e);
  }

  /** A capture time and its expiry under the window the program ships with, 90 days. */
  lemma DefaultRetention(cfg: Config) returns (now: DateTime, deadline: Option<DateTime>)
    requires cfg.deepModeTtl == Some(DEFAULT_DEEP_MODE_TTL)
    ensures IsDeadline(cfg, now, deadline) && IsLater(deadline, now)
  {
    var newYear: DateTime := UtcDateTime(1970, 1, 1, 0, 0, 0, 0);
    var april: DateTime := UtcDateTime(1970, 4, 1, 0, 0, 0, 0);
    assert DaysBeforeMonth(1970, 2) == 31 && DaysBeforeMonth(1970, 3) == 59 && DaysBeforeMonth(1970, 4) == 90;
    assert april.Seconds() == newYear.Seconds() + 90 * 86400;
    now, deadline := newYear, Some(april);
  }
}
