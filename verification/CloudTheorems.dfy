/**
 Deep content and cloud providers.  The gate asks for the level a sweep has read, not for
 the level at which the events it works on were captured; this module says what follows.
 */
module CloudTheorems {
  import opened Domain
  import opened Rfc3339
  import opened Wrappers
  import opened EventStore
  import opened Detector
  import opened System
  import opened SystemTheorems
  import opened SweepTheorems
  import opened DispatchTheorems
  import opened Scenarios
  import DetectorTheorems
  import Gate
  import Pipeline
  import Synthesizer

  // --- exactly when a new pattern goes to the cloud ---

  /** A faithful answer to the first call about the pattern at hand. */
  ghost predicate AnswersFirstCall(cfg: Config, w: Sweep, l: Label)
    requires HasPattern(w) && w.stage.Linked?
  {
    l.SweepCall? && (l.reply.Ok? ==>
      l.built == Synthesizer.Built(cfg.reader, w.stage.patternId, CurrentPattern(w), l.reply.value))
  }

  predicate IsCloud(config: Option<ProviderConfig>) {
    Usable(config) && !IsLocalProvider(config.value)
  }

  lemma ProviderIsRead(cfg: Config, trace: Trace)
    requires HasPattern(Run(cfg, trace).sweep) && Run(cfg, trace).sweep.stage.Linked?
    ensures var s, t := Run(cfg, trace), Run(cfg, trace + [SweepReadProvider]);
      && t.gate == s.gate && t.dispatches == s.dispatches
      && t.sweep == if Usable(ActiveProvider(s.store))
                    then s.sweep.(stage := HasProvider(s.sweep.stage.patternId, IsLocalProvider(ActiveProvider(s.store).value)))
                    else NextPattern(s.sweep)
    ensures NeverLowered(cfg, trace) ==> NeverLowered(cfg, trace + [SweepReadProvider])
  {
    SweepLabel(cfg, trace, SweepReadProvider);
  }

  /** Asking the gate, from any phase: only a pattern that has a provider is affected. */
  lemma GateIsAsked(cfg: Config, trace: Trace)
    ensures var s, t := Run(cfg, trace), Run(cfg, trace + [SweepSnapshotGate]);
      && t.dispatches == s.dispatches
      && t.sweep == if HasPattern(s.sweep) && s.sweep.stage.HasProvider? then AfterAsking(s) else s.sweep
    ensures NeverLowered(cfg, trace) ==> NeverLowered(cfg, trace + [SweepSnapshotGate])
  {
    SweepLabel(cfg, trace, SweepSnapshotGate);
    AskingOnlyMatters(Run(cfg, trace));
  }

  function AfterAsking(s: State): Sweep
    requires HasPattern(s.sweep) && s.sweep.stage.HasProvider?
  {
    var w, stage := s.sweep, s.sweep.stage;
    if Decision(s.gate, stage.isLocal, w.run, CurrentPattern(w)) == Gate.Allow
    then w.(stage := Calling(stage.patternId, stage.isLocal, s.gate, s.clock, 0))
    else NextPattern(w)
  }

  lemma AskingOnlyMatters(s: State)
    ensures NextPhase(s, SweepSnapshotGate)
         == if HasPattern(s.sweep) && s.sweep.stage.HasProvider? then AfterAsking(s) else s.sweep
    ensures NewDispatch(s, SweepSnapshotGate) == []
  {
  }

  lemma CallIsMade(cfg: Config, trace: Trace, l: Label)
    requires l.SweepCall? && IsSweep(cfg, Run(cfg, trace), l)
    ensures Run(cfg, trace + [l]).dispatches == Run(cfg, trace).dispatches + NewDispatch(Run(cfg, trace), l)
    ensures NeverLowered(cfg, trace) ==> NeverLowered(cfg, trace + [l])
  {
    SweepLabel(cfg, trace, l);
  }

  /** One call more, and to a provider that is not local. */
  predicate CallsTheCloud(ds: seq<Dispatch>, ds': seq<Dispatch>) {
    |ds'| == |ds| + 1 && ds <= ds' && !ds'[|ds|].isLocal
  }

  /** ... about the run this sweep is on. */
  predicate CallsAbout(w: Sweep, ds: seq<Dispatch>, ds': seq<Dispatch>) {
    w.Working? && CallsTheCloud(ds, ds') ==> ds'[|ds|].run == w.run
  }

  /** The pattern at hand may be sent to the cloud: nothing here looks at the events. */
  predicate MayReachTheCloud(s: State)
    requires HasPattern(s.sweep)
  {
    && IsCloud(ActiveProvider(s.store)) && s.gate.general
    && s.sweep.run.level.Number() < 4 && !CurrentPattern(s.sweep).containsVerbatimStrings
  }

  /** The three steps in which a new, linked pattern is sent out, or not. */
  function SendingOut(trace: Trace, l: Label): Trace {
    trace + [SweepReadProvider] + [SweepSnapshotGate] + [l]
  }

  lemma PhasesOfSending(cfg: Config, trace: Trace)
    requires HasPattern(Run(cfg, trace).sweep) && Run(cfg, trace).sweep.stage.Linked?
    ensures var s, t := Run(cfg, trace), Run(cfg, trace + [SweepReadProvider] + [SweepSnapshotGate]);
      var w, provider := s.sweep, ActiveProvider(s.store);
      && t.dispatches == s.dispatches
      && (if Usable(provider) && Decision(s.gate, IsLocalProvider(provider.value), w.run, CurrentPattern(w)) == Gate.Allow
          then t.sweep.Working? && t.sweep.run == w.run && t.sweep.next == w.next && t.sweep.stage.Calling?
               && t.sweep.stage.isLocal == IsLocalProvider(provider.value) && t.sweep.stage.gate == s.gate
               && t.sweep.stage.patternId == w.stage.patternId
          else t.sweep == NextPattern(w))
    ensures NeverLowered(cfg, trace) ==> NeverLowered(cfg, trace + [SweepReadProvider] + [SweepSnapshotGate])
  {
    ProviderIsRead(cfg, trace);
    GateIsAsked(cfg, trace + [SweepReadProvider]);
  }

  /**
   A new pattern is sent to a cloud provider exactly when one is active, general consent
   is held, the level this sweep read is below 4, and no key is flagged: whatever the
   levels at which the events of its occurrences were captured.
   */
  lemma NewPatternReachesTheCloudExactly(cfg: Config, trace: Trace, l: Label)
    requires HasPattern(Run(cfg, trace).sweep) && Run(cfg, trace).sweep.stage.Linked?
    requires AnswersFirstCall(cfg, Run(cfg, trace).sweep, l)
    ensures CallsTheCloud(Run(cfg, trace).dispatches, Run(cfg, SendingOut(trace, l)).dispatches)
       <==> MayReachTheCloud(Run(cfg, trace))
    ensures CallsAbout(Run(cfg, trace).sweep, Run(cfg, trace).dispatches, Run(cfg, SendingOut(trace, l)).dispatches)
    ensures NeverLowered(cfg, trace) ==> NeverLowered(cfg, SendingOut(trace, l))
  {
    var s, asked := Run(cfg, trace), trace + [SweepReadProvider] + [SweepSnapshotGate];
    PhasesOfSending(cfg, trace);
    GateHolds(cfg, trace);
    CallAfterAsking(cfg, s, Run(cfg, asked), l);
    CallIsMade(cfg, asked, l);
  }

  lemma CallAfterAsking(cfg: Config, s: State, t: State, l: Label)
    requires HasPattern(s.sweep) && s.sweep.stage.Linked? && AnswersFirstCall(cfg, s.sweep, l) && s.gate.classes == {}
    requires t.dispatches == s.dispatches
    requires var w, provider := s.sweep, ActiveProvider(s.store);
      if Usable(provider) && Decision(s.gate, IsLocalProvider(provider.value), w.run, CurrentPattern(w)) == Gate.Allow
      then t.sweep.Working? && t.sweep.run == w.run && t.sweep.next == w.next && t.sweep.stage.Calling?
           && t.sweep.stage.isLocal == IsLocalProvider(provider.value) && t.sweep.stage.gate == s.gate
           && t.sweep.stage.patternId == w.stage.patternId
      else t.sweep == NextPattern(w)
    ensures IsSweep(cfg, t, l)
    ensures CallsTheCloud(s.dispatches, t.dispatches + NewDispatch(t, l)) <==> MayReachTheCloud(s)
    ensures CallsAbout(s.sweep, s.dispatches, t.dispatches + NewDispatch(t, l))
  {
    Gate.CloudDispatchNeedsConsent(s.gate, s.sweep.run.level, CONTENT_CLASS, CurrentPattern(s.sweep).containsVerbatimStrings);
  }

  // --- runs in which deep content goes to the cloud ---

  /** A call to a cloud provider about events all captured at level 4. */
  predicate ExposesDeepContent(d: Dispatch) {
    !d.isLocal && AllDeep(d.run.events)
  }

  predicate AllDeep(events: History) {
    |events| == 6 && forall i :: 0 <= i < 6 ==> events[i].levelAtCapture == MaximumAssistance
  }

  predicate SomeCallExposes(ds: seq<Dispatch>) {
    exists i :: 0 <= i < |ds| && ExposesDeepContent(ds[i])
  }

  /** A step that captures text from the screen at level 4. */
  ghost predicate CapturesScreen(cfg: Config, l: Label) {
    && IsCapture(cfg, l, MaximumAssistance)
    && l.event.sourceId == "screen" && l.event.signalType == OcrText && IsLater(l.event.ttlExpiresAt, l.now)
  }

  /** Any text that redaction lets through is captured by some such step, whatever the configuration. */
  lemma ScreenCanBeCaptured(cfg: Config, text: string, now: DateTime, deadline: Option<DateTime>) returns (l: Label)
    requires IsDeadline(cfg, now, deadline) && IsLater(deadline, now) && !cfg.engine.Verdict(text).Drop?
    ensures CapturesScreen(cfg, l)
  {
    var event := Pipeline.ScreenText(cfg.engine.Verdict(text).text, now, deadline);
    Pipeline.ScreenTextIsStored(cfg.engine, text, now, deadline);
    l := TickStore(Pipeline.CapturedSignal("screen", Pipeline.Ocr(text)), now, deadline, event);
  }

  lemma TheProgramCapturesScreens(cfg: Config) returns (l: Label)
    requires cfg.deepModeTtl == Some(DEFAULT_DEEP_MODE_TTL)
    ensures CapturesScreen(cfg, l)
  {
    var now, deadline := DefaultRetention(cfg);
    Pipeline.EmptyTextIsKept(cfg.engine);
    l := ScreenCanBeCaptured(cfg, "", now, deadline);
  }

  lemma SixAreDeep(s: StoreState, l: Label)
    requires l.TickStore? && SixOf(s, l.event) && l.event.levelAtCapture == MaximumAssistance
    requires IsLater(l.event.ttlExpiresAt, l.now)
    ensures NothingIsDue(s, l.now)
    ensures AllDeep(Reversed(SixCopies(s, l.event)))
  {
  }

  lemma ScreenKeyIsUnflagged(e: EventSummary)
    requires e.sourceId == "screen" && e.signalType == OcrText
    ensures !(VERBATIM_PREFIX <= ActionKey(e))
  {
    VerbatimPrefixMeaning(e);
    assert ("screen" + ":")[0] != VERBATIM_PREFIX[0];
  }

  // --- the rest of the sweep ---

  lemma InsertIt(cfg: Config, trace: Trace)
    requires HasPattern(Run(cfg, trace).sweep) && Run(cfg, trace).sweep.stage.Choosing?
    requires Run(cfg, trace).sweep.known == map[]
    ensures var s, t := Run(cfg, trace), Run(cfg, trace + [SweepNext]);
      && t.sweep == s.sweep.(stage := Inserted(s.store.lastPatternId + 1))
      && ActiveProvider(t.store) == ActiveProvider(s.store) && t.gate == s.gate && t.dispatches == s.dispatches
  {
    InsertStep(cfg, Run(cfg, trace));
    RunMore(cfg, trace, SweepNext);
  }

  lemma InsertStep(cfg: Config, s: State)
    requires HasPattern(s.sweep) && s.sweep.stage.Choosing? && s.sweep.known == map[]
    ensures var t := Next(cfg, s, SweepNext);
      && t.sweep == s.sweep.(stage := Inserted(s.store.lastPatternId + 1))
      && ActiveProvider(t.store) == ActiveProvider(s.store) && t.gate == s.gate && t.dispatches == s.dispatches
      && t.store.privacy == s.store.privacy
  {
    SweepStep(cfg, s, SweepNext);
    InsertingPhase(s);
    SweepLeaves(s, SweepNext);
  }

  lemma InsertingPhase(s: State)
    requires HasPattern(s.sweep) && s.sweep.stage.Choosing? && s.sweep.known == map[]
    ensures NextPhase(s, SweepNext) == s.sweep.(stage := Inserted(s.store.lastPatternId + 1))
    ensures NewDispatch(s, SweepNext) == []
  {
  }

  lemma LinkIt(cfg: Config, trace: Trace)
    requires HasPattern(Run(cfg, trace).sweep) && Run(cfg, trace).sweep.stage.Inserted?
    ensures var s, t := Run(cfg, trace), Run(cfg, trace + [SweepLink]);
      && t.sweep == s.sweep.(stage := Linked(s.sweep.stage.patternId))
      && ActiveProvider(t.store) == ActiveProvider(s.store) && t.gate == s.gate && t.dispatches == s.dispatches
    ensures NeverLowered(cfg, trace) ==> NeverLowered(cfg, trace + [SweepLink])
  {
    SweepLabel(cfg, trace, SweepLink);
  }

  lemma InsertAndLink(cfg: Config, trace: Trace) returns (longer: Trace)
    requires HasPattern(Run(cfg, trace).sweep) && Run(cfg, trace).sweep.stage.Choosing?
    requires Run(cfg, trace).sweep.known == map[]
    ensures var s, t := Run(cfg, trace), Run(cfg, longer);
      && HasPattern(t.sweep) && t.sweep.stage.Linked? && t.sweep.run == s.sweep.run && t.sweep.next == s.sweep.next
      && ActiveProvider(t.store) == ActiveProvider(s.store) && t.gate == s.gate && t.dispatches == s.dispatches
    ensures NeverLowered(cfg, trace) ==> NeverLowered(cfg, longer)
  {
    InsertIt(cfg, trace);
    OtherStepsLeavePrivacy(cfg, Run(cfg, trace), SweepNext);
    RunMore(cfg, trace, SweepNext);
    NeverLoweredMore(cfg, trace, SweepNext);
    LinkIt(cfg, trace + [SweepNext]);
    longer := trace + [SweepNext] + [SweepLink];
  }

  lemma PairIsUnflagged(cfg: Config, trace: Trace, key: string)
    requires HasPattern(Run(cfg, trace).sweep) && CurrentPattern(Run(cfg, trace).sweep).signature == [key, key]
    requires !(VERBATIM_PREFIX <= key)
    ensures !CurrentPattern(Run(cfg, trace).sweep).containsVerbatimStrings
  {
    SweepsAreSound(cfg, trace);
    var run, p := Run(cfg, trace).sweep.run, CurrentPattern(Run(cfg, trace).sweep);
    assert p in run.detected;
    DetectorTheorems.PatternIsSummary(DEFAULT_DETECTOR, run.events, run.detected, p);
  }

  /** From a level below 4 that has been read, and six deep events stored, to a cloud provider. */
  lemma DeepEventsGoOut(cfg: Config, trace: Trace, l: Label) returns (longer: Trace)
    requires CapturesScreen(cfg, l)
    requires var s := Run(cfg, trace);
      && s.sweep.HasLevel? && s.sweep.level.Number() < 4 && SixOf(s.store, l.event) && s.store.patterns == map[]
      && s.gate.general && ActiveProvider(s.store) == Some(ProviderConfig("openai", true))
    ensures SomeCallExposes(Run(cfg, longer).dispatches)
    ensures NeverLowered(cfg, trace) ==> NeverLowered(cfg, longer)
  {
    Pipeline.StoredEventsRespectTheLevel(cfg.engine, l.signal, MaximumAssistance, l.now, l.deadline, l.event);
    SixAreDeep(Run(cfg, trace).store, l);
    ScreenKeyIsUnflagged(l.event);
    var found := FindThePattern(cfg, trace, l.event);
    PairIsUnflagged(cfg, found, ActionKey(l.event));
    var linked := InsertAndLink(cfg, found);
    longer := OneCallGoesOut(cfg, linked);
  }

  lemma OneCallGoesOut(cfg: Config, trace: Trace) returns (longer: Trace)
    requires HasPattern(Run(cfg, trace).sweep) && Run(cfg, trace).sweep.stage.Linked?
    requires MayReachTheCloud(Run(cfg, trace))
    requires AllDeep(Run(cfg, trace).sweep.run.events)
    ensures SomeCallExposes(Run(cfg, longer).dispatches)
    ensures NeverLowered(cfg, trace) ==> NeverLowered(cfg, longer)
  {
    var call := SweepCall(Err(Gate.Request("")), Err(""));
    NewPatternReachesTheCloudExactly(cfg, trace, call);
    longer := SendingOut(trace, call);
    var ds := Run(cfg, longer).dispatches;
    assert ExposesDeepContent(ds[|Run(cfg, trace).dispatches|]);
  }

  /** The same from a sweep at rest. */
  lemma SweepSix(cfg: Config, trace: Trace, l: Label) returns (longer: Trace)
    requires CapturesScreen(cfg, l)
    requires var s := Run(cfg, trace);
      && s.sweep == Resting && s.store.privacy.level.Number() < 4
      && SixOf(s.store, l.event) && s.store.patterns == map[]
      && s.gate.general && ActiveProvider(s.store) == Some(ProviderConfig("openai", true))
    ensures SomeCallExposes(Run(cfg, longer).dispatches)
    ensures NeverLowered(cfg, trace) ==> NeverLowered(cfg, longer)
  {
    Pipeline.StoredEventsRespectTheLevel(cfg.engine, l.signal, MaximumAssistance, l.now, l.deadline, l.event);
    SixAreDeep(Run(cfg, trace).store, l);
    var begun := ReadLevel(cfg, trace, l.now);
    longer := DeepEventsGoOut(cfg, begun, l);
  }

  // --- three runs ---

  lemma CaptureAndLower(cfg: Config, l: Label) returns (trace: Trace)
    requires CapturesScreen(cfg, l)
    ensures var s := Run(cfg, trace);
      && SixOf(s.store, l.event) && s.store.patterns == map[] && s.sweep == Resting
      && s.store.privacy.level == WorkflowMetadata
  {
    var observing := StartObserving(cfg, [], MaximumAssistance);
    var captured := TickSix(cfg, observing, l);
    trace := Issue(cfg, captured, SetPrivacyLevel(WorkflowMetadata, true, None));
  }

  /** Captured at level 4, then the level is lowered, then a sweep. */
  lemma LoweringExposes(cfg: Config, l: Label) returns (trace: Trace)
    requires CapturesScreen(cfg, l)
    ensures SomeCallExposes(Run(cfg, trace).dispatches)
  {
    var lowered := CaptureAndLower(cfg, l);
    var allowed := AllowCloud(cfg, lowered);
    trace := SweepSix(cfg, allowed, l);
  }

  /** The level is raised while a sweep is between reading it and listing: it is never lowered at all. */
  lemma RaisingMidSweepExposes(cfg: Config, l: Label) returns (trace: Trace)
    requires CapturesScreen(cfg, l)
    ensures SomeCallExposes(Run(cfg, trace).dispatches) && NeverLowered(cfg, trace)
  {
    var allowed := AllowCloud(cfg, []);
    var observing := StartObserving(cfg, allowed, WorkflowMetadata);
    var begun := ReadLevel(cfg, observing, l.now);
    var raised := Issue(cfg, begun, SetPrivacyLevel(MaximumAssistance, true, None));
    var captured := TickSix(cfg, raised, l);
    trace := DeepEventsGoOut(cfg, captured, l);
  }

  /** The level is lowered while a tick that read level 4 is under way and has stored nothing yet. */
  lemma LoweringMidTickExposes(cfg: Config, l: Label) returns (trace: Trace)
    requires CapturesScreen(cfg, l)
    ensures SomeCallExposes(Run(cfg, trace).dispatches) && NeverLowered(cfg, trace)
  {
    var allowed := AllowCloud(cfg, []);
    var observing := StartObserving(cfg, allowed, MaximumAssistance);
    OpenTick(cfg, observing);
    var lowered := Issue(cfg, observing + [TickRead], SetPrivacyLevel(WorkflowMetadata, true, None));
    var captured := CaptureMany(cfg, lowered, l, 6);
    ManyAreStored(Run(cfg, lowered).store, l.event, 6);
    trace := SweepSix(cfg, captured, l);
  }

  // --- a guarantee over all runs ---

  /** Deep content is stored, or a tick under way may still store some. */
  ghost predicate DeepIsAround(s: State) {
    HoldsDeep(s.store) || (s.observation.Ticking? && s.observation.seen.level == MaximumAssistance)
  }

  /**
   No step leaves level 4 with deep content around, and none raises the level to 4 while a
   sweep that has read a lower one has yet to list its events.
   */
  ghost predicate IsCareful(s: State, t: State) {
    && (s.store.privacy.level == MaximumAssistance && DeepIsAround(t) ==> t.store.privacy.level == MaximumAssistance)
    && (t.sweep.HasLevel? && t.sweep.level != MaximumAssistance && t.store.privacy.level == MaximumAssistance ==>
          s.store.privacy.level == MaximumAssistance)
  }

  ghost predicate CarefulRun(cfg: Config, trace: Trace) {
    forall k :: 0 <= k < |trace| ==> IsCareful(Run(cfg, trace[..k]), Next(cfg, Run(cfg, trace[..k]), trace[k]))
  }

  predicate NoneDeep(events: History) {
    forall i :: 0 <= i < |events| ==> events[i].levelAtCapture != MaximumAssistance
  }

  ghost predicate SweepIsClear(s: State) {
    && (s.sweep.HasLevel? && s.sweep.level != MaximumAssistance ==> s.store.privacy.level != MaximumAssistance)
    && (s.sweep.HasEvents? && s.sweep.level != MaximumAssistance ==> NoneDeep(s.sweep.events))
    && (s.sweep.Working? && s.sweep.run.level != MaximumAssistance ==> NoneDeep(s.sweep.run.events))
  }

  ghost predicate CallsAreClear(ds: seq<Dispatch>) {
    forall d :: d in ds && d.run.level != MaximumAssistance ==> NoneDeep(d.run.events)
  }

  ghost predicate IsClear(s: State) {
    && (DeepIsAround(s) ==> s.store.privacy.level == MaximumAssistance)
    && SweepIsClear(s) && CallsAreClear(s.dispatches)
  }

  lemma CommandStaysClear(s: State, l: Label)
    requires IsClear(s) && IsCommand(l) && IsCareful(s, AfterCommand(s, l))
    ensures IsClear(AfterCommand(s, l))
  {
  }

  lemma TickStaysClear(cfg: Config, s: State, l: Label)
    requires IsClear(s) && IsTick(l)
    ensures IsClear(AfterTick(cfg, s, l))
  {
    var t := AfterTick(cfg, s, l);
    if l.TickStore? && t != s {
      Pipeline.StoredEventsRespectTheLevel(cfg.engine, l.signal, s.observation.seen.level, l.now, l.deadline, l.event);
    }
  }

  lemma ListingIsClear(s: StoreState, listing: seq<EventSummary>)
    requires IsRecentListing(s, EVENT_HISTORY_LIMIT, listing) && !HoldsDeep(s)
    ensures NoneDeep(Reversed(listing))
  {
    var events := Reversed(listing);
    forall i | 0 <= i < |events| ensures events[i].levelAtCapture != MaximumAssistance {
      assert events[i] in listing;
      assert IsStored(s.events, events[i]);
      var id := events[i].id.value;
      assert s.events[id].levelAtCapture != MaximumAssistance;
    }
  }

  lemma PhaseStaysClear(cfg: Config, s: State, l: Label)
    requires IsClear(s) && IsFaithful(cfg, s, l)
    ensures SweepIsClear(AfterSweep(s, l))
  {
    SweepLeaves(s, l);
    if s.sweep.Working? {
      RunIsCarried(s, l);
    } else if s.sweep.HasLevel? && l.SweepListEvents? && s.sweep.level != MaximumAssistance {
      ListingIsClear(s.store, l.listing);
    }
  }

  lemma SweptStoreStaysClear(s: State, l: Label)
    requires IsClear(s)
    ensures DeepIsAround(AfterSweep(s, l)) ==> AfterSweep(s, l).store.privacy.level == MaximumAssistance
    ensures CallsAreClear(AfterSweep(s, l).dispatches)
  {
    SweepLeaves(s, l);
    SweepOnlyRemovesEvents(s, l);
  }

  lemma StepStaysClear(cfg: Config, s: State, l: Label)
    requires IsClear(s) && IsCareful(s, Next(cfg, s, l))
    ensures IsClear(Next(cfg, s, l))
  {
    if IsCommand(l) {
      CommandStep(cfg, s, l);
      CommandStaysClear(s, l);
    } else if IsTick(l) {
      TickStep(cfg, s, l);
      TickStaysClear(cfg, s, l);
    } else if IsSweep(cfg, s, l) {
      SweepStep(cfg, s, l);
      PhaseStaysClear(cfg, s, l);
      SweptStoreStaysClear(s, l);
    }
  }

  lemma {:induction false} CarefulRunsAreClear(cfg: Config, trace: Trace)
    requires CarefulRun(cfg, trace)
    ensures IsClear(Run(cfg, trace))
  {
    if trace != [] {
      RunLast(cfg, trace);
      var init, last := trace[..|trace| - 1], |trace| - 1;
      forall k | 0 <= k < |init| ensures IsCareful(Run(cfg, init[..k]), Next(cfg, Run(cfg, init[..k]), init[k])) {
        assert init[..k] == trace[..k] && init[k] == trace[k];
      }
      CarefulRunsAreClear(cfg, init);
      assert trace[..last] == init;
      StepStaysClear(cfg, Run(cfg, init), trace[last]);
    }
  }

  /**
   In every such run no call to a cloud provider, first or retry, is about a history with
   an event captured at level 4, so none of its occurrences holds one.
   */
  lemma DeepContentStaysLocal(cfg: Config, trace: Trace, d: Dispatch)
    requires CarefulRun(cfg, trace) && d in Run(cfg, trace).dispatches && !d.isLocal
    ensures NoneDeep(d.run.events)
  {
    CarefulRunsAreClear(cfg, trace);
    GateHolds(cfg, trace);
    CallWasGated(d);
  }
}
