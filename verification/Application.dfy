/**
 The running application: the user commands and one round of each background loop, as
 they act on the store and the gate.  Each method is shown to perform a run of the state
 machine, so whatever holds of every run holds of it.
 */
module Application {
  import opened Domain
  import opened Rfc3339
  import opened Wrappers
  import opened EventStore
  import opened Detector
  import opened System
  import opened SystemTheorems
  import opened SweepEffects
  import SweepTheorems
  import DispatchTheorems
  import CaptureTheorems
  import Gate
  import Pipeline
  import Synthesizer

  /** A polled signal, when it was processed, and when it would expire in deep mode. */
  datatype Polled = Polled(signal: Pipeline.CapturedSignal, now: DateTime, deadline: Option<DateTime>)

  class Application {
    const cfg: Config
    const store: Store
    const gate: Gate.DispatchGate
    ghost var trace: Trace
    ghost var state: State

    /** The state follows from the trace, in which no command overtakes another. */
    ghost predicate Recorded()
      reads this
    {
      state == Run(cfg, trace) && Serialized(trace)
    }

    /** The store and the gate are what the recorded run leads to. */
    ghost predicate Valid()
      reads this, store, gate
    {
      Recorded() && store.State() == state.store && gate.Snapshot() == state.gate
    }

    constructor (cfg: Config)
      ensures Valid() && fresh(store) && fresh(gate) && this.cfg == cfg && trace == []
    {
      this.cfg := cfg;
      store := new Store();
      gate := new Gate.DispatchGate();
      trace, state := [], INITIAL;
    }

    /** Whatever methods were called: what every run keeps holds of the store as it is now. */
    lemma RunsAreKept()
      requires Valid()
      ensures Consistent(store.State()) && SweepTheorems.DistinctRows(SweepTheorems.Signatures(store.patterns))
      ensures DispatchTheorems.SavingsBacked(cfg, state) && state.refusals == 0
      ensures forall id :: id in store.events ==> CaptureTheorems.HadConsent(trace, state, id)
    {
      StoreStaysConsistent(cfg, trace);
      SweepTheorems.RowsAreUnique(cfg, trace);
      DispatchTheorems.SavingsAreBacked(cfg, trace);
      DispatchTheorems.NoCallIsRefused(cfg, trace);
      forall id | id in store.events ensures CaptureTheorems.HadConsent(trace, state, id) {
        CaptureTheorems.ConsentBeforeCapture(cfg, trace, id);
      }
    }

    ghost method Record(l: Label)
      requires Recorded() && (Writes(l) ==> Fresh(trace, l.caller))
      modifies this
      ensures Recorded() && trace == old(trace) + [l] && state == Next(cfg, old(state), l)
    {
      RunMore(cfg, trace, l);
      SerializedMore(trace, l);
      trace, state := trace + [l], Next(cfg, state, l);
    }

    // --- commands ---

    /** A privacy command that nothing overtakes: its read and its write, one after the other. */
    ghost method RecordCommand(command: Command)
      requires Recorded() && !Rejected(command)
      modifies this
      ensures Recorded() && trace == old(trace) + [CommandRead(0)] + [CommandWrite(0, command)]
      ensures state.store == SetPrivacy(old(state.store), Apply(command, old(state.store.privacy)))
      ensures state.gate == old(state.gate) && state.sweep == old(state.sweep)
      ensures state.observation == old(state.observation)
    {
      Record(CommandRead(0));
      Record(CommandWrite(0, command));
    }

    method SetPrivacyLevel(requested: PrivacyLevel, acknowledgedAny: bool, floor: Option<PrivacyLevel>)
      returns (effective: Option<PrivacyLevel>)
      requires Valid()
      modifies this, store
      ensures Valid()
      ensures effective.None? <==> requested != Manual && !acknowledgedAny
      ensures effective.None? ==> store.State() == old(store.State()) && trace == old(trace)
      ensures effective.Some? ==>
        && effective.value.Number() == Max(requested.Number(), if floor.Some? then floor.value.Number() else 0)
        && store.State() == SetPrivacy(old(store.State()), old(store.privacy).(level := effective.value))
    {
      if requested != Manual && !acknowledgedAny {
        return None;
      }
      var level := EffectiveLevel(requested, floor);
      var current := store.privacy;
      current := current.(level := level);
      store.SetPrivacyState(current);
      RecordCommand(Command.SetPrivacyLevel(requested, acknowledgedAny, floor));
      return Some(level);
    }

    method CompleteOnboarding()
      requires Valid()
      modifies this, store
      ensures Valid() && store.State() == SetPrivacy(old(store.State()), old(store.privacy).(observationActive := true))
    {
      var current := store.privacy;
      store.SetPrivacyState(current.(observationActive := true));
      RecordCommand(Command.CompleteOnboarding);
    }

    method AcknowledgePrivacyManifest()
      requires Valid()
      modifies this, store
      ensures Valid()
      ensures store.State()
           == SetPrivacy(old(store.State()), old(store.privacy).(consentedManifestVersion := CURRENT_MANIFEST_VERSION))
    {
      var current := store.privacy;
      store.SetPrivacyState(current.(consentedManifestVersion := CURRENT_MANIFEST_VERSION));
      RecordCommand(AcknowledgeManifest);
    }

    method PauseObservation()
      requires Valid()
      modifies this, store
      ensures Valid()
      ensures store.State() == SetPrivacy(old(store.State()), old(store.privacy).(observationActive := false))
    {
      var current := store.privacy;
      store.SetPrivacyState(current.(observationActive := false));
      RecordCommand(Command.PauseObservation);
    }

    method ResumeObservation()
      requires Valid()
      modifies this, store
      ensures Valid() && store.State() == SetPrivacy(old(store.State()), old(store.privacy).(observationActive := true))
    {
      var current := store.privacy;
      store.SetPrivacyState(current.(observationActive := true));
      RecordCommand(Command.ResumeObservation);
    }

    ghost method RecordConsent(granted: bool)
      requires Recorded()
      modifies this
      ensures Recorded() && trace == old(trace) + [ConsentSetting(0, granted)] + [ConsentGate(0)]
      ensures state.store == old(state.store).(cloudConsentSetting := Some(granted))
      ensures state.gate == old(state.gate).(general := granted)
      ensures state.sweep == old(state.sweep) && state.observation == old(state.observation)
    {
      Record(ConsentSetting(0, granted));
      Record(ConsentGate(0));
    }

    /** Register a provider and make it the active one. */
    method SetAiProvider(id: string, config: ProviderConfig)
      requires Valid()
      modifies this, store
      ensures Valid() && ActiveProvider(store.State()) == Some(config)
      ensures store.State() == old(store.State()).(providers := old(store.providers)[id := config], activeProvider := Some(id))
    {
      store.UpsertLlmProvider(id, config);
      Record(RegisterProvider(id, config));
      var found := store.SetActiveLlmProvider(id);
      Record(SelectProvider(id));
    }

    method SetCloudConsent(granted: bool)
      requires Valid()
      modifies this, store, gate
      ensures Valid()
      ensures store.State() == old(store.State()).(cloudConsentSetting := Some(granted))
      ensures gate.Snapshot() == old(gate.Snapshot()).(general := granted)
    {
      store.SetCloudConsentSetting(granted);
      if granted {
        gate.GrantGeneralCloudConsent();
      } else {
        gate.RevokeGeneralCloudConsent();
      }
      RecordConsent(granted);
    }

    method DeleteEvents(ids: seq<int>) returns (count: nat)
      requires Valid()
      modifies this, store
      ensures Valid() && store.State() == RemoveEvents(old(store.State()), set id | id in ids)
      ensures count == |old(store.events)| - |store.events|
    {
      count := store.DeleteEvents(ids);
      Record(RemoveSomeEvents(set id | id in ids));
    }

    method DeleteAllData()
      requires Valid()
      modifies this, store
      ensures Valid() && store.State() == DeleteAll(old(store.State()))
    {
      store.DeleteAllData();
      Record(Label.DeleteAllData);
    }

    // --- one round of the observation loop ---

    ghost method RecordRead()
      requires Recorded() && state.observation == Waiting
      modifies this
      ensures Recorded() && state.store == old(state.store) && state.gate == old(state.gate)
      ensures state.sweep == old(state.sweep)
      ensures MayObserve(state.store.privacy) ==> state.observation.Ticking? && state.observation.seen == state.store.privacy
      ensures !MayObserve(state.store.privacy) ==> state.observation == Waiting
    {
      Record(TickRead);
    }

    ghost method RecordEnd()
      requires Recorded()
      modifies this
      ensures Recorded() && state.store == old(state.store) && state.gate == old(state.gate)
      ensures state.sweep == old(state.sweep)
      ensures state.observation == Waiting
    {
      Record(TickEnd);
    }

    ghost method RecordStored(p: Polled, e: EventSummary)
      requires Recorded() && state.observation.Ticking? && IsDeadline(cfg, p.now, p.deadline)
      requires IsOutcomeOf(cfg.engine, state.observation.seen.level, p, Pipeline.Summarized(e))
      modifies this
      ensures Recorded() && state.store == InsertEvent(old(state.store), e)
      ensures state.gate == old(state.gate) && state.sweep == old(state.sweep)
      ensures state.observation == old(state.observation)
    {
      Record(TickStore(p.signal, p.now, p.deadline, e));
    }

    method CaptureOne(p: Polled, level: PrivacyLevel)
      returns (outcome: Pipeline.PipelineOutcome, announced: Option<EventSummary>)
      requires Valid() && IsDeadline(cfg, p.now, p.deadline)
      requires state.observation.Ticking? && state.observation.seen.level == level
      modifies this, store
      ensures Valid() && state.observation == old(state.observation) && state.sweep == old(state.sweep)
      ensures IsOutcomeOf(cfg.engine, level, p, outcome)
      ensures store.State() == Stored(old(store.State()), outcome)
      ensures (if announced.Some? then [announced.value] else []) == Announcement(old(store.State()), outcome)
    {
      outcome := Pipeline.Process(cfg.engine, p.signal, level, p.now, p.deadline);
      if outcome.Dropped? {
        return outcome, None;
      }
      var id := store.InsertEventSummary(outcome.event);
      RecordStored(p, outcome.event);
      announced := Some(outcome.event.(id := Some(id)));
    }

    method CaptureAll(polled: seq<Polled>, level: PrivacyLevel)
      returns (announced: seq<EventSummary>, ghost outcomes: seq<Pipeline.PipelineOutcome>)
      requires Valid() && forall i :: 0 <= i < |polled| ==> IsDeadline(cfg, polled[i].now, polled[i].deadline)
      requires state.observation.Ticking? && state.observation.seen.level == level
      modifies this, store
      ensures Valid() && state.observation == old(state.observation) && state.sweep == old(state.sweep)
      ensures AreCaptures(cfg.engine, level, polled, outcomes, old(store.State()), store.State(), announced)
    {
      announced, outcomes := [], [];
      for i := 0 to |polled|
        invariant Valid() && state.observation == old(state.observation) && state.sweep == old(state.sweep)
        invariant AreCaptures(cfg.engine, level, polled[..i], outcomes, old(store.State()), store.State(), announced)
      {
        ghost var before, sofar := store.State(), announced;
        var outcome, event := CaptureOne(polled[i], level);
        OneMoreCapture(cfg.engine, level, polled[..i], outcomes, old(store.State()), before, sofar, polled[i], outcome);
        assert polled[..i + 1] == polled[..i] + [polled[i]];
        outcomes := outcomes + [outcome];
        if event.Some? {
          announced := announced + [event.value];
        }
      }
      assert polled[..|polled|] == polled;
    }

    /**
     One round with everything the sources reported: when the row read first allows it,
     each signal goes through the pipeline at the level read, and what is summarised is
     stored and announced under its new id.
     */
    method Tick(polled: seq<Polled>) returns (announced: seq<EventSummary>, ghost outcomes: seq<Pipeline.PipelineOutcome>)
      requires Valid() && state.observation == Waiting
      requires forall i :: 0 <= i < |polled| ==> IsDeadline(cfg, polled[i].now, polled[i].deadline)
      modifies this, store
      ensures Valid() && state.observation == Waiting && state.sweep == old(state.sweep)
      ensures MayObserve(old(store.privacy)) ==>
        AreCaptures(cfg.engine, old(store.privacy).level, polled, outcomes, old(store.State()), store.State(), announced)
      ensures !MayObserve(old(store.privacy)) ==> store.State() == old(store.State()) && announced == []
    {
      var seen := store.privacy;
      RecordRead();
      if !seen.observationActive || seen.level == Manual || seen.consentedManifestVersion < CURRENT_MANIFEST_VERSION {
        return [], [];
      }
      announced, outcomes := CaptureAll(polled, seen.level);
      RecordEnd();
    }

    // --- the steps of the recommendation loop ---

    ghost method RecordSweep(l: Label)
      requires Recorded() && IsSweep(cfg, state, l)
      modifies this
      ensures Recorded() && trace == old(trace) + [l]
      ensures state == AfterSweep(old(state), l).(clock := old(state.clock) + 1)
    {
      SweepStep(cfg, state, l);
      Record(l);
    }

    ghost method RecordUpdate(p: DetectedPattern)
      requires Recorded() && HasPattern(state.sweep) && state.sweep.stage == Choosing
      requires CurrentPattern(state.sweep) == p
      requires IsKnown(state.sweep.known, p.signature)
      modifies this
      ensures Recorded() && Stepped(old(trace), old(state), trace, state)
      ensures state.sweep == old(NextPattern(state.sweep))
      ensures state.store == UpdateStats(old(state.store), KnownId(old(state.sweep.known), p.signature),
                                         p.lastSeenAt, p.occurrenceCount, p.minutesPerOccurrence)
    {
      RecordSweep(SweepNext);
    }

    ghost method RecordInsert(p: DetectedPattern)
      requires Recorded() && HasPattern(state.sweep) && state.sweep.stage == Choosing
      requires CurrentPattern(state.sweep) == p
      requires !IsKnown(state.sweep.known, p.signature)
      modifies this
      ensures Recorded() && Stepped(old(trace), old(state), trace, state)
      ensures state.store == InsertPatternRow(old(state.store), RowOf(p))
      ensures state.sweep == old(state.sweep).(stage := Inserted(state.store.lastPatternId))
    {
      RecordSweep(SweepNext);
    }

    ghost method RecordLink(p: DetectedPattern)
      requires Recorded() && HasPattern(state.sweep) && state.sweep.stage.Inserted? && CurrentPattern(state.sweep) == p
      modifies this
      ensures Recorded() && Stepped(old(trace), old(state), trace, state)
      ensures state.store == LinkEvents(old(state.store), old(state.sweep.stage.patternId), p.contributingEventIds)
      ensures state.sweep == old(state.sweep).(stage := Linked(old(state.sweep.stage.patternId)))
    {
      RecordSweep(SweepLink);
    }

    ghost method RecordProvider()
      requires Recorded() && HasPattern(state.sweep) && state.sweep.stage.Linked?
      modifies this
      ensures Recorded() && Stepped(old(trace), old(state), trace, state) && state.store == old(state.store)
      ensures var config, w := ActiveProvider(state.store), old(state.sweep);
        state.sweep == if !Usable(config) then NextPattern(w)
                       else w.(stage := HasProvider(w.stage.patternId, IsLocalProvider(config.value)))
    {
      RecordSweep(SweepReadProvider);
    }

    ghost method RecordSnapshot()
      requires Recorded() && HasPattern(state.sweep) && state.sweep.stage.HasProvider?
      modifies this
      ensures Recorded() && Stepped(old(trace), old(state), trace, state) && state.store == old(state.store)
      ensures var w := old(state.sweep);
        state.sweep == if Decision(state.gate, w.stage.isLocal, w.run, CurrentPattern(w)) != Gate.Allow then NextPattern(w)
                       else w.(stage := Calling(w.stage.patternId, w.stage.isLocal, state.gate, old(state.clock), 0))
    {
      RecordSweep(SweepSnapshotGate);
    }

    /** One call that went through, and its answer. */
    ghost method RecordCall(providers: Providers)
      requires Recorded() && HasPattern(state.sweep) && state.sweep.stage.Calling? && CallIsAllowed(state.sweep)
      modifies this
      ensures Recorded() && Swept(old(trace), old(state), trace, state, providers) && state.store == old(state.store)
      ensures |state.dispatches| == |old(state.dispatches)| + 1
      ensures var w := old(state.sweep); state.sweep == AfterReply(cfg, w, providers(w.next)(w.stage.attempt))
    {
      var l := CallLabel(cfg, state.sweep, providers(state.sweep.next)(state.sweep.stage.attempt));
      CallStep(cfg, state, l, l.reply);
      RecordSweep(l);
    }

    ghost method RecordSave()
      requires Recorded() && HasPattern(state.sweep) && state.sweep.stage.Saving?
      modifies this
      ensures Recorded() && Stepped(old(trace), old(state), trace, state)
      ensures state.sweep == old(NextPattern(state.sweep))
      ensures state.store == InsertRecommendationRow(old(state.store), old(state.sweep.stage.recommendation))
    {
      RecordSweep(SweepSave);
    }

    ghost method RecordRest()
      requires Recorded() && state.sweep.Working? && state.sweep.next == |state.sweep.run.detected|
      modifies this
      ensures Recorded() && Stepped(old(trace), old(state), trace, state)
      ensures state.sweep == Resting && state.store == old(state.store)
    {
      RecordSweep(SweepNext);
    }

    /** All calls of a round, and where they lead. */
    ghost method RecordCalls(
      providers: Providers, seen: Synthesizer.Replies,
      r: Result<Synthesizer.Recommendation, Synthesizer.SynthesisError>, calls: nat)
      requires Recorded() && HasPattern(state.sweep) && state.sweep.stage.Calling? && state.sweep.stage.attempt == 0
      requires CallIsAllowed(state.sweep) && SameTexts(providers(state.sweep.next), seen)
      requires Synthesizer.IsSynthesis(
        cfg.reader, state.sweep.stage.patternId, CurrentPattern(state.sweep), MAX_ATTEMPTS, seen, r, calls)
      modifies this
      ensures Recorded() && Swept(old(trace), old(state), trace, state, providers) && state.store == old(state.store)
      ensures |state.dispatches| == |old(state.dispatches)| + calls
      ensures r.Ok? ==> state.sweep == old(state.sweep).(stage := Saving(old(state.sweep.stage.patternId), r.value))
      ensures r.Err? ==> state.sweep == old(NextPattern(state.sweep))
    {
      ghost var w := state.sweep;
      for a := 0 to calls - 1
        invariant Recorded() && Swept(old(trace), old(state), trace, state, providers)
        invariant state.store == old(state.store)
        invariant |state.dispatches| == |old(state.dispatches)| + a
        invariant state.sweep == w.(stage := w.stage.(attempt := a))
      {
        assert Synthesizer.Unusable(cfg.reader, w.stage.patternId, CurrentPattern(w), seen(a));
        ghost var before, s := trace, state;
        RecordCall(providers);
        SweptOn(old(trace), old(state), before, s, trace, state, providers);
      }
      ghost var before, s := trace, state;
      RecordCall(providers);
      SweptOn(old(trace), old(state), before, s, trace, state, providers);
    }

    // --- one round of the recommendation loop ---

    /** What this sweep works with from here on. */
    ghost function SweepContext(level: PrivacyLevel, known: map<int, PatternRow>, providers: Providers): Context
      reads this, gate
    {
      Context(cfg.reader, gate.Snapshot(), level, known, providers)
    }

    ghost predicate IsContext(c: Context, level: PrivacyLevel, providers: Providers)
      reads this, gate
    {
      c == SweepContext(level, c.known, providers)
    }

    /** Expired events go first; then the level is read. */
    method ExpireEvents(now: DateTime, ghost providers: Providers) returns (level: PrivacyLevel)
      requires Valid() && state.sweep == Resting
      modifies this, store
      ensures Valid() && store.State() == DeleteExpired(old(store.State()), now)
      ensures state.sweep.HasLevel? && state.sweep.level == level == store.privacy.level
      ensures old(trace) + [SweepBegin(now)] <= trace && Swept(old(trace), old(state), trace, state, providers)
    {
      var count := store.DeleteExpiredEvents(now);
      RecordSweep(SweepBegin(now));
      level := store.privacy.level;
      RecordSweep(SweepReadPrivacy);
    }

    method ListEvents() returns (events: History, ghost listing: seq<EventSummary>)
      requires Valid() && state.sweep.HasLevel?
      modifies this
      ensures Valid() && Stepped(old(trace), old(state), trace, state)
      ensures state.sweep == if events == [] then Resting
                             else HasEvents(old(state.sweep.level), old(state.sweep.levelReadAt), events)
      ensures IsRecentListing(store.State(), EVENT_HISTORY_LIMIT, listing) && events == Reversed(listing)
    {
      StoreStaysConsistent(cfg, trace);
      var rows := store.ListRecentEvents(EVENT_HISTORY_LIMIT);
      listing := rows;
      events := Reversed(rows);
      RecordSweep(SweepListEvents(rows));
    }

    method DetectPatterns(events: History) returns (detected: seq<DetectedPattern>, known: map<int, PatternRow>)
      requires Valid() && state.sweep.HasEvents? && state.sweep.events == events
      modifies this
      ensures Valid() && Stepped(old(trace), old(state), trace, state) && known == store.patterns
      ensures IsDetection(DEFAULT_DETECTOR, events, detected)
      ensures var w := old(state.sweep);
        state.sweep == if detected == [] then Resting
                       else Working(SweepRun(w.level, w.levelReadAt, events, detected), known, 0, Choosing)
    {
      detected := Detect(DEFAULT_DETECTOR, events);
      known := store.patterns;
      RecordSweep(SweepListPatterns(detected));
    }

    /** The known row with this signature, if there is one. */
    method FindKnown(known: map<int, PatternRow>, signature: seq<string>) returns (id: Option<int>)
      requires SweepTheorems.DistinctRows(SweepTheorems.Signatures(known))
      ensures id == KnownRow(known, signature)
    {
      var rest := known.Keys;
      while rest != {}
        invariant rest <= known.Keys
        invariant forall i :: i in known && i !in rest ==> known[i].signature != signature
        decreases |rest|
      {
        var i := AnyOf(rest);
        if known[i].signature == signature {
          OnlyOneIsKnown(known, i, signature);
          return Some(i);
        }
        rest := rest - {i};
      }
      return None;
    }

    method StorePattern(pattern: DetectedPattern) returns (patternId: int)
      requires Valid() && HasPattern(state.sweep) && state.sweep.stage == Choosing
      requires CurrentPattern(state.sweep) == pattern && !IsKnown(state.sweep.known, pattern.signature)
      modifies this, store
      ensures Valid() && forall providers :: Swept(old(trace), old(state), trace, state, providers)
      ensures state.sweep == old(state.sweep).(stage := Linked(patternId))
      ensures state.store == StoredPattern(old(state.store), pattern) && patternId == old(state.store).lastPatternId + 1
    {
      patternId := store.InsertPattern(RowOf(pattern));
      RecordInsert(pattern);
      var linked := store.LinkPatternEvents(patternId, pattern.contributingEventIds);
      RecordLink(pattern);
    }

    /** The provider to ask and the consents to ask under; None when there is nobody to ask. */
    method ChooseProvider(
      level: PrivacyLevel, patternId: int, detected: DetectedPattern, ghost c: Context, ghost providers: Providers)
      returns (gated: Option<GatedProvider>)
      requires Valid() && HasPattern(state.sweep) && state.sweep.stage == Linked(patternId)
      requires CurrentPattern(state.sweep) == detected && state.sweep.run.level == level
      requires IsContext(c, level, providers)
      modifies this
      ensures Valid() && Swept(old(trace), old(state), trace, state, providers)
      ensures gated.Some? <==> MayAsk(c, state.store, detected)
      ensures gated.None? ==> state.sweep == old(NextPattern(state.sweep))
      ensures gated.Some? ==>
        && gated.value.Evaluate() == Gate.Allow
        && HasPattern(state.sweep) && CurrentPattern(state.sweep) == detected
        && state.sweep.stage.Calling? && state.sweep.stage.attempt == 0 && state.sweep.stage.patternId == patternId
        && NextPattern(state.sweep) == old(NextPattern(state.sweep))
        && CallIsAllowed(state.sweep)
    {
      var config := store.GetActiveLlmProvider();
      RecordProvider();
      ghost var before, s := trace, state;
      SteppedOn(old(trace), old(state), old(trace), old(state), before, s, providers);
      if !Usable(config) {
        return None;
      }
      var isLocal, snapshot := IsLocalProvider(config.value), gate.Snapshot();
      RecordSnapshot();
      SteppedOn(old(trace), old(state), before, s, trace, state, providers);
      var provider := GatedProvider(snapshot, isLocal, level, detected.containsVerbatimStrings);
      return if provider.Evaluate() == Gate.Allow then Some(provider) else None;
    }

    /**
     Layer 2 for a new pattern: gated before the first call, and again at each.  What the
     first usable reply builds is stored, and nothing else.
     */
    method TrySynthesize(
      level: PrivacyLevel, patternId: int, detected: DetectedPattern, k: nat, ghost c: Context, providers: Providers)
      requires Valid() && HasPattern(state.sweep) && state.sweep.stage == Linked(patternId) && IsContext(c, level, providers)
      requires CurrentPattern(state.sweep) == detected && state.sweep.run.level == level && state.sweep.next == k
      modifies this, store
      ensures Valid() && state.sweep == old(NextPattern(state.sweep))
      ensures Swept(old(trace), old(state), trace, state, providers)
      ensures state.store == Explained(c, old(state.store), patternId, detected, k)
    {
      var gated := ChooseProvider(level, patternId, detected, c, providers);
      if gated.None? {
        return;
      }
      ghost var before, s := trace, state;
      Explain(gated.value, patternId, detected, k, providers);
      SweptOn(old(trace), old(state), before, s, trace, state, providers);
    }

    method SaveRecommendation(r: Synthesizer.Recommendation)
      requires Valid() && HasPattern(state.sweep) && state.sweep.stage.Saving? && state.sweep.stage.recommendation == r
      modifies this, store
      ensures Valid() && Stepped(old(trace), old(state), trace, state) && state.sweep == old(NextPattern(state.sweep))
      ensures store.State() == InsertRecommendationRow(old(store.State()), r)
    {
      var stored := store.InsertRecommendation(r);
      RecordSave();
    }

    method Explain(gated: GatedProvider, patternId: int, detected: DetectedPattern, k: nat, providers: Providers)
      requires Valid() && HasPattern(state.sweep) && CurrentPattern(state.sweep) == detected && state.sweep.next == k
      requires state.sweep.stage.Calling? && state.sweep.stage.attempt == 0 && state.sweep.stage.patternId == patternId
      requires CallIsAllowed(state.sweep) && gated.Evaluate() == Gate.Allow
      modifies this, store
      ensures Valid() && state.sweep == old(NextPattern(state.sweep))
      ensures Swept(old(trace), old(state), trace, state, providers)
      ensures var r := Answer(cfg.reader, patternId, detected, providers(k), 0);
        state.store == if r.Some? then InsertRecommendationRow(old(state.store), r.value) else old(state.store)
    {
      var seen := gated.Through(providers(k));
      var r, calls := Synthesizer.Synthesize(cfg.reader, patternId, detected, MAX_ATTEMPTS, seen);
      AllowedTextsPass(gated, providers(k));
      SynthesisIsTheAnswer(cfg.reader, patternId, detected, seen, r, calls, 0);
      SameAnswer(cfg.reader, patternId, detected, providers(k), seen, 0);
      RecordCalls(providers, seen, r, calls);
      if r.Ok? {
        ghost var before, s := trace, state;
        SaveRecommendation(r.value);
        SteppedOn(old(trace), old(state), before, s, trace, state, providers);
      }
    }

    method RefreshPattern(id: int, pattern: DetectedPattern, ghost k: nat, ghost c: Context)
      requires Valid() && HasPattern(state.sweep) && state.sweep.stage == Choosing
      requires CurrentPattern(state.sweep) == pattern && state.sweep.known == c.known
      requires KnownRow(c.known, pattern.signature) == Some(id)
      modifies this, store
      ensures Valid() && state.sweep == old(NextPattern(state.sweep))
      ensures Swept(old(trace), old(state), trace, state, c.providers)
      ensures state.store == ProcessedAs(c, Some(id), old(state.store), pattern, k)
    {
      store.UpdatePatternStats(id, pattern.lastSeenAt, pattern.occurrenceCount, pattern.minutesPerOccurrence);
      RecordUpdate(pattern);
    }

    method LearnPattern(pattern: DetectedPattern, level: PrivacyLevel, k: nat, ghost c: Context, providers: Providers)
      requires Valid() && HasPattern(state.sweep) && state.sweep.stage == Choosing && state.sweep.next == k
      requires CurrentPattern(state.sweep) == pattern && state.sweep.run.level == level
      requires IsContext(c, level, providers) && state.sweep.known == c.known && KnownRow(c.known, pattern.signature) == None
      modifies this, store
      ensures Valid() && state.sweep == old(NextPattern(state.sweep))
      ensures Swept(old(trace), old(state), trace, state, providers)
      ensures state.store == ProcessedAs(c, None, old(state.store), pattern, k)
    {
      ghost var s0 := state.store;
      var patternId := StorePattern(pattern);
      ghost var before, s := trace, state;
      TrySynthesize(level, patternId, pattern, k, c, providers);
      SweptOn(old(trace), old(state), before, s, trace, state, providers);
      LearnedIsProcessed(c, s0, pattern, k, s.store, patternId, state.store);
    }

    /** The pattern at hand is brought up to date if it is known, and stored, linked and explained if it is new. */
    method ProcessPattern(
      pattern: DetectedPattern, known: map<int, PatternRow>, level: PrivacyLevel, k: nat, ghost c: Context,
      providers: Providers) returns (ghost row: Option<int>)
      requires Valid() && HasPattern(state.sweep) && state.sweep.stage == Choosing && state.sweep.next == k
      requires CurrentPattern(state.sweep) == pattern && state.sweep.known == known && state.sweep.run.level == level
      requires SweepTheorems.DistinctRows(SweepTheorems.Signatures(known))
      requires IsContext(c, level, providers) && c.known == known
      modifies this, store
      ensures Valid() && state.sweep == old(NextPattern(state.sweep))
      ensures Swept(old(trace), old(state), trace, state, providers)
      ensures row == KnownRow(known, pattern.signature)
      ensures state.store == ProcessedAs(c, row, old(state.store), pattern, k)
    {
      var id := FindKnown(known, pattern.signature);
      row := id;
      if id.Some? {
        RefreshPattern(id.value, pattern, k, c);
      } else {
        LearnPattern(pattern, level, k, c, providers);
      }
    }

    method ProcessPatterns(
      detected: seq<DetectedPattern>, known: map<int, PatternRow>, level: PrivacyLevel, ghost c: Context,
      providers: Providers)
      requires Valid() && state.sweep.Working? && state.sweep.next == 0 && state.sweep.stage == Choosing
      requires state.sweep.run.detected == detected && state.sweep.run.level == level && state.sweep.known == known
      requires SweepTheorems.DistinctRows(SweepTheorems.Signatures(known))
      requires IsContext(c, level, providers) && c.known == known
      modifies this, store
      ensures Valid() && Swept(old(trace), old(state), trace, state, providers)
      ensures state.sweep == old(state.sweep).(next := |detected|)
      ensures state.store == ProcessedUpTo(c, old(state.store), detected, |detected|)
    {
      ghost var w, s0 := state.sweep, state.store;
      for k := 0 to |detected|
        invariant Valid() && state.sweep == w.(next := k) && Swept(old(trace), old(state), trace, state, providers)
        invariant IsContext(c, level, providers)
        invariant state.store == ProcessedUpTo(c, s0, detected, k)
      {
        ghost var before, s := trace, state;
        ProcessNext(detected, known, level, k, c, s0, providers);
        SweptOn(old(trace), old(state), before, s, trace, state, providers);
      }
    }

    method ProcessNext(
      detected: seq<DetectedPattern>, known: map<int, PatternRow>, level: PrivacyLevel, k: nat, ghost c: Context,
      ghost s0: StoreState, providers: Providers)
      requires Valid() && HasPattern(state.sweep) && state.sweep.stage == Choosing && state.sweep.next == k
      requires state.sweep.run.detected == detected && state.sweep.known == known && state.sweep.run.level == level
      requires SweepTheorems.DistinctRows(SweepTheorems.Signatures(known))
      requires IsContext(c, level, providers) && c.known == known
      requires state.store == ProcessedUpTo(c, s0, detected, k)
      modifies this, store
      ensures Valid() && state.sweep == old(NextPattern(state.sweep))
      ensures Swept(old(trace), old(state), trace, state, providers)
      ensures state.store == ProcessedUpTo(c, s0, detected, k + 1)
    {
      ghost var s := state.store;
      ghost var row := ProcessPattern(detected[k], known, level, k, c, providers);
      OneMoreProcessed(c, s0, detected, k, row, s, state.store);
    }

    /** What is read before patterns are looked for. */
    method ReadHistory(now: DateTime, ghost providers: Providers)
      returns (level: PrivacyLevel, events: History, ghost listing: seq<EventSummary>)
      requires Valid() && state.sweep == Resting
      modifies this, store
      ensures Valid() && store.State() == DeleteExpired(old(store.State()), now)
      ensures IsRecentListing(store.State(), EVENT_HISTORY_LIMIT, listing) && events == Reversed(listing)
      ensures level == store.privacy.level
      ensures if events == [] then state.sweep == Resting
              else state.sweep.HasEvents? && state.sweep.events == events && state.sweep.level == level
      ensures old(trace) + [SweepBegin(now)] <= trace && Swept(old(trace), old(state), trace, state, providers)
    {
      level := ExpireEvents(now, providers);
      ghost var before, s := trace, state;
      events, listing := ListEvents();
      SteppedOn(old(trace), old(state), before, s, trace, state, providers);
    }

    method LearnFrom(events: History, level: PrivacyLevel, providers: Providers)
      returns (ghost detected: seq<DetectedPattern>)
      requires Valid() && state.sweep.HasEvents? && state.sweep.events == events && state.sweep.level == level
      modifies this, store
      ensures Valid() && state.sweep == Resting && Swept(old(trace), old(state), trace, state, providers)
      ensures IsDetection(DEFAULT_DETECTOR, events, detected)
      ensures store.State()
           == ProcessedUpTo(SweepContext(level, old(store.patterns), providers), old(store.State()), detected, |detected|)
    {
      var found, known := DetectPatterns(events);
      detected := found;
      if found == [] {
        return;
      }
      ghost var before, s, c := trace, state, SweepContext(level, known, providers);
      SweepTheorems.RowsAreUnique(cfg, trace);
      ProcessPatterns(found, known, level, c, providers);
      SweptOn(old(trace), old(state), before, s, trace, state, providers);
      before, s := trace, state;
      RecordRest();
      SteppedOn(old(trace), old(state), before, s, trace, state, providers);
    }

    /**
     One whole sweep, beginning at `now`.  Expired events are gone, the detected patterns
     have been processed in turn, each call answered by its provider, and so the store
     shows each of them in the one row that has its signature.
     */
    method SweepOnce(now: DateTime, providers: Providers) returns (ghost detected: seq<DetectedPattern>)
      requires Valid() && state.sweep == Resting
      modifies this, store
      ensures Valid() && state.sweep == Resting
      ensures old(trace) + [SweepBegin(now)] <= trace && Swept(old(trace), old(state), trace, state, providers)
      ensures var c := SweepContext(old(store.privacy.level), old(store.patterns), providers);
        store.State() == ProcessedUpTo(c, DeleteExpired(old(store.State()), now), detected, |detected|)
      ensures IsSweepOf(old(store.State()), now, detected, store.State())
      ensures SweepTheorems.DistinctRows(SweepTheorems.Signatures(store.patterns))
    {
      StoreStaysConsistent(cfg, trace);
      ghost var s0 := store.State();
      var level, events, listing := ReadHistory(now, providers);
      ghost var c := SweepContext(level, store.patterns, providers);
      if events == [] {
        NothingInAnEmptyHistory(DEFAULT_DETECTOR);
        detected := [];
      } else {
        ghost var before, s := trace, state;
        detected := LearnFrom(events, level, providers);
        SweptOn(old(trace), old(state), before, s, trace, state, providers);
      }
      WholeSweep(c, s0, now, listing, detected);
      SweepTheorems.RowsAreUnique(cfg, trace);
    }
  }

  /** A provider behind a snapshot of the gate, as the synthesizer sees it. */
  datatype GatedProvider = GatedProvider(gate: Gate.Consents, isLocal: bool, level: PrivacyLevel, verbatim: bool) {
    function Evaluate(): Gate.DispatchDecision {
      Gate.Evaluate(gate, isLocal, level, CONTENT_CLASS, verbatim)
    }

    /** Every error of the gate or the provider reaches the synthesizer as a failed request. */
    function Complete(reply: Result<string, Gate.ProviderError>): Result<string, Gate.ProviderError> {
      match Gate.CompleteIfAllowed(gate, isLocal, level, CONTENT_CLASS, verbatim, reply)
      case Ok(text) => Ok(text)
      case Err(e) => Err(Gate.Request(e.Describe()))
    }

    function Through(replies: Synthesizer.Replies): Synthesizer.Replies {
      (i: nat) => Complete(replies(i))
    }
  }

  lemma AllowedTextsPass(gated: GatedProvider, replies: Synthesizer.Replies)
    requires gated.Evaluate() == Gate.Allow
    ensures SameTexts(replies, gated.Through(replies))
  {
  }

  lemma {:induction false} SameAnswer(
    reader: Synthesizer.Reader, id: int, p: DetectedPattern, replies: Synthesizer.Replies, seen: Synthesizer.Replies,
    attempt: nat)
    requires SameTexts(replies, seen)
    ensures Answer(reader, id, p, replies, attempt) == Answer(reader, id, p, seen, attempt)
    decreases MAX_ATTEMPTS - attempt
  {
    if attempt < MAX_ATTEMPTS {
      SameAnswer(reader, id, p, replies, seen, attempt + 1);
    }
  }

  ghost predicate SameTexts(replies: Synthesizer.Replies, seen: Synthesizer.Replies) {
    forall i :: (replies(i).Ok? <==> seen(i).Ok?) && (replies(i).Ok? ==> replies(i) == seen(i))
  }

  ghost function BuiltFor(cfg: Config, w: Sweep, reply: string): Result<Synthesizer.Recommendation, string>
    requires HasPattern(w) && w.stage.Calling?
  {
    Synthesizer.Built(cfg.reader, w.stage.patternId, CurrentPattern(w), reply)
  }

  ghost function CallLabel(cfg: Config, w: Sweep, reply: Result<string, Gate.ProviderError>): (l: Label)
    requires HasPattern(w) && w.stage.Calling?
    ensures l.SweepCall?
  {
    SweepCall(reply, if reply.Ok? then BuiltFor(cfg, w, reply.value) else Err(""))
  }

  lemma CallStep(cfg: Config, s: State, l: Label, reply: Result<string, Gate.ProviderError>)
    requires HasPattern(s.sweep) && s.sweep.stage.Calling? && CallIsAllowed(s.sweep)
    requires l == CallLabel(cfg, s.sweep, reply)
    ensures IsSweep(cfg, s, l) && SweptStore(s, l) == s.store
    ensures NextPhase(s, l) == AfterReply(cfg, s.sweep, reply)
    ensures NewDispatch(s, l) == [CallOf(s.sweep, reply)]
  {
  }

  ghost function AfterReply(cfg: Config, w: Sweep, reply: Result<string, Gate.ProviderError>): Sweep
    requires HasPattern(w) && w.stage.Calling?
  {
    if reply.Err? then NextPattern(w)
    else
      match BuiltFor(cfg, w, reply.value)
      case Ok(r) => w.(stage := Saving(w.stage.patternId, r))
      case Err(_) =>
        if w.stage.attempt + 1 < MAX_ATTEMPTS then w.(stage := w.stage.(attempt := w.stage.attempt + 1))
        else NextPattern(w)
  }

  lemma OnlyOneIsKnown(known: map<int, PatternRow>, id: int, signature: seq<string>)
    requires SweepTheorems.DistinctRows(SweepTheorems.Signatures(known)) && id in known
    requires known[id].signature == signature
    ensures IsKnown(known, signature) && KnownId(known, signature) == id
  {
    var other := KnownId(known, signature);
    assert SweepTheorems.Signatures(known)[other] == SweepTheorems.Signatures(known)[id];
  }

  /** From one recorded point to another only the sweep moved, and its provider answered each call it made. */
  ghost predicate Swept(t: Trace, s: State, t': Trace, s': State, providers: Providers) {
    && OnlySweeps(t, t') && s'.gate == s.gate && s'.observation == s.observation
    && Answered(s.dispatches, s'.dispatches, providers)
  }

  ghost predicate OnlySweeps(t: Trace, t': Trace) {
    t <= t' && forall i :: |t| <= i < |t'| ==> !IsCommand(t'[i]) && !IsTick(t'[i])
  }

  ghost predicate Answered(ds: seq<Dispatch>, ds': seq<Dispatch>, providers: Providers) {
    ds <= ds' && forall i :: |ds| <= i < |ds'| ==> ds'[i].reply == providers(ds'[i].index)(ds'[i].attempt)
  }

  /** One step of the sweep that called no provider. */
  ghost predicate Stepped(t: Trace, s: State, t': Trace, s': State) {
    && (exists l :: t' == t + [l] && !IsCommand(l) && !IsTick(l))
    && s'.gate == s.gate && s'.observation == s.observation && s'.dispatches == s.dispatches
  }

  lemma SteppedOn(t: Trace, s: State, t': Trace, s': State, t'': Trace, s'': State, providers: Providers)
    requires Swept(t, s, t', s', providers) && Stepped(t', s', t'', s'')
    ensures Swept(t, s, t'', s'', providers)
  {
  }

  lemma SweptOn(t: Trace, s: State, t': Trace, s': State, t'': Trace, s'': State, providers: Providers)
    requires Swept(t, s, t', s', providers) && Swept(t', s', t'', s'', providers)
    ensures Swept(t, s, t'', s'', providers)
  {
  }

  lemma SerializedMore(trace: Trace, l: Label)
    requires Serialized(trace) && (Writes(l) ==> Fresh(trace, l.caller))
    ensures Serialized(trace + [l])
  {
    var more := trace + [l];
    forall k | 0 <= k < |more| && Writes(more[k]) ensures Fresh(more[..k], more[k].caller) {
      assert more[..k] == trace[..k];
      assert k == |trace| ==> trace[..k] == trace;
    }
  }

  function Max(a: nat, b: nat): nat {
    if a < b then b else a
  }

  // --- what a tick stores ---

  ghost predicate AreOutcomes(
    engine: Pipeline.Engine, level: PrivacyLevel, polled: seq<Polled>, outcomes: seq<Pipeline.PipelineOutcome>)
  {
    |outcomes| == |polled| && forall i :: 0 <= i < |polled| ==> IsOutcomeOf(engine, level, polled[i], outcomes[i])
  }

  ghost predicate IsOutcomeOf(engine: Pipeline.Engine, level: PrivacyLevel, p: Polled, outcome: Pipeline.PipelineOutcome) {
    Pipeline.IsOutcome(engine, p.signal, level, p.now, p.deadline, outcome)
  }

  /** The store once the summarised outcomes have been inserted, in order. */
  function InsertAll(s: StoreState, outcomes: seq<Pipeline.PipelineOutcome>): StoreState {
    if outcomes == [] then s
    else
      var before, last := InsertAll(s, outcomes[..|outcomes| - 1]), outcomes[|outcomes| - 1];
      if last.Summarized? then InsertEvent(before, last.event) else before
  }

  /** The summarised outcomes under the ids following `lastId`. */
  function Announced(lastId: nat, outcomes: seq<Pipeline.PipelineOutcome>): seq<EventSummary> {
    if outcomes == [] then []
    else
      var before, last := Announced(lastId, outcomes[..|outcomes| - 1]), outcomes[|outcomes| - 1];
      if last.Summarized? then before + [last.event.(id := Some(lastId + |before| + 1))] else before
  }

  lemma {:induction false} IdsAreCounted(s: StoreState, outcomes: seq<Pipeline.PipelineOutcome>)
    ensures InsertAll(s, outcomes).lastEventId == s.lastEventId + |Announced(s.lastEventId, outcomes)|
  {
    if outcomes != [] {
      IdsAreCounted(s, outcomes[..|outcomes| - 1]);
    }
  }

  /** From s, the outcomes of the polled signals lead to t, and to these announcements. */
  ghost predicate AreCaptures(
    engine: Pipeline.Engine, level: PrivacyLevel, polled: seq<Polled>, outcomes: seq<Pipeline.PipelineOutcome>,
    s: StoreState, t: StoreState, announced: seq<EventSummary>)
  {
    && AreOutcomes(engine, level, polled, outcomes)
    && t == InsertAll(s, outcomes) && announced == Announced(s.lastEventId, outcomes)
  }

  function Stored(s: StoreState, outcome: Pipeline.PipelineOutcome): StoreState {
    if outcome.Summarized? then InsertEvent(s, outcome.event) else s
  }

  function Announcement(s: StoreState, outcome: Pipeline.PipelineOutcome): seq<EventSummary> {
    if outcome.Summarized? then [outcome.event.(id := Some(s.lastEventId + 1))] else []
  }

  lemma OneMoreOutcome(
    engine: Pipeline.Engine, level: PrivacyLevel, polled: seq<Polled>, outcomes: seq<Pipeline.PipelineOutcome>,
    p: Polled, outcome: Pipeline.PipelineOutcome)
    requires AreOutcomes(engine, level, polled, outcomes) && IsOutcomeOf(engine, level, p, outcome)
    ensures AreOutcomes(engine, level, polled + [p], outcomes + [outcome])
  {
    forall i | 0 <= i < |polled + [p]| ensures IsOutcomeOf(engine, level, (polled + [p])[i], (outcomes + [outcome])[i]) {
      assert i < |polled| ==> (polled + [p])[i] == polled[i] && (outcomes + [outcome])[i] == outcomes[i];
    }
  }

  lemma OneMoreCapture(
    engine: Pipeline.Engine, level: PrivacyLevel, polled: seq<Polled>, outcomes: seq<Pipeline.PipelineOutcome>,
    s: StoreState, t: StoreState, announced: seq<EventSummary>, p: Polled, outcome: Pipeline.PipelineOutcome)
    requires AreCaptures(engine, level, polled, outcomes, s, t, announced) && IsOutcomeOf(engine, level, p, outcome)
    ensures AreCaptures(engine, level, polled + [p], outcomes + [outcome],
                        s, Stored(t, outcome), announced + Announcement(t, outcome))
  {
    OneMoreOutcome(engine, level, polled, outcomes, p, outcome);
    OneMoreInsert(s, outcomes, outcome);
  }

  lemma OneMoreInsert(s: StoreState, outcomes: seq<Pipeline.PipelineOutcome>, outcome: Pipeline.PipelineOutcome)
    ensures InsertAll(s, outcomes + [outcome]) == Stored(InsertAll(s, outcomes), outcome)
    ensures Announced(s.lastEventId, outcomes + [outcome])
         == Announced(s.lastEventId, outcomes) + Announcement(InsertAll(s, outcomes), outcome)
  {
    assert (outcomes + [outcome])[..|outcomes|] == outcomes;
    IdsAreCounted(s, outcomes);
  }

  // --- what is announced ---

  /** at lists, in order and without gaps, the positions of the summarised outcomes. */
  ghost predicate AreSummarized(at: seq<nat>, outcomes: seq<Pipeline.PipelineOutcome>) {
    && (forall i :: 0 <= i < |at| ==> at[i] < |outcomes| && outcomes[at[i]].Summarized?)
    && (forall i, j :: 0 <= i < j < |at| ==> at[i] < at[j])
    && (forall k :: 0 <= k < |outcomes| && outcomes[k].Summarized? ==> k in at)
  }

  /** The event of this outcome, stored and announced under this id. */
  predicate IsNewRow(e: EventSummary, outcome: Pipeline.PipelineOutcome, id: int, t: StoreState) {
    outcome.Summarized? && e == outcome.event.(id := Some(id)) && id in t.events && t.events[id] == e
  }

  /** Each announced event is the summarised one, stored under the next id. */
  ghost predicate AreNewRows(
    announced: seq<EventSummary>, at: seq<nat>, outcomes: seq<Pipeline.PipelineOutcome>, lastId: nat, t: StoreState)
  {
    && |announced| == |at| && t.lastEventId == lastId + |at|
    && forall i :: 0 <= i < |at| ==>
         at[i] < |outcomes| && IsNewRow(announced[i], outcomes[at[i]], lastId + 1 + i, t)
  }

  /** Nothing else is stored, and nothing is changed or removed. */
  ghost predicate OnlyNewRows(s: StoreState, t: StoreState) {
    && s.lastEventId <= t.lastEventId && t == s.(events := t.events, lastEventId := t.lastEventId)
    && (forall id :: id in t.events && id !in s.events ==> s.lastEventId < id <= t.lastEventId)
    && (forall id :: id in s.events && id <= s.lastEventId ==> id in t.events && t.events[id] == s.events[id])
  }

  lemma OneMoreSummarized(at: seq<nat>, outcomes: seq<Pipeline.PipelineOutcome>)
    requires outcomes != [] && AreSummarized(at, outcomes[..|outcomes| - 1])
    ensures outcomes[|outcomes| - 1].Summarized? ==> AreSummarized(at + [|outcomes| - 1], outcomes)
    ensures !outcomes[|outcomes| - 1].Summarized? ==> AreSummarized(at, outcomes)
  {
    var last := |outcomes| - 1;
    forall k | 0 <= k < |outcomes| && outcomes[k].Summarized?
      ensures k in at + [last] && (!outcomes[last].Summarized? ==> k in at)
    {
      assert k < last ==> outcomes[..last][k] == outcomes[k];
    }
  }

  lemma SameRows(
    announced: seq<EventSummary>, at: seq<nat>, outcomes: seq<Pipeline.PipelineOutcome>, lastId: nat, t: StoreState)
    requires outcomes != [] && AreNewRows(announced, at, outcomes[..|outcomes| - 1], lastId, t)
    ensures AreNewRows(announced, at, outcomes, lastId, t)
  {
    var init := outcomes[..|outcomes| - 1];
    forall i | 0 <= i < |at| ensures at[i] < |outcomes| && IsNewRow(announced[i], outcomes[at[i]], lastId + 1 + i, t) {
      assert init[at[i]] == outcomes[at[i]];
    }
  }

  lemma OneMoreRow(
    announced: seq<EventSummary>, at: seq<nat>, outcomes: seq<Pipeline.PipelineOutcome>, lastId: nat, t: StoreState)
    requires outcomes != [] && outcomes[|outcomes| - 1].Summarized? && AreNewRows(announced, at, outcomes, lastId, t)
    ensures var last := |outcomes| - 1;
      AreNewRows(announced + [outcomes[last].event.(id := Some(lastId + |announced| + 1))], at + [last], outcomes, lastId,
                 InsertEvent(t, outcomes[last].event))
  {
    var last := |outcomes| - 1;
    var t', more := InsertEvent(t, outcomes[last].event), at + [last];
    var all := announced + [outcomes[last].event.(id := Some(lastId + |announced| + 1))];
    forall i | 0 <= i < |more| ensures more[i] < |outcomes| && IsNewRow(all[i], outcomes[more[i]], lastId + 1 + i, t') {
      assert i < |at| ==> IsNewRow(announced[i], outcomes[at[i]], lastId + 1 + i, t);
    }
  }

  lemma InsertingIsNew(s: StoreState, t: StoreState, e: EventSummary)
    requires OnlyNewRows(s, t)
    ensures OnlyNewRows(s, InsertEvent(t, e))
  {
  }

  /** The announced events are the summarised ones, all of them and in order, as they are stored. */
  lemma {:induction false} AnnouncedAreStored(s: StoreState, outcomes: seq<Pipeline.PipelineOutcome>) returns (at: seq<nat>)
    ensures AreSummarized(at, outcomes) && OnlyNewRows(s, InsertAll(s, outcomes))
    ensures AreNewRows(Announced(s.lastEventId, outcomes), at, outcomes, s.lastEventId, InsertAll(s, outcomes))
  {
    if outcomes == [] {
      at := [];
    } else {
      var init, last := outcomes[..|outcomes| - 1], |outcomes| - 1;
      var announced, t := Announced(s.lastEventId, init), InsertAll(s, init);
      at := AnnouncedAreStored(s, init);
      OneMoreSummarized(at, outcomes);
      SameRows(announced, at, outcomes, s.lastEventId, t);
      if outcomes[last].Summarized? {
        OneMoreRow(announced, at, outcomes, s.lastEventId, t);
        InsertingIsNew(s, t, outcomes[last].event);
        at := at + [last];
      }
    }
  }
}
