/**
 The running application as a state machine: user commands, the observation loop and the
 recommendation loop interleave over one store and one in-memory gate.

 A label carries every choice the environment makes, so a trace of labels determines a
 run; a label that is not enabled changes nothing but the step counter.  Each store
 operation is one step.  A privacy command is two steps, the read and the write of the
 privacy row; setting cloud consent is two, the stored setting and the gate; choosing a
 provider is two.  Other steps may come between.
 */
module System {
  import opened Domain
  import opened Rfc3339
  import opened Wrappers
  import opened EventStore
  import opened Detector
  import Gate
  import Pipeline
  import Synthesizer

  const CURRENT_MANIFEST_VERSION: int := 1
  const EVENT_HISTORY_LIMIT: nat := 2000
  const MAX_ATTEMPTS: nat := 2
  const DEFAULT_DEEP_MODE_TTL: int := 90 * 86400 * NANOS_PER_SECOND
  const CONTENT_CLASS := "pattern_summary"

  /** What does not change during a run. */
  datatype Config = Config(engine: Pipeline.Engine, reader: Synthesizer.Reader, deepModeTtl: Option<int>)

  datatype Command =
    | SetPrivacyLevel(requested: PrivacyLevel, acknowledgedAny: bool, floor: Option<PrivacyLevel>)
    | CompleteOnboarding
    | AcknowledgeManifest
    | PauseObservation
    | ResumeObservation

  datatype Label =
    // privacy commands
    | CommandRead(caller: nat)
    | CommandWrite(caller: nat, command: Command)
    // other commands
    | ConsentSetting(caller: nat, granted: bool)
    | ConsentGate(caller: nat)
    | UpdateSetting(granted: bool)
    | RegisterProvider(id: string, config: ProviderConfig)
    | SelectProvider(id: string)
    | RemoveSomeEvents(ids: set<int>)
    | DeleteAllData
    | Restart
    // observation loop
    | TickRead
    | TickStore(signal: Pipeline.CapturedSignal, now: DateTime, deadline: Option<DateTime>, event: EventSummary)
    | TickEnd
    // recommendation loop
    | SweepBegin(at: DateTime)
    | SweepReadPrivacy
    | SweepListEvents(listing: seq<EventSummary>)
    | SweepListPatterns(detected: seq<DetectedPattern>)
    | SweepNext
    | SweepLink
    | SweepReadProvider
    | SweepSnapshotGate
    | SweepCall(reply: Result<string, Gate.ProviderError>, built: Result<Synthesizer.Recommendation, string>)
    | SweepSave

  /** A loop is between rounds, or in one with what it read at its start. */
  datatype Observation = Waiting | Ticking(seen: PrivacyState, readAt: nat)

  /** What one sweep works from. */
  datatype SweepRun = SweepRun(level: PrivacyLevel, levelReadAt: nat, events: History, detected: seq<DetectedPattern>)

  /** How far the sweep has got with one detected pattern. */
  datatype Stage =
    | Choosing
    | Inserted(patternId: int)
    | Linked(patternId: int)
    | HasProvider(patternId: int, isLocal: bool)
    | Calling(patternId: int, isLocal: bool, gate: Gate.Consents, gateReadAt: nat, attempt: nat)
    | Saving(patternId: int, recommendation: Synthesizer.Recommendation)

  /** While working, `known` is the snapshot of pattern rows and `next` the pattern at hand. */
  datatype Sweep =
    | Resting
    | Begun
    | HasLevel(level: PrivacyLevel, levelReadAt: nat)
    | HasEvents(level: PrivacyLevel, levelReadAt: nat, events: History)
    | Working(run: SweepRun, known: map<int, PatternRow>, next: nat, stage: Stage)

  /** One call that reached a provider, about the run's pattern at `index`, and its reply. */
  datatype Dispatch = Dispatch(
    run: SweepRun, index: nat, pattern: DetectedPattern, patternId: int, isLocal: bool,
    gate: Gate.Consents, gateReadAt: nat, attempt: nat, reply: Result<string, Gate.ProviderError>)

  /**
   The last five fields record history and influence nothing: the number of steps, the
   step at which the tick that stored an event had read the privacy row, the calls that
   reached a provider, the calls the gate refused, and the recommendations saved.
   */
  datatype State = State(
    store: StoreState, gate: Gate.Consents,
    pending: map<nat, PrivacyState>, pendingConsent: map<nat, bool>,
    observation: Observation, sweep: Sweep,
    clock: nat, capturedAt: map<int, nat>, dispatches: seq<Dispatch>, refusals: nat,
    saved: seq<(DetectedPattern, Synthesizer.Recommendation)>)

  const INITIAL := State(
    EMPTY_STORE, Gate.Consents(false, {}), map[], map[], Waiting, Resting, 0, map[], [], 0, [])

  type Trace = seq<Label>

  ghost function Run(cfg: Config, trace: Trace): State
    decreases |trace|, 0
  {
    if trace == [] then INITIAL else RunOn(cfg, trace[..|trace| - 1], trace[|trace| - 1])
  }

  // A run goes on through two intermediate functions, so that a proof which mentions a run
  // looks into its last step only where it asks to, with lemma RunMore or RunLast.

  ghost function RunOn(cfg: Config, before: Trace, l: Label): State
    decreases |before|, 2
  {
    OneStepOn(cfg, before, l)
  }

  ghost function OneStepOn(cfg: Config, before: Trace, l: Label): State
    decreases |before|, 1
  {
    Next(cfg, Run(cfg, before), l)
  }

  ghost function Next(cfg: Config, s: State, l: Label): State {
    var t :=
      if IsCommand(l) then AfterCommand(s, l)
      else if IsTick(l) then AfterTick(cfg, s, l)
      else if IsSweep(cfg, s, l) then AfterSweep(s, l)
      else s;
    t.(clock := s.clock + 1)
  }

  /** What a sweep's label says it read or built is what the program reads or builds. */
  ghost predicate IsFaithful(cfg: Config, s: State, l: Label) {
    && (s.sweep.HasLevel? && l.SweepListEvents? ==> IsRecentListing(s.store, EVENT_HISTORY_LIMIT, l.listing))
    && (s.sweep.HasEvents? && l.SweepListPatterns? ==> IsDetection(DEFAULT_DETECTOR, s.sweep.events, l.detected))
    && (IsCall(s, l) && l.reply.Ok? ==>
          l.built == Synthesizer.Built(cfg.reader, s.sweep.stage.patternId, CurrentPattern(s.sweep), l.reply.value))
  }

  ghost predicate IsSweep(cfg: Config, s: State, l: Label) {
    !IsCommand(l) && !IsTick(l) && IsFaithful(cfg, s, l)
  }

  predicate IsCommand(l: Label) {
    l.CommandRead? || l.CommandWrite? || l.ConsentSetting? || l.ConsentGate? || l.UpdateSetting?
    || l.RegisterProvider? || l.SelectProvider? || l.RemoveSomeEvents? || l.DeleteAllData? || l.Restart?
  }

  predicate IsTick(l: Label) {
    l.TickRead? || l.TickStore? || l.TickEnd?
  }

  // --- commands ---

  /** A policy floor raises the requested level, never lowers it. */
  function EffectiveLevel(requested: PrivacyLevel, floor: Option<PrivacyLevel>): PrivacyLevel {
    if floor.Some? && floor.value.Number() > requested.Number() then floor.value else requested
  }

  /** Asking for an observing level without naming any acknowledged permission. */
  predicate Rejected(c: Command) {
    c.SetPrivacyLevel? && c.requested != Manual && !c.acknowledgedAny
  }

  function Apply(c: Command, p: PrivacyState): PrivacyState {
    match c
    case SetPrivacyLevel(requested, _, floor) => p.(level := EffectiveLevel(requested, floor))
    case CompleteOnboarding => p.(observationActive := true)
    case AcknowledgeManifest => p.(consentedManifestVersion := CURRENT_MANIFEST_VERSION)
    case PauseObservation => p.(observationActive := false)
    case ResumeObservation => p.(observationActive := true)
  }

  function AfterCommand(s: State, l: Label): State
    requires IsCommand(l)
  {
    match l
    case CommandRead(c) => s.(pending := s.pending[c := s.store.privacy])
    case CommandWrite(c, command) =>
      if c in s.pending && !Rejected(command)
      then s.(store := SetPrivacy(s.store, Apply(command, s.pending[c])), pending := s.pending - {c})
      else s
    case ConsentSetting(c, granted) =>
      s.(store := s.store.(cloudConsentSetting := Some(granted)), pendingConsent := s.pendingConsent[c := granted])
    case ConsentGate(c) =>
      if c in s.pendingConsent
      then s.(gate := s.gate.(general := s.pendingConsent[c]), pendingConsent := s.pendingConsent - {c})
      else s
    case UpdateSetting(granted) => s.(store := s.store.(cloudConsentSetting := Some(granted)))
    case RegisterProvider(id, config) => s.(store := UpsertProvider(s.store, id, config))
    case SelectProvider(id) => s.(store := ActivateProvider(s.store, id))
    case RemoveSomeEvents(ids) => s.(store := RemoveEvents(s.store, ids))
    case DeleteAllData => s.(store := DeleteAll(s.store))
    case Restart =>
      s.(gate := Gate.Consents(s.store.cloudConsentSetting == Some(true), {}),
         pending := map[], pendingConsent := map[], observation := Waiting, sweep := Resting)
  }

  // --- observation loop ---

  predicate MayObserve(p: PrivacyState) {
    p.observationActive && p.level != Manual && p.consentedManifestVersion >= CURRENT_MANIFEST_VERSION
  }

  predicate IsDeadline(cfg: Config, now: DateTime, deadline: Option<DateTime>) {
    && (deadline.Some? <==> cfg.deepModeTtl.Some?)
    && (deadline.Some? ==> deadline.value.Instant() == now.Instant() + cfg.deepModeTtl.value)
  }

  ghost function AfterTick(cfg: Config, s: State, l: Label): State
    requires IsTick(l)
  {
    match l
    case TickRead =>
      if s.observation == Waiting && MayObserve(s.store.privacy)
      then s.(observation := Ticking(s.store.privacy, s.clock)) else s
    case TickStore(signal, now, deadline, event) =>
      if s.observation.Ticking? && IsDeadline(cfg, now, deadline)
         && Pipeline.IsOutcome(cfg.engine, signal, s.observation.seen.level, now, deadline, Pipeline.Summarized(event))
      then
        var store := InsertEvent(s.store, event);
        s.(store := store, capturedAt := s.capturedAt[store.lastEventId := s.observation.readAt])
      else s
    case TickEnd => s.(observation := Waiting)
  }

  // --- recommendation loop ---

  predicate IsLocalProvider(config: ProviderConfig) {
    config.providerType == "ollama"
  }

  /** A provider can be built only with a model name. */
  predicate Usable(config: Option<ProviderConfig>) {
    config.Some? && config.value.hasModel
  }

  function Decision(gate: Gate.Consents, isLocal: bool, run: SweepRun, p: DetectedPattern): Gate.DispatchDecision {
    Gate.Evaluate(gate, isLocal, run.level, CONTENT_CLASS, p.containsVerbatimStrings)
  }

  /** A step of the sweep changes the store, moves to the next phase, and extends the history. */
  ghost function AfterSweep(s: State, l: Label): State {
    s.(store := SweptStore(s, l), sweep := NextPhase(s, l),
       dispatches := s.dispatches + NewDispatch(s, l),
       refusals := s.refusals + (if IsCall(s, l) && !CallIsAllowed(s.sweep) then 1 else 0),
       saved := s.saved + NewSaving(s, l))
  }

  predicate HasPattern(w: Sweep) {
    w.Working? && w.next < |w.run.detected|
  }

  function CurrentPattern(w: Sweep): DetectedPattern
    requires HasPattern(w)
  {
    w.run.detected[w.next]
  }

  function NextPattern(w: Sweep): Sweep
    requires HasPattern(w)
  {
    w.(next := w.next + 1, stage := Choosing)
  }

  ghost predicate IsKnown(known: map<int, PatternRow>, signature: seq<string>) {
    exists id :: id in known && known[id].signature == signature
  }

  ghost function KnownId(known: map<int, PatternRow>, signature: seq<string>): int
    requires IsKnown(known, signature)
  {
    var id :| id in known && known[id].signature == signature;
    id
  }

  predicate IsCall(s: State, l: Label) {
    HasPattern(s.sweep) && s.sweep.stage.Calling? && l.SweepCall?
  }

  predicate IsSave(s: State, l: Label) {
    HasPattern(s.sweep) && s.sweep.stage.Saving? && l.SweepSave?
  }

  /** The gate is asked again before every call, with the snapshot taken before the first. */
  predicate CallIsAllowed(w: Sweep)
    requires HasPattern(w) && w.stage.Calling?
  {
    Decision(w.stage.gate, w.stage.isLocal, w.run, CurrentPattern(w)) == Gate.Allow
  }

  function CallOf(w: Sweep, reply: Result<string, Gate.ProviderError>): Dispatch
    requires HasPattern(w) && w.stage.Calling?
  {
    Dispatch(w.run, w.next, CurrentPattern(w), w.stage.patternId, w.stage.isLocal,
             w.stage.gate, w.stage.gateReadAt, w.stage.attempt, reply)
  }

  function NewDispatch(s: State, l: Label): seq<Dispatch> {
    if IsCall(s, l) && CallIsAllowed(s.sweep) then [CallOf(s.sweep, l.reply)] else []
  }

  function NewSaving(s: State, l: Label): seq<(DetectedPattern, Synthesizer.Recommendation)> {
    if IsSave(s, l) then [(CurrentPattern(s.sweep), s.sweep.stage.recommendation)] else []
  }

  ghost function SweptStore(s: State, l: Label): StoreState {
    if s.sweep.Resting? && l.SweepBegin? then DeleteExpired(s.store, l.at)
    else if HasPattern(s.sweep) then
      var p, known := CurrentPattern(s.sweep), s.sweep.known;
      match s.sweep.stage
      case Choosing =>
        if !l.SweepNext? then s.store
        else if IsKnown(known, p.signature)
        then UpdateStats(s.store, KnownId(known, p.signature), p.lastSeenAt, p.occurrenceCount, p.minutesPerOccurrence)
        else InsertPatternRow(s.store, RowOf(p))
      case Inserted(id) => if l.SweepLink? then LinkEvents(s.store, id, p.contributingEventIds) else s.store
      case Saving(_, r) => if l.SweepSave? then InsertRecommendationRow(s.store, r) else s.store
      case _ => s.store
    else s.store
  }

  ghost function NextPhase(s: State, l: Label): Sweep {
    var w := s.sweep;
    match w
    case Resting => if l.SweepBegin? then Begun else w
    case Begun => if l.SweepReadPrivacy? then HasLevel(s.store.privacy.level, s.clock) else w
    case HasLevel(level, readAt) =>
      if !l.SweepListEvents? then w
      else if l.listing == [] then Resting
      else HasEvents(level, readAt, Reversed(l.listing))
    case HasEvents(level, readAt, events) =>
      if !l.SweepListPatterns? then w
      else if l.detected == [] then Resting
      else Working(SweepRun(level, readAt, events, l.detected), s.store.patterns, 0, Choosing)
    case Working(_, _, _, _) =>
      if HasPattern(w) then
        match NextStage(s, l)
        case Some(stage) => w.(stage := stage)
        case None => NextPattern(w)
      else if l.SweepNext? then Resting
      else w
  }

  /** The stage after one step with the pattern at hand; None when the sweep is done with it. */
  ghost function NextStage(s: State, l: Label): Option<Stage>
    requires HasPattern(s.sweep)
  {
    var w, stage := s.sweep, s.sweep.stage;
    match stage
    case Choosing =>
      if !l.SweepNext? then Some(stage)
      else if IsKnown(w.known, CurrentPattern(w).signature) then None
      else Some(Inserted(s.store.lastPatternId + 1))
    case Inserted(id) => Some(if l.SweepLink? then Linked(id) else stage)
    case Linked(id) =>
      if !l.SweepReadProvider? then Some(stage)
      else if Usable(ActiveProvider(s.store)) then Some(HasProvider(id, IsLocalProvider(ActiveProvider(s.store).value)))
      else None
    case HasProvider(id, isLocal) =>
      if !l.SweepSnapshotGate? then Some(stage)
      else if Decision(s.gate, isLocal, w.run, CurrentPattern(w)) == Gate.Allow
      then Some(Calling(id, isLocal, s.gate, s.clock, 0))
      else None
    case Calling(_, _, _, _, _) => if l.SweepCall? then AfterCall(w, l) else Some(stage)
    case Saving(_, _) => if l.SweepSave? then None else Some(stage)
  }

  /**
   One round of the retry loop: a refusal or a provider error ends it, an unusable reply
   is followed by another call while attempts are left.
   */
  function AfterCall(w: Sweep, l: Label): Option<Stage>
    requires HasPattern(w) && w.stage.Calling? && l.SweepCall?
  {
    if !CallIsAllowed(w) || l.reply.Err? then None
    else if l.built.Ok? then Some(Saving(w.stage.patternId, l.built.value))
    else if w.stage.attempt + 1 < MAX_ATTEMPTS then Some(w.stage.(attempt := w.stage.attempt + 1))
    else None
  }

  /** What the gated provider would answer to the call that this label makes. */
  function GatedAnswer(w: Sweep, l: Label): Result<string, Gate.GateError>
    requires HasPattern(w) && w.stage.Calling? && l.SweepCall?
  {
    Gate.CompleteIfAllowed(
      w.stage.gate, w.stage.isLocal, w.run.level, CONTENT_CLASS, CurrentPattern(w).containsVerbatimStrings, l.reply)
  }

  /**
   A call's step does what the retry loop does with the gated provider's answer: an error
   finishes the pattern; a text either builds a recommendation to save, or is followed by
   the next attempt, or by none.  It is on record exactly when the gate let it through.
   */
  lemma CallsGoThroughTheGatedProvider(s: State, l: Label)
    requires IsCall(s, l)
    ensures var w, stage, answer := s.sweep, s.sweep.stage, GatedAnswer(s.sweep, l);
      && (answer.Err? ==> NextPhase(s, l) == NextPattern(w))
      && (answer.Ok? && l.built.Ok? ==> NextPhase(s, l) == w.(stage := Saving(stage.patternId, l.built.value)))
      && (answer.Ok? && l.built.Err? && stage.attempt + 1 < MAX_ATTEMPTS ==>
            NextPhase(s, l) == w.(stage := stage.(attempt := stage.attempt + 1)))
      && (answer.Ok? && l.built.Err? && stage.attempt + 1 >= MAX_ATTEMPTS ==> NextPhase(s, l) == NextPattern(w))
      && (NewDispatch(s, l) == [] <==> answer.Err? && !answer.error.Provider?)
  {
  }

  /** Observation takes a started row, a level of at least 1 and the first or a later manifest. */
  lemma WhatAllowsObservation(p: PrivacyState)
    ensures MayObserve(p) <==> p.observationActive && p.level.Number() >= 1 && p.consentedManifestVersion >= 1
  {
  }

  /** A linked pattern gets a provider exactly when the active one names a model; only "ollama" is local. */
  lemma ProviderIsChosen(s: State)
    requires HasPattern(s.sweep) && s.sweep.stage.Linked?
    ensures var id, active := s.store.activeProvider, s.store.providers;
      NextStage(s, SweepReadProvider) ==
        if id.Some? && id.value in active && active[id.value].hasModel
        then Some(HasProvider(s.sweep.stage.patternId, active[id.value].providerType == "ollama"))
        else None
  {
  }

  // --- runs, step by step ---

  lemma RunLast(cfg: Config, trace: Trace)
    requires trace != []
    ensures Run(cfg, trace) == Next(cfg, Run(cfg, trace[..|trace| - 1]), trace[|trace| - 1])
  {
    var before, l := trace[..|trace| - 1], trace[|trace| - 1];
    assert RunOn(cfg, before, l) == OneStepOn(cfg, before, l);
    assert OneStepOn(cfg, before, l) == Next(cfg, Run(cfg, before), l);
  }

  lemma RunMore(cfg: Config, trace: Trace, l: Label)
    ensures Run(cfg, trace + [l]) == Next(cfg, Run(cfg, trace), l)
  {
    RunLast(cfg, trace + [l]);
    assert (trace + [l])[..|trace|] == trace;
  }

  /** Where a run continued from a state gets to. */
  ghost function RunFrom(cfg: Config, s: State, ls: Trace): State
    decreases |ls|, 0
  {
    if ls == [] then s else RunFromOn(cfg, s, ls[0], ls[1..])
  }

  ghost function RunFromOn(cfg: Config, s: State, l: Label, ls: Trace): State
    decreases |ls|, 2
  {
    OneStepFrom(cfg, s, l, ls)
  }

  ghost function OneStepFrom(cfg: Config, s: State, l: Label, ls: Trace): State
    decreases |ls|, 1
  {
    RunFrom(cfg, Next(cfg, s, l), ls)
  }

  lemma RunFromFirst(cfg: Config, s: State, ls: Trace)
    requires ls != []
    ensures RunFrom(cfg, s, ls) == RunFrom(cfg, Next(cfg, s, ls[0]), ls[1..])
  {
    assert RunFromOn(cfg, s, ls[0], ls[1..]) == OneStepFrom(cfg, s, ls[0], ls[1..]);
    assert OneStepFrom(cfg, s, ls[0], ls[1..]) == RunFrom(cfg, Next(cfg, s, ls[0]), ls[1..]);
  }

  lemma RunFromOne(cfg: Config, s: State, l: Label, ls: Trace)
    ensures RunFrom(cfg, s, [l] + ls) == RunFrom(cfg, Next(cfg, s, l), ls)
  {
    RunFromFirst(cfg, s, [l] + ls);
    assert ([l] + ls)[1..] == ls;
  }

  lemma {:induction false} RunContinues(cfg: Config, trace: Trace, ls: Trace)
    ensures Run(cfg, trace + ls) == RunFrom(cfg, Run(cfg, trace), ls)
    decreases |ls|
  {
    if ls == [] {
      assert trace + ls == trace;
    } else {
      RunMore(cfg, trace, ls[0]);
      RunFromFirst(cfg, Run(cfg, trace), ls);
      RunContinues(cfg, trace + [ls[0]], ls[1..]);
      assert trace + [ls[0]] + ls[1..] == trace + ls;
    }
  }

  lemma CommandStep(cfg: Config, s: State, l: Label)
    requires IsCommand(l)
    ensures Next(cfg, s, l) == AfterCommand(s, l).(clock := s.clock + 1)
  {
  }

  lemma TickStep(cfg: Config, s: State, l: Label)
    requires IsTick(l)
    ensures Next(cfg, s, l) == AfterTick(cfg, s, l).(clock := s.clock + 1)
  {
  }

  lemma RunCommand(cfg: Config, trace: Trace, l: Label)
    requires IsCommand(l)
    ensures Run(cfg, trace + [l]) == AfterCommand(Run(cfg, trace), l).(clock := Run(cfg, trace).clock + 1)
  {
    RunMore(cfg, trace, l);
    CommandStep(cfg, Run(cfg, trace), l);
  }

  // --- what a step can touch ---

  lemma SweepStep(cfg: Config, s: State, l: Label)
    requires IsSweep(cfg, s, l)
    ensures Next(cfg, s, l) == AfterSweep(s, l).(clock := s.clock + 1)
  {
  }

  /** Commands and ticks leave the sweep and its history alone, except that a restart ends it. */
  lemma OtherStep(cfg: Config, s: State, l: Label)
    requires !IsSweep(cfg, s, l)
    ensures var t := Next(cfg, s, l);
      && (t.sweep == s.sweep || t.sweep == Resting)
      && t.dispatches == s.dispatches && t.refusals == s.refusals && t.saved == s.saved
      && t.store.lastPatternId == s.store.lastPatternId
      && t.store.patterns == (if l.DeleteAllData? then map[] else s.store.patterns)
  {
  }

  lemma SweepLeaves(s: State, l: Label)
    ensures var t := AfterSweep(s, l);
      && t.store.privacy == s.store.privacy && t.store.cloudConsentSetting == s.store.cloudConsentSetting
      && t.store.providers == s.store.providers && t.store.activeProvider == s.store.activeProvider
      && t.gate == s.gate && t.pending == s.pending && t.pendingConsent == s.pendingConsent
      && t.observation == s.observation && t.capturedAt == s.capturedAt
  {
  }

  lemma SweepOnlyRemovesEvents(s: State, l: Label)
    ensures forall id :: id in SweptStore(s, l).events ==>
      id in s.store.events && SweptStore(s, l).events[id] == s.store.events[id]
  {
  }
}
