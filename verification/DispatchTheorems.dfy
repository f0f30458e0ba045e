/** Every call to a provider, over all runs: who allowed it, how often, and what it was about. */
module DispatchTheorems {
  import opened Domain
  import opened EventStore
  import opened Detector
  import opened DetectorTheorems
  import opened System
  import opened SystemTheorems
  import opened ConsentTheorems
  import opened SweepTheorems
  import Gate
  import Synthesizer
  import Validate

  // ------------------------------------------------------------------------------------
  // The gate
  // ------------------------------------------------------------------------------------

  ghost predicate SoundDispatch(d: Dispatch) {
    && SoundRun(d.run) && d.pattern in d.run.detected
    && Decision(d.gate, d.isLocal, d.run, d.pattern) == Gate.Allow
    && d.gate.classes == {}
  }

  /** No command grants consent for a content class, so the running gate never holds one. */
  ghost predicate GateKept(s: State) {
    s.gate.classes == {} && s.refusals == 0 && RoundIsAllowed(s.sweep)
  }

  ghost predicate RoundIsAllowed(w: Sweep) {
    HasPattern(w) && w.stage.Calling? ==> CallIsAllowed(w) && w.stage.gate.classes == {}
  }

  lemma PhaseKeepsGate(s: State, l: Label)
    requires s.gate.classes == {} && RoundIsAllowed(s.sweep)
    ensures RoundIsAllowed(NextPhase(s, l))
  {
  }

  lemma StepKeepsGate(cfg: Config, s: State, l: Label)
    requires GateKept(s)
    ensures GateKept(Next(cfg, s, l))
  {
    if IsSweep(cfg, s, l) {
      PhaseKeepsGate(s, l);
      SweepStep(cfg, s, l);
      SweepLeaves(s, l);
    } else {
      OtherStep(cfg, s, l);
    }
  }

  ghost predicate DispatchesSound(s: State) {
    forall d :: d in s.dispatches ==> SoundDispatch(d)
  }

  lemma CallIsSound(s: State, l: Label)
    requires GateKept(s) && SoundSweep(s.sweep)
    ensures forall d :: d in NewDispatch(s, l) ==> SoundDispatch(d)
  {
    if IsCall(s, l) {
      assert CurrentPattern(s.sweep) in s.sweep.run.detected;
    }
  }

  lemma StepKeepsDispatches(cfg: Config, s: State, l: Label)
    requires GateKept(s) && SoundSweep(s.sweep) && DispatchesSound(s)
    ensures DispatchesSound(Next(cfg, s, l))
  {
    if IsSweep(cfg, s, l) {
      SweepStep(cfg, s, l);
      CallIsSound(s, l);
    } else {
      OtherStep(cfg, s, l);
    }
  }

  lemma {:induction false} GateHolds(cfg: Config, trace: Trace)
    ensures GateKept(Run(cfg, trace)) && DispatchesSound(Run(cfg, trace))
  {
    if trace != [] {
      RunLast(cfg, trace);
      var init := trace[..|trace| - 1];
      GateHolds(cfg, init);
      SweepsAreSound(cfg, init);
      StepKeepsGate(cfg, Run(cfg, init), trace[|trace| - 1]);
      StepKeepsDispatches(cfg, Run(cfg, init), trace[|trace| - 1]);
    }
  }

  /** Once the pre-flight check has allowed a pattern, the gate refuses none of its calls. */
  lemma NoCallIsRefused(cfg: Config, trace: Trace)
    ensures Run(cfg, trace).refusals == 0
  {
    GateHolds(cfg, trace);
  }

  // --- when the gate and the level were read ---

  ghost predicate LevelReadAt(cfg: Config, trace: Trace, j: int, level: PrivacyLevel) {
    0 <= j < |trace| && trace[j] == SweepReadPrivacy && Run(cfg, trace[..j]).store.privacy.level == level
  }

  ghost predicate GateReadAt(cfg: Config, trace: Trace, j: int, gate: Gate.Consents) {
    0 <= j < |trace| && trace[j] == SweepSnapshotGate && Run(cfg, trace[..j]).gate == gate
  }

  /** What a phase knows about the level it works with. */
  ghost predicate LevelRemembered(cfg: Config, trace: Trace, w: Sweep) {
    && (w.HasLevel? || w.HasEvents? ==> LevelReadAt(cfg, trace, w.levelReadAt, w.level))
    && (w.Working? ==> LevelReadAt(cfg, trace, w.run.levelReadAt, w.run.level))
  }

  /** What a round of calls knows about the gate it works with. */
  ghost predicate GateRemembered(cfg: Config, trace: Trace, w: Sweep) {
    w.Working? && w.stage.Calling? ==> GateReadAt(cfg, trace, w.stage.gateReadAt, w.stage.gate)
  }

  ghost predicate CallRemembered(cfg: Config, trace: Trace, d: Dispatch) {
    LevelReadAt(cfg, trace, d.run.levelReadAt, d.run.level) && GateReadAt(cfg, trace, d.gateReadAt, d.gate)
  }

  ghost predicate ReadsRemembered(cfg: Config, trace: Trace, w: Sweep, ds: seq<Dispatch>) {
    && LevelRemembered(cfg, trace, w) && GateRemembered(cfg, trace, w)
    && forall d :: d in ds ==> CallRemembered(cfg, trace, d)
  }

  lemma LaterTracesRead(cfg: Config, trace: Trace, l: Label, j: int, level: PrivacyLevel, gate: Gate.Consents)
    ensures LevelReadAt(cfg, trace, j, level) ==> LevelReadAt(cfg, trace + [l], j, level)
    ensures GateReadAt(cfg, trace, j, gate) ==> GateReadAt(cfg, trace + [l], j, gate)
  {
    if 0 <= j < |trace| {
      assert (trace + [l])[..j] == trace[..j];
    }
  }

  lemma LaterTracesRememberPhase(cfg: Config, trace: Trace, l: Label, w: Sweep)
    requires LevelRemembered(cfg, trace, w) && GateRemembered(cfg, trace, w)
    ensures LevelRemembered(cfg, trace + [l], w) && GateRemembered(cfg, trace + [l], w)
  {
    if w.HasLevel? || w.HasEvents? {
      LaterTracesRead(cfg, trace, l, w.levelReadAt, w.level, Gate.Consents(false, {}));
    } else if w.Working? && w.stage.Calling? {
      LaterTracesRead(cfg, trace, l, w.stage.gateReadAt, w.run.level, w.stage.gate);
      LaterTracesRead(cfg, trace, l, w.run.levelReadAt, w.run.level, w.stage.gate);
    } else if w.Working? {
      LaterTracesRead(cfg, trace, l, w.run.levelReadAt, w.run.level, Gate.Consents(false, {}));
    }
  }

  lemma LaterTracesRemember(cfg: Config, trace: Trace, l: Label, w: Sweep, ds: seq<Dispatch>)
    requires ReadsRemembered(cfg, trace, w, ds)
    ensures ReadsRemembered(cfg, trace + [l], w, ds)
  {
    LaterTracesRememberPhase(cfg, trace, l, w);
    forall d | d in ds ensures CallRemembered(cfg, trace + [l], d) {
      assert CallRemembered(cfg, trace, d);
      LaterTracesRead(cfg, trace, l, d.run.levelReadAt, d.run.level, d.gate);
      LaterTracesRead(cfg, trace, l, d.gateReadAt, d.run.level, d.gate);
    }
  }

  lemma PhaseRemembersLevel(s: State, l: Label)
    ensures var w, w' := s.sweep, NextPhase(s, l);
      && (w'.HasLevel? || w'.HasEvents? ==>
            || ((w.HasLevel? || w.HasEvents?) && w'.level == w.level && w'.levelReadAt == w.levelReadAt)
            || (l == SweepReadPrivacy && w'.level == s.store.privacy.level && w'.levelReadAt == s.clock))
      && (w'.Working? ==>
            || (w.Working? && w'.run == w.run)
            || (w.HasEvents? && w'.run.level == w.level && w'.run.levelReadAt == w.levelReadAt))
  {
  }

  lemma SnapshotIsTakenOnce(s: State, l: Label)
    ensures var w, w' := s.sweep, NextPhase(s, l);
      w'.Working? && w'.stage.Calling? && !(w.Working? && w'.stage == w.stage) ==>
        || (IsCall(s, l) && w'.stage == w.stage.(attempt := w.stage.attempt + 1))
        || (l == SweepSnapshotGate && w'.stage.gate == s.gate && w'.stage.gateReadAt == s.clock)
  {
  }

  lemma SweepRemembers(cfg: Config, trace: Trace, s: State, l: Label)
    requires s == Run(cfg, trace) && s.clock == |trace|
    requires ReadsRemembered(cfg, trace + [l], s.sweep, s.dispatches)
    ensures ReadsRemembered(cfg, trace + [l], NextPhase(s, l), s.dispatches + NewDispatch(s, l))
  {
    assert (trace + [l])[..|trace|] == trace && (trace + [l])[|trace|] == l;
    PhaseRemembersLevel(s, l);
    SnapshotIsTakenOnce(s, l);
  }

  lemma StepRemembers(cfg: Config, trace: Trace, l: Label)
    requires var s := Run(cfg, trace); ReadsRemembered(cfg, trace, s.sweep, s.dispatches)
    ensures var t := Next(cfg, Run(cfg, trace), l); ReadsRemembered(cfg, trace + [l], t.sweep, t.dispatches)
  {
    var s := Run(cfg, trace);
    ClockCountsSteps(cfg, trace);
    LaterTracesRemember(cfg, trace, l, s.sweep, s.dispatches);
    if IsSweep(cfg, s, l) {
      SweepStep(cfg, s, l);
      SweepRemembers(cfg, trace, s, l);
    } else {
      OtherStep(cfg, s, l);
    }
  }

  lemma {:induction false} ReadsAreRemembered(cfg: Config, trace: Trace)
    ensures ReadsRemembered(cfg, trace, Run(cfg, trace).sweep, Run(cfg, trace).dispatches)
  {
    if trace != [] {
      RunLast(cfg, trace);
      var init, l := trace[..|trace| - 1], trace[|trace| - 1];
      ReadsAreRemembered(cfg, init);
      StepRemembers(cfg, init, l);
      assert trace == init + [l];
    }
  }

  lemma CallWasGated(d: Dispatch)
    requires SoundDispatch(d) && !d.isLocal
    ensures d.gate.general && d.run.level.Number() < 4 && !d.pattern.containsVerbatimStrings
    ensures NoDomainIn(d.run.events, d.pattern.signature)
  {
    Gate.CloudDispatchNeedsConsent(d.gate, d.run.level, CONTENT_CLASS, d.pattern.containsVerbatimStrings);
    UnflaggedHasNoDomain(d.run, d.pattern);
  }

  /**
   Every call to a non-local provider, first attempt or retry, was made under a gate
   snapshot taken while a grant of consent was in force, at a level below 4 read by the
   same sweep, and for a pattern none of whose counted occurrences carries a browser
   domain: consent for that class of content cannot be given at all.
   */
  lemma CloudCallsAreGated(cfg: Config, trace: Trace, d: Dispatch)
    requires d in Run(cfg, trace).dispatches && !d.isLocal
    ensures GateReadAt(cfg, trace, d.gateReadAt, d.gate) && d.gate.general && GateConsent(trace[..d.gateReadAt])
    ensures LevelReadAt(cfg, trace, d.run.levelReadAt, d.run.level) && d.run.level.Number() < 4
    ensures !d.pattern.containsVerbatimStrings && NoDomainIn(d.run.events, d.pattern.signature)
  {
    GateHolds(cfg, trace);
    CallWasGated(d);
    ReadsAreRemembered(cfg, trace);
    assert CallRemembered(cfg, trace, d);
    ConsentIsTheLastWrite(cfg, trace[..d.gateReadAt]);
  }

  /** What the user or the observation loop can do while a round of calls is under way. */
  predicate LeavesRounds(ls: seq<Label>) {
    forall i :: 0 <= i < |ls| ==> (IsCommand(ls[i]) && !ls[i].Restart?) || IsTick(ls[i])
  }

  lemma {:induction false} RoundGoesOn(cfg: Config, trace: Trace, between: seq<Label>)
    requires LeavesRounds(between)
    ensures Run(cfg, trace + between).sweep == Run(cfg, trace).sweep
    ensures Run(cfg, trace + between).dispatches == Run(cfg, trace).dispatches
  {
    if between == [] {
      assert trace + between == trace;
    } else {
      var init, l := between[..|between| - 1], between[|between| - 1];
      RoundGoesOn(cfg, trace, init);
      RunMore(cfg, trace + init, l);
      assert trace + init + [l] == trace + between;
      OtherStepKeepsSweep(cfg, Run(cfg, trace + init), l);
    }
  }

  lemma OtherStepKeepsSweep(cfg: Config, s: State, l: Label)
    requires (IsCommand(l) && !l.Restart?) || IsTick(l)
    ensures Next(cfg, s, l).sweep == s.sweep && Next(cfg, s, l).dispatches == s.dispatches
  {
    if IsCommand(l) {
      CommandStep(cfg, s, l);
    } else {
      TickStep(cfg, s, l);
    }
  }

  /**
   Once a round has taken its snapshot, nothing but a restart stops its calls: after any
   commands and ticks, a revocation of consent or a wipe among them, the next call still
   goes out, under the old snapshot.
   */
  lemma RevocationDoesNotStopARound(cfg: Config, trace: Trace, between: seq<Label>, l: Label)
    requires var w := Run(cfg, trace).sweep; HasPattern(w) && w.stage.Calling?
    requires LeavesRounds(between) && l.SweepCall?
    requires IsFaithful(cfg, Run(cfg, trace + between), l)
    ensures Run(cfg, trace + between + [l]).dispatches
         == Run(cfg, trace).dispatches + [CallOf(Run(cfg, trace).sweep, l.reply)]
  {
    var s := Run(cfg, trace + between);
    RoundGoesOn(cfg, trace, between);
    GateHolds(cfg, trace);
    RunMore(cfg, trace + between, l);
    SweepStep(cfg, s, l);
  }

  ghost predicate NoDomainIn(events: History, signature: seq<string>) {
    forall s, j :: s in Kept(events, signature) && s <= j < s + |signature| && j < |events| ==> !CarriesDomain(events[j])
  }

  lemma UnflaggedHasNoDomain(run: SweepRun, p: DetectedPattern)
    requires SoundRun(run) && p in run.detected && !p.containsVerbatimStrings
    ensures NoDomainIn(run.events, p.signature)
  {
    forall s, j | s in Kept(run.events, p.signature) && s <= j < s + |p.signature| && j < |run.events|
      ensures !CarriesDomain(run.events[j])
    {
      FlagIsExact(DEFAULT_DETECTOR, run.events, run.detected, p, s);
      assert !KeyLooksVerbatim(run.events[j]);
    }
  }

  // ------------------------------------------------------------------------------------
  // How many calls
  // ------------------------------------------------------------------------------------

  /**
   Ids are handed to the sweep in order and each is finished before the next: while a
   pattern is at hand its id is the latest, and earlier calls about it are this round's.
   */
  ghost predicate CallsInOrder(w: Sweep, ds: seq<Dispatch>, last: nat) {
    && (forall i :: 0 <= i < |ds| ==> ds[i].patternId <= last && ds[i].attempt < MAX_ATTEMPTS)
    && (forall i, j :: 0 <= i < j < |ds| && ds[i].patternId == ds[j].patternId ==> Earlier(ds[i], ds[j]))
    && (w.Working? && !w.stage.Choosing? ==> w.stage.patternId == last && RoundInOrder(w, ds))
  }

  predicate Earlier(c: Dispatch, d: Dispatch) {
    c.attempt < d.attempt && c.gateReadAt == d.gateReadAt && c.pattern == d.pattern
  }

  predicate EarlierInRound(c: Dispatch, w: Sweep)
    requires HasPattern(w) && w.stage.Calling?
  {
    c.attempt < w.stage.attempt && c.gateReadAt == w.stage.gateReadAt && c.pattern == CurrentPattern(w)
  }

  ghost predicate RoundInOrder(w: Sweep, ds: seq<Dispatch>)
    requires w.Working? && !w.stage.Choosing?
  {
    && HasPattern(w)
    && (w.stage.Inserted? || w.stage.Linked? || w.stage.HasProvider? ==>
          forall i :: 0 <= i < |ds| ==> ds[i].patternId < w.stage.patternId)
    && (w.stage.Calling? ==>
          && w.stage.attempt < MAX_ATTEMPTS
          && forall i :: 0 <= i < |ds| && ds[i].patternId == w.stage.patternId ==> EarlierInRound(ds[i], w))
  }

  lemma CallKeepsOrder(s: State, l: Label)
    requires IsCall(s, l) && CallIsAllowed(s.sweep)
    requires CallsInOrder(s.sweep, s.dispatches, s.store.lastPatternId)
    ensures CallsInOrder(NextPhase(s, l), s.dispatches + [CallOf(s.sweep, l.reply)], s.store.lastPatternId)
  {
    var ds, d := s.dispatches, CallOf(s.sweep, l.reply);
    var all := ds + [d];
    assert forall i :: 0 <= i < |ds| ==> all[i] == ds[i];
  }

  lemma PhaseKeepsOrder(s: State, l: Label)
    requires !IsCall(s, l) && CallsInOrder(s.sweep, s.dispatches, s.store.lastPatternId)
    ensures CallsInOrder(NextPhase(s, l), s.dispatches, SweptStore(s, l).lastPatternId)
  {
  }

  lemma SweepKeepsOrder(s: State, l: Label)
    requires CallsInOrder(s.sweep, s.dispatches, s.store.lastPatternId) && RoundIsAllowed(s.sweep)
    ensures CallsInOrder(NextPhase(s, l), s.dispatches + NewDispatch(s, l), SweptStore(s, l).lastPatternId)
  {
    if IsCall(s, l) {
      CallKeepsOrder(s, l);
    } else {
      PhaseKeepsOrder(s, l);
      assert s.dispatches + [] == s.dispatches;
    }
  }

  ghost predicate StateInOrder(s: State) {
    CallsInOrder(s.sweep, s.dispatches, s.store.lastPatternId)
  }

  lemma StepKeepsOrder(cfg: Config, s: State, l: Label)
    requires StateInOrder(s) && GateKept(s)
    ensures StateInOrder(Next(cfg, s, l))
  {
    if IsSweep(cfg, s, l) {
      SweepStep(cfg, s, l);
      SweepKeepsOrder(s, l);
    } else {
      OtherStep(cfg, s, l);
    }
  }

  lemma {:induction false} CallsStayInOrder(cfg: Config, trace: Trace)
    ensures StateInOrder(Run(cfg, trace))
  {
    if trace != [] {
      RunLast(cfg, trace);
      var init := trace[..|trace| - 1];
      CallsStayInOrder(cfg, init);
      GateHolds(cfg, init);
      StepKeepsOrder(cfg, Run(cfg, init), trace[|trace| - 1]);
    }
  }

  /**
   Each inserted pattern leads to at most one round of calls: at most two, for the same
   pattern, under one gate snapshot, numbered 0 and 1 in the order they were made.
   */
  lemma AtMostOneRoundPerPattern(cfg: Config, trace: Trace, i: nat, j: nat)
    requires i < j < |Run(cfg, trace).dispatches|
    requires Run(cfg, trace).dispatches[i].patternId == Run(cfg, trace).dispatches[j].patternId
    ensures var ds := Run(cfg, trace).dispatches;
      && ds[i].pattern == ds[j].pattern && ds[i].gateReadAt == ds[j].gateReadAt
      && ds[i].attempt == 0 && ds[j].attempt == 1
  {
    CallsStayInOrder(cfg, trace);
  }

  // ------------------------------------------------------------------------------------
  // What is saved
  // ------------------------------------------------------------------------------------

  /** Trustworthy about its pattern, whose claim fits in the observed time. */
  ghost predicate Backed(cfg: Config, p: DetectedPattern, r: Synthesizer.Recommendation) {
    Synthesizer.Trustworthy(cfg.reader, r.patternId, p, r) && ClaimWithin(p, SLACK)
  }

  ghost predicate IsTrustworthyAbout(cfg: Config, w: Sweep, r: Synthesizer.Recommendation)
    requires HasPattern(w)
  {
    Synthesizer.Trustworthy(cfg.reader, r.patternId, CurrentPattern(w), r)
  }

  ghost predicate SavingIsTrustworthy(cfg: Config, w: Sweep) {
    HasPattern(w) && w.stage.Saving? ==> IsTrustworthyAbout(cfg, w, w.stage.recommendation)
  }

  ghost predicate SavingsBacked(cfg: Config, s: State) {
    (forall i :: 0 <= i < |s.saved| ==> Backed(cfg, s.saved[i].0, s.saved[i].1)) && SavingIsTrustworthy(cfg, s.sweep)
  }

  /** What a faithful reply builds is trustworthy about the pattern at hand. */
  lemma BuiltIsTrustworthy(cfg: Config, s: State, l: Label)
    requires IsCall(s, l) && l.reply.Ok? && l.built.Ok? && IsFaithful(cfg, s, l)
    ensures IsTrustworthyAbout(cfg, s.sweep, l.built.value)
  {
    Synthesizer.AcceptedIsTrustworthy(cfg.reader, s.sweep.stage.patternId, CurrentPattern(s.sweep), l.reply.value);
  }

  lemma PhaseKeepsSaving(cfg: Config, s: State, l: Label)
    requires SavingIsTrustworthy(cfg, s.sweep)
    requires IsCall(s, l) && l.reply.Ok? && l.built.Ok? ==> IsTrustworthyAbout(cfg, s.sweep, l.built.value)
    ensures SavingIsTrustworthy(cfg, NextPhase(s, l))
  {
  }

  lemma SavingIsBacked(cfg: Config, s: State, l: Label)
    requires SavingIsTrustworthy(cfg, s.sweep) && SoundSweep(s.sweep)
    ensures forall i :: 0 <= i < |NewSaving(s, l)| ==> Backed(cfg, NewSaving(s, l)[i].0, NewSaving(s, l)[i].1)
  {
    if IsSave(s, l) {
      var w := s.sweep;
      TimeIsBounded(DEFAULT_DETECTOR, w.run.events, w.run.detected, CurrentPattern(w), SLACK);
    }
  }

  lemma StepKeepsSavings(cfg: Config, s: State, l: Label)
    requires SavingsBacked(cfg, s) && SoundSweep(s.sweep)
    ensures SavingsBacked(cfg, Next(cfg, s, l))
  {
    if IsSweep(cfg, s, l) {
      SweepStep(cfg, s, l);
      if IsCall(s, l) && l.reply.Ok? && l.built.Ok? {
        BuiltIsTrustworthy(cfg, s, l);
      }
      PhaseKeepsSaving(cfg, s, l);
      SavingIsBacked(cfg, s, l);
    } else {
      OtherStep(cfg, s, l);
    }
  }

  /**
   In every run, whatever the providers answered, each recommendation's saving is the
   total its pattern claims, and that total fits in the observed time up to less than a
   second per occurrence; its confidence is a fraction, and no text of it contradicts the
   pattern's count.
   */
  lemma {:induction false} SavingsAreBacked(cfg: Config, trace: Trace)
    ensures SavingsBacked(cfg, Run(cfg, trace))
  {
    if trace != [] {
      RunLast(cfg, trace);
      var init := trace[..|trace| - 1];
      SavingsAreBacked(cfg, init);
      SweepsAreSound(cfg, init);
      StepKeepsSavings(cfg, Run(cfg, init), trace[|trace| - 1]);
    }
  }

  // --- the rows of the store ---

  ghost predicate WasSaved(s: State, r: Synthesizer.Recommendation) {
    exists i :: 0 <= i < |s.saved| && s.saved[i].1 == r
  }

  ghost predicate RowsWereSaved(s: State) {
    forall id :: id in s.store.recommendations ==> WasSaved(s, s.store.recommendations[id])
  }

  lemma SweepKeepsRowsSaved(s: State, l: Label)
    requires RowsWereSaved(s)
    ensures RowsWereSaved(AfterSweep(s, l))
  {
    var t := AfterSweep(s, l);
    forall id | id in t.store.recommendations ensures WasSaved(t, t.store.recommendations[id]) {
      if id in s.store.recommendations && s.store.recommendations[id] == t.store.recommendations[id] {
        var i :| 0 <= i < |s.saved| && s.saved[i].1 == s.store.recommendations[id];
        assert t.saved[i] == s.saved[i];
      } else {
        assert IsSave(s, l) && t.saved[|s.saved|].1 == t.store.recommendations[id];
      }
    }
  }

  lemma OtherStepKeepsRowsSaved(cfg: Config, s: State, l: Label)
    requires RowsWereSaved(s) && !IsSweep(cfg, s, l)
    ensures RowsWereSaved(Next(cfg, s, l))
  {
    OtherStep(cfg, s, l);
    OtherStepAddsNoRecommendation(cfg, s, l);
    var t := Next(cfg, s, l);
    forall id | id in t.store.recommendations ensures WasSaved(t, t.store.recommendations[id]) {
      assert WasSaved(s, s.store.recommendations[id]);
    }
  }

  lemma OtherStepAddsNoRecommendation(cfg: Config, s: State, l: Label)
    requires !IsSweep(cfg, s, l)
    ensures Next(cfg, s, l).store.recommendations == (if l.DeleteAllData? then map[] else s.store.recommendations)
  {
  }

  lemma {:induction false} StoredWereSaved(cfg: Config, trace: Trace)
    ensures RowsWereSaved(Run(cfg, trace))
  {
    if trace != [] {
      RunLast(cfg, trace);
      var s, l := Run(cfg, trace[..|trace| - 1]), trace[|trace| - 1];
      StoredWereSaved(cfg, trace[..|trace| - 1]);
      if IsSweep(cfg, s, l) {
        SweepStep(cfg, s, l);
        SweepKeepsRowsSaved(s, l);
      } else {
        OtherStepKeepsRowsSaved(cfg, s, l);
      }
    }
  }

  // --- the row a recommendation is stored for ---

  /** The row with this id, as long as there is one, is the pattern's. */
  ghost predicate NamesRow(store: StoreState, id: int, p: DetectedPattern) {
    id <= store.lastPatternId && (id in store.patterns ==> store.patterns[id].signature == p.signature)
  }

  ghost predicate RoundNamesRow(store: StoreState, w: Sweep) {
    HasPattern(w) && !w.stage.Choosing? ==>
      && NamesRow(store, w.stage.patternId, CurrentPattern(w))
      && (w.stage.Saving? ==> w.stage.recommendation.patternId == w.stage.patternId)
  }

  ghost predicate SavedNameRows(store: StoreState, saved: seq<(DetectedPattern, Synthesizer.Recommendation)>) {
    forall i :: 0 <= i < |saved| ==> NamesRow(store, saved[i].1.patternId, saved[i].0)
  }

  ghost predicate RowsNamed(s: State) {
    RoundNamesRow(s.store, s.sweep) && SavedNameRows(s.store, s.saved)
  }

  /** Rows are only added, under ids not used before, or removed: none changes its signature. */
  ghost predicate KeepsNames(s: StoreState, t: StoreState) {
    && s.lastPatternId <= t.lastPatternId
    && forall id :: id in t.patterns && id <= s.lastPatternId ==>
         id in s.patterns && t.patterns[id].signature == s.patterns[id].signature
  }

  lemma SweepKeepsNames(s: State, l: Label)
    ensures KeepsNames(s.store, SweptStore(s, l))
  {
  }

  lemma NamesAreKept(s: StoreState, t: StoreState, saved: seq<(DetectedPattern, Synthesizer.Recommendation)>)
    requires SavedNameRows(s, saved) && KeepsNames(s, t)
    ensures SavedNameRows(t, saved)
  {
  }

  lemma PhaseKeepsNames(s: State, l: Label)
    requires RoundNamesRow(s.store, s.sweep) && !IsCommand(l) && !IsTick(l)
    requires IsCall(s, l) && l.reply.Ok? && l.built.Ok? ==> l.built.value.patternId == s.sweep.stage.patternId
    ensures RoundNamesRow(SweptStore(s, l), NextPhase(s, l))
  {
    SweepKeepsNames(s, l);
  }

  lemma BuiltIsForTheRow(cfg: Config, s: State, l: Label)
    requires IsCall(s, l) && l.reply.Ok? && l.built.Ok? && IsFaithful(cfg, s, l)
    ensures l.built.value.patternId == s.sweep.stage.patternId
  {
    Synthesizer.AcceptedIsTrustworthy(cfg.reader, s.sweep.stage.patternId, CurrentPattern(s.sweep), l.reply.value);
  }

  lemma SweepKeepsRowsNamed(cfg: Config, s: State, l: Label)
    requires RowsNamed(s) && IsSweep(cfg, s, l)
    ensures RowsNamed(AfterSweep(s, l))
  {
    if IsCall(s, l) && l.reply.Ok? && l.built.Ok? {
      BuiltIsForTheRow(cfg, s, l);
    }
    PhaseKeepsNames(s, l);
    SweepKeepsNames(s, l);
    NamesAreKept(s.store, SweptStore(s, l), s.saved);
    assert IsSave(s, l) ==> NamesRow(SweptStore(s, l), s.sweep.stage.patternId, CurrentPattern(s.sweep));
  }

  lemma {:induction false} RowsStayNamed(cfg: Config, trace: Trace)
    ensures RowsNamed(Run(cfg, trace))
  {
    if trace != [] {
      RunLast(cfg, trace);
      var s, l := Run(cfg, trace[..|trace| - 1]), trace[|trace| - 1];
      RowsStayNamed(cfg, trace[..|trace| - 1]);
      if IsSweep(cfg, s, l) {
        SweepStep(cfg, s, l);
        SweepKeepsRowsNamed(cfg, s, l);
      } else {
        OtherStep(cfg, s, l);
        NamesAreKept(s.store, Next(cfg, s, l).store, s.saved);
      }
    }
  }

  /**
   Every stored recommendation was saved for a detected pattern that backs it, and the
   row it refers to is that pattern's.
   */
  lemma StoredAreBacked(cfg: Config, trace: Trace, id: int) returns (p: DetectedPattern)
    requires id in Run(cfg, trace).store.recommendations
    ensures var s := Run(cfg, trace);
      (p, s.store.recommendations[id]) in s.saved && Backed(cfg, p, s.store.recommendations[id])
    ensures var s := Run(cfg, trace);
      HasSignature(s.store, s.store.recommendations[id].patternId, p.signature)
  {
    StoredWereSaved(cfg, trace);
    SavingsAreBacked(cfg, trace);
    RowsStayNamed(cfg, trace);
    StoreStaysConsistent(cfg, trace);
    p := SavedFor(cfg, Run(cfg, trace), Run(cfg, trace).store.recommendations[id]);
  }

  predicate HasSignature(s: StoreState, id: int, signature: seq<string>) {
    id in s.patterns && s.patterns[id].signature == signature
  }

  lemma SavedFor(cfg: Config, s: State, r: Synthesizer.Recommendation) returns (p: DetectedPattern)
    requires WasSaved(s, r) && SavingsBacked(cfg, s)
    ensures (p, r) in s.saved && Backed(cfg, p, r)
  {
    var i :| 0 <= i < |s.saved| && s.saved[i].1 == r;
    p := s.saved[i].0;
    assert s.saved[i] == (p, r);
  }

  /**
   Whatever a stored recommendation says in words, the only count a text of it can name is
   its pattern's own.
   */
  lemma StoredTextsNameOnlyTheCount(cfg: Config, trace: Trace, id: int, text: string) returns (p: DetectedPattern)
    requires id in Run(cfg, trace).store.recommendations && cfg.reader.Sound()
    requires text in Synthesizer.Texts(Run(cfg, trace).store.recommendations[id])
    ensures (p, Run(cfg, trace).store.recommendations[id]) in Run(cfg, trace).saved
    ensures Validate.NamesOnly(cfg.reader.countWords(text), p.occurrenceCount)
  {
    p := StoredAreBacked(cfg, trace, id);
    var r := Run(cfg, trace).store.recommendations[id];
    Synthesizer.ShownTextsNameOnlyTheCount(cfg.reader, r.patternId, p, r, text);
  }
}
