/** What a wipe stops: exactly when nothing observed before it can come back after it. */
module WipeTheorems {
  import opened Domain
  import opened Rfc3339
  import opened Wrappers
  import opened EventStore
  import opened Detector
  import opened System
  import opened SweepTheorems
  import opened CaptureTheorems
  import opened Scenarios
  import DetectorTheorems
  import Gate
  import Pipeline

  ghost predicate IsBlank(s: StoreState) {
    s.events == map[] && s.patterns == map[] && s.links == {} && s.recommendations == map[]
  }

  /** The sweep holds something it can still insert: an unknown pattern, or events that contain one. */
  ghost predicate CanInsert(w: Sweep) {
    || (w.HasEvents? && exists sig :: Reported(DEFAULT_DETECTOR, w.events, sig))
    || (w.Working? && SomethingIsAhead(w))
  }

  ghost predicate SomethingIsAhead(w: Sweep)
    requires w.Working?
  {
    exists k :: FirstOpen(w) <= k < |w.run.detected| && !IsKnown(w.known, w.run.detected[k].signature)
  }

  /** No tick is under way, no sweep can insert, and no command holds a row with a current manifest. */
  ghost predicate IsSettled(s: State) {
    && s.observation == Waiting
    && !CanInsert(s.sweep)
    && forall c :: c in s.pending ==> s.pending[c].consentedManifestVersion < CURRENT_MANIFEST_VERSION
  }

  /** From here nothing can be stored before an acknowledgement. */
  ghost predicate IsStill(s: State) {
    IsBlank(s.store) && Unacknowledged(s) && s.observation == Waiting && !CanInsert(s.sweep)
  }

  // --- nothing comes back ---

  lemma CommandKeepsStill(s: State, l: Label)
    requires IsStill(s) && IsCommand(l) && !Acknowledges(l)
    ensures IsStill(AfterCommand(s, l))
  {
    CommandKeepsUnacknowledged(s, l);
  }

  lemma TickKeepsStill(cfg: Config, s: State, l: Label)
    requires IsStill(s) && IsTick(l)
    ensures AfterTick(cfg, s, l) == s
  {
  }

  lemma SweptStaysBlank(s: State, l: Label)
    requires IsStill(s)
    ensures IsBlank(SweptStore(s, l))
  {
    if HasPattern(s.sweep) {
      UnknownIsAhead(s.sweep);
    }
  }

  lemma UnknownIsAhead(w: Sweep)
    requires HasPattern(w)
    ensures w.stage.Choosing? && !IsKnown(w.known, CurrentPattern(w).signature) ==> SomethingIsAhead(w)
  {
    assert w.run.detected[w.next] == CurrentPattern(w);
  }

  lemma PhaseStaysHarmless(cfg: Config, s: State, l: Label)
    requires IsStill(s) && IsFaithful(cfg, s, l)
    ensures !CanInsert(NextPhase(s, l))
  {
    var w, w' := s.sweep, NextPhase(s, l);
    if w.Working? {
      RunIsCarried(s, l);
      assert w'.Working? ==> FirstOpen(w) <= FirstOpen(w');
    } else if w.HasEvents? && l.SweepListPatterns? {
      DetectedIsReported(w.events, l.detected);
    } else if w.HasLevel? && l.SweepListEvents? {
      assert |s.store.events| == 0;
    }
  }

  lemma DetectedIsReported(events: History, detected: seq<DetectedPattern>)
    requires IsDetection(DEFAULT_DETECTOR, events, detected)
    ensures detected != [] ==> exists sig :: Reported(DEFAULT_DETECTOR, events, sig)
  {
    if detected != [] {
      assert IsPatternOf(DEFAULT_DETECTOR, events, detected[0]);
    }
  }

  lemma StepKeepsStill(cfg: Config, s: State, l: Label)
    requires IsStill(s) && !Acknowledges(l)
    ensures IsStill(Next(cfg, s, l))
  {
    if IsCommand(l) {
      CommandStep(cfg, s, l);
      CommandKeepsStill(s, l);
    } else if IsTick(l) {
      TickStep(cfg, s, l);
      TickKeepsStill(cfg, s, l);
    } else if IsSweep(cfg, s, l) {
      SweepStep(cfg, s, l);
      SweepLeaves(s, l);
      SweptStaysBlank(s, l);
      PhaseStaysHarmless(cfg, s, l);
    }
  }

  lemma {:induction false} StillForGood(cfg: Config, s: State, ls: Trace)
    requires IsStill(s) && NeverAcknowledged(ls)
    ensures IsStill(RunFrom(cfg, s, ls))
    decreases |ls|
  {
    if ls != [] {
      RunFromFirst(cfg, s, ls);
      StepKeepsStill(cfg, s, ls[0]);
      StillForGood(cfg, Next(cfg, s, ls[0]), ls[1..]);
    }
  }

  // --- what can come back ---

  ghost predicate IsStoring(s: StoreState) {
    s.events != map[] || s.patterns != map[]
  }

  /** A tick that is under way can store an event, whatever the row says now. */
  lemma TickCanStore(cfg: Config, s: State, now: DateTime, deadline: Option<DateTime>) returns (ls: Trace)
    requires s.observation.Ticking? && s.observation.seen.level != Manual && IsDeadline(cfg, now, deadline)
    ensures NeverAcknowledged(ls) && IsStoring(RunFrom(cfg, s, ls).store)
  {
    var event := Pipeline.NamelessFocus(s.observation.seen.level, now, deadline);
    var l := TickStore(Pipeline.CapturedSignal("", Pipeline.AppFocus("")), now, deadline, event);
    Pipeline.SomethingIsStored(cfg.engine, s.observation.seen.level, now, deadline);
    TickStep(cfg, s, l);
    ls := [l];
    RunFromOne(cfg, s, l, []);
    assert [l] + [] == [l];
    assert s.store.lastEventId + 1 in Next(cfg, s, l).store.events;
  }

  /** With an observing level and a current manifest, resuming is enough to open a tick. */
  lemma ResumingOpensATick(cfg: Config, s: State, c: nat) returns (ls: Trace)
    requires s.observation == Waiting && s.store.privacy.level != Manual
    requires s.store.privacy.consentedManifestVersion >= CURRENT_MANIFEST_VERSION
    ensures NeverAcknowledged(ls)
    ensures var t := RunFrom(cfg, s, ls); t.observation.Ticking? && t.observation.seen.level != Manual
  {
    var resume := CommandWrite(c, ResumeObservation);
    ls := [CommandRead(c)] + ([resume] + ([TickRead] + []));
    var s1 := AfterCommand(s, CommandRead(c)).(clock := s.clock + 1);
    var s2 := AfterCommand(s1, resume).(clock := s.clock + 2);
    CommandFirst(cfg, s, CommandRead(c), [resume] + ([TickRead] + []));
    CommandFirst(cfg, s1, resume, [TickRead] + []);
    TickCanStart(cfg, s2);
  }

  /** A level change that was read before a wipe brings the old manifest version back. */
  lemma PendingReadCanObserve(cfg: Config, s: State, c: nat) returns (ls: Trace)
    requires c in s.pending && s.pending[c].consentedManifestVersion >= CURRENT_MANIFEST_VERSION
    requires s.observation == Waiting
    ensures NeverAcknowledged(ls)
    ensures var t := RunFrom(cfg, s, ls); t.observation.Ticking? && t.observation.seen.level != Manual
  {
    var change := CommandWrite(c, SetPrivacyLevel(ApplicationMetadata, true, None));
    var rest := ResumingOpensATick(cfg, AfterCommand(s, change).(clock := s.clock + 1), c);
    CommandFirst(cfg, s, change, rest);
    ls := [change] + rest;
  }

  lemma CommandFirst(cfg: Config, s: State, l: Label, ls: Trace)
    requires IsCommand(l)
    ensures RunFrom(cfg, s, [l] + ls) == RunFrom(cfg, AfterCommand(s, l).(clock := s.clock + 1), ls)
  {
    RunFromOne(cfg, s, l, ls);
    CommandStep(cfg, s, l);
  }

  lemma TickCanStart(cfg: Config, s: State)
    requires s.observation == Waiting && MayObserve(s.store.privacy)
    ensures var t := RunFrom(cfg, s, [TickRead] + []);
      t.observation.Ticking? && t.observation.seen == s.store.privacy
  {
    RunFromOne(cfg, s, TickRead, []);
    TickStep(cfg, s, TickRead);
  }

  // --- a sweep that holds a snapshot ---

  /** The step that gets a sweep on with the pattern at hand, with a provider that fails. */
  function Onward(w: Sweep): Label
    requires HasPattern(w)
  {
    match w.stage
    case Choosing => SweepNext
    case Inserted(_) => SweepLink
    case Linked(_) => SweepReadProvider
    case HasProvider(_, _) => SweepSnapshotGate
    case Calling(_, _, _, _, _) => SweepCall(Err(Gate.Request("")), Err(""))
    case Saving(_, _) => SweepSave
  }

  function Rank(stage: Stage): nat {
    match stage
    case Choosing => 0
    case Inserted(_) => 4
    case Linked(_) => 3
    case HasProvider(_, _) => 2
    case Calling(_, _, _, _, _) => 1
    case Saving(_, _) => 1
  }

  lemma OnwardGetsOn(cfg: Config, s: State)
    requires HasPattern(s.sweep)
    requires s.sweep.stage.Choosing? ==> IsKnown(s.sweep.known, CurrentPattern(s.sweep).signature)
    ensures IsSweep(cfg, s, Onward(s.sweep))
    ensures var w, w' := s.sweep, NextPhase(s, Onward(s.sweep));
      w' == NextPattern(w)
      || (w'.Working? && w'.run == w.run && w'.known == w.known && w'.next == w.next
          && !w.stage.Choosing? && !w'.stage.Choosing? && Rank(w'.stage) < Rank(w.stage))
  {
  }

  /** Getting on keeps ahead what was ahead, unless it inserts. */
  lemma AheadStaysAhead(w: Sweep, w': Sweep)
    requires HasPattern(w) && SomethingIsAhead(w)
    requires w.stage.Choosing? ==> IsKnown(w.known, CurrentPattern(w).signature)
    requires w' == NextPattern(w) || (w'.Working? && w'.run == w.run && w'.known == w.known && w'.next == w.next
                                      && !w.stage.Choosing? && !w'.stage.Choosing?)
    ensures SomethingIsAhead(w')
  {
    var k :| FirstOpen(w) <= k < |w.run.detected| && !IsKnown(w.known, w.run.detected[k].signature);
    assert FirstOpen(w') <= k;
  }

  lemma InsertsAtOnce(cfg: Config, s: State)
    requires HasPattern(s.sweep) && s.sweep.stage.Choosing?
    requires !IsKnown(s.sweep.known, CurrentPattern(s.sweep).signature)
    ensures IsStoring(RunFrom(cfg, s, [SweepNext] + []).store)
  {
    RunFromOne(cfg, s, SweepNext, []);
    InsertingAddsARow(cfg, s, SweepNext);
    assert s.store.lastPatternId + 1 in Next(cfg, s, SweepNext).store.patterns;
  }

  lemma AheadHasPattern(w: Sweep)
    requires w.Working? && SomethingIsAhead(w)
    ensures HasPattern(w)
  {
  }

  /** A sweep with an unknown pattern ahead can insert it, whatever has been wiped meanwhile. */
  lemma {:induction false} SweepCanInsert(cfg: Config, s: State) returns (ls: Trace)
    requires s.sweep.Working? && SomethingIsAhead(s.sweep)
    ensures NeverAcknowledged(ls) && IsStoring(RunFrom(cfg, s, ls).store)
    decreases |s.sweep.run.detected| - s.sweep.next, Rank(s.sweep.stage)
  {
    var w := s.sweep;
    AheadHasPattern(w);
    if w.stage.Choosing? && !IsKnown(w.known, CurrentPattern(w).signature) {
      InsertsAtOnce(cfg, s);
      ls := [SweepNext] + [];
    } else {
      var l := Onward(w);
      OnwardGetsOn(cfg, s);
      SweepStep(cfg, s, l);
      AheadStaysAhead(w, NextPhase(s, l));
      var rest := SweepCanInsert(cfg, Next(cfg, s, l));
      RunFromOne(cfg, s, l, rest);
      ls := [l] + rest;
    }
  }

  /** So can one that has listed events with a pattern in them, once the rows are gone. */
  lemma ListedEventsCanInsert(cfg: Config, s: State) returns (ls: Trace)
    requires s.sweep.HasEvents? && CanInsert(s.sweep) && s.store.patterns == map[]
    ensures NeverAcknowledged(ls) && IsStoring(RunFrom(cfg, s, ls).store)
  {
    var detected := DetectorTheorems.DetectionExists(DEFAULT_DETECTOR, s.sweep.events);
    var l := SweepListPatterns(detected);
    var sig :| Reported(DEFAULT_DETECTOR, s.sweep.events, sig);
    assert detected != [];
    SweepStep(cfg, s, l);
    var w := NextPhase(s, l);
    assert w.known == map[] && FirstOpen(w) == 0 && !IsKnown(w.known, w.run.detected[0].signature);
    var rest := SweepCanInsert(cfg, Next(cfg, s, l));
    RunFromOne(cfg, s, l, rest);
    ls := [l] + rest;
  }

  // --- main result ---

  /** No event, pattern, link or recommendation appears after a wipe before the next acknowledgement. */
  ghost predicate WipeIsFinal(cfg: Config, trace: Trace) {
    forall ls :: NeverAcknowledged(ls) ==> IsBlank(Run(cfg, trace + [DeleteAllData] + ls).store)
  }

  /** Some date can be extended by the retention window. */
  ghost predicate RetentionFits(cfg: Config) {
    exists now, deadline :: IsDeadline(cfg, now, deadline)
  }

  lemma {:induction false} RunFromConcat(cfg: Config, s: State, a: Trace, b: Trace)
    ensures RunFrom(cfg, s, a + b) == RunFrom(cfg, RunFrom(cfg, s, a), b)
    decreases |a|
  {
    if a == [] {
      assert a + b == b;
    } else {
      var l, rest := a[0], a[1..];
      assert a == [l] + rest && a + b == [l] + (rest + b);
      RunFromOne(cfg, s, l, rest);
      RunFromOne(cfg, s, l, rest + b);
      RunFromConcat(cfg, Next(cfg, s, l), rest, b);
    }
  }

  lemma PendingReadCanStore(cfg: Config, s: State, c: nat, now: DateTime, deadline: Option<DateTime>) returns (ls: Trace)
    requires c in s.pending && s.pending[c].consentedManifestVersion >= CURRENT_MANIFEST_VERSION
    requires s.observation == Waiting && IsDeadline(cfg, now, deadline)
    ensures NeverAcknowledged(ls) && IsStoring(RunFrom(cfg, s, ls).store)
  {
    var opening := PendingReadCanObserve(cfg, s, c);
    var storing := TickCanStore(cfg, RunFrom(cfg, s, opening), now, deadline);
    RunFromConcat(cfg, s, opening, storing);
    ls := opening + storing;
  }

  /** From a state that is not settled, something does come back. */
  lemma SomethingComesBack(cfg: Config, s: State) returns (ls: Trace)
    requires RetentionFits(cfg) && !IsSettled(s) && s.store.patterns == map[]
    requires s.observation.Ticking? ==> s.observation.seen.level != Manual
    ensures NeverAcknowledged(ls) && IsStoring(RunFrom(cfg, s, ls).store)
  {
    var now, deadline :| IsDeadline(cfg, now, deadline);
    if s.observation.Ticking? {
      ls := TickCanStore(cfg, s, now, deadline);
    } else if s.sweep.Working? && CanInsert(s.sweep) {
      ls := SweepCanInsert(cfg, s);
    } else if s.sweep.HasEvents? && CanInsert(s.sweep) {
      ls := ListedEventsCanInsert(cfg, s);
    } else {
      var c: nat :| c in s.pending && s.pending[c].consentedManifestVersion >= CURRENT_MANIFEST_VERSION;
      ls := PendingReadCanStore(cfg, s, c, now, deadline);
    }
  }

  lemma WipedState(cfg: Config, trace: Trace)
    ensures var s, w := Run(cfg, trace), Run(cfg, trace + [DeleteAllData]);
      && w.store == DeleteAll(s.store) && w.observation == s.observation && w.sweep == s.sweep && w.pending == s.pending
    ensures IsSettled(Run(cfg, trace + [DeleteAllData])) <==> IsSettled(Run(cfg, trace))
  {
    RunCommand(cfg, trace, DeleteAllData);
  }

  /**
   A wipe is final exactly when no tick is under way, no sweep holds a snapshot it can
   still insert from, and no privacy command holds a row with a current manifest.
   */
  lemma WipeIsFinalExactly(cfg: Config, trace: Trace)
    requires RetentionFits(cfg)
    ensures WipeIsFinal(cfg, trace) <==> IsSettled(Run(cfg, trace))
  {
    var wiped := trace + [DeleteAllData];
    WipedState(cfg, trace);
    if IsSettled(Run(cfg, trace)) {
      forall ls | NeverAcknowledged(ls) ensures IsBlank(Run(cfg, wiped + ls).store) {
        RunContinues(cfg, wiped, ls);
        StillForGood(cfg, Run(cfg, wiped), ls);
      }
    } else {
      ProvenanceIsKept(cfg, trace);
      var ls := SomethingComesBack(cfg, Run(cfg, wiped));
      RunContinues(cfg, wiped, ls);
      assert !IsBlank(Run(cfg, wiped + ls).store);
    }
  }

  /** The window the program ships with, 90 days, fits. */
  lemma DefaultRetentionFits(cfg: Config)
    requires cfg.deepModeTtl == Some(DEFAULT_DEEP_MODE_TTL)
    ensures RetentionFits(cfg)
  {
    var now, deadline := DefaultRetention(cfg);
  }

  // --- two runs ---

  lemma WipeIt(cfg: Config, trace: Trace)
    ensures var s, t := Run(cfg, trace), Run(cfg, trace + [DeleteAllData]);
      && t.store == DeleteAll(s.store) && t.observation == s.observation && t.sweep == s.sweep
  {
    RunCommand(cfg, trace, DeleteAllData);
  }

  /** An event is captured in a tick that began before a wipe: consent is withdrawn, and it is stored. */
  lemma TickOutlivesAWipe(cfg: Config, l: Label, level: PrivacyLevel) returns (trace: Trace)
    requires level != Manual && IsCapture(cfg, l, level)
    ensures var s := Run(cfg, trace);
      !MayObserve(s.store.privacy) && s.store.events == map[1 := l.event.(id := Some(1))]
    ensures |trace| > 2 && trace[|trace| - 2..] == [DeleteAllData, l]
  {
    var observing := StartObserving(cfg, [], level);
    OpenTick(cfg, observing);
    var ticking := observing + [TickRead];
    WipeIt(cfg, ticking);
    Capture(cfg, ticking + [DeleteAllData], l);
    trace := ticking + [DeleteAllData] + [l];
  }

  lemma UnknownComesBack(cfg: Config, trace: Trace)
    requires HasPattern(Run(cfg, trace).sweep) && Run(cfg, trace).sweep.stage.Choosing?
    requires !IsKnown(Run(cfg, trace).sweep.known, CurrentPattern(Run(cfg, trace).sweep).signature)
    requires Run(cfg, trace).store.patterns == map[]
    ensures var s, t := Run(cfg, trace), Run(cfg, trace + [SweepNext]);
      t.store == s.store.(patterns := map[s.store.lastPatternId + 1 := RowOf(CurrentPattern(s.sweep))],
                          lastPatternId := s.store.lastPatternId + 1)
  {
    RunMore(cfg, trace, SweepNext);
    InsertingAddsARow(cfg, Run(cfg, trace), SweepNext);
  }

  /** The next unknown pattern of a sweep is written into the store that a wipe has just emptied. */
  lemma SweepWritesAfterAWipe(cfg: Config, trace: Trace)
    requires HasPattern(Run(cfg, trace).sweep) && Run(cfg, trace).sweep.stage.Choosing?
    requires !IsKnown(Run(cfg, trace).sweep.known, CurrentPattern(Run(cfg, trace).sweep).signature)
    ensures var s, t := Run(cfg, trace), Run(cfg, trace + [DeleteAllData] + [SweepNext]);
      && t.store.events == map[] && !MayObserve(t.store.privacy)
      && t.store.patterns == map[s.store.lastPatternId + 1 := RowOf(CurrentPattern(s.sweep))]
  {
    WipeIt(cfg, trace);
    UnknownComesBack(cfg, trace + [DeleteAllData]);
  }

  /** A run in which the keys of deleted events, app names and domains, are written back that way. */
  lemma SweepOutlivesAWipe(cfg: Config, l: Label, level: PrivacyLevel) returns (trace: Trace)
    requires level != Manual && IsCapture(cfg, l, level) && IsLater(l.event.ttlExpiresAt, l.now)
    ensures var s := Run(cfg, trace);
      && s.store.events == map[] && !MayObserve(s.store.privacy) && 1 in s.store.patterns
      && s.store.patterns[1].signature == [ActionKey(l.event), ActionKey(l.event)]
    ensures |trace| > 2 && trace[|trace| - 2..] == [DeleteAllData, SweepNext]
  {
    var found := SweepUpToThePattern(cfg, l, level);
    FirstSignatureComesBack(cfg, found, [ActionKey(l.event), ActionKey(l.event)]);
    trace := found + [DeleteAllData] + [SweepNext];
  }

  lemma FirstSignatureComesBack(cfg: Config, found: Trace, signature: seq<string>)
    requires HasPattern(Run(cfg, found).sweep) && Run(cfg, found).sweep.stage.Choosing?
    requires Run(cfg, found).sweep.known == map[] && Run(cfg, found).store.lastPatternId == 0
    requires CurrentPattern(Run(cfg, found).sweep).signature == signature
    ensures var s := Run(cfg, found + [DeleteAllData] + [SweepNext]);
      && s.store.events == map[] && !MayObserve(s.store.privacy) && 1 in s.store.patterns
      && s.store.patterns[1].signature == signature
  {
    SweepWritesAfterAWipe(cfg, found);
    FirstRow(Run(cfg, found).store, CurrentPattern(Run(cfg, found).sweep));
  }

  lemma FirstRow(s: StoreState, p: DetectedPattern)
    requires s.lastPatternId == 0
    ensures var rows := map[s.lastPatternId + 1 := RowOf(p)]; 1 in rows && rows[1].signature == p.signature
  {
  }

  lemma SweepUpToThePattern(cfg: Config, l: Label, level: PrivacyLevel) returns (trace: Trace)
    requires level != Manual && IsCapture(cfg, l, level) && IsLater(l.event.ttlExpiresAt, l.now)
    ensures var s := Run(cfg, trace);
      && HasPattern(s.sweep) && s.sweep.stage.Choosing? && s.sweep.known == map[] && s.store.lastPatternId == 0
      && CurrentPattern(s.sweep).signature == [ActionKey(l.event), ActionKey(l.event)]
  {
    var observing := StartObserving(cfg, [], level);
    var captured := TickSix(cfg, observing, l);
    var begun := ReadLevel(cfg, captured, l.now);
    trace := FindThePattern(cfg, begun, l.event);
  }
}
