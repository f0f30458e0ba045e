/** What every run of the application keeps, for every interleaving of its steps. */
module SystemTheorems {
  import opened Domain
  import opened Wrappers
  import opened EventStore
  import opened System

  // ------------------------------------------------------------------------------------
  // Consistency of the store
  // ------------------------------------------------------------------------------------

  lemma CommandKeepsConsistency(s: State, l: Label)
    requires IsCommand(l) && Consistent(s.store)
    ensures Consistent(AfterCommand(s, l).store)
  {
  }

  lemma TickKeepsConsistency(cfg: Config, s: State, l: Label)
    requires IsTick(l) && Consistent(s.store)
    ensures Consistent(AfterTick(cfg, s, l).store)
  {
  }

  lemma SweepKeepsConsistency(s: State, l: Label)
    requires Consistent(s.store)
    ensures Consistent(SweptStore(s, l))
  {
    var w := s.sweep;
    if w.Resting? && l.SweepBegin? {
      RemovalKeepsConsistency(s.store, ExpiredIds(s.store, l.at));
    } else if HasPattern(w) {
      var p := CurrentPattern(w);
      match w.stage {
        case Choosing =>
          var id := if IsKnown(w.known, p.signature) then KnownId(w.known, p.signature) else 0;
          PatternChangesKeepConsistency(s.store, RowOf(p), id, p.lastSeenAt, p.occurrenceCount, p.minutesPerOccurrence);
        case Inserted(id) => LinkingKeepsConsistency(s.store, id, p.contributingEventIds);
        case Saving(_, r) => RecommendingKeepsConsistency(s.store, r);
        case _ =>
      }
    }
  }

  /** Links and recommendations never refer to rows that are gone, whatever was deleted meanwhile. */
  lemma {:induction false} StoreStaysConsistent(cfg: Config, trace: Trace)
    ensures Consistent(Run(cfg, trace).store)
  {
    if trace != [] {
      RunLast(cfg, trace);
      var s, l := Run(cfg, trace[..|trace| - 1]), trace[|trace| - 1];
      StoreStaysConsistent(cfg, trace[..|trace| - 1]);
      if IsCommand(l) {
        CommandKeepsConsistency(s, l);
      } else if IsTick(l) {
        TickKeepsConsistency(cfg, s, l);
      } else if IsSweep(cfg, s, l) {
        SweepKeepsConsistency(s, l);
      }
    }
  }

  lemma {:induction false} ClockCountsSteps(cfg: Config, trace: Trace)
    ensures Run(cfg, trace).clock == |trace|
  {
    if trace != [] {
      RunLast(cfg, trace);
      ClockCountsSteps(cfg, trace[..|trace| - 1]);
    }
  }

  // ------------------------------------------------------------------------------------
  // The privacy row: split commands against atomic ones
  // ------------------------------------------------------------------------------------

  predicate Writes(l: Label) {
    l.CommandWrite? && !Rejected(l.command)
  }

  predicate Interferes(l: Label) {
    Writes(l) || l.DeleteAllData? || l.Restart?
  }

  /** The caller's last read is still current: nothing has written the row since. */
  predicate Fresh(trace: Trace, caller: nat) {
    trace != []
    && (trace[|trace| - 1] == CommandRead(caller)
        || (!Interferes(trace[|trace| - 1]) && Fresh(trace[..|trace| - 1], caller)))
  }

  /** No privacy command was overtaken between its read and its write. */
  predicate Serialized(trace: Trace) {
    forall k :: 0 <= k < |trace| && Writes(trace[k]) ==> Fresh(trace[..k], trace[k].caller)
  }

  /** The privacy row if every command were a single step. */
  function AtomicPrivacy(trace: Trace): PrivacyState {
    if trace == [] then INITIAL_PRIVACY
    else
      var before, l := AtomicPrivacy(trace[..|trace| - 1]), trace[|trace| - 1];
      if Writes(l) then Apply(l.command, before)
      else if l.DeleteAllData? then INITIAL_PRIVACY
      else before
  }

  lemma OtherCommandsLeavePrivacy(s: State, l: Label)
    requires IsCommand(l)
    ensures !Writes(l) && !l.DeleteAllData? ==> AfterCommand(s, l).store.privacy == s.store.privacy
    ensures !Interferes(l) && !l.CommandRead? ==> AfterCommand(s, l).pending == s.pending
  {
  }

  /** Only privacy writes, the wipe and a restart touch the row or the values read from it. */
  lemma OtherStepsLeavePrivacy(cfg: Config, s: State, l: Label)
    ensures !Writes(l) && !l.DeleteAllData? ==> Next(cfg, s, l).store.privacy == s.store.privacy
    ensures !Interferes(l) && !l.CommandRead? ==> Next(cfg, s, l).pending == s.pending
  {
    if IsCommand(l) {
      CommandStep(cfg, s, l);
      OtherCommandsLeavePrivacy(s, l);
    } else if IsSweep(cfg, s, l) {
      SweepStep(cfg, s, l);
      SweepLeaves(s, l);
    }
  }

  lemma {:induction false} FreshReadIsCurrent(cfg: Config, trace: Trace, caller: nat)
    requires Fresh(trace, caller)
    ensures var s := Run(cfg, trace); caller in s.pending && s.pending[caller] == s.store.privacy
  {
    var init, l := trace[..|trace| - 1], trace[|trace| - 1];
    RunLast(cfg, trace);
    if l != CommandRead(caller) {
      FreshReadIsCurrent(cfg, init, caller);
      OtherStepsLeavePrivacy(cfg, Run(cfg, init), l);
    }
  }

  lemma SerializedPrefix(trace: Trace)
    requires Serialized(trace) && trace != []
    ensures Serialized(trace[..|trace| - 1])
    ensures Writes(trace[|trace| - 1]) ==> Fresh(trace[..|trace| - 1], trace[|trace| - 1].caller)
  {
    var init := trace[..|trace| - 1];
    forall k | 0 <= k < |init| && Writes(init[k]) ensures Fresh(init[..k], init[k].caller) {
      assert init[..k] == trace[..k] && init[k] == trace[k];
    }
  }

  /** Commands that are not overtaken behave as if read and write were one step. */
  lemma {:induction false} SerializedIsAtomic(cfg: Config, trace: Trace)
    requires Serialized(trace)
    ensures Run(cfg, trace).store.privacy == AtomicPrivacy(trace)
  {
    if trace != [] {
      RunLast(cfg, trace);
      var init, l := trace[..|trace| - 1], trace[|trace| - 1];
      SerializedPrefix(trace);
      SerializedIsAtomic(cfg, init);
      OtherStepsLeavePrivacy(cfg, Run(cfg, init), l);
      if Writes(l) {
        FreshReadIsCurrent(cfg, init, l.caller);
      }
    }
  }

  /** One write is lost-update free exactly when the fields it does not edit were read current. */
  lemma WriteIsAtomicExactly(cfg: Config, s: State, caller: nat, command: Command)
    requires caller in s.pending && !Rejected(command)
    ensures Next(cfg, s, CommandWrite(caller, command)).store.privacy == Apply(command, s.store.privacy)
       <==> var was, now := s.pending[caller], s.store.privacy;
            && (command.SetPrivacyLevel? || was.level == now.level)
            && (command.AcknowledgeManifest? || was.consentedManifestVersion == now.consentedManifestVersion)
            && (command.CompleteOnboarding? || command.PauseObservation? || command.ResumeObservation?
                || was.observationActive == now.observationActive)
  {
  }

  /** A reader of the row when observation was active still holds that after someone else pauses. */
  lemma PauseLeavesPendingReads(cfg: Config, trace: Trace, reader: nat, other: nat)
    requires reader != other && reader in Run(cfg, trace).pending
    ensures var t := trace + [CommandRead(other)] + [CommandWrite(other, PauseObservation)];
      && !Run(cfg, t).store.privacy.observationActive
      && reader in Run(cfg, t).pending && Run(cfg, t).pending[reader] == Run(cfg, trace).pending[reader]
  {
    RunCommand(cfg, trace, CommandRead(other));
    RunCommand(cfg, trace + [CommandRead(other)], CommandWrite(other, PauseObservation));
  }

  /** The pause is undone when that reader writes a level change. */
  lemma OvertakenPauseIsLost(
    cfg: Config, trace: Trace, reader: nat, other: nat, level: PrivacyLevel, floor: Option<PrivacyLevel>)
    requires reader != other && reader in Run(cfg, trace).pending && Run(cfg, trace).pending[reader].observationActive
    ensures var paused := trace + [CommandRead(other)] + [CommandWrite(other, PauseObservation)];
      var all := paused + [CommandWrite(reader, SetPrivacyLevel(level, true, floor))];
      && !Run(cfg, paused).store.privacy.observationActive
      && Run(cfg, all).store.privacy.observationActive
      && !AtomicPrivacy(all).observationActive
  {
    var write := CommandWrite(reader, SetPrivacyLevel(level, true, floor));
    var read := trace + [CommandRead(other)];
    var paused := read + [CommandWrite(other, PauseObservation)];
    PauseLeavesPendingReads(cfg, trace, reader, other);
    RunCommand(cfg, paused, write);
    AtomicPause(read, other, write);
  }

  lemma AtomicPause(trace: Trace, caller: nat, write: Label)
    requires Writes(write) && write.command.SetPrivacyLevel?
    ensures !AtomicPrivacy(trace + [CommandWrite(caller, PauseObservation)] + [write]).observationActive
  {
    var paused := trace + [CommandWrite(caller, PauseObservation)];
    assert paused[..|trace|] == trace && (paused + [write])[..|paused|] == paused;
    assert !AtomicPrivacy(paused).observationActive;
  }

  /** Such a reader exists as soon as observation has been started once. */
  lemma ReadersHoldTheRow(cfg: Config, trace: Trace, starter: nat, reader: nat)
    ensures var t := trace + [CommandRead(starter)] + [CommandWrite(starter, ResumeObservation)] + [CommandRead(reader)];
      reader in Run(cfg, t).pending && Run(cfg, t).pending[reader].observationActive
  {
    var read := trace + [CommandRead(starter)];
    var started := read + [CommandWrite(starter, ResumeObservation)];
    RunCommand(cfg, trace, CommandRead(starter));
    RunCommand(cfg, read, CommandWrite(starter, ResumeObservation));
    RunCommand(cfg, started, CommandRead(reader));
  }

  // --- the row as a summary of the commands so far ---

  /** The manifest was acknowledged after the last wipe. */
  predicate AcknowledgedSinceWipe(trace: Trace) {
    trace != []
    && (var l := trace[|trace| - 1];
        (Writes(l) && l.command.AcknowledgeManifest?)
        || (!l.DeleteAllData? && AcknowledgedSinceWipe(trace[..|trace| - 1])))
  }

  /** Observation was started after the last pause and the last wipe. */
  predicate StartedSincePause(trace: Trace) {
    trace != []
    && (var l := trace[|trace| - 1];
        (Writes(l) && (l.command.CompleteOnboarding? || l.command.ResumeObservation?))
        || (!l.DeleteAllData? && !(Writes(l) && l.command.PauseObservation?)
            && StartedSincePause(trace[..|trace| - 1])))
  }

  lemma {:induction false} AtomicPrivacySummarizes(trace: Trace)
    ensures AtomicPrivacy(trace).consentedManifestVersion >= CURRENT_MANIFEST_VERSION <==> AcknowledgedSinceWipe(trace)
    ensures AtomicPrivacy(trace).observationActive <==> StartedSincePause(trace)
  {
    if trace != [] {
      AtomicPrivacySummarizes(trace[..|trace| - 1]);
    }
  }

  /**
   A level change that names no permission never moves to an observing level unless a
   policy floor moves it there.
   */
  lemma UnacknowledgedLevels(requested: PrivacyLevel, acknowledgedAny: bool, floor: Option<PrivacyLevel>, p: PrivacyState)
    requires !Rejected(SetPrivacyLevel(requested, acknowledgedAny, floor))
    ensures !acknowledgedAny && Apply(SetPrivacyLevel(requested, acknowledgedAny, floor), p).level != Manual
       <==> !acknowledgedAny && requested == Manual && floor.Some? && floor.value != Manual
  {
  }

  const LEVELS := [Manual, ApplicationMetadata, WorkflowMetadata, ContextAware, MaximumAssistance]

  /** Of the requested level and a policy floor the higher one takes effect. */
  lemma HigherLevelTakesEffect(requested: nat, floor: nat)
    requires requested < 5 && floor < 5
    ensures EffectiveLevel(LEVELS[requested], Some(LEVELS[floor])) == LEVELS[if requested < floor then floor else requested]
    ensures EffectiveLevel(LEVELS[requested], None) == LEVELS[requested]
  {
  }
}
