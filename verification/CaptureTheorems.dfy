/** Consent before capture: where every stored event comes from, over all runs. */
module CaptureTheorems {
  import opened Domain
  import opened EventStore
  import opened System
  import opened SystemTheorems
  import Pipeline

  /** Step j of the trace opened a tick, having read p, and p allowed observation. */
  ghost predicate OpenedTick(cfg: Config, trace: Trace, j: int, p: PrivacyState) {
    && 0 <= j < |trace| && trace[j] == TickRead
    && p == Run(cfg, trace[..j]).store.privacy && MayObserve(p)
  }

  /** The tick that stored e read the row at step j. */
  ghost predicate CapturedBy(cfg: Config, trace: Trace, e: EventSummary, j: int) {
    && (exists p :: OpenedTick(cfg, trace, j, p) && p.level == e.levelAtCapture)
    && Pipeline.RespectsLevel(e) && e.levelAtCapture != Manual
    && (e.ttlExpiresAt.Some? <==> e.levelAtCapture == MaximumAssistance && cfg.deepModeTtl.Some?)
  }

  ghost predicate Provenance(cfg: Config, trace: Trace, s: State) {
    && (s.observation.Ticking? ==> OpenedTick(cfg, trace, s.observation.readAt, s.observation.seen))
    && (forall id :: id in s.store.events ==>
          id in s.capturedAt && CapturedBy(cfg, trace, s.store.events[id], s.capturedAt[id]))
  }

  lemma LaterTracesRemember(cfg: Config, trace: Trace, l: Label, j: int, p: PrivacyState)
    requires OpenedTick(cfg, trace, j, p)
    ensures OpenedTick(cfg, trace + [l], j, p)
  {
    assert (trace + [l])[..j] == trace[..j];
  }

  lemma LaterTracesKeepCapture(cfg: Config, trace: Trace, l: Label, e: EventSummary, j: int)
    requires CapturedBy(cfg, trace, e, j)
    ensures CapturedBy(cfg, trace + [l], e, j)
  {
    var p :| OpenedTick(cfg, trace, j, p) && p.level == e.levelAtCapture;
    LaterTracesRemember(cfg, trace, l, j, p);
  }

  lemma LaterTracesKeepProvenance(cfg: Config, trace: Trace, l: Label, s: State)
    requires Provenance(cfg, trace, s)
    ensures Provenance(cfg, trace + [l], s)
  {
    if s.observation.Ticking? {
      LaterTracesRemember(cfg, trace, l, s.observation.readAt, s.observation.seen);
    }
    forall id | id in s.store.events ensures CapturedBy(cfg, trace + [l], s.store.events[id], s.capturedAt[id]) {
      LaterTracesKeepCapture(cfg, trace, l, s.store.events[id], s.capturedAt[id]);
    }
  }

  lemma StoringKeepsProvenance(cfg: Config, trace: Trace, s: State, l: Label)
    requires Provenance(cfg, trace, s) && l.TickStore?
    ensures Provenance(cfg, trace, AfterTick(cfg, s, l))
  {
    var t := AfterTick(cfg, s, l);
    if t != s {
      var p, j := s.observation.seen, s.observation.readAt;
      Pipeline.StoredEventsRespectTheLevel(cfg.engine, l.signal, p.level, l.now, l.deadline, l.event);
      var id := t.store.lastEventId;
      assert OpenedTick(cfg, trace, j, p) && p.level == t.store.events[id].levelAtCapture;
      assert CapturedBy(cfg, trace, t.store.events[id], j);
    }
  }

  lemma CommandKeepsProvenance(cfg: Config, trace: Trace, s: State, l: Label)
    requires Provenance(cfg, trace, s) && IsCommand(l)
    ensures Provenance(cfg, trace, AfterCommand(s, l))
  {
  }

  lemma ReadingKeepsProvenance(cfg: Config, trace: Trace, s: State)
    requires s == Run(cfg, trace) && s.clock == |trace| && Provenance(cfg, trace + [TickRead], s)
    ensures Provenance(cfg, trace + [TickRead], AfterTick(cfg, s, TickRead))
  {
    assert (trace + [TickRead])[..|trace|] == trace;
  }

  lemma SweepKeepsProvenance(cfg: Config, trace: Trace, s: State, l: Label)
    requires Provenance(cfg, trace, s)
    ensures Provenance(cfg, trace, AfterSweep(s, l))
  {
    SweepLeaves(s, l);
    SweepOnlyRemovesEvents(s, l);
  }

  lemma ClockDoesNotMatter(cfg: Config, trace: Trace, s: State, n: nat)
    requires Provenance(cfg, trace, s)
    ensures Provenance(cfg, trace, s.(clock := n))
  {
  }

  lemma StepKeepsProvenance(cfg: Config, trace: Trace, l: Label)
    requires Provenance(cfg, trace, Run(cfg, trace))
    ensures Provenance(cfg, trace + [l], Next(cfg, Run(cfg, trace), l))
  {
    var s := Run(cfg, trace);
    ClockCountsSteps(cfg, trace);
    LaterTracesKeepProvenance(cfg, trace, l, s);
    if IsCommand(l) {
      CommandKeepsProvenance(cfg, trace + [l], s, l);
      ClockDoesNotMatter(cfg, trace + [l], AfterCommand(s, l), s.clock + 1);
    } else if IsTick(l) {
      if l.TickRead? {
        ReadingKeepsProvenance(cfg, trace, s);
      } else if l.TickStore? {
        StoringKeepsProvenance(cfg, trace + [l], s, l);
      }
      ClockDoesNotMatter(cfg, trace + [l], AfterTick(cfg, s, l), s.clock + 1);
    } else {
      SweepKeepsProvenance(cfg, trace + [l], s, l);
      ClockDoesNotMatter(cfg, trace + [l], AfterSweep(s, l), s.clock + 1);
      ClockDoesNotMatter(cfg, trace + [l], s, s.clock + 1);
    }
  }

  lemma {:induction false} ProvenanceIsKept(cfg: Config, trace: Trace)
    ensures Provenance(cfg, trace, Run(cfg, trace))
  {
    if trace != [] {
      RunLast(cfg, trace);
      var init, l := trace[..|trace| - 1], trace[|trace| - 1];
      ProvenanceIsKept(cfg, init);
      StepKeepsProvenance(cfg, init, l);
      assert trace == init + [l];
    }
  }

  /**
   In every run, every stored event was captured by a tick whose opening read allowed
   observation at the event's own level; its signal is allowed at that level, and it
   expires exactly when that level is 4 and a retention window is configured.
   */
  lemma EveryEventHasAPermittedTick(cfg: Config, trace: Trace, id: int)
    requires id in Run(cfg, trace).store.events
    ensures id in Run(cfg, trace).capturedAt
    ensures CapturedBy(cfg, trace, Run(cfg, trace).store.events[id], Run(cfg, trace).capturedAt[id])
  {
    ProvenanceIsKept(cfg, trace);
  }

  lemma SerializedUpTo(trace: Trace, j: nat)
    requires Serialized(trace) && j <= |trace|
    ensures Serialized(trace[..j])
  {
    forall k | 0 <= k < j && Writes(trace[..j][k]) ensures Fresh(trace[..j][..k], trace[..j][k].caller) {
      assert trace[..j][..k] == trace[..k] && trace[..j][k] == trace[k];
    }
  }

  /** The tick that stored the event read the row with consent given and not since withdrawn. */
  ghost predicate HadConsent(trace: Trace, s: State, id: int)
    requires id in s.store.events
  {
    && id in s.capturedAt
    && var j := s.capturedAt[id];
    && 0 <= j < |trace| && trace[j] == TickRead
    && AcknowledgedSinceWipe(trace[..j]) && StartedSincePause(trace[..j])
    && AtomicPrivacy(trace[..j]).level == s.store.events[id].levelAtCapture != Manual
  }

  /**
   When no privacy command is overtaken, that read came after an acknowledgement of the
   manifest with no wipe in between, and after a start with no pause and no wipe in between.
   */
  lemma ConsentBeforeCapture(cfg: Config, trace: Trace, id: int)
    requires Serialized(trace) && id in Run(cfg, trace).store.events
    ensures HadConsent(trace, Run(cfg, trace), id)
  {
    EveryEventHasAPermittedTick(cfg, trace, id);
    var j := Run(cfg, trace).capturedAt[id];
    SerializedUpTo(trace, j);
    SerializedIsAtomic(cfg, trace[..j]);
    AtomicPrivacySummarizes(trace[..j]);
  }

  predicate Acknowledges(l: Label) {
    Writes(l) && l.command.AcknowledgeManifest?
  }

  predicate NeverAcknowledged(trace: Trace) {
    forall k :: 0 <= k < |trace| ==> !Acknowledges(trace[k])
  }

  /** Neither the row nor any value read from it, to be written back later, has a current manifest. */
  ghost predicate Unacknowledged(s: State) {
    && s.store.privacy.consentedManifestVersion < CURRENT_MANIFEST_VERSION
    && forall c :: c in s.pending ==> s.pending[c].consentedManifestVersion < CURRENT_MANIFEST_VERSION
  }

  lemma CommandKeepsUnacknowledged(s: State, l: Label)
    requires IsCommand(l) && Unacknowledged(s) && !Acknowledges(l)
    ensures Unacknowledged(AfterCommand(s, l))
  {
  }

  lemma StepKeepsUnacknowledged(cfg: Config, s: State, l: Label)
    requires Unacknowledged(s) && !Acknowledges(l)
    ensures Unacknowledged(Next(cfg, s, l))
  {
    if IsCommand(l) {
      CommandStep(cfg, s, l);
      CommandKeepsUnacknowledged(s, l);
    } else {
      OtherStepsLeavePrivacy(cfg, s, l);
    }
  }

  lemma {:induction false} RowStaysUnacknowledged(cfg: Config, trace: Trace)
    requires NeverAcknowledged(trace)
    ensures Unacknowledged(Run(cfg, trace))
  {
    if trace != [] {
      RunLast(cfg, trace);
      var init, l := trace[..|trace| - 1], trace[|trace| - 1];
      RowStaysUnacknowledged(cfg, init);
      StepKeepsUnacknowledged(cfg, Run(cfg, init), l);
    }
  }

  /** Until the manifest has been acknowledged once, no run stores anything, whatever overtakes what. */
  lemma NothingWithoutAcknowledgement(cfg: Config, trace: Trace)
    requires NeverAcknowledged(trace)
    ensures Run(cfg, trace).store.events == map[]
  {
    forall id ensures id !in Run(cfg, trace).store.events {
      if id in Run(cfg, trace).store.events {
        EveryEventHasAPermittedTick(cfg, trace, id);
        RowStaysUnacknowledged(cfg, trace[..Run(cfg, trace).capturedAt[id]]);
      }
    }
  }
}
