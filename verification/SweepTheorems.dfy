/**
 The recommendation loop over all runs: one row per signature, at most one round of calls
 per row, every call allowed by the gate, every saved figure backed by observed time.
 */
module SweepTheorems {
  import opened Domain
  import opened Rfc3339
  import opened EventStore
  import opened Detector
  import opened DetectorTheorems
  import opened System
  import opened SystemTheorems
  import Occurrences

  /** Disorder left in a listing sorted by stored text: less than a second. */
  const SLACK: nat := NANOS_PER_SECOND - 1

  /** The run's patterns are a detection over a history that is oldest first to the second. */
  ghost predicate SoundRun(run: SweepRun) {
    IsDetection(DEFAULT_DETECTOR, run.events, run.detected) && OldestFirst(Times(run.events), SLACK)
  }

  ghost predicate SoundSweep(w: Sweep) {
    && (w.HasEvents? ==> OldestFirst(Times(w.events), SLACK))
    && (w.Working? ==> SoundRun(w.run) && (w.stage.Choosing? || HasPattern(w)))
  }

  lemma ListingIsInOrder(s: StoreState, listing: seq<EventSummary>)
    requires IsRecentListing(s, EVENT_HISTORY_LIMIT, listing)
    ensures OldestFirst(Times(Reversed(listing)), SLACK)
  {
    var times := Times(Reversed(listing));
    forall i, j | 0 <= i < j < |times| ensures times[i] <= times[j] + SLACK {
      ListingIsNearlyOldestFirst(s, EVENT_HISTORY_LIMIT, listing, i, j);
    }
  }

  /** Within a sweep the run and the snapshot of known rows never change. */
  lemma RunIsCarried(s: State, l: Label)
    requires s.sweep.Working?
    ensures var w, w' := s.sweep, NextPhase(s, l);
      && (w' == Resting || w'.Working?)
      && (w'.Working? ==> w'.run == w.run && w'.known == w.known)
      && (w'.Working? ==> (w'.next == w.next && (HasPattern(w) || w' == w)) || (w'.next == w.next + 1 && w'.stage.Choosing?))
  {
  }

  lemma PhaseKeepsSound(cfg: Config, s: State, l: Label)
    requires SoundSweep(s.sweep) && IsFaithful(cfg, s, l)
    ensures SoundSweep(NextPhase(s, l))
  {
    var w := s.sweep;
    if w.Working? {
      RunIsCarried(s, l);
    } else if w.HasEvents? && l.SweepListPatterns? && l.detected != [] {
      assert SoundRun(NextPhase(s, l).run);
    } else if w.HasLevel? && l.SweepListEvents? {
      ListingIsInOrder(s.store, l.listing);
    }
  }

  lemma {:induction false} SweepsAreSound(cfg: Config, trace: Trace)
    ensures SoundSweep(Run(cfg, trace).sweep)
  {
    if trace != [] {
      RunLast(cfg, trace);
      var s, l := Run(cfg, trace[..|trace| - 1]), trace[|trace| - 1];
      SweepsAreSound(cfg, trace[..|trace| - 1]);
      if IsSweep(cfg, s, l) {
        PhaseKeepsSound(cfg, s, l);
        SweepStep(cfg, s, l);
      } else {
        OtherStep(cfg, s, l);
      }
    }
  }

  /** A sweep works on the latest two thousand events, or on all there are. */
  lemma SweepsListTheLatest(cfg: Config, s: State, l: Label)
    requires s.sweep.HasLevel? && l.SweepListEvents? && IsSweep(cfg, s, l)
    ensures |l.listing| == if |s.store.events| < 2000 then |s.store.events| else 2000
    ensures NextPhase(s, l).HasEvents? ==> NextPhase(s, l).events == Reversed(l.listing)
  {
  }

  /** In every run, a sweep's patterns are the sequences of two to five actions with three disjoint occurrences. */
  lemma SweepsDetectExactly(cfg: Config, trace: Trace, signature: seq<string>)
    requires Run(cfg, trace).sweep.Working?
    ensures var run := Run(cfg, trace).sweep.run;
      (exists p :: p in run.detected && p.signature == signature) <==>
        2 <= |signature| <= 5
        && exists chosen: set<nat> :: Occurrences.DisjointOccurrences(Keys(run.events), signature, chosen) && |chosen| >= 3
  {
    SweepsAreSound(cfg, trace);
    var run := Run(cfg, trace).sweep.run;
    ReportedExactly(DEFAULT_DETECTOR, run.events, run.detected, signature);
  }

  // ------------------------------------------------------------------------------------
  // One row per signature
  // ------------------------------------------------------------------------------------

  function Signatures(patterns: map<int, PatternRow>): map<int, seq<string>> {
    map id | id in patterns :: patterns[id].signature
  }

  ghost predicate DistinctRows(signatures: map<int, seq<string>>) {
    forall a, b :: a in signatures && b in signatures && a != b ==> signatures[a] != signatures[b]
  }

  /** The first pattern the sweep may still insert. */
  function FirstOpen(w: Sweep): nat
    requires w.Working?
  {
    if w.stage.Choosing? then w.next else w.next + 1
  }

  /** Every row was in the sweep's snapshot or has a signature the sweep will not insert again. */
  ghost predicate Accounted(signatures: map<int, seq<string>>, w: Sweep)
    requires w.Working?
  {
    forall id :: id in signatures ==>
      IsKnown(w.known, signatures[id]) || NotAhead(w.run.detected, FirstOpen(w), signatures[id])
  }

  ghost predicate NotAhead(detected: seq<DetectedPattern>, from: nat, signature: seq<string>) {
    forall k :: from <= k < |detected| ==> detected[k].signature != signature
  }

  ghost predicate UniqueRows(signatures: map<int, seq<string>>, w: Sweep) {
    DistinctRows(signatures) && (w.Working? ==> Accounted(signatures, w))
  }

  /** The step that inserts a pattern. */
  ghost predicate Inserts(s: State, l: Label) {
    && !IsCommand(l) && !IsTick(l)
    && HasPattern(s.sweep) && s.sweep.stage.Choosing? && l.SweepNext?
    && !IsKnown(s.sweep.known, CurrentPattern(s.sweep).signature)
  }

  lemma OtherSweepsKeepSignatures(s: State, l: Label)
    requires !Inserts(s, l) && !IsCommand(l) && !IsTick(l)
    ensures Signatures(SweptStore(s, l).patterns) == Signatures(s.store.patterns)
  {
  }

  lemma OtherStepsKeepSignatures(cfg: Config, s: State, l: Label)
    requires !Inserts(s, l) && !l.DeleteAllData?
    ensures Signatures(Next(cfg, s, l).store.patterns) == Signatures(s.store.patterns)
  {
    if IsSweep(cfg, s, l) {
      SweepStep(cfg, s, l);
      OtherSweepsKeepSignatures(s, l);
    } else {
      OtherStep(cfg, s, l);
    }
  }

  lemma InsertingAddsARow(cfg: Config, s: State, l: Label)
    requires Inserts(s, l)
    ensures Next(cfg, s, l).store == InsertPatternRow(s.store, RowOf(CurrentPattern(s.sweep)))
    ensures Next(cfg, s, l).sweep == s.sweep.(stage := Inserted(s.store.lastPatternId + 1))
  {
    SweepStep(cfg, s, l);
  }

  /** A signature the sweep is about to insert has no row yet, whatever happened since its snapshot. */
  lemma NewSignatureIsNew(signatures: map<int, seq<string>>, w: Sweep)
    requires HasPattern(w) && w.stage.Choosing? && UniqueRows(signatures, w)
    requires !IsKnown(w.known, CurrentPattern(w).signature)
    ensures CurrentPattern(w).signature !in signatures.Values
  {
    var p := CurrentPattern(w);
    forall id | id in signatures ensures signatures[id] != p.signature {
      assert w.run.detected[w.next] == p;
    }
  }

  lemma InsertKeepsUnique(signatures: map<int, seq<string>>, w: Sweep, id: int)
    requires HasPattern(w) && w.stage.Choosing? && UniqueRows(signatures, w) && SoundSweep(w)
    requires !IsKnown(w.known, CurrentPattern(w).signature) && id !in signatures
    ensures UniqueRows(signatures[id := CurrentPattern(w).signature], w.(stage := Inserted(id)))
  {
    NewSignatureIsNew(signatures, w);
    var p, after := CurrentPattern(w), signatures[id := CurrentPattern(w).signature];
    assert DistinctSignatures(w.run.detected);
    assert NotAhead(w.run.detected, w.next + 1, p.signature);
    forall i | i in after ensures IsKnown(w.known, after[i]) || NotAhead(w.run.detected, w.next + 1, after[i]) {
      if i != id && !IsKnown(w.known, signatures[i]) {
        assert NotAhead(w.run.detected, w.next, signatures[i]);
      }
    }
  }

  /** Moving on without inserting: what is known stays known, and fewer patterns lie ahead. */
  lemma PhaseKeepsAccounted(s: State, l: Label)
    requires s.sweep.Working? && Accounted(Signatures(s.store.patterns), s.sweep) && !Inserts(s, l)
    requires !IsCommand(l) && !IsTick(l)
    ensures NextPhase(s, l).Working? ==> Accounted(Signatures(s.store.patterns), NextPhase(s, l))
  {
    var w, w', signatures := s.sweep, NextPhase(s, l), Signatures(s.store.patterns);
    RunIsCarried(s, l);
    if w'.Working? {
      assert FirstOpen(w) <= FirstOpen(w');
      forall id | id in signatures
        ensures IsKnown(w'.known, signatures[id]) || NotAhead(w'.run.detected, FirstOpen(w'), signatures[id])
      {
        assert NotAhead(w.run.detected, FirstOpen(w), signatures[id])
          ==> NotAhead(w.run.detected, FirstOpen(w'), signatures[id]);
      }
    }
  }

  lemma FreshSnapshotIsAccounted(patterns: map<int, PatternRow>, w: Sweep)
    requires w.Working? && w.known == patterns
    ensures Accounted(Signatures(patterns), w)
  {
    forall id | id in Signatures(patterns) ensures IsKnown(patterns, Signatures(patterns)[id]) {
      assert patterns[id].signature == Signatures(patterns)[id];
    }
  }

  ghost predicate StateIsUnique(s: State) {
    UniqueRows(Signatures(s.store.patterns), s.sweep)
  }

  lemma InsertingStepKeepsUnique(cfg: Config, s: State, l: Label)
    requires StateIsUnique(s) && SoundSweep(s.sweep) && Consistent(s.store) && Inserts(s, l)
    ensures StateIsUnique(Next(cfg, s, l))
  {
    var w, id := s.sweep, s.store.lastPatternId + 1;
    InsertingAddsARow(cfg, s, l);
    InsertKeepsUnique(Signatures(s.store.patterns), w, id);
    assert Signatures(InsertPatternRow(s.store, RowOf(CurrentPattern(w))).patterns)
        == Signatures(s.store.patterns)[id := CurrentPattern(w).signature];
  }

  lemma OtherSweepKeepsUnique(s: State, l: Label)
    requires StateIsUnique(s) && !Inserts(s, l) && !IsCommand(l) && !IsTick(l)
    ensures StateIsUnique(AfterSweep(s, l))
  {
    OtherSweepsKeepSignatures(s, l);
    if s.sweep.Working? {
      PhaseKeepsAccounted(s, l);
    } else if NextPhase(s, l).Working? {
      FreshSnapshotIsAccounted(s.store.patterns, NextPhase(s, l));
    }
  }

  lemma StepKeepsUnique(cfg: Config, s: State, l: Label)
    requires StateIsUnique(s) && SoundSweep(s.sweep) && Consistent(s.store)
    ensures StateIsUnique(Next(cfg, s, l))
  {
    if Inserts(s, l) {
      InsertingStepKeepsUnique(cfg, s, l);
    } else if IsSweep(cfg, s, l) {
      SweepStep(cfg, s, l);
      OtherSweepKeepsUnique(s, l);
    } else {
      OtherStep(cfg, s, l);
    }
  }

  lemma {:induction false} RowsAreUnique(cfg: Config, trace: Trace)
    ensures StateIsUnique(Run(cfg, trace))
  {
    if trace != [] {
      RunLast(cfg, trace);
      var init := trace[..|trace| - 1];
      RowsAreUnique(cfg, init);
      SweepsAreSound(cfg, init);
      StoreStaysConsistent(cfg, init);
      StepKeepsUnique(cfg, Run(cfg, init), trace[|trace| - 1]);
    }
  }

  /** In every run, no two stored patterns ever have the same signature. */
  lemma SignaturesAreUnique(cfg: Config, trace: Trace, a: int, b: int)
    requires a in Run(cfg, trace).store.patterns && b in Run(cfg, trace).store.patterns && a != b
    ensures Run(cfg, trace).store.patterns[a].signature != Run(cfg, trace).store.patterns[b].signature
  {
    RowsAreUnique(cfg, trace);
    var signatures := Signatures(Run(cfg, trace).store.patterns);
    assert a in signatures && b in signatures;
  }

  /** How often a signature has been inserted since the last wipe. */
  ghost function InsertsSinceWipe(cfg: Config, trace: Trace, signature: seq<string>): nat {
    if trace == [] then 0
    else
      var init, l := trace[..|trace| - 1], trace[|trace| - 1];
      if l.DeleteAllData? then 0
      else
        var s := Run(cfg, init);
        InsertsSinceWipe(cfg, init, signature)
        + (if Inserts(s, l) && CurrentPattern(s.sweep).signature == signature then 1 else 0)
  }

  ghost predicate HasRow(s: State, signature: seq<string>) {
    exists id :: id in s.store.patterns && s.store.patterns[id].signature == signature
  }

  lemma RowsFollowSignatures(s: State, signature: seq<string>)
    ensures HasRow(s, signature)
       <==> exists id :: id in Signatures(s.store.patterns) && Signatures(s.store.patterns)[id] == signature
  {
    var signatures := Signatures(s.store.patterns);
    if id :| id in s.store.patterns && s.store.patterns[id].signature == signature {
      assert id in signatures && signatures[id] == signature;
    }
    if id :| id in signatures && signatures[id] == signature {
      assert id in s.store.patterns && s.store.patterns[id].signature == signature;
    }
  }

  lemma RowsAfterInsert(cfg: Config, s: State, l: Label, signature: seq<string>)
    requires Inserts(s, l) && Consistent(s.store)
    ensures HasRow(Next(cfg, s, l), signature) <==> HasRow(s, signature) || CurrentPattern(s.sweep).signature == signature
  {
    var t, id := Next(cfg, s, l), s.store.lastPatternId + 1;
    InsertingAddsARow(cfg, s, l);
    assert t.store.patterns == s.store.patterns[id := RowOf(CurrentPattern(s.sweep))];
    if HasRow(s, signature) {
      var oldId :| oldId in s.store.patterns && s.store.patterns[oldId].signature == signature;
      assert oldId in t.store.patterns && t.store.patterns[oldId].signature == signature;
    }
    assert id in t.store.patterns;
    if HasRow(t, signature) {
      var newId :| newId in t.store.patterns && t.store.patterns[newId].signature == signature;
      assert newId != id ==> newId in s.store.patterns;
    }
  }

  lemma NoRowYet(s: State, l: Label)
    requires StateIsUnique(s) && SoundSweep(s.sweep) && Inserts(s, l)
    ensures !HasRow(s, CurrentPattern(s.sweep).signature)
  {
    var signature := CurrentPattern(s.sweep).signature;
    NewSignatureIsNew(Signatures(s.store.patterns), s.sweep);
    RowsFollowSignatures(s, signature);
  }

  /** Between two wipes a signature is inserted once if it has a row, and never otherwise. */
  lemma {:induction false} InsertedAtMostOnce(cfg: Config, trace: Trace, signature: seq<string>)
    ensures InsertsSinceWipe(cfg, trace, signature) == if HasRow(Run(cfg, trace), signature) then 1 else 0
  {
    if trace != [] {
      RunLast(cfg, trace);
      var init, l := trace[..|trace| - 1], trace[|trace| - 1];
      var s := Run(cfg, init);
      InsertedAtMostOnce(cfg, init, signature);
      if Inserts(s, l) {
        RowsAreUnique(cfg, init);
        SweepsAreSound(cfg, init);
        StoreStaysConsistent(cfg, init);
        NoRowYet(s, l);
        RowsAfterInsert(cfg, s, l, signature);
      } else if !l.DeleteAllData? {
        OtherStepsKeepSignatures(cfg, s, l);
        RowsFollowSignatures(s, signature);
        RowsFollowSignatures(Run(cfg, trace), signature);
      }
    }
  }
}
