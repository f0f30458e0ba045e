/** Cloud consent over all runs: the stored setting, the gate in memory, and when they part. */
module ConsentTheorems {
  import opened Wrappers
  import opened System

  // --- what a trace says about consent ---

  /** The value a consent command has stored and not yet passed on to the gate. */
  function PendingConsent(trace: Trace, caller: nat): Option<bool> {
    if trace == [] then None
    else
      match trace[|trace| - 1]
      case ConsentSetting(c, granted) => if c == caller then Some(granted) else PendingConsent(trace[..|trace| - 1], caller)
      case ConsentGate(c) => if c == caller then None else PendingConsent(trace[..|trace| - 1], caller)
      case Restart => None
      case _ => PendingConsent(trace[..|trace| - 1], caller)
  }

  /** The last value stored since the last wipe. */
  function StoredConsent(trace: Trace): Option<bool> {
    if trace == [] then None
    else
      match trace[|trace| - 1]
      case ConsentSetting(_, granted) => Some(granted)
      case UpdateSetting(granted) => Some(granted)
      case DeleteAllData => None
      case _ => StoredConsent(trace[..|trace| - 1])
  }

  /** The value this step gives to the gate, if it sets it at all. */
  function GateValue(before: Trace, l: Label): Option<bool> {
    match l
    case ConsentGate(c) => PendingConsent(before, c)
    case Restart => Some(StoredConsent(before) == Some(true))
    case _ => None
  }

  /** A grant is in force: the last step that set the gate passed on or read back a grant. */
  predicate GateConsent(trace: Trace) {
    trace != []
    && (var value := GateValue(trace[..|trace| - 1], trace[|trace| - 1]);
        if value.Some? then value.value else GateConsent(trace[..|trace| - 1]))
  }

  ghost predicate PendingMatches(s: State, trace: Trace) {
    forall c: nat ::
      && (c in s.pendingConsent <==> PendingConsent(trace, c).Some?)
      && (c in s.pendingConsent ==> PendingConsent(trace, c) == Some(s.pendingConsent[c]))
  }

  ghost predicate ConsentMatches(s: State, trace: Trace) {
    s.store.cloudConsentSetting == StoredConsent(trace) && s.gate.general == GateConsent(trace) && PendingMatches(s, trace)
  }

  lemma CommandKeepsConsent(s: State, trace: Trace, l: Label)
    requires ConsentMatches(s, trace) && IsCommand(l)
    ensures ConsentMatches(AfterCommand(s, l), trace + [l])
  {
    assert (trace + [l])[..|trace|] == trace;
  }

  lemma OtherStepsKeepConsent(cfg: Config, s: State, trace: Trace, l: Label)
    requires ConsentMatches(s, trace) && !IsCommand(l)
    ensures ConsentMatches(Next(cfg, s, l), trace + [l])
  {
    assert (trace + [l])[..|trace|] == trace;
    if IsTick(l) {
      TickStep(cfg, s, l);
    } else if IsSweep(cfg, s, l) {
      SweepStep(cfg, s, l);
      SweepLeaves(s, l);
    }
  }

  /** In every run the setting and the gate hold what was last written to each. */
  lemma {:induction false} ConsentIsTheLastWrite(cfg: Config, trace: Trace)
    ensures ConsentMatches(Run(cfg, trace), trace)
  {
    if trace != [] {
      RunLast(cfg, trace);
      var init, l := trace[..|trace| - 1], trace[|trace| - 1];
      ConsentIsTheLastWrite(cfg, init);
      assert trace == init + [l];
      if IsCommand(l) {
        CommandStep(cfg, Run(cfg, init), l);
        CommandKeepsConsent(Run(cfg, init), init, l);
      } else {
        OtherStepsKeepConsent(cfg, Run(cfg, init), init, l);
      }
    }
  }

  predicate SetsGate(trace: Trace, k: nat)
    requires k < |trace|
  {
    GateValue(trace[..k], trace[k]).Some?
  }

  predicate GrantsAt(trace: Trace, k: nat)
    requires k < |trace|
  {
    GateValue(trace[..k], trace[k]) == Some(true)
  }

  /** Step k granted consent and no later step set the gate. */
  ghost predicate LastGrantAt(trace: Trace, k: nat) {
    k < |trace| && GrantsAt(trace, k) && forall j: nat :: k < j < |trace| ==> !SetsGate(trace, j)
  }

  lemma LastGrantOfMore(trace: Trace, k: nat)
    requires trace != []
    ensures k + 1 < |trace| ==>
      (LastGrantAt(trace, k) <==> LastGrantAt(trace[..|trace| - 1], k) && !SetsGate(trace, |trace| - 1))
    ensures k + 1 == |trace| ==> (LastGrantAt(trace, k) <==> GrantsAt(trace, k))
  {
    var init := trace[..|trace| - 1];
    forall j: nat | j < |init| ensures SetsGate(init, j) == SetsGate(trace, j) && GrantsAt(init, j) == GrantsAt(trace, j) {
      assert init[..j] == trace[..j];
    }
  }

  /** The gate holds consent exactly when some step granted it and no later step set the gate. */
  lemma {:induction false} GateConsentMeaning(trace: Trace)
    ensures GateConsent(trace) <==> exists k: nat :: LastGrantAt(trace, k)
  {
    if trace != [] {
      var init, last := trace[..|trace| - 1], |trace| - 1;
      GateConsentMeaning(init);
      forall k: nat ensures LastGrantAt(trace, k) ==> GateConsent(trace) {
        LastGrantOfMore(trace, k);
      }
      if GateConsent(trace) {
        LastGrantOfMore(trace, last);
        if k: nat :| LastGrantAt(init, k) {
          LastGrantOfMore(trace, k);
        }
      }
    }
  }

  predicate Granted(l: Label) {
    l == UpdateSetting(true) || (l.ConsentSetting? && l.granted)
  }

  predicate HasGrant(trace: Trace) {
    exists k :: 0 <= k < |trace| && Granted(trace[k])
  }

  lemma GrantsStay(trace: Trace, l: Label)
    ensures HasGrant(trace + [l]) <==> HasGrant(trace) || Granted(l)
  {
    if k :| 0 <= k < |trace| && Granted(trace[k]) {
      assert (trace + [l])[k] == trace[k];
    }
    assert (trace + [l])[|trace|] == l;
  }

  lemma {:induction false} StoredConsentHasAnOrigin(trace: Trace, caller: nat)
    requires StoredConsent(trace) == Some(true) || PendingConsent(trace, caller) == Some(true)
    ensures HasGrant(trace)
  {
    var init, l := trace[..|trace| - 1], trace[|trace| - 1];
    assert trace == init + [l];
    GrantsStay(init, l);
    if !Granted(l) {
      StoredConsentHasAnOrigin(init, caller);
    }
  }

  /** Consent is never in the gate unless a user step granted it. */
  lemma {:induction false} ConsentHasAnOrigin(trace: Trace)
    requires GateConsent(trace)
    ensures HasGrant(trace)
  {
    var init, l := trace[..|trace| - 1], trace[|trace| - 1];
    assert trace == init + [l];
    GrantsStay(init, l);
    if GateValue(init, l).Some? {
      StoredConsentHasAnOrigin(init, if l.ConsentGate? then l.caller else 0);
    } else {
      ConsentHasAnOrigin(init);
    }
  }

  // --- when the setting and the gate part ---

  predicate GateAgreesWithSetting(s: State) {
    s.gate.general == (s.store.cloudConsentSetting == Some(true))
  }

  /** The value each step leaves in one of the two places without touching the other agrees with that other. */
  predicate KeepsAgreement(s: State, l: Label) {
    match l
    case ConsentSetting(_, granted) => granted == s.gate.general
    case ConsentGate(c) => c in s.pendingConsent ==> s.pendingConsent[c] == s.gate.general
    case UpdateSetting(granted) => granted == s.gate.general
    case DeleteAllData => !s.gate.general
    case _ => true
  }

  lemma CommandLosesAgreementExactly(s: State, l: Label)
    requires GateAgreesWithSetting(s) && IsCommand(l)
    ensures GateAgreesWithSetting(AfterCommand(s, l)) <==> KeepsAgreement(s, l)
  {
  }

  lemma AgreementIsLostExactly(cfg: Config, s: State, l: Label)
    requires GateAgreesWithSetting(s)
    ensures GateAgreesWithSetting(Next(cfg, s, l)) <==> KeepsAgreement(s, l)
  {
    if IsCommand(l) {
      CommandStep(cfg, s, l);
      CommandLosesAgreementExactly(s, l);
    } else if IsTick(l) {
      TickStep(cfg, s, l);
    } else if IsSweep(cfg, s, l) {
      SweepStep(cfg, s, l);
      SweepLeaves(s, l);
    }
  }

  predicate TouchesConsent(l: Label) {
    l.ConsentSetting? || l.ConsentGate? || l.UpdateSetting? || l.DeleteAllData? || l.Restart?
  }

  /** The caller's setting is the last thing that happened to consent. */
  predicate HalfWay(trace: Trace, caller: nat) {
    trace != []
    && (var l := trace[|trace| - 1];
        (l.ConsentSetting? && l.caller == caller) || (!TouchesConsent(l) && HalfWay(trace[..|trace| - 1], caller)))
  }

  /** No consent command was overtaken between its two writes. */
  predicate ConsentSerialized(trace: Trace) {
    forall k :: 0 <= k < |trace| && trace[k].ConsentGate? ==> HalfWay(trace[..k], trace[k].caller)
  }

  lemma {:induction false} HalfWayIsPending(trace: Trace, caller: nat)
    requires HalfWay(trace, caller)
    ensures PendingConsent(trace, caller).Some? && StoredConsent(trace) == PendingConsent(trace, caller)
  {
    var init, l := trace[..|trace| - 1], trace[|trace| - 1];
    if !(l.ConsentSetting? && l.caller == caller) {
      HalfWayIsPending(init, caller);
    }
  }

  predicate NoOtherConsentWrites(trace: Trace) {
    forall k :: 0 <= k < |trace| ==> !trace[k].DeleteAllData? && !trace[k].UpdateSetting?
  }

  ghost predicate SomeHalfWay(trace: Trace) {
    exists c: nat :: HalfWay(trace, c)
  }

  /**
   If consent is only ever set by its own command and no such command is overtaken, the
   gate and the setting agree whenever none is half way, restarts included.
   */
  lemma {:induction false} SerializedConsentAgrees(trace: Trace)
    requires ConsentSerialized(trace) && NoOtherConsentWrites(trace)
    ensures GateConsent(trace) == (StoredConsent(trace) == Some(true)) || SomeHalfWay(trace)
  {
    if trace != [] {
      var init, l := trace[..|trace| - 1], trace[|trace| - 1];
      forall k | 0 <= k < |init| && init[k].ConsentGate? ensures HalfWay(init[..k], init[k].caller) {
        assert init[..k] == trace[..k] && init[k] == trace[k];
      }
      assert forall k :: 0 <= k < |init| ==> init[k] == trace[k];
      assert !l.DeleteAllData? && !l.UpdateSetting?;
      SerializedConsentAgrees(init);
      if l.ConsentSetting? {
        assert HalfWay(trace, l.caller);
        assert SomeHalfWay(trace);
      } else if l.ConsentGate? {
        assert trace[..|trace| - 1] == init && HalfWay(trace[..|trace| - 1], trace[|trace| - 1].caller);
        HalfWayIsPending(init, l.caller);
        assert StoredConsent(trace) == StoredConsent(init);
        assert GateValue(init, l) == StoredConsent(init);
        assert GateConsent(trace) == GateValue(init, l).value;
      } else if !TouchesConsent(l) {
        assert GateValue(init, l) == None && StoredConsent(trace) == StoredConsent(init);
        if SomeHalfWay(init) {
          var c: nat :| HalfWay(init, c);
          assert HalfWay(trace, c);
          assert SomeHalfWay(trace);
        } else {
          assert GateConsent(trace) == GateConsent(init);
        }
      } else {
        assert GateConsent(trace) == GateValue(init, l).value;
        assert StoredConsent(trace) == StoredConsent(init);
      }
    }
  }

  /** A grant and a revocation whose writes to the gate come in the opposite order. */
  function Overlapping(trace: Trace, granter: nat, revoker: nat): Trace {
    trace + [ConsentSetting(granter, true)] + [ConsentSetting(revoker, false)] + [ConsentGate(revoker)] + [ConsentGate(granter)]
  }

  lemma OverlappingWritesPart(trace: Trace, granter: nat, revoker: nat)
    requires granter != revoker
    ensures StoredConsent(Overlapping(trace, granter, revoker)) == Some(false)
    ensures GateConsent(Overlapping(trace, granter, revoker))
  {
    var t1 := trace + [ConsentSetting(granter, true)];
    var t2 := t1 + [ConsentSetting(revoker, false)];
    var t3 := t2 + [ConsentGate(revoker)];
    var t4 := t3 + [ConsentGate(granter)];
    assert t1[..|trace|] == trace && t2[..|t1|] == t1 && t3[..|t2|] == t2 && t4[..|t3|] == t3;
    assert StoredConsent(t2) == Some(false) && PendingConsent(t1, granter) == Some(true);
    assert PendingConsent(t2, granter) == Some(true) && PendingConsent(t3, granter) == Some(true);
  }

  /**
   After any run, overlapping commands can leave consent in the gate that the setting
   says is revoked, with no wipe and no settings update.
   */
  lemma OverlappingConsentParts(cfg: Config, trace: Trace, granter: nat, revoker: nat)
    requires granter != revoker
    ensures var s := Run(cfg, Overlapping(trace, granter, revoker));
      s.store.cloudConsentSetting == Some(false) && s.gate.general
  {
    OverlappingWritesPart(trace, granter, revoker);
    ConsentIsTheLastWrite(cfg, Overlapping(trace, granter, revoker));
  }

  /** A wipe clears the setting but not the gate, until consent is set again or the program restarts. */
  lemma ConsentOutlivesAWipe(cfg: Config, trace: Trace)
    requires Run(cfg, trace).gate.general
    ensures var s := Run(cfg, trace + [DeleteAllData]); s.store.cloudConsentSetting == None && s.gate.general
    ensures !Run(cfg, trace + [DeleteAllData] + [Restart]).gate.general
  {
    RunCommand(cfg, trace, DeleteAllData);
    RunCommand(cfg, trace + [DeleteAllData], Restart);
  }
}
