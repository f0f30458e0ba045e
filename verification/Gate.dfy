/** The dispatch gate in front of every non-local provider. */
module Gate {
  import opened Domain
  import opened Wrappers

  datatype CloudEligibility = AlwaysEligible | NeedsConsent | NeverEligible

  datatype DispatchDecision = Allow | RequiresConsent(contentClass: string) | Blocked

  function CloudEligibilityOf(level: PrivacyLevel, containsVerbatim: bool): CloudEligibility {
    if level == MaximumAssistance then NeverEligible
    else if containsVerbatim then NeedsConsent
    else AlwaysEligible
  }

  /** The consents held by a gate; a snapshot of one is such a value. */
  datatype Consents = Consents(general: bool, classes: set<string>)

  function Evaluate(
    gate: Consents, isLocal: bool, level: PrivacyLevel, contentClass: string, containsVerbatim: bool): DispatchDecision
  {
    if isLocal then Allow
    else if !gate.general then Blocked
    else
      match CloudEligibilityOf(level, containsVerbatim)
      case NeverEligible => Blocked
      case AlwaysEligible => Allow
      case NeedsConsent => if contentClass in gate.classes then Allow else RequiresConsent(contentClass)
  }

  class DispatchGate {
    var generalCloudConsent: bool
    var perClassConsent: set<string>

    function Snapshot(): Consents
      reads this
    {
      Consents(generalCloudConsent, perClassConsent)
    }

    constructor ()
      ensures Snapshot() == Consents(false, {})
    {
      generalCloudConsent, perClassConsent := false, {};
    }

    method GrantGeneralCloudConsent()
      modifies this
      ensures Snapshot() == old(Snapshot()).(general := true)
    {
      generalCloudConsent := true;
    }

    method RevokeGeneralCloudConsent()
      modifies this
      ensures Snapshot() == old(Snapshot()).(general := false)
    {
      generalCloudConsent := false;
    }

    method GrantClassConsent(contentClass: string)
      modifies this
      ensures Snapshot() == old(Snapshot()).(classes := old(perClassConsent) + {contentClass})
    {
      perClassConsent := perClassConsent + {contentClass};
    }

    method RevokeClassConsent(contentClass: string)
      modifies this
      ensures Snapshot() == old(Snapshot()).(classes := old(perClassConsent) - {contentClass})
    {
      perClassConsent := perClassConsent - {contentClass};
    }
  }

  /** What a non-local provider may be sent, read off the consents alone. */
  lemma CloudDispatchNeedsConsent(
    gate: Consents, level: PrivacyLevel, contentClass: string, containsVerbatim: bool)
    ensures Evaluate(gate, false, level, contentClass, containsVerbatim) == Allow
       <==> gate.general && level.Number() < 4 && (containsVerbatim ==> contentClass in gate.classes)
  {
  }

  /** Every decision: what is let through, and why the rest is not. */
  lemma DecisionsAreExact(gate: Consents, isLocal: bool, level: PrivacyLevel, contentClass: string, verbatim: bool)
    ensures var decision := Evaluate(gate, isLocal, level, contentClass, verbatim);
      && (isLocal ==> decision == Allow)
      && (!isLocal && (!gate.general || level == MaximumAssistance) ==> decision == Blocked)
      && (!isLocal && gate.general && level != MaximumAssistance ==>
            decision == if verbatim && contentClass !in gate.classes then RequiresConsent(contentClass) else Allow)
  {
  }

  /** More consent, a lower level, or fewer verbatim strings never turn an allowed call away. */
  lemma ConsentIsMonotone(
    gate: Consents, gate': Consents, isLocal: bool, level: PrivacyLevel, level': PrivacyLevel,
    contentClass: string, verbatim: bool, verbatim': bool)
    requires (gate.general ==> gate'.general) && gate.classes <= gate'.classes
    requires level'.Number() <= level.Number() && (verbatim' ==> verbatim)
    requires Evaluate(gate, isLocal, level, contentClass, verbatim) == Allow
    ensures Evaluate(gate', isLocal, level', contentClass, verbatim') == Allow
  {
  }

  // --- the provider behind the gate ---

  datatype ProviderError = Request(message: string) | ProviderResponse(message: string) | UnexpectedResponse(message: string)
  {
    function Describe(): string {
      match this
      case Request(m) => "request failed: " + m
      case ProviderResponse(m) => "provider returned an error: " + m
      case UnexpectedResponse(m) => "unexpected response shape: " + m
    }
  }

  datatype GateError = BlockedByGate | ConsentMissing(contentClass: string) | Provider(error: ProviderError)
  {
    function Describe(): string {
      match this
      case BlockedByGate => "blocked by privacy gate: cloud dispatch not permitted for this content"
      case ConsentMissing(c) =>
        "requires explicit consent for content class '" + c + "' before this can be sent to a cloud provider"
      case Provider(e) => "provider error: " + e.Describe()
    }
  }

  /** `reply` is what the wrapped provider answers if it is called at all. */
  function CompleteIfAllowed(
    gate: Consents, isLocal: bool, level: PrivacyLevel, contentClass: string, containsVerbatim: bool,
    reply: Result<string, ProviderError>): Result<string, GateError>
  {
    match Evaluate(gate, isLocal, level, contentClass, containsVerbatim)
    case Allow => (match reply case Ok(text) => Ok(text) case Err(e) => Err(Provider(e)))
    case RequiresConsent(class_) => Err(ConsentMissing(class_))
    case Blocked => Err(BlockedByGate)
  }

  /** The wrapped provider is called exactly when the gate allows it, and then its answer is passed on. */
  lemma CompletionsAreExact(
    gate: Consents, isLocal: bool, level: PrivacyLevel, contentClass: string, verbatim: bool,
    reply: Result<string, ProviderError>)
    ensures var answer := CompleteIfAllowed(gate, isLocal, level, contentClass, verbatim, reply);
      if isLocal || (gate.general && level != MaximumAssistance && (verbatim ==> contentClass in gate.classes))
      then answer == (if reply.Ok? then Ok(reply.value) else Err(Provider(reply.error)))
      else answer == Err(if gate.general && level != MaximumAssistance then ConsentMissing(contentClass) else BlockedByGate)
  {
    DecisionsAreExact(gate, isLocal, level, contentClass, verbatim);
  }
}
