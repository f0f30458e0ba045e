/** What becomes of each kind of signal, in full: which levels allow it, and every stored field. */
module PipelineTheorems {
  import opened Domain
  import opened Rfc3339
  import opened Wrappers
  import opened Pipeline

  const FROM_ONE := {ApplicationMetadata, WorkflowMetadata, ContextAware, MaximumAssistance}
  const FROM_TWO := {WorkflowMetadata, ContextAware, MaximumAssistance}
  const DEEP_ONLY := {MaximumAssistance}

  /** A payload that is one text, with the type and field it is stored under and the levels that allow it. */
  predicate IsOneText(payload: CapturedPayload, t: SignalType, name: string, text: string, levels: set<PrivacyLevel>) {
    || (payload == AppFocus(text) && t == AppFocusChange && name == "app" && levels == FROM_ONE)
    || (payload == Title(text) && t == WindowTitle && name == "title" && levels == FROM_ONE)
    || (payload == ShortcutInvoked(text) && t == ShortcutUsed && name == "shortcut" && levels == FROM_ONE)
    || (payload == DomainVisited(text) && t == BrowserDomainVisited && name == "domain" && levels == FROM_TWO)
    || (payload == Ocr(text) && t == OcrText && name == "text" && levels == DEEP_ONLY)
    || (payload == Accessibility(text) && t == AccessibilityTree && name == "tree" && levels == DEEP_ONLY)
  }

  /** An event with these columns; in deep mode it is marked and expires. */
  function Stored(
    source: string, t: SignalType, level: PrivacyLevel, now: DateTime, deadline: Option<DateTime>,
    summary: map<string, Json>): PipelineOutcome
  {
    Summarized(EventSummary(
      None, now, source, t, level, Some(summary), level == MaximumAssistance,
      if level == MaximumAssistance then deadline else None))
  }

  /** What redaction leaves of one text decides all. */
  ghost function OutcomeOfText(
    engine: Engine, source: string, t: SignalType, name: string, text: string, level: PrivacyLevel,
    now: DateTime, deadline: Option<DateTime>): PipelineOutcome
  {
    match engine.Verdict(text)
    case Drop => Dropped(RedactionUncertain)
    case Clean(kept) => Stored(source, t, level, now, deadline, map[name := JsonString(kept)])
    case Redacted(kept) => Stored(source, t, level, now, deadline, map[name := JsonString(kept)])
  }

  lemma OneFieldOnly(engine: Engine, field: Field, summary: map<string, Json>)
    requires AllStorable(engine, [field]) && IsSummary(engine, [field], summary)
    ensures StoredField(engine, field.value).Some?
    ensures summary == map[field.name := StoredField(engine, field.value).value]
  {
    OneField(engine, [field], summary);
    assert [field][0] == field;
    forall name ensures name in summary <==> name == field.name {
      if name in summary {
        var i :| 0 <= i < |[field]| && [field][i].name == name;
      }
    }
  }

  /** Of a summarised signal with one field, every column. */
  lemma OneFieldStored(
    engine: Engine, signal: CapturedSignal, level: PrivacyLevel, now: DateTime, deadline: Option<DateTime>,
    outcome: PipelineOutcome, field: Field)
    requires IsOutcome(engine, signal, level, now, deadline, outcome)
    requires FieldsOf(engine, signal.payload) == Some([field])
    requires MinimumLevelFor(Classify(signal.payload).signalType).Number() <= level.Number()
    ensures outcome == match StoredField(engine, field.value)
      case None => Dropped(RedactionUncertain)
      case Some(v) =>
        Stored(signal.sourceId, Classify(signal.payload).signalType, level, now, deadline, map[field.name := v])
  {
    assert [field][0] == field;
    assert AllStorable(engine, [field]) <==> StoredField(engine, field.value).Some?;
    if outcome.Summarized? {
      OneFieldOnly(engine, field, outcome.event.summary.value);
    }
  }

  lemma LevelsAreExact(
    payload: CapturedPayload, t: SignalType, name: string, text: string, levels: set<PrivacyLevel>, level: PrivacyLevel)
    requires IsOneText(payload, t, name, text, levels)
    ensures Classify(payload) == Fields(t, [Field(name, Redactable(text))])
    ensures MinimumLevelFor(t).Number() <= level.Number() <==> level in levels
  {
  }

  /** A text is stored only as redaction leaves it, only at its levels, and not at all if redaction gives up. */
  lemma TextIsRedacted(
    engine: Engine, source: string, payload: CapturedPayload, t: SignalType, name: string, text: string,
    levels: set<PrivacyLevel>, level: PrivacyLevel, now: DateTime, deadline: Option<DateTime>, outcome: PipelineOutcome)
    requires IsOneText(payload, t, name, text, levels)
    requires IsOutcome(engine, CapturedSignal(source, payload), level, now, deadline, outcome)
    ensures outcome ==
      if level !in levels then Dropped(SignalNotAllowedAtCurrentLevel)
      else OutcomeOfText(engine, source, t, name, text, level, now, deadline)
  {
    LevelsAreExact(payload, t, name, text, levels, level);
    if level in levels {
      OneFieldStored(engine, CapturedSignal(source, payload), level, now, deadline, outcome, Field(name, Redactable(text)));
    }
  }

  /** A screenshot is stored as the text read from it, redacted; its bytes never are. */
  lemma ScreenshotIsRedacted(
    engine: Engine, source: string, rawBytes: seq<bv8>, level: PrivacyLevel, now: DateTime, deadline: Option<DateTime>,
    outcome: PipelineOutcome)
    requires IsOutcome(engine, CapturedSignal(source, ScreenshotBytes(rawBytes)), level, now, deadline, outcome)
    ensures outcome ==
      if level != MaximumAssistance then Dropped(SignalNotAllowedAtCurrentLevel)
      else match engine.extractText(rawBytes)
        case None => Dropped(OcrUnavailable)
        case Some(text) => OutcomeOfText(engine, source, Screenshot, "text", text, level, now, deadline)
  {
    var extracted := engine.extractText(rawBytes);
    if level == MaximumAssistance && extracted.Some? {
      OneFieldStored(engine, CapturedSignal(source, ScreenshotBytes(rawBytes)), level, now, deadline, outcome,
                     Field("text", Redactable(extracted.value)));
    }
  }

  // --- signals with two fields ---

  lemma TwoFieldsOnly(engine: Engine, a: Field, b: Field, summary: map<string, Json>)
    requires a.name != b.name && AllStorable(engine, [a, b]) && IsSummary(engine, [a, b], summary)
    ensures StoredField(engine, a.value).Some? && StoredField(engine, b.value).Some?
    ensures summary == map[a.name := StoredField(engine, a.value).value, b.name := StoredField(engine, b.value).value]
  {
    var fields := [a, b];
    assert fields[0] == a && fields[1] == b;
    assert a.name in summary && Some(summary[a.name]) == StoredField(engine, a.value);
    assert b.name in summary && Some(summary[b.name]) == StoredField(engine, b.value);
    forall name ensures name in summary <==> name == a.name || name == b.name {
      if name in summary {
        var i :| 0 <= i < |fields| && fields[i].name == name;
      }
    }
  }

  lemma TwoFieldsStored(
    engine: Engine, signal: CapturedSignal, level: PrivacyLevel, now: DateTime, deadline: Option<DateTime>,
    outcome: PipelineOutcome, a: Field, b: Field)
    requires IsOutcome(engine, signal, level, now, deadline, outcome)
    requires a.name != b.name && FieldsOf(engine, signal.payload) == Some([a, b])
    requires MinimumLevelFor(Classify(signal.payload).signalType).Number() <= level.Number()
    ensures var x, y := StoredField(engine, a.value), StoredField(engine, b.value);
      outcome ==
        if x.None? || y.None? then Dropped(RedactionUncertain)
        else Stored(signal.sourceId, Classify(signal.payload).signalType, level, now, deadline,
                    map[a.name := x.value, b.name := y.value])
  {
    var fields := [a, b];
    assert fields[0] == a && fields[1] == b;
    assert AllStorable(engine, fields) <==> StoredField(engine, a.value).Some? && StoredField(engine, b.value).Some?;
    if outcome.Summarized? {
      TwoFieldsOnly(engine, a, b, outcome.event.summary.value);
    }
  }

  /** Of the clipboard only the type and the size are stored, as they are. */
  lemma ClipboardIsStored(
    engine: Engine, source: string, contentType: string, size: nat, level: PrivacyLevel, now: DateTime,
    deadline: Option<DateTime>, outcome: PipelineOutcome)
    requires IsOutcome(engine, CapturedSignal(source, Clipboard(contentType, size)), level, now, deadline, outcome)
    ensures outcome ==
      if level in {Manual, ApplicationMetadata} then Dropped(SignalNotAllowedAtCurrentLevel)
      else Stored(source, ClipboardMetadata, level, now, deadline,
                  map["content_type" := JsonString(contentType), "size_bytes" := JsonNumber(size)])
  {
    if level !in {Manual, ApplicationMetadata} {
      DifferentNames();
      TwoFieldsStored(engine, CapturedSignal(source, Clipboard(contentType, size)), level, now, deadline, outcome,
                      Field("content_type", Passthrough(JsonString(contentType))),
                      Field("size_bytes", Passthrough(JsonNumber(size))));
    }
  }

  lemma DifferentNames()
    ensures "content_type" != "size_bytes" && "path" != "operation"
  {
    assert "content_type"[0] != "size_bytes"[0] && "path"[0] != "operation"[0];
  }

  ghost function OutcomeOfPath(
    engine: Engine, source: string, path: string, operation: string, level: PrivacyLevel, now: DateTime,
    deadline: Option<DateTime>): PipelineOutcome
  {
    match engine.Verdict(path)
    case Drop => Dropped(RedactionUncertain)
    case Clean(kept) =>
      Stored(source, FileOperationMetadata, level, now, deadline,
             map["path" := JsonString(kept), "operation" := JsonString(operation)])
    case Redacted(kept) =>
      Stored(source, FileOperationMetadata, level, now, deadline,
             map["path" := JsonString(kept), "operation" := JsonString(operation)])
  }

  /** Of a file operation the path is stored as redaction leaves it, the operation as it is. */
  lemma PathIsRedacted(
    engine: Engine, source: string, path: string, operation: string, level: PrivacyLevel, now: DateTime,
    deadline: Option<DateTime>, outcome: PipelineOutcome)
    requires IsOutcome(engine, CapturedSignal(source, FileOperation(path, operation)), level, now, deadline, outcome)
    ensures outcome ==
      if level in {Manual, ApplicationMetadata} then Dropped(SignalNotAllowedAtCurrentLevel)
      else OutcomeOfPath(engine, source, path, operation, level, now, deadline)
  {
    if level !in {Manual, ApplicationMetadata} {
      DifferentNames();
      TwoFieldsStored(engine, CapturedSignal(source, FileOperation(path, operation)), level, now, deadline, outcome,
                      Field("path", Redactable(path)), Field("operation", Passthrough(JsonString(operation))));
    }
  }

  // --- nothing but the verdict shows ---

  /** Texts that redaction leaves alike, or gives up on alike, cannot be told apart by what is stored. */
  lemma SameVerdictSameOutcome(
    engine: Engine, source: string, payload: CapturedPayload, payload': CapturedPayload, t: SignalType, name: string,
    text: string, text': string, levels: set<PrivacyLevel>, level: PrivacyLevel, now: DateTime,
    deadline: Option<DateTime>, outcome: PipelineOutcome, outcome': PipelineOutcome)
    requires IsOneText(payload, t, name, text, levels) && IsOneText(payload', t, name, text', levels)
    requires engine.Verdict(text) == engine.Verdict(text')
    requires IsOutcome(engine, CapturedSignal(source, payload), level, now, deadline, outcome)
    requires IsOutcome(engine, CapturedSignal(source, payload'), level, now, deadline, outcome')
    ensures outcome == outcome'
  {
    TextIsRedacted(engine, source, payload, t, name, text, levels, level, now, deadline, outcome);
    TextIsRedacted(engine, source, payload', t, name, text', levels, level, now, deadline, outcome');
  }
}
