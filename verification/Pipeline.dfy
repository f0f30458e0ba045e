/** From a captured signal to a stored event: classify, gate by level, redact, summarise. */
module Pipeline {
  import opened Domain
  import opened Rfc3339
  import opened Wrappers
  import Detectors

  datatype CapturedPayload =
    | AppFocus(appIdentifier: string)
    | Title(title: string)
    | ShortcutInvoked(shortcut: string)
    | DomainVisited(domain: string)
    | Clipboard(contentType: string, sizeBytes: nat)
    | FileOperation(path: string, operation: string)
    | Ocr(text: string)
    | ScreenshotBytes(rawBytes: seq<bv8>)
    | Accessibility(serialized: string)

  datatype CapturedSignal = CapturedSignal(sourceId: string, payload: CapturedPayload)

  datatype FieldValue = Redactable(text: string) | Passthrough(value: Json)

  datatype Field = Field(name: string, value: FieldValue)

  datatype ClassifiedSignal =
    | Fields(signalType: SignalType, fields: seq<Field>)
    | RequiresExtraction(signalType: SignalType, rawBytes: seq<bv8>)

  function Classify(payload: CapturedPayload): ClassifiedSignal {
    match payload
    case AppFocus(app) => Fields(AppFocusChange, [Field("app", Redactable(app))])
    case Title(title) => Fields(WindowTitle, [Field("title", Redactable(title))])
    case ShortcutInvoked(shortcut) => Fields(ShortcutUsed, [Field("shortcut", Redactable(shortcut))])
    case DomainVisited(domain) => Fields(BrowserDomainVisited, [Field("domain", Redactable(domain))])
    case Clipboard(contentType, sizeBytes) =>
      Fields(ClipboardMetadata, [
        Field("content_type", Passthrough(JsonString(contentType))),
        Field("size_bytes", Passthrough(JsonNumber(sizeBytes)))])
    case FileOperation(path, operation) =>
      Fields(FileOperationMetadata, [
        Field("path", Redactable(path)),
        Field("operation", Passthrough(JsonString(operation)))])
    case Ocr(text) => Fields(OcrText, [Field("text", Redactable(text))])
    case ScreenshotBytes(rawBytes) => RequiresExtraction(Screenshot, rawBytes)
    case Accessibility(serialized) => Fields(AccessibilityTree, [Field("tree", Redactable(serialized))])
  }

  function MinimumLevelFor(t: SignalType): PrivacyLevel {
    match t
    case AppFocusChange | WindowTitle | ShortcutUsed => ApplicationMetadata
    case AppActionEvent | BrowserDomainVisited | ClipboardMetadata | FileOperationMetadata => WorkflowMetadata
    case OcrText | Screenshot | AccessibilityTree => MaximumAssistance
  }

  /** Redaction and text extraction as the pipeline sees them. */
  datatype Extractors = Extractors(
    findings: string -> Detectors.Findings,
    highEntropy: string -> bool,
    extractText: seq<bv8> -> Option<string>)
  {
    /** On every text, each expression finds matches that are possible there. */
    ghost predicate Sound() {
      forall text :: Detectors.Possible(findings(text), text)
    }

    ghost function Verdict(text: string): Detectors.Outcome
      requires Sound()
    {
      Detectors.Verdict(text, findings(text), highEntropy)
    }
  }

  const FINDS_NOTHING := Extractors(_ => Detectors.NO_FINDINGS, _ => false, _ => None)

  type Engine = e: Extractors | e.Sound() witness FINDS_NOTHING

  datatype DropReason = RedactionUncertain | OcrUnavailable | SignalNotAllowedAtCurrentLevel

  datatype PipelineOutcome = Summarized(event: EventSummary) | Dropped(reason: DropReason)

  /** What redaction leaves of a field; None when the engine gives up on it. */
  ghost function StoredField(engine: Engine, value: FieldValue): Option<Json> {
    match value
    case Passthrough(v) => Some(v)
    case Redactable(text) =>
      match engine.Verdict(text)
      case Drop => None
      case Clean(t) => Some(JsonString(t))
      case Redacted(t) => Some(JsonString(t))
  }

  ghost predicate AllStorable(engine: Engine, fields: seq<Field>) {
    forall i :: 0 <= i < |fields| ==> StoredField(engine, fields[i].value).Some?
  }

  ghost predicate HasNames(fields: seq<Field>, summary: map<string, Json>) {
    forall name :: name in summary <==> exists i :: 0 <= i < |fields| && fields[i].name == name
  }

  /** No later field has the same name. */
  predicate IsLast(fields: seq<Field>, i: nat)
    requires i < |fields|
  {
    forall j :: i < j < |fields| ==> fields[j].name != fields[i].name
  }

  ghost predicate HoldsValue(engine: Engine, field: Field, summary: map<string, Json>) {
    field.name in summary && Some(summary[field.name]) == StoredField(engine, field.value)
  }

  ghost predicate HasLastValues(engine: Engine, fields: seq<Field>, summary: map<string, Json>) {
    forall i: nat :: i < |fields| && IsLast(fields, i) ==> HoldsValue(engine, fields[i], summary)
  }

  /** The summary maps each field name to the last value stored under it. */
  ghost predicate IsSummary(engine: Engine, fields: seq<Field>, summary: map<string, Json>) {
    HasNames(fields, summary) && HasLastValues(engine, fields, summary)
  }

  method Summarize(engine: Engine, fields: seq<Field>) returns (summary: Option<map<string, Json>>)
    ensures summary.Some? <==> AllStorable(engine, fields)
    ensures summary.Some? ==> IsSummary(engine, fields, summary.value)
  {
    var m: map<string, Json> := map[];
    for i := 0 to |fields|
      invariant AllStorable(engine, fields[..i])
      invariant IsSummary(engine, fields[..i], m)
    {
      var field := fields[i];
      assert fields[..i + 1] == fields[..i] + [field];
      match field.value {
        case Passthrough(v) =>
          SummaryOfMore(engine, fields[..i], m, field, v);
          m := m[field.name := v];
        case Redactable(text) =>
          var outcome := Detectors.Scan(text, engine.findings(text), engine.highEntropy);
          if outcome.Drop? {
            return None;
          }
          SummaryOfMore(engine, fields[..i], m, field, JsonString(outcome.text));
          m := m[field.name := JsonString(outcome.text)];
      }
    }
    assert fields[..|fields|] == fields;
    return Some(m);
  }

  lemma SummaryOfMore(engine: Engine, fields: seq<Field>, m: map<string, Json>, field: Field, v: Json)
    requires AllStorable(engine, fields) && IsSummary(engine, fields, m)
    requires StoredField(engine, field.value) == Some(v)
    ensures AllStorable(engine, fields + [field])
    ensures IsSummary(engine, fields + [field], m[field.name := v])
  {
    NamesOfMore(fields, m, field, v);
    LastValuesOfMore(engine, fields, m, field, v);
  }

  lemma NamesOfMore(fields: seq<Field>, m: map<string, Json>, field: Field, v: Json)
    requires HasNames(fields, m)
    ensures HasNames(fields + [field], m[field.name := v])
  {
    var more, m' := fields + [field], m[field.name := v];
    assert more[|fields|] == field;
    forall name ensures name in m' <==> exists i :: 0 <= i < |more| && more[i].name == name {
      if i :| 0 <= i < |fields| && fields[i].name == name {
        assert more[i].name == name;
      }
      if i :| 0 <= i < |more| && more[i].name == name {
        assert i < |fields| ==> fields[i].name == name;
      }
    }
  }

  lemma LastOfMore(fields: seq<Field>, field: Field, i: nat)
    requires i < |fields| && IsLast(fields + [field], i)
    ensures IsLast(fields, i) && fields[i].name != field.name
  {
    var more := fields + [field];
    assert more[|fields|] == field && forall j :: i <= j < |fields| ==> more[j] == fields[j];
  }

  lemma LastValuesOfMore(engine: Engine, fields: seq<Field>, m: map<string, Json>, field: Field, v: Json)
    requires HasLastValues(engine, fields, m) && StoredField(engine, field.value) == Some(v)
    ensures HasLastValues(engine, fields + [field], m[field.name := v])
  {
    var more, m' := fields + [field], m[field.name := v];
    forall i: nat | i < |more| && IsLast(more, i) ensures HoldsValue(engine, more[i], m') {
      if i < |fields| {
        LastOfMore(fields, field, i);
        assert HoldsValue(engine, fields[i], m);
      }
    }
  }

  /**
   `deadline` is now plus the deep-mode retention window, or None when expiry is disabled.
   */
  method Process(engine: Engine, signal: CapturedSignal, level: PrivacyLevel, now: DateTime, deadline: Option<DateTime>)
    returns (outcome: PipelineOutcome)
    ensures IsOutcome(engine, signal, level, now, deadline, outcome)
  {
    var classified := Classify(signal.payload);
    var signalType := classified.signalType;
    if MinimumLevelFor(signalType).Number() > level.Number() {
      return Dropped(SignalNotAllowedAtCurrentLevel);
    }
    var fields: seq<Field>;
    match classified {
      case Fields(_, f) => fields := f;
      case RequiresExtraction(_, rawBytes) =>
        match engine.extractText(rawBytes) {
          case None => return Dropped(OcrUnavailable);
          case Some(text) => fields := [Field("text", Redactable(text))];
        }
    }
    var summary := Summarize(engine, fields);
    if summary.None? {
      return Dropped(RedactionUncertain);
    }
    var ttl := if level == MaximumAssistance then deadline else None;
    return Summarized(NewEventSummary(now, signal.sourceId, signalType, level, summary.value, ttl));
  }

  /** The fields a signal is stored with, if its text can be read at all. */
  function FieldsOf(engine: Engine, payload: CapturedPayload): Option<seq<Field>> {
    match Classify(payload)
    case Fields(_, fields) => Some(fields)
    case RequiresExtraction(_, rawBytes) =>
      match engine.extractText(rawBytes)
      case None => None
      case Some(text) => Some([Field("text", Redactable(text))])
  }

  /**
   Everything that is promised about an outcome: which signals are stored and which are
   dropped for what reason, and every column of a stored event.
   */
  ghost predicate IsOutcome(
    engine: Engine, signal: CapturedSignal, level: PrivacyLevel, now: DateTime, deadline: Option<DateTime>,
    outcome: PipelineOutcome)
  {
    var t, fields := Classify(signal.payload).signalType, FieldsOf(engine, signal.payload);
    var allowed := MinimumLevelFor(t).Number() <= level.Number();
    match outcome
    case Dropped(SignalNotAllowedAtCurrentLevel) => !allowed
    case Dropped(OcrUnavailable) => allowed && fields.None?
    case Dropped(RedactionUncertain) => allowed && fields.Some? && !AllStorable(engine, fields.value)
    case Summarized(e) =>
      && allowed && fields.Some? && AllStorable(engine, fields.value)
      && e.id == None && e.occurredAt == now && e.sourceId == signal.sourceId
      && e.signalType == t && e.levelAtCapture == level
      && e.summary.Some? && IsSummary(engine, fields.value, e.summary.value)
      && e.isDeepMode == (level == MaximumAssistance)
      && e.ttlExpiresAt == (if level == MaximumAssistance then deadline else None)
  }

  /** A stored event always respects its signal's level, and expires exactly in deep mode. */
  lemma StoredEventsRespectTheLevel(
    engine: Engine, signal: CapturedSignal, level: PrivacyLevel, now: DateTime, deadline: Option<DateTime>, e: EventSummary)
    requires IsOutcome(engine, signal, level, now, deadline, Summarized(e))
    ensures RespectsLevel(e) && e.levelAtCapture == level
    ensures level.Number() > 0
    ensures e.ttlExpiresAt.Some? <==> level == MaximumAssistance && deadline.Some?
  {
  }

  predicate RespectsLevel(e: EventSummary) {
    && MinimumLevelFor(e.signalType).Number() <= e.levelAtCapture.Number()
    && e.isDeepMode == (e.levelAtCapture == MaximumAssistance)
    && (e.ttlExpiresAt.Some? ==> e.isDeepMode)
  }

  /** At level 0 nothing is ever stored. */
  lemma ManualStoresNothing(
    engine: Engine, signal: CapturedSignal, now: DateTime, deadline: Option<DateTime>, outcome: PipelineOutcome)
    requires IsOutcome(engine, signal, Manual, now, deadline, outcome)
    ensures outcome == Dropped(SignalNotAllowedAtCurrentLevel)
  {
  }

  /** A change of focus to a nameless application. */
  function NamelessFocus(level: PrivacyLevel, now: DateTime, deadline: Option<DateTime>): EventSummary {
    NewEventSummary(now, "", AppFocusChange, level, map["app" := JsonString("")], deadline)
  }

  /** At every observing level there is something that redaction lets through. */
  lemma SomethingIsStored(engine: Engine, level: PrivacyLevel, now: DateTime, deadline: Option<DateTime>)
    requires level != Manual
    ensures IsOutcome(engine, CapturedSignal("", AppFocus("")), level, now, deadline,
                      Summarized(NamelessFocus(level, now, deadline)))
  {
    EmptyTextIsKept(engine);
    OneFieldIsStored(engine, Field("app", Redactable("")), "");
    assert FieldsOf(engine, AppFocus("")) == Some([Field("app", Redactable(""))]);
  }

  lemma OneFieldIsStored(engine: Engine, field: Field, kept: string)
    requires StoredField(engine, field.value) == Some(JsonString(kept))
    ensures AllStorable(engine, [field]) && IsSummary(engine, [field], map[field.name := JsonString(kept)])
  {
    assert [field][0].name == field.name;
  }

  lemma EmptyTextIsKept(engine: Engine)
    ensures engine.Verdict("") == Detectors.Clean("")
  {
    Detectors.EmptyTextIsClean(engine.findings(""), engine.highEntropy);
  }

  /** Text read from the screen at level 4, as redaction leaves it. */
  function ScreenText(kept: string, now: DateTime, deadline: Option<DateTime>): EventSummary {
    NewEventSummary(now, "screen", OcrText, MaximumAssistance, map["text" := JsonString(kept)], deadline)
  }

  lemma ScreenTextIsStored(engine: Engine, text: string, now: DateTime, deadline: Option<DateTime>)
    requires !engine.Verdict(text).Drop?
    ensures IsOutcome(engine, CapturedSignal("screen", Ocr(text)), MaximumAssistance, now, deadline,
                      Summarized(ScreenText(engine.Verdict(text).text, now, deadline)))
  {
    var kept, signal := engine.Verdict(text).text, CapturedSignal("screen", Ocr(text));
    KeptText(engine, text, kept);
    OneFieldIsStored(engine, Field("text", Redactable(text)), kept);
    OneFieldOutcome(engine, signal, MaximumAssistance, now, deadline, Field("text", Redactable(text)), kept,
                    ScreenText(kept, now, deadline));
  }

  lemma KeptText(engine: Engine, text: string, kept: string)
    requires !engine.Verdict(text).Drop? && engine.Verdict(text).text == kept
    ensures StoredField(engine, Redactable(text)) == Some(JsonString(kept))
  {
  }

  lemma OneFieldOutcome(
    engine: Engine, signal: CapturedSignal, level: PrivacyLevel, now: DateTime, deadline: Option<DateTime>,
    field: Field, kept: string, event: EventSummary)
    requires MinimumLevelFor(Classify(signal.payload).signalType).Number() <= level.Number()
    requires FieldsOf(engine, signal.payload) == Some([field])
    requires AllStorable(engine, [field]) && IsSummary(engine, [field], map[field.name := JsonString(kept)])
    requires event == NewEventSummary(
      now, signal.sourceId, Classify(signal.payload).signalType, level, map[field.name := JsonString(kept)], deadline)
    ensures IsOutcome(engine, signal, level, now, deadline, Summarized(event))
  {
  }

  /** A focused app's key is built from the redacted name, never from the captured one. */
  lemma KeyOfFocusedApp(
    engine: Engine, source: string, app: string, level: PrivacyLevel, now: DateTime, deadline: Option<DateTime>,
    e: EventSummary)
    requires IsOutcome(engine, CapturedSignal(source, AppFocus(app)), level, now, deadline, Summarized(e))
    ensures !engine.Verdict(app).Drop?
    ensures ActionKey(e) == "app_focus_change:" + engine.Verdict(app).text
  {
    var fields := [Field("app", Redactable(app))];
    assert FieldsOf(engine, AppFocus(app)) == Some(fields);
    OneField(engine, fields, e.summary.value);
    KeyOfApp(e, engine.Verdict(app).text);
  }

  lemma KeyOfApp(e: EventSummary, app: string)
    requires e.signalType == AppFocusChange && StringField(e, "app") == Some(app)
    ensures ActionKey(e) == "app_focus_change:" + app
  {
  }

  lemma OneField(engine: Engine, fields: seq<Field>, summary: map<string, Json>)
    requires |fields| == 1 && AllStorable(engine, fields) && IsSummary(engine, fields, summary)
    ensures fields[0].name in summary && StoredField(engine, fields[0].value) == Some(summary[fields[0].name])
  {
    assert fields[0].name in summary;
  }
}
