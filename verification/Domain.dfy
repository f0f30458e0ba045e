/**
 The vocabulary every component shares: privacy levels, signal types, stored event
 summaries, and the action key that identifies an event for pattern matching.
 */
module Domain {
  import opened Rfc3339
  import opened Wrappers

  /** Levels 0 to 4, from nothing observed to deep mode. */
  datatype PrivacyLevel =
    | Manual | ApplicationMetadata | WorkflowMetadata | ContextAware | MaximumAssistance
  {
    function Number(): nat {
      match this
      case Manual => 0
      case ApplicationMetadata => 1
      case WorkflowMetadata => 2
      case ContextAware => 3
      case MaximumAssistance => 4
    }
  }

  datatype SignalType =
    | AppFocusChange | WindowTitle | ShortcutUsed | AppActionEvent | BrowserDomainVisited
    | ClipboardMetadata | FileOperationMetadata | OcrText | Screenshot | AccessibilityTree

  /** A field of an event summary; only strings are ever read back. */
  datatype Json = JsonString(text: string) | JsonNumber(n: int)

  /** `summary` is None when the stored JSON is not an object. */
  datatype EventSummary = EventSummary(
    id: Option<int>,
    occurredAt: DateTime,
    sourceId: string,
    signalType: SignalType,
    levelAtCapture: PrivacyLevel,
    summary: Option<map<string, Json>>,
    isDeepMode: bool,
    ttlExpiresAt: Option<DateTime>)

  /** Deep mode and its expiry are derived together. */
  function NewEventSummary(
    occurredAt: DateTime, sourceId: string, signalType: SignalType, level: PrivacyLevel,
    summary: map<string, Json>, ttlExpiresAt: Option<DateTime>): EventSummary
  {
    var deep := level == MaximumAssistance;
    EventSummary(None, occurredAt, sourceId, signalType, level, Some(summary), deep,
                 if deep then ttlExpiresAt else None)
  }

  function SignalTypeLabel(t: SignalType): string {
    match t
    case AppFocusChange => "app_focus_change"
    case WindowTitle => "window_title"
    case ShortcutUsed => "shortcut_used"
    case AppActionEvent => "app_action_event"
    case BrowserDomainVisited => "browser_domain_visited"
    case ClipboardMetadata => "clipboard_metadata"
    case FileOperationMetadata => "file_operation_metadata"
    case OcrText => "ocr_text"
    case Screenshot => "screenshot"
    case AccessibilityTree => "accessibility_tree"
  }

  // --- paths, with '/' as the separator ---

  function LastIndexOf(s: string, c: char): (r: int)
    ensures -1 <= r < |s|
    ensures r >= 0 ==> s[r] == c
    ensures forall i :: r < i < |s| ==> s[i] != c
  {
    if s == [] then -1
    else if s[|s| - 1] == c then |s| - 1
    else LastIndexOf(s[..|s| - 1], c)
  }

  /** The last component, unless it is ".."; trailing separators and "." components are ignored. */
  function FileName(path: string): Option<string>
    decreases |path|
  {
    if path == [] then None
    else
      var slash := LastIndexOf(path, '/');
      var component := path[slash + 1..];
      if component == "" then FileName(path[..|path| - 1])
      else if component == "." then FileName(path[..slash + 1])
      else if component == ".." then None
      else Some(component)
  }

  /** What follows the last dot, unless that dot starts the name. */
  function Extension(path: string): Option<string> {
    match FileName(path)
    case None => None
    case Some(name) =>
      var dot := LastIndexOf(name, '.');
      if dot <= 0 then None else Some(name[dot + 1..])
  }

  // --- the structural identity of an event ---

  function StringField(e: EventSummary, name: string): Option<string> {
    if e.summary.Some? && name in e.summary.value && e.summary.value[name].JsonString?
    then Some(e.summary.value[name].text) else None
  }

  function Subject(e: EventSummary): Option<string> {
    match e.signalType
    case AppFocusChange => StringField(e, "app")
    case ShortcutUsed => StringField(e, "shortcut")
    case BrowserDomainVisited => StringField(e, "domain")
    case ClipboardMetadata => StringField(e, "content_type")
    case FileOperationMetadata => FileSubject(StringField(e, "operation"), StringField(e, "path"))
    case _ => None
  }

  function FileSubject(operation: Option<string>, path: Option<string>): Option<string> {
    if operation.None? then None
    else
      var extension := if path.None? then None else Extension(path.value);
      Some(operation.value + ":" + (if extension.Some? then extension.value else "no_extension"))
  }

  function ActionKey(e: EventSummary): string {
    match Subject(e)
    case Some(subject) => SignalTypeLabel(e.signalType) + ":" + subject
    case None => e.sourceId + ":" + SignalTypeLabel(e.signalType)
  }

  // --- which keys carry a browser domain ---

  const VERBATIM_PREFIX := "browser_domain_visited:"

  predicate CarriesDomain(e: EventSummary) {
    e.signalType == BrowserDomainVisited && Subject(e).Some?
  }

  /** Sources named so that their fallback key looks like a domain's. */
  predicate LooksLikeDomainSource(sourceId: string) {
    VERBATIM_PREFIX <= sourceId + ":"
  }

  lemma PrefixOfConcat(p: string, a: string, b: string)
    requires |p| <= |a|
    ensures p <= a + b <==> p <= a
  {
    assert p <= a ==> (a + b)[..|p|] == a[..|p|];
    assert (a + b)[..|p|] == a[..|p|];
  }

  /**
   Matching a key's prefix finds every event that carries a browser domain; it finds
   others too, exactly those without a subject whose source is named like the prefix.
   */
  lemma VerbatimPrefixMeaning(e: EventSummary)
    ensures VERBATIM_PREFIX <= ActionKey(e)
       <==> CarriesDomain(e) || (Subject(e).None? && LooksLikeDomainSource(e.sourceId))
  {
    var name := SignalTypeLabel(e.signalType);
    if Subject(e).Some? {
      if e.signalType == BrowserDomainVisited {
        assert VERBATIM_PREFIX == name + ":";
        PrefixOfConcat(VERBATIM_PREFIX, name + ":", Subject(e).value);
      } else {
        OtherLabels(e.signalType);
        assert ActionKey(e)[0] == name[0] && ActionKey(e)[1] == name[1];
      }
    } else {
      FallbackKey(e.sourceId, name);
    }
  }

  lemma OtherLabels(t: SignalType)
    requires t != BrowserDomainVisited
    ensures |SignalTypeLabel(t)| >= 2 && SignalTypeLabel(t)[0] != 'b'
  {
  }

  /** No label contains a colon, so the prefix can only match within "source:". */
  lemma FallbackKey(source: string, name: string)
    requires exists t :: name == SignalTypeLabel(t)
    ensures VERBATIM_PREFIX <= source + ":" + name <==> VERBATIM_PREFIX <= source + ":"
  {
    var key := source + ":" + name;
    var n := |VERBATIM_PREFIX|;
    if n <= |source| + 1 {
      PrefixOfConcat(VERBATIM_PREFIX, source + ":", name);
    } else {
      // the colon after the source meets an earlier character of the prefix
      assert key[|source|] == ':' && VERBATIM_PREFIX[|source|] != ':';
    }
  }

  // --- events that differ only in content the key never looks at ---

  /** The part of the summary that each signal type contributes to its key. */
  function VisibleSummary(e: EventSummary): (Option<string>, Option<string>) {
    match e.signalType
    case AppFocusChange => (StringField(e, "app"), None)
    case ShortcutUsed => (StringField(e, "shortcut"), None)
    case BrowserDomainVisited => (StringField(e, "domain"), None)
    case ClipboardMetadata => (StringField(e, "content_type"), None)
    case FileOperationMetadata =>
      (StringField(e, "operation"),
       match StringField(e, "path") case None => None case Some(path) => Extension(path))
    case _ => (None, None)
  }

  /** Same time, source, type and id; everything else may differ outside the visible summary. */
  predicate SameShape(e: EventSummary, f: EventSummary) {
    && e.id == f.id && e.occurredAt == f.occurredAt && e.sourceId == f.sourceId
    && e.signalType == f.signalType && VisibleSummary(e) == VisibleSummary(f)
  }

  lemma SameShapeSameKey(e: EventSummary, f: EventSummary)
    requires SameShape(e, f)
    ensures ActionKey(e) == ActionKey(f)
  {
    assert Subject(e) == Subject(f);
  }

  predicate ContentField(t: SignalType, name: string) {
    match t
    case AppFocusChange => name != "app"
    case ShortcutUsed => name != "shortcut"
    case BrowserDomainVisited => name != "domain"
    case ClipboardMetadata => name != "content_type"
    case FileOperationMetadata => name != "operation" && name != "path"
    case _ => true
  }

  /** Window titles, deep-mode text, clipboard sizes and the like never reach the key. */
  lemma ContentIsInvisible(e: EventSummary, name: string, value: Json)
    requires e.summary.Some? && ContentField(e.signalType, name)
    ensures SameShape(e, e.(summary := Some(e.summary.value[name := value])))
  {
  }

  /** Of a file's path only the extension does. */
  lemma OnlyTheExtensionIsVisible(e: EventSummary, path: string, path': string)
    requires e.signalType == FileOperationMetadata && e.summary.Some?
    requires "path" in e.summary.value && e.summary.value["path"] == JsonString(path)
    requires Extension(path) == Extension(path')
    ensures SameShape(e, e.(summary := Some(e.summary.value["path" := JsonString(path')])))
  {
    var f := e.(summary := Some(e.summary.value["path" := JsonString(path')]));
    assert "operation" != "path";
    assert StringField(f, "operation") == StringField(e, "operation");
    assert StringField(e, "path") == Some(path) && StringField(f, "path") == Some(path');
  }
}
