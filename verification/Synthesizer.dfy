/**
 Layer 2: turning a detected pattern and a model's replies into a recommendation whose
 numbers come from the pattern alone.
 */
module Synthesizer {
  import opened Wrappers
  import opened Detector
  import DetectorTheorems
  import JsonScanner
  import Gate
  import Validate

  datatype Category = Shortcut | Template | Script | BrowserAutomation | Rpa | WorkflowPlatform | AiAgent | Hybrid

  datatype Effort = Low | Medium | High

  /** What a reply's JSON object has to hold; it has no field for counts or times. */
  datatype Fields = Fields(
    title: string, category: string, why: string, confidence: real, difficulty: string,
    maintenanceBurden: string, privacyImplications: string, implementationEffort: string,
    alternatives: seq<(string, string)>, assumptions: seq<string>, ignoredInformation: seq<string>)

  datatype Recommendation = Recommendation(
    patternId: int, title: string, category: Category, why: string, confidence: real,
    estimatedTimeSavedMinutes: real, difficulty: Effort, maintenanceBurden: Effort,
    privacyImplications: string, implementationEffort: string,
    alternatives: seq<(string, string)>, assumptions: seq<string>, ignoredInformation: seq<string>)

  /** Deserialising an object, and matching the words and digits that may state a count. */
  datatype Reader = Reader(parse: string -> Result<Fields, string>, countWords: string -> Validate.Prose)
  {
    /** On every text the expressions find matches that are possible there. */
    ghost predicate Sound() {
      forall text :: Validate.Possible(countWords(text), |text|)
    }
  }

  datatype SynthesisError = ProviderFailed(error: Gate.ProviderError) | ExhaustedRetries(attempts: nat, lastError: string)

  // --- what a provider is told ---

  /** How counts, instants and minutes are written. */
  datatype Format = Format(count: nat -> string, time: int -> string, minutes: real -> string)

  function Join(parts: seq<string>, separator: string): string {
    if parts == [] then []
    else if |parts| == 1 then parts[0]
    else Join(parts[..|parts| - 1], separator) + separator + parts[|parts| - 1]
  }

  function BuildPrompt(format: Format, patternIdHint: string, detected: DetectedPattern): string {
    "Detected pattern (internal id: " + patternIdHint + "):\n"
    + ("- Action sequence: " + Join(detected.signature, " \U{2192} ") + "\n")
    + ("- Observed " + format.count(detected.occurrenceCount) + " times\n")
    + ("- First seen: " + format.time(detected.firstSeenAt) + "\n")
    + ("- Last seen: " + format.time(detected.lastSeenAt) + "\n")
    + ("- Estimated time per occurrence: " + format.minutes(detected.minutesPerOccurrence) + " minutes\n")
    + ("- Estimated total time so far: "
       + format.minutes(detected.minutesPerOccurrence * detected.occurrenceCount as real) + " minutes\n")
    + "\nProduce the JSON object described in your instructions."
  }

  ghost predicate IsPromptFor(format: Format, hint: string, ps: seq<DetectedPattern>, prompt: string) {
    exists p :: p in ps && prompt == BuildPrompt(format, hint, p)
  }

  /** Histories that differ only in content no key shows lead to the same prompts. */
  lemma PromptsRevealNoContent(
    format: Format, hint: string, d: PatternDetector, events: History, events': History,
    ps: seq<DetectedPattern>, ps': seq<DetectedPattern>, prompt: string)
    requires DetectorTheorems.SameShapes(events, events')
    requires IsDetection(d, events, ps) && IsDetection(d, events', ps')
    ensures IsPromptFor(format, hint, ps, prompt) <==> IsPromptFor(format, hint, ps', prompt)
  {
    DetectorTheorems.ContentDoesNotInterfere(d, events, events', ps, ps');
  }

  /** Part of a text, with something before and something after it. */
  ghost predicate Contains(text: string, part: string) {
    exists before: string, after: string :: text == before + part + after
  }

  lemma PartIsContained(before: string, part: string, after: string)
    ensures Contains(before + part + after, part)
  {
  }

  lemma PartsAreContained(h: string, a: string, b: string, c: string, d: string, e: string, f: string, t: string)
    ensures var text := h + a + b + c + d + e + f + t;
      && Contains(text, a) && Contains(text, b) && Contains(text, c)
      && Contains(text, d) && Contains(text, e) && Contains(text, f)
  {
    var text := h + a + b + c + d + e + f + t;
    PartIsContained(h, a, b + c + d + e + f + t);
    assert text == h + a + (b + c + d + e + f + t);
    PartIsContained(h + a, b, c + d + e + f + t);
    assert text == h + a + b + (c + d + e + f + t);
    PartIsContained(h + a + b, c, d + e + f + t);
    assert text == h + a + b + c + (d + e + f + t);
    PartIsContained(h + a + b + c, d, e + f + t);
    assert text == h + a + b + c + d + (e + f + t);
    PartIsContained(h + a + b + c + d, e, f + t);
    assert text == h + a + b + c + d + e + (f + t);
    PartIsContained(h + a + b + c + d + e, f, t);
  }

  /** The prompt gives each number of the pattern in its own line. */
  lemma PromptSays(format: Format, hint: string, p: DetectedPattern)
    ensures var prompt := BuildPrompt(format, hint, p);
      && Contains(prompt, "- Action sequence: " + Join(p.signature, " \U{2192} ") + "\n")
      && Contains(prompt, "- Observed " + format.count(p.occurrenceCount) + " times\n")
      && Contains(prompt, "- First seen: " + format.time(p.firstSeenAt) + "\n")
      && Contains(prompt, "- Last seen: " + format.time(p.lastSeenAt) + "\n")
      && Contains(prompt, "- Estimated time per occurrence: " + format.minutes(p.minutesPerOccurrence) + " minutes\n")
      && Contains(prompt, "- Estimated total time so far: "
           + format.minutes(DetectorTheorems.ClaimedMinutes(p)) + " minutes\n")
  {
    PartsAreContained(
      "Detected pattern (internal id: " + hint + "):\n",
      "- Action sequence: " + Join(p.signature, " \U{2192} ") + "\n",
      "- Observed " + format.count(p.occurrenceCount) + " times\n",
      "- First seen: " + format.time(p.firstSeenAt) + "\n",
      "- Last seen: " + format.time(p.lastSeenAt) + "\n",
      "- Estimated time per occurrence: " + format.minutes(p.minutesPerOccurrence) + " minutes\n",
      "- Estimated total time so far: " + format.minutes(DetectorTheorems.ClaimedMinutes(p)) + " minutes\n",
      "\nProduce the JSON object described in your instructions.");
  }

  /** A sequence is written from its first action on, one arrow between two. */
  lemma {:induction false} JoinFromTheLeft(first: string, rest: seq<string>, separator: string)
    ensures Join([first], separator) == first
    ensures rest != [] ==> Join([first] + rest, separator) == first + separator + Join(rest, separator)
  {
    if |rest| > 1 {
      var init, last := rest[..|rest| - 1], rest[|rest| - 1];
      JoinFromTheLeft(first, init, separator);
      assert ([first] + rest)[..|rest|] == [first] + init;
    } else if |rest| == 1 {
      assert ([first] + rest)[..1] == [first];
    }
  }

  // --- what a reply is worth ---

  function ParseCategory(value: string): Option<Category> {
    if value == "shortcut" then Some(Shortcut)
    else if value == "template" then Some(Template)
    else if value == "script" then Some(Script)
    else if value == "browser_automation" then Some(BrowserAutomation)
    else if value == "rpa" then Some(Rpa)
    else if value == "workflow_platform" then Some(WorkflowPlatform)
    else if value == "ai_agent" then Some(AiAgent)
    else if value == "hybrid" then Some(Hybrid)
    else None
  }

  function ParseLevel(value: string): Option<Effort> {
    if value == "low" then Some(Low)
    else if value == "medium" then Some(Medium)
    else if value == "high" then Some(High)
    else None
  }

  /** Every text of a reply that the model controls. */
  function FreeTexts(f: Fields): seq<string> {
    [f.why, f.title, f.privacyImplications, f.implementationEffort] + f.assumptions + f.ignoredInformation
    + Flatten(f.alternatives)
  }

  function Flatten(pairs: seq<(string, string)>): seq<string> {
    if pairs == [] then []
    else Flatten(pairs[..|pairs| - 1]) + [pairs[|pairs| - 1].0, pairs[|pairs| - 1].1]
  }

  predicate Contradicts(reader: Reader, f: Fields, count: nat) {
    exists i :: 0 <= i < |FreeTexts(f)| && Validate.ContradictsOccurrenceCount(reader.countWords(FreeTexts(f)[i]), count)
  }

  function BuildFrom(reader: Reader, patternId: int, detected: DetectedPattern, json: Option<string>)
    : Result<Recommendation, string>
  {
    if json.None? then Err("no JSON object found in response")
    else
      match reader.parse(json.value)
      case Err(e) => Err("JSON did not match expected shape: " + e)
      case Ok(f) =>
        if Contradicts(reader, f, detected.occurrenceCount) then
          Err("response narrative contradicts the real occurrence count")
        else
          var category, difficulty, burden :=
            ParseCategory(f.category), ParseLevel(f.difficulty), ParseLevel(f.maintenanceBurden);
          if category.None? then Err("unknown category")
          else if difficulty.None? || burden.None? then Err("unknown level")
          else if !(0.0 <= f.confidence <= 1.0) then Err("confidence out of range")
          else Ok(Recommendation(
            patternId, f.title, category.value, f.why, f.confidence,
            detected.minutesPerOccurrence * detected.occurrenceCount as real,
            difficulty.value, burden.value, f.privacyImplications, f.implementationEffort,
            f.alternatives, f.assumptions, f.ignoredInformation))
  }

  /** What a single reply is worth. */
  ghost function Built(reader: Reader, patternId: int, detected: DetectedPattern, reply: string)
    : Result<Recommendation, string>
  {
    BuildFrom(reader, patternId, detected, JsonScanner.Extracted(reply))
  }

  // --- what an accepted reply guarantees ---

  ghost predicate NothingContradicts(reader: Reader, texts: seq<string>, count: nat) {
    forall i :: 0 <= i < |texts| ==> !Validate.ContradictsOccurrenceCount(reader.countWords(texts[i]), count)
  }

  /** The texts of a recommendation that the model wrote. */
  function Texts(r: Recommendation): seq<string> {
    [r.why, r.title, r.privacyImplications, r.implementationEffort] + r.assumptions + r.ignoredInformation
    + Flatten(r.alternatives)
  }

  lemma {:induction false} FlattenHoldsBoth(pairs: seq<(string, string)>, text: string)
    ensures text in Flatten(pairs) <==> exists i :: 0 <= i < |pairs| && (text == pairs[i].0 || text == pairs[i].1)
  {
    if pairs != [] {
      var init := pairs[..|pairs| - 1];
      FlattenHoldsBoth(init, text);
      assert forall i :: 0 <= i < |init| ==> init[i] == pairs[i];
    }
  }

  /** Those are all of them: four single texts, the two lists, and both sides of every alternative. */
  lemma TextsAreAll(r: Recommendation, text: string)
    ensures text in Texts(r) <==>
      || text == r.why || text == r.title || text == r.privacyImplications || text == r.implementationEffort
      || text in r.assumptions || text in r.ignoredInformation
      || exists i :: 0 <= i < |r.alternatives| && (text == r.alternatives[i].0 || text == r.alternatives[i].1)
  {
    FlattenHoldsBoth(r.alternatives, text);
  }

  /**
   A recommendation about `detected` that can be shown: its saving is the pattern's own
   figure, its confidence is a fraction, and no text of it contradicts the pattern's count.
   */
  ghost predicate Trustworthy(reader: Reader, patternId: int, detected: DetectedPattern, r: Recommendation) {
    && r.patternId == patternId
    && r.estimatedTimeSavedMinutes == DetectorTheorems.ClaimedMinutes(detected)
    && 0.0 <= r.confidence <= 1.0
    && NothingContradicts(reader, Texts(r), detected.occurrenceCount)
  }

  /** The reply holds an object with known words, a fraction for confidence, and no other count. */
  ghost predicate IsUsable(reader: Reader, detected: DetectedPattern, reply: string) {
    && JsonScanner.Extracted(reply).Some?
    && var parsed := reader.parse(JsonScanner.Extracted(reply).value);
    && parsed.Ok?
    && ParseCategory(parsed.value.category).Some?
    && ParseLevel(parsed.value.difficulty).Some? && ParseLevel(parsed.value.maintenanceBurden).Some?
    && 0.0 <= parsed.value.confidence <= 1.0
    && NothingContradicts(reader, FreeTexts(parsed.value), detected.occurrenceCount)
  }

  /** A reply is accepted exactly when it is usable, and what it becomes can be shown. */
  lemma AcceptedIsTrustworthy(reader: Reader, patternId: int, detected: DetectedPattern, reply: string)
    ensures Built(reader, patternId, detected, reply).Ok? <==> IsUsable(reader, detected, reply)
    ensures Built(reader, patternId, detected, reply).Ok? ==>
      Trustworthy(reader, patternId, detected, Built(reader, patternId, detected, reply).value)
  {
  }

  function CategoryName(c: Category): string {
    match c
    case Shortcut => "shortcut"
    case Template => "template"
    case Script => "script"
    case BrowserAutomation => "browser_automation"
    case Rpa => "rpa"
    case WorkflowPlatform => "workflow_platform"
    case AiAgent => "ai_agent"
    case Hybrid => "hybrid"
  }

  function EffortName(e: Effort): string {
    match e
    case Low => "low"
    case Medium => "medium"
    case High => "high"
  }

  /** Exactly the eight names are categories, each its own. */
  lemma CategoriesAreNamed(value: string, c: Category)
    ensures ParseCategory(value) == Some(c) <==> value == CategoryName(c)
  {
  }

  lemma EffortsAreNamed(value: string, e: Effort)
    ensures ParseLevel(value) == Some(e) <==> value == EffortName(e)
  {
  }

  /** The recommendation says, field by field, what the object says. */
  predicate Says(r: Recommendation, f: Fields) {
    && r.title == f.title && r.why == f.why && r.confidence == f.confidence
    && CategoryName(r.category) == f.category
    && EffortName(r.difficulty) == f.difficulty && EffortName(r.maintenanceBurden) == f.maintenanceBurden
    && r.privacyImplications == f.privacyImplications && r.implementationEffort == f.implementationEffort
    && r.alternatives == f.alternatives && r.assumptions == f.assumptions && r.ignoredInformation == f.ignoredInformation
  }

  /** What an accepted reply becomes has every field from the reply's object, except for the saving. */
  lemma AcceptedSaysWhatWasSaid(reader: Reader, patternId: int, detected: DetectedPattern, reply: string)
    requires Built(reader, patternId, detected, reply).Ok?
    ensures JsonScanner.Extracted(reply).Some? && reader.parse(JsonScanner.Extracted(reply).value).Ok?
    ensures Says(Built(reader, patternId, detected, reply).value, reader.parse(JsonScanner.Extracted(reply).value).value)
  {
    var f := reader.parse(JsonScanner.Extracted(reply).value).value;
    var r := Built(reader, patternId, detected, reply).value;
    CategoriesAreNamed(f.category, r.category);
    EffortsAreNamed(f.difficulty, r.difficulty);
    EffortsAreNamed(f.maintenanceBurden, r.maintenanceBurden);
  }

  /** With sound expressions: whatever count a shown text names is the pattern's. */
  lemma ShownTextsNameOnlyTheCount(reader: Reader, patternId: int, detected: DetectedPattern, r: Recommendation, text: string)
    requires reader.Sound() && Trustworthy(reader, patternId, detected, r) && text in Texts(r)
    ensures Validate.NamesOnly(reader.countWords(text), detected.occurrenceCount)
  {
    var i :| 0 <= i < |Texts(r)| && Texts(r)[i] == text;
    Validate.ContradictionIsExact(reader.countWords(text), |text|, detected.occurrenceCount);
  }

  method TryBuild(reader: Reader, patternId: int, detected: DetectedPattern, rawResponse: string)
    returns (r: Result<Recommendation, string>)
    ensures r.Ok? <==> IsUsable(reader, detected, rawResponse)
    ensures r.Ok? ==> Trustworthy(reader, patternId, detected, r.value)
    ensures r.Ok? ==> Says(r.value, reader.parse(JsonScanner.Extracted(rawResponse).value).value)
    ensures r == Built(reader, patternId, detected, rawResponse)
  {
    var json := JsonScanner.ExtractJsonObject(rawResponse);
    r := BuildFrom(reader, patternId, detected, json);
    AcceptedIsTrustworthy(reader, patternId, detected, rawResponse);
    if r.Ok? {
      AcceptedSaysWhatWasSaid(reader, patternId, detected, rawResponse);
    }
  }

  type Replies = nat -> Result<string, Gate.ProviderError>

  ghost predicate Unusable(
    reader: Reader, patternId: int, detected: DetectedPattern, reply: Result<string, Gate.ProviderError>)
  {
    reply.Ok? && Built(reader, patternId, detected, reply.value).Err?
  }

  /**
   What a round of `calls` calls may end with: every call but the last was answered, but
   unusably; the last gave the recommendation, failed, or used up the attempts.
   */
  ghost predicate IsSynthesis(
    reader: Reader, patternId: int, detected: DetectedPattern, maxAttempts: nat, replies: Replies,
    r: Result<Recommendation, SynthesisError>, calls: nat)
  {
    && 1 <= calls <= maxAttempts
    && (forall i :: 0 <= i < calls - 1 ==> Unusable(reader, patternId, detected, replies(i)))
    && var last := replies(calls - 1);
    match r
    case Ok(recommendation) => last.Ok? && Built(reader, patternId, detected, last.value) == Ok(recommendation)
    case Err(ProviderFailed(e)) => last == Err(e)
    case Err(ExhaustedRetries(attempts, lastError)) =>
      && calls == maxAttempts == attempts
      && last.Ok? && Built(reader, patternId, detected, last.value) == Err(lastError)
  }

  /**
   `replies(i)` answers the i-th call.  The retry loop asks again only after a reply that
   could not be used, never after a provider error, and at most `maxAttempts` times.
   */
  method Synthesize(reader: Reader, patternId: int, detected: DetectedPattern, maxAttempts: nat, replies: Replies)
    returns (r: Result<Recommendation, SynthesisError>, calls: nat)
    requires 1 <= maxAttempts
    ensures IsSynthesis(reader, patternId, detected, maxAttempts, replies, r, calls)
  {
    var lastError := "";
    calls := 0;
    while calls < maxAttempts
      invariant calls <= maxAttempts
      invariant forall i :: 0 <= i < calls ==> Unusable(reader, patternId, detected, replies(i))
      invariant calls > 0 ==> Built(reader, patternId, detected, replies(calls - 1).value) == Err(lastError)
    {
      var reply := replies(calls);
      calls := calls + 1;
      match reply {
        case Err(e) => return Err(ProviderFailed(e)), calls;
        case Ok(text) =>
          var built := TryBuild(reader, patternId, detected, text);
          match built {
            case Ok(recommendation) => return Ok(recommendation), calls;
            case Err(reason) => lastError := reason;
          }
      }
    }
    return Err(ExhaustedRetries(maxAttempts, lastError)), calls;
  }

  /** Two readers of the same reply about the same pattern can only disagree on words, never on time. */
  lemma TimeComesFromThePattern(
    reader: Reader, reader': Reader, id: int, id': int, detected: DetectedPattern, reply: string, reply': string)
    requires Built(reader, id, detected, reply).Ok? && Built(reader', id', detected, reply').Ok?
    ensures Built(reader, id, detected, reply).value.estimatedTimeSavedMinutes
         == Built(reader', id', detected, reply').value.estimatedTimeSavedMinutes
         == DetectorTheorems.ClaimedMinutes(detected)
  {
    AcceptedIsTrustworthy(reader, id, detected, reply);
    AcceptedIsTrustworthy(reader', id', detected, reply');
  }

  /** Whatever the model answered, the saving claimed fits in the time that was observed. */
  lemma SavingFitsWallClock(
    reader: Reader, id: int, reply: string,
    d: PatternDetector, events: History, ps: seq<DetectedPattern>, detected: DetectedPattern)
    requires IsDetection(d, events, ps) && detected in ps
    requires DetectorTheorems.OldestFirst(Times(events), 0)
    ensures var built := Built(reader, id, detected, reply);
      built.Ok? ==> 0.0 <= built.value.estimatedTimeSavedMinutes <= Minutes(detected.lastSeenAt - detected.firstSeenAt)
  {
    if Built(reader, id, detected, reply).Ok? {
      TimeComesFromThePattern(reader, reader, id, id, detected, reply, reply);
    }
    DetectorTheorems.TimeWithinWallClock(d, events, ps, detected);
  }

  /** A usable object survives any prose that does not open a brace before it. */
  lemma ProseDoesNotMatter(
    reader: Reader, id: int, detected: DetectedPattern, prose: string, members: JsonScanner.JsonText.Members, anything: string)
    requires JsonScanner.JsonText.ValidMembers(members) && '{' !in prose
    ensures var printed := JsonScanner.JsonText.Render(JsonScanner.JsonText.Object(members));
      Built(reader, id, detected, prose + printed + anything) == Built(reader, id, detected, printed)
  {
    var printed := JsonScanner.JsonText.Render(JsonScanner.JsonText.Object(members));
    JsonScanner.ObjectIsExtracted(prose, members, anything);
    JsonScanner.ObjectIsExtracted([], members, []);
    assert [] + printed + [] == printed;
  }
}
