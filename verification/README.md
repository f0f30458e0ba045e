# HiddenSteps: a verified model

HiddenSteps watches how someone works, finds repeated action sequences in the stored event
history, and asks a language model for a remedy for each. This project models the parts of
it whose behaviour is hardest to see from one function, and proves what they guarantee.
`dafny verify dfyconfig.toml` checks everything.

**Layer 1** (`Occurrences`, `Detector`, `DetectorTheorems`, `PatternNumbers`, `KeyTheorems`,
`WorkflowGraph`). The sliding-window detector and the workflow graph are loops proved against
a definition of what has to be reported. The central result is that keeping occurrences
earliest-first keeps as many as any disjoint choice could; counts, closure under parts, time
bounds, id conservation, stability under appending and the agreement with the graph follow.
`PatternNumbers` and `KeyTheorems` say what the times of a pattern and the keys of events are,
term by term and letter by letter.

**Text** (`JsonText`, `JsonScanner`, `Luhn`, `Detectors`, `DetectionTheorems`, `Redaction`,
`Validate`, `NumberWords`, `Rfc3339`). The brace scanner, the card-number search, the
redactor, the count check and the stored timestamp text, with round trips, error detection,
and exact conditions for what survives.

**Layer 2** (`Synthesizer`, `Gate`). What a reply can and cannot decide, the retry loop, and the
dispatch gate.

**The running system** (`EventStore`, `Pipeline`, `PipelineTheorems`, `Similarity`, `System`,
`Application`). `System` is a state machine: user commands, the observation loop and the
recommendation loop interleave store call by store call, and a label carries each choice of
the environment (what was polled, what a provider answered, which rows a listing with ties
returned). A run is any sequence of labels. `SystemTheorems`, `CaptureTheorems`,
`SweepTheorems`, `DispatchTheorems` and `ConsentTheorems` state what every run keeps;
`WipeTheorems` and `CloudTheorems` say when two promises of the documentation hold, with runs,
assembled in `Scenarios`, in which they do not. `Application` is the imperative counterpart: a
class over the `Store` and `DispatchGate` objects whose methods are the commands and one
round of each loop, each shown to be a run of the state machine; `SweepEffects` says what a
sweep does to the store.

## Choices

- Store operations are atomic: each holds the connection's mutex. A privacy command is two
  steps, its read and its write, and anything may happen in between. `Serialized` says that
  no command was overtaken; results that need it say so. `set_cloud_consent` is two steps
  as well, the setting and the gate, and so is `set_ai_provider`, which registers a provider
  as inactive and then makes it the active one.
- `f64` and `f32` are `real`. Square root is a parameter with its defining property.
- Text is ASCII: byte offsets and character positions coincide. Paths use `/`.
- The regular expressions are inputs: on each text, spans that are non-empty, in bounds,
  left to right and disjoint, and of fixed length where the expression fixes it. The entropy
  test, text extraction, JSON deserialisation and number formatting are inputs as well.
- A provider is any sequence of replies and errors; `poll` is any list of signals.
- Date-times are UTC with years 0 to 9999; instants are nanoseconds.
- The order of a `HashMap` is arbitrary, so results that follow it are compared as sets.
- Ids come from `AUTOINCREMENT` counters, which deleting rows does not reset.

## Where the code and its documentation differ

The code is modelled as it is; each difference that bears on behaviour is a lemma.

- Rows are listed and expired by comparing RFC 3339 text. Within one second that is not the
  order of time: a whole second has no fraction and its `Z` sorts after every `.`
  (`Rfc3339.TextOrderCanDisagree`, `TextOrderWithinASecond`). The reversed listing handed to the
  detector, which asks for oldest first, is in order only up to less than a second, and
  retention is exact only to the second (`EventStore.SweepIsExactToTheSecond`).
- `apply_redactions` expects that high-confidence detections do not overlap and skips one
  that starts inside another. If it ends outside, its remainder is copied to the output. A
  private key whose opening line is run into by `password=x` is returned in full
  (`Detectors.PrivateKeyIsReturned`; `SurvivalIsDecidedForReturned` gives the exact condition).
- Matching the prefix `browser_domain_visited:` is called exact. It is, unless an event source
  is itself named like the prefix (`Domain.VerbatimPrefixMeaning`).
- The detector's comment gives the action key as source and signal type; the code uses the
  signal type and its subject where there is one.
- `set_privacy_level` asks for acknowledged permissions by the requested level, not the
  effective one: level 0 with a policy floor above it needs none
  (`SystemTheorems.UnacknowledgedLevels`).
- `complete_onboarding` alone never starts capture: the manifest version starts at 0 and has
  to be acknowledged (`CaptureTheorems.NothingWithoutAcknowledgement`).
- `delete_all_data` clears the stored consent but not the gate in memory
  (`ConsentTheorems.ConsentOutlivesAWipe`), and a tick or a sweep that is under way goes on
  storing what it observed or found before (`WipeTheorems.TickOutlivesAWipe`,
  `SweepOutlivesAWipe`; `WipeIsFinalExactly` says when nothing comes back).
- Consent is meant to be one thing; it is kept in two places, which `set_cloud_consent` writes
  one after the other. Overlapping commands leave them apart
  (`ConsentTheorems.OverlappingConsentParts`; `AgreementIsLostExactly` names every such step).
  A revocation does not stop the calls of a round that has taken its snapshot
  (`DispatchTheorems.RevocationDoesNotStopARound`).
- A privacy command writes back the whole row it read, so an overtaken one restores old
  fields (`SystemTheorems.OvertakenPauseIsLost`; `WriteIsAtomicExactly` gives the condition).
- `link_pattern_events` ignores duplicates but not missing events: it stops at the first one
  and its caller ignores the error (`EventStore.TraceabilityIsComplete`).
- Content captured at level 4 is never to reach a cloud provider, whatever consent there is
  (section 3 of `docs/design/05-privacy-model.md`, `gate.rs:16-21`). The gate is asked about
  the level the sweep has read, and the levels at which the events were captured play no part
  (`CloudTheorems.NewPatternReachesTheCloudExactly`). So the rule fails once the level is
  lowered (`LoweringExposes`). It also fails when it never is while such an event is stored:
  if the level is raised between a sweep's two reads (`RaisingMidSweepExposes`) or lowered
  during a tick (`LoweringMidTickExposes`). `DeepContentStaysLocal` proves the rule of every run
  without these three kinds of step.

## Model

| member | source | states |
|---|---|---|
| `Occurrences.SelectedIsMaximum` | crates/patterns/src/detector.rs:143-164 | the occurrences kept for a signature are as many as the largest pairwise disjoint set of its occurrences |
| `Occurrences.GreedyIsLargest` | crates/patterns/src/detector.rs:148-164 | among occurrences starting at or after any point, no disjoint choice beats the earliest-first one |
| `Occurrences.SubSignatureCount` | crates/patterns/src/detector.rs:82-96 | every part of a signature occurs, disjointly and in total, at least as often as the whole |
| `Occurrences.SelectedBounds` | crates/patterns/src/detector.rs:153-164 | raw count <= window * kept count, window * kept count <= history length, kept <= raw |
| `Occurrences.SelectedIsStable` | crates/patterns/src/detector.rs:153-164 | events appended later never change which earlier occurrences are kept |
| `Occurrences.SelectedIsEarliest` | crates/patterns/src/detector.rs:153-164 | the kept occurrences are the first one, then the first to start where it has ended, and so on to the last |
| `Occurrences.EarliestIsUnique` | crates/patterns/src/detector.rs:153-164 | nothing else is, so this says which occurrences are kept |
| `Detector.SelectNonOverlapping` | crates/patterns/src/detector.rs:153-164 | the sorting loop returns the greedy earliest-first choice |
| `Detector.GroupBySignature` | crates/patterns/src/detector.rs:82-90 | the window loop maps each signature of that length that occurs to all its starts, ascending, and holds no other key |
| `Detector.DetectForWindow` | crates/patterns/src/detector.rs:82-135 | one pattern for each signature of the window size with enough disjoint occurrences, no other, none twice |
| `Detector.Detect` | crates/patterns/src/detector.rs:71-80 | the same over the whole range of window sizes, window 0 and windows longer than the history included |
| `DetectorTheorems.CountIsMaximum` | crates/patterns/src/detector.rs:98-135 | a reported count is the size of a largest set of pairwise disjoint occurrences |
| `DetectorTheorems.ReportedExactly` | crates/patterns/src/detector.rs:71-96 | a signature is reported exactly when its length is searched and enough disjoint occurrences of it exist |
| `DetectorTheorems.DownwardClosure` | crates/patterns/src/detector.rs:71-135 | every contiguous part of a reported signature whose length is searched is reported too, with at least its count |
| `DetectorTheorems.CountBounds` | crates/patterns/src/detector.rs:82-96 | raw count <= window * count and window * count <= history length |
| `PatternNumbers.ClaimIsTheSum` | crates/patterns/src/detector.rs:105-117 | estimate * count is the sum over the kept occurrences of the time from the first to the last event of each, in minutes of 60 seconds, as running totals |
| `PatternNumbers.EstimateIsBetween` | crates/patterns/src/detector.rs:105-117 | if every kept occurrence lasts between two durations, so does the estimate; if all last the same, it is that |
| `PatternNumbers.SightingsAreExact` | crates/patterns/src/detector.rs:98-104 | first seen is the least time at which a kept occurrence begins, last seen the greatest at which one ends |
| `PatternNumbers.IdsAreInOrder` | crates/patterns/src/detector.rs:118-121 | contributing ids come occurrence by occurrence, in the order of the history |
| `DetectorTheorems.TimeIsBounded` | crates/patterns/src/detector.rs:98-117 | for a history in order up to a slack the claimed total fits the elapsed time up to the slack |
| `DetectorTheorems.TimeWithinWallClock` | crates/patterns/src/detector.rs:98-117 | for an oldest-first history, 0 <= estimate * count <= minutes from first to last sighting |
| `DetectorTheorems.IdsAreConserved` | crates/patterns/src/detector.rs:118-121 | with distinct ids, exactly window * count contributing ids, none twice, all from the history |
| `DetectorTheorems.AppendingIsMonotone` | crates/patterns/src/detector.rs:71-135 | appending events never loses a pattern or lowers its count; earlier ids stay a prefix, the time range only widens |
| `DetectorTheorems.ContentDoesNotInterfere` | crates/patterns/src/detector.rs:181-233 | histories that differ only in content outside the keys give the same patterns, times and ids included |
| `DetectorTheorems.FlagIsExact` | crates/patterns/src/detector.rs:242-246 | the verbatim flag is set exactly when an occurrence holds a browser domain or an event whose fallback key is named like one |
| `Domain.VerbatimPrefixMeaning` | crates/patterns/src/detector.rs:236-246 | the key prefix finds every event that carries a domain, and otherwise exactly the subject-less ones of a source named like the prefix |
| `Domain.SameShapeSameKey` | crates/patterns/src/detector.rs:181-233 | events with the same type, source and visible fields have the same key |
| `Domain.ContentIsInvisible` | crates/patterns/src/detector.rs:199-233 | changing any other summary field (titles, deep-mode text, clipboard size) keeps the shape, hence the key |
| `Domain.OnlyTheExtensionIsVisible` | crates/patterns/src/detector.rs:211-231 | paths with equal extensions are interchangeable; the rows below say what the extension is |
| `KeyTheorems.ExtensionIsTheKey` | crates/patterns/src/detector.rs:211-231 | for any directory, stem and suffix, the key of an operation on directory/stem.suffix is its type, the operation and the suffix |
| `KeyTheorems.NoExtensionIsTheKey` | crates/patterns/src/detector.rs:211-231 | a name without a dot, or with one in front only, gives no_extension |
| `KeyTheorems.KeyWithoutPath` | crates/patterns/src/detector.rs:211-231 | so does an operation without a path |
| `KeyTheorems.StemAndDirectoryAreInvisible` | crates/patterns/src/detector.rs:211-231 | two directories and two stems with one suffix give one key |
| `KeyTheorems.NameIsFound` | crates/patterns/src/detector.rs:217-221 | a path that ends in a name has that file name, whatever comes before it |
| `KeyTheorems.PathEnds` | crates/patterns/src/detector.rs:217-221 | separators and single dots at the end are ignored, two dots name nothing |
| `KeyTheorems.KeysWithSubject` | crates/patterns/src/detector.rs:181-209 | app, shortcut, domain and clipboard keys, letter by letter |
| `KeyTheorems.KeysWithoutSubject` | crates/patterns/src/detector.rs:181-233 | all other keys: the source and the type, no title and no text |
| `WorkflowGraph.BuildWorkflowGraph` | crates/patterns/src/workflow_graph.rs:40-73 | nodes are the distinct keys in order of appearance; one edge per transition that happened, weighted by how often; none else |
| `WorkflowGraph.NodesAreTheKeys` | crates/patterns/src/workflow_graph.rs:40-73 | nodes are exactly the keys, none twice |
| `WorkflowGraph.EdgesJoinNodes` | crates/patterns/src/workflow_graph.rs:40-73 | both ends of every edge are nodes and its weight is positive |
| `WorkflowGraph.WeightIsConserved` | crates/patterns/src/workflow_graph.rs:40-73 | edge weights sum to max(length - 1, 0) |
| `WorkflowGraph.FlowIsConserved` | crates/patterns/src/workflow_graph.rs:31-73 | outgoing minus incoming weight of a key is [it is first] - [it is last]; outgoing weight + [it is last] is its number of events |
| `WorkflowGraph.GraphAgreesWithDetector` | crates/patterns/src/workflow_graph.rs:40-73 | for a != b, [a, b] is reported exactly when the edge weighs at least the minimum, and its count equals the weight |
| `WorkflowGraph.SelfLoopIsAtMostDouble` | crates/patterns/src/workflow_graph.rs:40-73 | for a repeated key the weight lies between the count and twice the count |
| `JsonScanner.ExtractJsonObject` | crates/recommendations/src/prompt.rs:77-106 | the character loop returns the shortest stretch from the first brace that balances outside strings, or None if none does |
| `JsonScanner.ExtractionIsUnique` | crates/recommendations/src/prompt.rs:77-106 | at most one stretch of a text is its extraction |
| `JsonScanner.ObjectIsRecovered` | crates/recommendations/src/prompt.rs:67-106 | any object printed per RFC 8259, in prose and followed by anything, is the extraction exactly when the prose has no opening brace |
| `JsonScanner.ObjectIsExtracted` | crates/recommendations/src/prompt.rs:67-106 | extraction after printing gives back the printed object |
| `JsonScanner.ValueIsClosed` | crates/recommendations/src/prompt.rs:71-76 | every printed value ends outside strings, closes each brace it opens and never dips below its start |
| `Synthesizer.PromptsRevealNoContent` | crates/recommendations/src/prompt.rs:46-65 | histories that differ only in content outside the keys lead to the same prompts |
| `Synthesizer.PromptSays` | crates/recommendations/src/prompt.rs:46-65 | the prompt gives the sequence, the count, both sightings, the estimate and the total, each in its own line |
| `Synthesizer.JoinFromTheLeft` | crates/recommendations/src/prompt.rs:58 | the sequence is written from its first action on, one arrow between two |
| `Synthesizer.TryBuild` | crates/recommendations/src/synthesizer.rs:80-163 | a reply is accepted exactly when its extracted object has known words, a confidence in [0, 1] and no text that contradicts the count; what it becomes then carries those guarantees and the pattern's own saving |
| `Synthesizer.AcceptedIsTrustworthy` | crates/recommendations/src/synthesizer.rs:94-163 | the same of every reply, as a fact about replies: accepted exactly when usable, and then trustworthy about its pattern |
| `Synthesizer.AcceptedSaysWhatWasSaid` | crates/recommendations/src/synthesizer.rs:117-160 | every field of an accepted recommendation but the saving is the field of that name in the reply's object |
| `Synthesizer.CategoriesAreNamed` | crates/recommendations/src/synthesizer.rs:166-178 | exactly the eight names are categories, each its own |
| `Synthesizer.EffortsAreNamed` | crates/recommendations/src/synthesizer.rs:180-187 | exactly the three names are levels, each its own |
| `Synthesizer.TextsAreAll` | crates/recommendations/src/synthesizer.rs:96-112 | the texts that are checked are all that the model wrote, both sides of every alternative among them |
| `Synthesizer.ShownTextsNameOnlyTheCount` | crates/recommendations/src/synthesizer.rs:94-118 | if the count expressions find only what is possible, any count that a text of an accepted reply names, in any of the four ways, is the pattern's |
| `Synthesizer.Synthesize` | crates/recommendations/src/synthesizer.rs:44-78 | the retry loop asks again only after an unusable reply, stops at a provider error or success, and makes between 1 and max_attempts calls |
| `Synthesizer.TimeComesFromThePattern` | crates/recommendations/src/synthesizer.rs:131-144 | two usable replies about one pattern, whatever they say and however they are read, give the same saving: the pattern's own |
| `Synthesizer.SavingFitsWallClock` | crates/recommendations/src/synthesizer.rs:131-144 | over an oldest-first history the saving lies between 0 and the observed minutes, whatever the model answered |
| `Synthesizer.ProseDoesNotMatter` | crates/recommendations/src/synthesizer.rs:86-89 | brace-free prose before an object and anything after it change nothing about what is built |
| `Validate.MentionedCounts` | crates/recommendations/src/validate.rs:86-126 | the four passes collect the counts stated in digits, compounds, single words outside both, and once/twice; what each states is in the rows below |
| `NumberWords.WordReadsBack` | crates/recommendations/src/validate.rs:41-78 | a number from 1 to 19, or of full tens, spelled in any letter case reads back as itself |
| `NumberWords.TwoWordsReadBack` | crates/recommendations/src/validate.rs:96-101 | so does any other number to 99, spelled as tens and ones |
| `NumberWords.OnlyWordsAreRead` | crates/recommendations/src/validate.rs:41-78 | and no other text reads as a number |
| `NumberWords.DigitsReadBack` | crates/recommendations/src/validate.rs:89-94 | decimal digits, leading zeros included, read back as the number up to 2^32 - 1 and name none beyond |
| `NumberWords.DigitsDecide` | crates/recommendations/src/validate.rs:86-132 | a number in digits as the only mention contradicts a count exactly when it fits 32 bits and differs |
| `NumberWords.WordDecides` | crates/recommendations/src/validate.rs:86-132 | one word as the only mention contradicts a count exactly when its number differs |
| `NumberWords.TwoWordsDecide` | crates/recommendations/src/validate.rs:96-113 | so do two words, although the second is found alone as well |
| `NumberWords.OnceOrTwiceDecides` | crates/recommendations/src/validate.rs:115-124 | once contradicts every count but 1, twice every count but 2 |
| `Validate.SinglesAreIndependent` | crates/recommendations/src/validate.rs:103-114 | a single word is only ever skipped because of a digit or compound mention, never because of another single word |
| `Validate.ContradictionIsExact` | crates/recommendations/src/validate.rs:128-132 | prose contradicts a count exactly when one of the four kinds of mention names another; digits beyond 32 bits name none |
| `Redaction.ApplyRedactions` | crates/redaction/src/engine.rs:56-75 | the cursor loop renders the text with the accepted spans replaced by their markers |
| `Redaction.AcceptedInOrder` | crates/redaction/src/engine.rs:56-75 | the accepted spans are disjoint, in order and in bounds |
| `Redaction.LengthEquation` | crates/redaction/src/engine.rs:56-75 | output length + accepted span lengths = text length + marker lengths |
| `Redaction.RestIsKeptInOrder` | crates/redaction/src/engine.rs:56-75 | every character outside the accepted spans is in the output, in the same order |
| `Redaction.AcceptedOneMore` | crates/redaction/src/engine.rs:59-66 | one detection more is replaced exactly when it does not start before the last replaced one ends |
| `Redaction.ReplacedOneMore` | crates/redaction/src/engine.rs:59-75 | one replacement more leaves the text before it as it was, its marker, and the text after it |
| `Redaction.Markers` | crates/redaction/src/detectors.rs:26-39 | the marker of each category |
| `Redaction.RedactedCharactersAreInvisible` | crates/redaction/src/engine.rs:56-75 | the output does not depend on any character inside an accepted span |
| `Redaction.EveryDetectionMeetsAnAccepted` | crates/redaction/src/engine.rs:59-66 | every span, skipped or not, overlaps an accepted one |
| `Redaction.SurvivalIsDecided` | crates/redaction/src/engine.rs:59-75 | no detected character survives exactly when a one-pass check of the spans succeeds; otherwise some detected character is copied out |
| `Redaction.NestedSpansAreSafe` | crates/redaction/src/engine.rs:59-66 | pairwise nested or disjoint spans leave nothing behind |
| `Redaction.PartialOverlapSurvives` | crates/redaction/src/engine.rs:59-66 | two partly overlapping spans for which the end of the second one is copied out |
| `Detectors.DetectAll` | crates/redaction/src/detectors.rs:112-254 | formats, plausible identity numbers, card numbers and unclaimed high-entropy candidates, stably sorted by start |
| `Detectors.DetectedIsUsable` | crates/redaction/src/detectors.rs:112-254 | all detections are in bounds and sorted, and sorting neither loses nor adds one |
| `DetectionTheorems.HighConfidenceIsExact` | crates/redaction/src/detectors.rs:112-219 | a high-confidence detection is a match of its category's formats, a nine-digit number that looks issued, or a card number; and all of these are detected |
| `DetectionTheorems.IssuedNumbers` | crates/redaction/src/detectors.rs:276-288 | issued are areas other than 000, 666 and 900 to 999, with a group other than 00 and a serial other than 0000 |
| `DetectionTheorems.DetectionsAreOrdered` | crates/redaction/src/detectors.rs:252-253 | detections come by where they start, and those that start together by the order in which categories are looked for |
| `DetectionTheorems.HexIds` | crates/redaction/src/entropy.rs:36-42 | common identifiers are hexadecimal and 7, 8, 32, 40 or 64 long |
| `Detectors.AmbiguousAreUncertain` | crates/redaction/src/detectors.rs:221-253 | the ambiguous detections are one for each secret-looking candidate disjoint from all high-confidence ones |
| `Detectors.Scan` | crates/redaction/src/engine.rs:41-53 | the engine's chain of tests returns the verdict that the next two rows characterise |
| `Detectors.VerdictIsExact` | crates/redaction/src/engine.rs:41-53 | a text is dropped exactly when some secret-looking candidate is disjoint from every high-confidence detection, and passes unchanged exactly when nothing is found |
| `DetectionTheorems.DropIsExact` | crates/redaction/src/engine.rs:41-53 | the same by characters: a text is dropped exactly when a candidate that is mixed, of high entropy and no common identifier shares no character with a detection |
| `Detectors.ReturnedTextIsRedacted` | crates/redaction/src/engine.rs:41-53 | a returned text is the original with exactly its high-confidence detections applied |
| `Detectors.SurvivalIsDecidedForReturned` | crates/redaction/src/engine.rs:41-75 | of a returned text: if the one-pass check of its detections succeeds it would be the same whatever the detected characters were; otherwise it holds a detected character |
| `Detectors.BlockIsReturned` | crates/redaction/src/engine.rs:56-75 | when a key block begins inside a secret value, nothing is dropped and the block is returned from the value's end on |
| `Detectors.PrivateKeyIsReturned` | crates/redaction/src/detectors.rs:58-78 | an assignment whose value runs into the opening line of a private key: the engine's output, with the whole key in it |
| `Luhn.LuhnValid` | crates/redaction/src/detectors.rs:337-352 | the accumulating loop accepts exactly the Luhn numbers of at least 13 digits |
| `Luhn.AcceptedBySum` | crates/redaction/src/detectors.rs:337-352 | accepted are 13 digits or more whose contributions, doubled or not by their distance from the right, add up to a multiple of ten |
| `Luhn.CheckDigitCompletes` | crates/redaction/src/detectors.rs:337-352 | a check digit is right exactly when it completes the payload's contributions to a multiple of ten |
| `Luhn.ZerosAreAccepted` | crates/redaction/src/detectors.rs:337-352 | zeros alone are accepted, from thirteen on |
| `Luhn.SingleDigitErrorsAreDetected` | crates/redaction/src/detectors.rs:337-352 | changing any one digit of an accepted number makes it rejected (annex B of ISO/IEC 7812-1) |
| `Luhn.TranspositionsAreDetected` | crates/redaction/src/detectors.rs:337-352 | swapping two neighbours is missed exactly when they are equal or are 0 and 9 |
| `Luhn.CheckDigitIsUnique` | crates/redaction/src/detectors.rs:337-352 | each payload of at least 12 digits has exactly one check digit |
| `Luhn.FindLuhnValidWindow` | crates/redaction/src/detectors.rs:307-332 | the nested search returns the place in the text of the longest, then leftmost, run of digits that passes, or None |
| `Luhn.CardIsFoundExactly` | crates/redaction/src/detectors.rs:307-332 | a span is found exactly when some run of the longest or the next length passes |
| `Luhn.CardSpansARun` | crates/redaction/src/detectors.rs:318-328 | the span goes from the first to the last of consecutive digits that pass and leaves out at most one of up to 19 |
| `Luhn.TriedRuns` | crates/redaction/src/detectors.rs:300-316 | tried are the runs of 13 to 19 digits of the greatest length there is and of the next |
| `Luhn.DigitsOfMore` | crates/redaction/src/detectors.rs:307-312 | the digits of a text are its characters 0 to 9, in order, each with its value |
| `Luhn.WholeNumberIsFound` | crates/redaction/src/detectors.rs:307-332 | a candidate that is one number of up to 19 digits is found from its first to its last digit |
| `Luhn.CardSpan` | crates/redaction/src/detectors.rs:318-328 | the span lies inside the candidate and starts and ends on digits |
| `Luhn.StrayDigitIsTolerated` | crates/redaction/src/detectors.rs:293-332 | a candidate text whose digits are a valid number of 13 to 18 digits, with or without a stray one at either end and any separators: a span is found, over all but at most one of its digits |
| `Rfc3339.TextOrderIsTimeOrderBySeconds` | crates/event-store/src/time_fmt.rs:10-13 | stored texts sort like instants whenever the whole seconds differ |
| `Rfc3339.TextOrderWithinASecond` | crates/event-store/src/time_fmt.rs:10-13 | within one second they do exactly when neither fraction is a proper prefix of the other |
| `Rfc3339.TextOrderCanDisagree` | crates/event-store/src/time_fmt.rs:10-13 | noon and half a second later are stored in the opposite order |
| `Rfc3339.TextIsFaithful` | crates/event-store/src/time_fmt.rs:10-17 | the stored text determines the date-time |
| `Rfc3339.TextLayout` | crates/event-store/src/time_fmt.rs:10-13 | where each calendar field, the separators, the fraction and the zone stand in the text |
| `Rfc3339.DigitAt` | crates/event-store/src/time_fmt.rs:10-13 | each digit of a field is the one of its place value |
| `Rfc3339.FractionIsShortest` | crates/event-store/src/time_fmt.rs:10-13 | the fraction is the nine digits of the nanoseconds without the zeros at their end |
| `Rfc3339.DaysOfYears` | crates/event-store/src/time_fmt.rs:10-17 | the years before a date have the Gregorian number of days |
| `Rfc3339.UnixTimes` | crates/event-store/src/time_fmt.rs:10-17 | five dates, leap days and a century without one among them, are as far apart as their Unix times |
| `Pipeline.Process` | crates/pipeline/src/pipeline.rs:83-149 | which signals are stored, which are dropped and why, and every column of a stored event |
| `PipelineTheorems.TextIsRedacted` | crates/pipeline/src/classify.rs:48-100 | an app, title, shortcut, domain, screen text or accessibility tree is stored exactly as redaction leaves it, under its own type and field, at its levels only, and dropped if redaction gives up |
| `PipelineTheorems.ScreenshotIsRedacted` | crates/pipeline/src/pipeline.rs:101-130 | a screenshot is stored as the text read from it, redacted, at level 4 only; without text it is dropped |
| `PipelineTheorems.ClipboardIsStored` | crates/pipeline/src/classify.rs:65-84 | of the clipboard the type and the size are stored as they are, from level 2 on |
| `PipelineTheorems.PathIsRedacted` | crates/pipeline/src/classify.rs:85-92 | of a file operation the path is stored as redaction leaves it, the operation as it is |
| `PipelineTheorems.SameVerdictSameOutcome` | crates/pipeline/src/pipeline.rs:113-130 | texts with the same verdict lead to the same outcome, event and all |
| `Pipeline.Summarize` | crates/pipeline/src/pipeline.rs:113-130 | the field loop succeeds exactly when redaction keeps every field, and maps each name to what redaction left of it |
| `Pipeline.StoredEventsRespectTheLevel` | crates/pipeline/src/pipeline.rs:94-145 | a stored event has the level it was processed at, a signal type allowed there, and an expiry exactly in deep mode with retention configured |
| `Pipeline.ManualStoresNothing` | crates/pipeline/src/pipeline.rs:94-99 | at level 0 every signal is dropped |
| `Pipeline.KeyOfFocusedApp` | crates/pipeline/src/pipeline.rs:113-130 | a focused app reaches its action key only as redaction left it |
| `Gate.CloudDispatchNeedsConsent` | crates/privacy-engine/src/gate.rs:80-106 | a non-local provider is allowed exactly with general consent, below level 4, and with class consent for verbatim content |
| `Gate.DecisionsAreExact` | crates/privacy-engine/src/gate.rs:80-106 | every decision: local calls are allowed, and each refusal has its reason |
| `Gate.CompletionsAreExact` | crates/privacy-engine/src/gated_provider.rs:51-68 | the wrapped provider is asked exactly when the gate allows it, and its answer is passed on |
| `Gate.ConsentIsMonotone` | crates/privacy-engine/src/gate.rs:23-106 | more consent, a lower level or fewer verbatim strings never turn an allowed call away |
| `Gate.DispatchGate.GrantGeneralCloudConsent` | crates/privacy-engine/src/gate.rs:63-65 | sets general consent and nothing else |
| `Gate.DispatchGate.RevokeGeneralCloudConsent` | crates/privacy-engine/src/gate.rs:67-69 | clears general consent and nothing else |
| `Gate.DispatchGate.GrantClassConsent` | crates/privacy-engine/src/gate.rs:71-73 | adds one class and nothing else |
| `Gate.DispatchGate.RevokeClassConsent` | crates/privacy-engine/src/gate.rs:75-77 | removes one class and nothing else |
| `Similarity.CauchySchwarz` | crates/event-store/src/store.rs:987-998 | the squared dot product is at most the product of the squared norms, for all vectors, zero included |
| `Similarity.CosineIsBounded` | crates/event-store/src/store.rs:987-998 | the score lies in [-1, 1], for vectors of any and even different lengths |
| `Similarity.SelfSimilarityIsOne` | crates/event-store/src/store.rs:987-998 | a vector of non-zero norm scores 1 with itself |
| `Similarity.CosineIsSymmetric` | crates/event-store/src/store.rs:987-998 | the score does not depend on the order of its arguments |
| `Similarity.ScoreIsExact` | crates/event-store/src/store.rs:983-998 | score * both norms is the sum of the products of the components, as running totals; 0 where a norm is 0 |
| `Similarity.CosineOfOpposite` | crates/event-store/src/store.rs:983-998 | a vector and its opposite have opposite scores |
| `Similarity.CosineOfScaled` | crates/event-store/src/store.rs:983-998 | a positive multiple of a vector scores the same |
| `Similarity.FindSimilarPatterns` | crates/event-store/src/store.rs:524-544 | min(k, n) different patterns, best first, each with its own score, none left out scoring above one returned |
| `EventStore.Store.constructor` | crates/event-store/src/store.rs:59-84 | a fresh store is empty, at level 0, not observing, manifest version 0 |
| `EventStore.Store.SetPrivacyState` | crates/event-store/src/store.rs:111-126 | replaces the privacy row and nothing else |
| `EventStore.Store.InsertEventSummary` | crates/event-store/src/store.rs:195-213 | a new row under the next id, everything else unchanged |
| `EventStore.Store.ListRecentEvents` | crates/event-store/src/store.rs:221-233 | the newest rows by stored text, at most the limit, none twice, no omitted one newer than a listed one |
| `EventStore.Store.DeleteEvents` | crates/event-store/src/store.rs:236-247 | the named rows and the links to them go, nothing else; the count is the number of rows removed |
| `EventStore.Store.DeleteExpiredEvents` | crates/event-store/src/store.rs:256-264 | the rows whose stored expiry text is not after now's go, with their links, nothing else |
| `EventStore.Store.DeleteAllData` | crates/event-store/src/store.rs:310-340 | all tables are emptied and the privacy row reset; id counters go on |
| `EventStore.Store.InsertPattern` | crates/event-store/src/store.rs:384-401 | a new row under the next id |
| `EventStore.Store.UpdatePatternStats` | crates/event-store/src/store.rs:406-426 | the rolling fields of that row, if it exists; signature and first sighting stay |
| `EventStore.Store.LinkPatternEvents` | crates/event-store/src/store.rs:468-481 | links in order up to the first event that is gone; complete exactly when all were linked |
| `EventStore.Store.InsertRecommendation` | crates/event-store/src/store.rs:548-579 | a new row, refused exactly when the pattern is gone or the confidence lies outside [0, 1] |
| `EventStore.Store.UpsertLlmProvider` | crates/event-store/src/store.rs:625-648 | registers a provider, or registers it anew, as inactive; nothing else |
| `EventStore.Store.SetActiveLlmProvider` | crates/event-store/src/store.rs:664-688 | makes one provider the only active one; an unregistered id is refused and changes nothing |
| `EventStore.RemovalKeepsConsistency` | crates/event-store/src/schema.sql:61-65 | deleting events leaves no dangling link |
| `EventStore.LinkingKeepsConsistency` | crates/event-store/src/store.rs:468-481 | linking never refers to a missing row |
| `EventStore.TraceabilityIsComplete` | crates/event-store/src/store.rs:464-481 | all contributing events are linked exactly when the pattern and all of them are still stored |
| `EventStore.SweepIsExactToTheSecond` | crates/event-store/src/store.rs:249-264 | every event whose expiry second has passed is removed, none whose expiry second is to come; any error is under one second |
| `EventStore.SweepWithinTheSecond` | crates/event-store/src/store.rs:256-264 | within the second the sweep is right exactly when neither stored fraction is a proper prefix of the other |
| `EventStore.SweepTouchesNothingElse` | crates/event-store/src/store.rs:256-264 | events without expiry stay, and kept events are unchanged |
| `EventStore.ListingIsNearlyOldestFirst` | crates/event-store/src/store.rs:221-233 | a reversed listing is oldest first by whole second, with less than a second of disorder |
| `System.CallsGoThroughTheGatedProvider` | crates/privacy-engine/src/gated_provider.rs:51-68 | the step of a call does what the loop does with the gated provider's answer: an error finishes the pattern, a text leads to a saving, the next attempt or none; it is on record exactly when the gate let it through |
| `System.WhatAllowsObservation` | apps/desktop/src-tauri/src/observation_loop.rs:49-59 | observation takes a started row, a level of at least 1 and an acknowledged manifest |
| `System.ProviderIsChosen` | apps/desktop/src-tauri/src/recommendation_loop.rs:156-161 | a new pattern gets a provider exactly when the active one is registered with a model; only ollama is local |
| `SystemTheorems.StoreStaysConsistent` | crates/event-store/src/schema.sql:51-65 | in every run no link or recommendation refers to a missing row, whatever was deleted in between |
| `SystemTheorems.SerializedIsAtomic` | apps/desktop/src-tauri/src/commands.rs:265-440 | in every run where no privacy command is overtaken, the row is what commands executed in one step would leave |
| `SystemTheorems.WriteIsAtomicExactly` | apps/desktop/src-tauri/src/commands.rs:265-440 | a single write loses no update exactly when the fields its command does not set were still current |
| `SystemTheorems.OvertakenPauseIsLost` | apps/desktop/src-tauri/src/commands.rs:405-440 | after any run in which some caller has read an active row, a pause is undone by that caller's level change |
| `SystemTheorems.ReadersHoldTheRow` | apps/desktop/src-tauri/src/commands.rs:426-440 | such a caller exists after any run in which observation is then started and the row read |
| `SystemTheorems.AtomicPrivacySummarizes` | apps/desktop/src-tauri/src/commands.rs:319-440 | acknowledged means acknowledged since the last wipe; active means started since the last pause and wipe |
| `SystemTheorems.UnacknowledgedLevels` | apps/desktop/src-tauri/src/commands.rs:271-297 | a level change naming no permission ends at an observing level exactly when level 0 was asked for and a policy floor raised it |
| `SystemTheorems.HigherLevelTakesEffect` | apps/desktop/src-tauri/src/commands.rs:271-297 | of the requested level and a policy floor the higher one takes effect |
| `CaptureTheorems.EveryEventHasAPermittedTick` | apps/desktop/src-tauri/src/observation_loop.rs:37-92 | in every run, each stored event came from a tick that had read an active row with a current manifest, at the event's own level, allowed for its signal; expiry exactly at level 4 with retention |
| `CaptureTheorems.ConsentBeforeCapture` | apps/desktop/src-tauri/src/observation_loop.rs:37-92 | if no command is overtaken, that read came after an acknowledgement and a start not followed by a wipe or, for the start, a pause |
| `CaptureTheorems.NothingWithoutAcknowledgement` | apps/desktop/src-tauri/src/observation_loop.rs:49-59 | without an acknowledgement no run stores any event, overtaken commands included |
| `WipeTheorems.WipeIsFinalExactly` | apps/desktop/src-tauri/src/commands.rs:478-497 | after a wipe nothing is stored before the next acknowledgement, in any continuation, exactly when no tick is under way, no privacy command holds a row with a current manifest, and the sweep holds no unknown pattern ahead and no listed events that contain one |
| `WipeTheorems.DefaultRetentionFits` | crates/pipeline/src/pipeline.rs:42-50 | the only assumption of the row above, that some date can be extended by the retention window, holds of the 90 days the program ships with |
| `WipeTheorems.TickOutlivesAWipe` | apps/desktop/src-tauri/src/observation_loop.rs:61-76 | a run, from the start, in which the last step stores an event captured in a tick that a wipe came into |
| `WipeTheorems.SweepWritesAfterAWipe` | apps/desktop/src-tauri/src/recommendation_loop.rs:97-133 | after any run, the unknown pattern at hand is written into the store that a wipe has just emptied |
| `WipeTheorems.SweepOutlivesAWipe` | apps/desktop/src-tauri/src/recommendation_loop.rs:97-133 | a run, from the start, in which the keys of deleted events come back that way |
| `SweepTheorems.SweepsAreSound` | apps/desktop/src-tauri/src/recommendation_loop.rs:86-99 | in every run, a sweep works on a detection over a history that is oldest first up to less than a second |
| `SweepTheorems.SweepsListTheLatest` | apps/desktop/src-tauri/src/recommendation_loop.rs:86-92 | a sweep works on the latest 2000 events, or on all there are |
| `SweepTheorems.SweepsDetectExactly` | apps/desktop/src-tauri/src/recommendation_loop.rs:94 | in every run, its patterns are the sequences of 2 to 5 actions with 3 disjoint occurrences in that history |
| `SweepTheorems.SignaturesAreUnique` | apps/desktop/src-tauri/src/recommendation_loop.rs:99-133 | in every run no two pattern rows have the same signature |
| `SweepTheorems.InsertedAtMostOnce` | apps/desktop/src-tauri/src/recommendation_loop.rs:99-133 | between two wipes a signature is inserted exactly as often as it has rows: once or never |
| `DispatchTheorems.GateHolds` | apps/desktop/src-tauri/src/recommendation_loop.rs:163-201 | every call in every run was allowed by the gate snapshot it was made under, which held no class consent |
| `DispatchTheorems.NoCallIsRefused` | apps/desktop/src-tauri/src/recommendation_loop.rs:169-201 | once the pre-flight check allows a pattern, the gate refuses none of its calls |
| `DispatchTheorems.CloudCallsAreGated` | apps/desktop/src-tauri/src/recommendation_loop.rs:163-258 | every call to a non-local provider, retries included: a grant of consent in force at the snapshot, a level below 4 read by the same sweep, no browser domain in any counted occurrence |
| `DispatchTheorems.RevocationDoesNotStopARound` | apps/desktop/src-tauri/src/recommendation_loop.rs:163-201 | once a round has its snapshot, its next call goes out after any commands and ticks short of a restart, a revocation or a wipe among them |
| `ConsentTheorems.ConsentIsTheLastWrite` | apps/desktop/src-tauri/src/commands.rs:590-613 | in every run the setting and the gate hold what the steps of the trace last wrote to each |
| `ConsentTheorems.GateConsentMeaning` | apps/desktop/src-tauri/src/commands.rs:590-613 | a grant is in force exactly when some step passed a grant to the gate, or read one back at a restart, and no later step set the gate |
| `ConsentTheorems.ConsentHasAnOrigin` | apps/desktop/src-tauri/src/main.rs:134-144 | consent in the gate goes back to a step that granted it, restarts included |
| `DispatchTheorems.AtMostOneRoundPerPattern` | apps/desktop/src-tauri/src/recommendation_loop.rs:122-135 | calls about one inserted pattern are at most two, of one round: same pattern, one gate snapshot, numbered 0 and 1 |
| `DispatchTheorems.SavingsAreBacked` | apps/desktop/src-tauri/src/recommendation_loop.rs:201-206 | every recommendation saved in any run is its pattern's own claim, which fits the observed time up to under a second per occurrence, with a confidence in [0, 1] and no text that contradicts the count |
| `DispatchTheorems.StoredAreBacked` | apps/desktop/src-tauri/src/recommendation_loop.rs:201-206 | every stored recommendation is such a saved one, and the row it refers to is its pattern's, whatever was wiped or inserted in between |
| `DispatchTheorems.StoredTextsNameOnlyTheCount` | apps/desktop/src-tauri/src/recommendation_loop.rs:201-206 | in every run, whatever a stored recommendation says, the only count its texts can name is its pattern's |
| `ConsentTheorems.AgreementIsLostExactly` | apps/desktop/src-tauri/src/commands.rs:590-654 | which steps part the gate and the stored consent: those that leave in one place a value the other does not have, spelled out for each command; no tick or sweep does |
| `ConsentTheorems.SerializedConsentAgrees` | apps/desktop/src-tauri/src/commands.rs:590-613 | if only set_cloud_consent sets consent and none is overtaken, the two agree whenever none is half way |
| `ConsentTheorems.OverlappingConsentParts` | apps/desktop/src-tauri/src/commands.rs:590-613 | after any run, a grant and a revocation that overlap leave consent in the gate while the setting says revoked |
| `ConsentTheorems.ConsentOutlivesAWipe` | apps/desktop/src-tauri/src/commands.rs:478-497 | after a wipe the gate still holds consent, until a restart |
| `CloudTheorems.NewPatternReachesTheCloudExactly` | apps/desktop/src-tauri/src/recommendation_loop.rs:157-201 | a new pattern is sent to a non-local provider exactly when one is active and usable, general consent is held, the level the sweep read is below 4 and the pattern is unflagged: the levels of its events play no part |
| `CloudTheorems.LoweringExposes` | apps/desktop/src-tauri/src/recommendation_loop.rs:174-179 | a run in which six events captured from the screen at level 4 are the subject of a cloud call after the level was lowered |
| `CloudTheorems.RaisingMidSweepExposes` | apps/desktop/src-tauri/src/recommendation_loop.rs:82-93 | another in which the level is never lowered: it is raised between a sweep's reading of it and its listing |
| `CloudTheorems.LoweringMidTickExposes` | apps/desktop/src-tauri/src/observation_loop.rs:49-76 | another in which the level is lowered only while nothing of level 4 is stored, during a tick that goes on storing |
| `CloudTheorems.TheProgramCapturesScreens` | crates/pipeline/src/pipeline.rs:83-149 | there are such captures under the retention the program ships with, whatever the engine |
| `CloudTheorems.DeepContentStaysLocal` | docs/design/05-privacy-model.md:47 | no call of a run to a non-local provider is about a history with a level-4 event, if no step leaves level 4 with such an event stored or a level-4 tick under way, and none enters it while a sweep that read a lower level has yet to list |
| `Application.Application.SetPrivacyLevel` | apps/desktop/src-tauri/src/commands.rs:265-316 | rejected exactly for an observing level without permissions; otherwise the row gets the higher of request and floor and keeps its other fields |
| `Application.Application.CompleteOnboarding` | apps/desktop/src-tauri/src/commands.rs:319-346 | sets the row active and nothing else |
| `Application.Application.AcknowledgePrivacyManifest` | apps/desktop/src-tauri/src/commands.rs:388-402 | records the current manifest version and nothing else |
| `Application.Application.PauseObservation` | apps/desktop/src-tauri/src/commands.rs:405-423 | sets the row inactive and nothing else |
| `Application.Application.ResumeObservation` | apps/desktop/src-tauri/src/commands.rs:426-440 | sets the row active and nothing else |
| `Application.Application.SetCloudConsent` | apps/desktop/src-tauri/src/commands.rs:590-613 | run without interruption, sets the stored setting and then the gate, nothing else |
| `Application.Application.SetAiProvider` | apps/desktop/src-tauri/src/commands.rs:190-241 | run without interruption, registers the provider and makes it the only active one |
| `Application.Application.DeleteEvents` | apps/desktop/src-tauri/src/commands.rs:451-465 | the named events and the links to them go; the count is the number removed |
| `Application.Application.DeleteAllData` | apps/desktop/src-tauri/src/commands.rs:478-489 | empties the store and leaves the gate as it is |
| `Application.Application.Tick` | apps/desktop/src-tauri/src/observation_loop.rs:37-92 | one round stores and announces, in order and under consecutive ids, exactly what the pipeline summarises at the level read, and nothing when the row forbids it |
| `Application.AnnouncedAreStored` | apps/desktop/src-tauri/src/observation_loop.rs:61-88 | what a round announces are the summarised events, all of them, in order, each as stored under the next id; no other row changes |
| `Application.Application.TrySynthesize` | apps/desktop/src-tauri/src/recommendation_loop.rs:149-218 | stores what the first usable reply of at most two builds, if there is a usable provider, the gate allows it and no failure comes first; nothing else changes; each call is answered by its provider |
| `SweepEffects.SynthesisIsTheAnswer` | crates/recommendations/src/synthesizer.rs:44-78 | what the retry loop ends with is what the first usable reply builds, unless a failure or the last attempt comes before it |
| `SweepEffects.ProcessingIsAnEffect` | apps/desktop/src-tauri/src/recommendation_loop.rs:105-136 | whatever the providers answer: each detected pattern is shown by a row, new or brought up to date, column by column; other rows are untouched; a new row is linked to exactly its events; besides, only recommendations are added |
| `SweepEffects.WholeSweep` | apps/desktop/src-tauri/src/recommendation_loop.rs:50-139 | the same of a whole sweep, from the store before it, with the expired events gone and the detection over the newest events left |
| `Application.Application.SweepOnce` | apps/desktop/src-tauri/src/recommendation_loop.rs:50-139 | the store is what removing expired events and processing the detected patterns in turn leave: the effect above, in one row per signature; only sweep steps, each call's reply its provider's |
| `Application.Application.RunsAreKept` | apps/desktop/src-tauri/src/recommendation_loop.rs:50-218 | whatever methods were called: consistent store, unique signatures, no refused call, every saving backed, every stored event captured under consent |

## Left out

- Rounding of floating-point numbers, NaN, and overflow of the `u32` and `i32` counters.
- Text outside ASCII and UTF-8 slicing; regular-expression matching and Shannon entropy.
- Validate.ContradictionIsExact: the word tables are looked up as in the source, but that the four expressions match what they should is not modelled.
- Detectors.PrivateKeyIsReturned: that the expressions find these two spans in the text is an assumption, as every finding is.
- Detectors.DetectAll: the identity-number and card-number expressions are inputs, so a match's shape beyond its length is not modelled.
- Application.Application.SweepOnce: failing store reads end the source's sweep with an error; store errors other than refused foreign keys are not modelled.
- Application.Application.Tick: the sources' signals come as one list in polling order, and a source that fails contributes none.
- EventStore.Store.ListRecentEvents: a negative limit, which SQLite reads as no limit; the program never passes one.
- System: restarts and settings updates are steps of the state machine but not methods of the class; a setting that is not a Boolean counts as false.
- CloudTheorems.DeepContentStaysLocal: its condition is sufficient; that each of its parts is needed is shown by a run, not by an equivalence.
- System: the two background loops repeat by further labels; their sleeping intervals are not modelled.
- The audit log, event emission other than captured events, `updated_at` and `created_at` columns, pattern and recommendation status, the export, embeddings storage, workflow tables, observation sources.
- Keys, vault, rekeying, SQL text, migrations beyond the initial privacy row.
- HTTP clients, provider detection, model listing, timeouts, and the API key lookup in `build_provider`.
- Reading the enterprise policy file; its privacy-level floor is a parameter of the command, and its provider list is not checked.
- The WASM plugin host, platform observation sources, the user interface.
- Conversions between enumerations and their stored names.
