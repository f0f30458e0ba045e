/**
 Assembling detections from the pattern finders, and the engine's verdict on a text.
 The finders' spans on the given text, and the entropy test, are inputs.
 */
module Detectors {
  import opened Wrappers
  import opened Redaction
  import Luhn
  import Sorting

  datatype Span = Span(start: nat, end: nat)

  /** What each regular expression finds; for key/value patterns, the value's span. */
  datatype Findings = Findings(
    pemPrivateKey: seq<Span>, awsAccessKey: seq<Span>, githubToken: seq<Span>, slackToken: seq<Span>,
    jwt: seq<Span>, keyValueSecret: seq<Span>, medicalKeyValue: seq<Span>, email: seq<Span>,
    ssnDashed: seq<Span>, ssnSpaced: seq<Span>, ssnDashless: seq<Span>,
    creditCardCandidate: seq<Span>, highEntropyCandidate: seq<Span>)

  const NO_FINDINGS := Findings([], [], [], [], [], [], [], [], [], [], [], [], [])

  /** Matches of one expression: non-empty, in bounds, left to right without overlap. */
  predicate Matches(spans: seq<Span>, n: nat) {
    && (forall i :: 0 <= i < |spans| ==> spans[i].start < spans[i].end <= n)
    && (forall i, j :: 0 <= i < j < |spans| ==> spans[i].end <= spans[j].start)
  }

  predicate AllOfLength(spans: seq<Span>, length: nat) {
    forall i :: 0 <= i < |spans| ==> spans[i].end == spans[i].start + length
  }

  predicate Possible(f: Findings, text: string) {
    var n := |text|;
    && Matches(f.pemPrivateKey, n) && Matches(f.awsAccessKey, n) && Matches(f.githubToken, n)
    && Matches(f.slackToken, n) && Matches(f.jwt, n) && Matches(f.keyValueSecret, n)
    && Matches(f.medicalKeyValue, n) && Matches(f.email, n)
    && Matches(f.ssnDashed, n) && AllOfLength(f.ssnDashed, 11)
    && Matches(f.ssnSpaced, n) && AllOfLength(f.ssnSpaced, 11)
    && Matches(f.ssnDashless, n) && AllOfLength(f.ssnDashless, 9)
    && Matches(f.creditCardCandidate, n) && Matches(f.highEntropyCandidate, n)
  }

  // --- rules applied to single matches ---

  /** An empty or non-digit text counts as 0. */
  function ParseNumber(s: string): nat {
    if s == [] || exists i :: 0 <= i < |s| && !Luhn.IsDigitChar(s[i]) then 0 else NumberOf(s)
  }

  function NumberOf(s: string): nat
    requires forall i :: 0 <= i < |s| ==> Luhn.IsDigitChar(s[i])
  {
    if s == [] then 0 else 10 * NumberOf(s[..|s| - 1]) + Luhn.DigitOf(s[|s| - 1])
  }

  predicate IsPlausibleSsn(area: string, group: string, serial: string) {
    var a, g, s := ParseNumber(area), ParseNumber(group), ParseNumber(serial);
    a != 0 && a != 666 && a < 900 && g != 0 && s != 0
  }

  /** `gap` characters separate the three groups. */
  predicate PlausibleAt(text: string, at: nat, gap: nat)
    requires at + 9 + 2 * gap <= |text|
  {
    IsPlausibleSsn(text[at..at + 3], text[at + 3 + gap..at + 5 + gap], text[at + 5 + 2 * gap..at + 9 + 2 * gap])
  }

  predicate IsLetter(c: char) {
    'a' <= c <= 'z' || 'A' <= c <= 'Z'
  }

  predicate LooksLikeCommonHexId(s: string) {
    (forall i :: 0 <= i < |s| ==> IsHexDigit(s[i])) && |s| in {7, 8, 32, 40, 64}
  }

  predicate LooksSecret(token: string, highEntropy: string -> bool) {
    && !LooksLikeCommonHexId(token)
    && (exists i :: 0 <= i < |token| && IsLetter(token[i]))
    && (exists i :: 0 <= i < |token| && !IsLetter(token[i]))
    && highEntropy(token)
  }

  // --- the detections in the order they are found ---

  function Mark(spans: seq<Span>, category: Category): seq<Detection> {
    seq(|spans|, i requires 0 <= i < |spans| => Detection(spans[i].start, spans[i].end, category, High))
  }

  /** Which matches look like an issued number. */
  function Plausible(text: string, spans: seq<Span>, gap: nat): (r: seq<bool>)
    requires Matches(spans, |text|) && AllOfLength(spans, 9 + 2 * gap)
    ensures |r| == |spans|
  {
    seq(|spans|, i requires 0 <= i < |spans| => PlausibleAt(text, spans[i].start, gap))
  }

  function Ssns(spans: seq<Span>, plausible: seq<bool>): seq<Detection>
    requires |plausible| == |spans|
  {
    if spans == [] then []
    else
      var last := |spans| - 1;
      Ssns(spans[..last], plausible[..last])
      + (if plausible[last] then [Detection(spans[last].start, spans[last].end, GovernmentId, High)] else [])
  }

  function SsnsIn(text: string, spans: seq<Span>, gap: nat): seq<Detection>
    requires Matches(spans, |text|) && AllOfLength(spans, 9 + 2 * gap)
  {
    Ssns(spans, Plausible(text, spans, gap))
  }

  /** The card number, if any, inside each candidate. */
  ghost function CardSpans(text: string, spans: seq<Span>): (r: seq<Option<(nat, nat)>>)
    requires Matches(spans, |text|)
    ensures |r| == |spans|
  {
    seq(|spans|, i requires 0 <= i < |spans| => Luhn.CardSpan(text[spans[i].start..spans[i].end], spans[i].start))
  }

  function Cards(cards: seq<Option<(nat, nat)>>): seq<Detection> {
    if cards == [] then []
    else
      var card := cards[|cards| - 1];
      Cards(cards[..|cards| - 1])
      + (if card.Some? then [Detection(card.value.0, card.value.1, CreditCard, High)] else [])
  }

  function Formats(f: Findings): seq<Detection> {
    Mark(f.pemPrivateKey, PrivateKey) + Mark(f.awsAccessKey, ApiKeyOrToken) + Mark(f.githubToken, ApiKeyOrToken)
    + Mark(f.slackToken, ApiKeyOrToken) + Mark(f.jwt, ApiKeyOrToken) + Mark(f.keyValueSecret, Password)
    + Mark(f.medicalKeyValue, Medical) + Mark(f.email, Email)
  }

  ghost function HighConfidence(text: string, f: Findings): seq<Detection>
    requires Possible(f, text)
  {
    Formats(f)
    + SsnsIn(text, f.ssnDashed, 1) + SsnsIn(text, f.ssnSpaced, 1) + SsnsIn(text, f.ssnDashless, 0)
    + Cards(CardSpans(text, f.creditCardCandidate))
  }

  predicate Claimed(ds: seq<Detection>, s: Span) {
    exists i :: 0 <= i < |ds| && RangesOverlap(ds[i].start, ds[i].end, s.start, s.end)
  }

  /** Everything found so far, extended by the ambiguous candidates nothing has claimed. */
  function WithAmbiguous(text: string, found: seq<Detection>, spans: seq<Span>, highEntropy: string -> bool): seq<Detection>
    requires Matches(spans, |text|)
  {
    if spans == [] then found
    else
      var s := spans[|spans| - 1];
      var before := WithAmbiguous(text, found, spans[..|spans| - 1], highEntropy);
      if !Claimed(before, s) && LooksSecret(text[s.start..s.end], highEntropy)
      then before + [Detection(s.start, s.end, AmbiguousSecret, Ambiguous)] else before
  }

  ghost function Detected(text: string, f: Findings, highEntropy: string -> bool): seq<Detection>
    requires Possible(f, text)
  {
    Sorting.StableSort(StartsNoLater, WithAmbiguous(text, HighConfidence(text, f), f.highEntropyCandidate, highEntropy))
  }

  predicate StartsNoLater(a: Detection, b: Detection) {
    a.start <= b.start
  }

  // --- the algorithm ---

  method PushMatches(found: seq<Detection>, spans: seq<Span>, category: Category) returns (out: seq<Detection>)
    ensures out == found + Mark(spans, category)
  {
    out := found;
    for i := 0 to |spans|
      invariant out == found + Mark(spans[..i], category)
    {
      out := out + [Detection(spans[i].start, spans[i].end, category, High)];
    }
    assert spans[..|spans|] == spans;
  }

  method PushSsns(found: seq<Detection>, text: string, spans: seq<Span>, gap: nat) returns (out: seq<Detection>)
    requires Matches(spans, |text|) && AllOfLength(spans, 9 + 2 * gap)
    ensures out == found + SsnsIn(text, spans, gap)
  {
    ghost var plausible := Plausible(text, spans, gap);
    out := found;
    for i := 0 to |spans|
      invariant out == found + Ssns(spans[..i], plausible[..i])
    {
      assert spans[..i + 1][..i] == spans[..i] && plausible[..i + 1][..i] == plausible[..i];
      if PlausibleAt(text, spans[i].start, gap) {
        out := out + [Detection(spans[i].start, spans[i].end, GovernmentId, High)];
      }
    }
    assert spans[..|spans|] == spans && plausible[..|spans|] == plausible;
  }

  method PushCards(found: seq<Detection>, text: string, spans: seq<Span>) returns (out: seq<Detection>)
    requires Matches(spans, |text|)
    ensures out == found + Cards(CardSpans(text, spans))
  {
    ghost var cards := CardSpans(text, spans);
    out := found;
    for i := 0 to |spans|
      invariant out == found + Cards(cards[..i])
    {
      assert cards[..i + 1][..i] == cards[..i];
      var card := Luhn.FindLuhnValidWindow(text[spans[i].start..spans[i].end], spans[i].start);
      if card.Some? {
        out := out + [Detection(card.value.0, card.value.1, CreditCard, High)];
      }
    }
    assert cards[..|spans|] == cards;
  }

  method PushAmbiguous(found: seq<Detection>, text: string, spans: seq<Span>, highEntropy: string -> bool)
    returns (out: seq<Detection>)
    requires Matches(spans, |text|)
    ensures out == WithAmbiguous(text, found, spans, highEntropy)
  {
    out := found;
    for i := 0 to |spans|
      invariant out == WithAmbiguous(text, found, spans[..i], highEntropy)
    {
      assert spans[..i + 1][..i] == spans[..i];
      if Claimed(out, spans[i]) {
        continue;
      }
      if LooksSecret(text[spans[i].start..spans[i].end], highEntropy) {
        out := out + [Detection(spans[i].start, spans[i].end, AmbiguousSecret, Ambiguous)];
      }
    }
    assert spans[..|spans|] == spans;
  }

  method PushFormats(f: Findings) returns (out: seq<Detection>)
    ensures out == Formats(f)
  {
    out := PushMatches([], f.pemPrivateKey, PrivateKey);
    out := PushMatches(out, f.awsAccessKey, ApiKeyOrToken);
    out := PushMatches(out, f.githubToken, ApiKeyOrToken);
    out := PushMatches(out, f.slackToken, ApiKeyOrToken);
    out := PushMatches(out, f.jwt, ApiKeyOrToken);
    out := PushMatches(out, f.keyValueSecret, Password);
    out := PushMatches(out, f.medicalKeyValue, Medical);
    out := PushMatches(out, f.email, Email);
  }

  method DetectAll(text: string, f: Findings, highEntropy: string -> bool) returns (detections: seq<Detection>)
    requires Possible(f, text)
    ensures detections == Detected(text, f, highEntropy)
  {
    detections := PushFormats(f);
    detections := PushSsns(detections, text, f.ssnDashed, 1);
    detections := PushSsns(detections, text, f.ssnSpaced, 1);
    detections := PushSsns(detections, text, f.ssnDashless, 0);
    detections := PushCards(detections, text, f.creditCardCandidate);
    detections := PushAmbiguous(detections, text, f.highEntropyCandidate, highEntropy);
    detections := Sorting.StableSort(StartsNoLater, detections);
  }

  datatype Outcome = Clean(text: string) | Redacted(text: string) | Drop

  predicate HasAmbiguous(ds: seq<Detection>) {
    exists i :: 0 <= i < |ds| && ds[i].confidence == Ambiguous
  }

  method Scan(text: string, f: Findings, highEntropy: string -> bool) returns (outcome: Outcome)
    requires Possible(f, text)
    ensures outcome == Verdict(text, f, highEntropy)
  {
    DetectedIsUsable(text, f, highEntropy);
    var detections := DetectAll(text, f, highEntropy);
    if detections == [] {
      return Clean(text);
    }
    if HasAmbiguous(detections) {
      return Drop;
    }
    var redacted := ApplyRedactions(text, detections);
    return Redacted(redacted);
  }

  ghost function Verdict(text: string, f: Findings, highEntropy: string -> bool): Outcome
    requires Possible(f, text)
  {
    DetectedIsUsable(text, f, highEntropy);
    var ds := Detected(text, f, highEntropy);
    if ds == [] then Clean(text) else if HasAmbiguous(ds) then Drop else Redacted(Redact(text, ds))
  }

  // --- detections are sorted, in bounds, and contain exactly what was found ---

  lemma {:induction false} SsnsInBounds(spans: seq<Span>, plausible: seq<bool>, n: nat)
    requires Matches(spans, n) && |plausible| == |spans|
    ensures InBounds(Ssns(spans, plausible), n) && !HasAmbiguous(Ssns(spans, plausible))
  {
    if spans != [] {
      SsnsInBounds(spans[..|spans| - 1], plausible[..|spans| - 1], n);
    }
  }

  lemma {:induction false} CardsInBounds(cards: seq<Option<(nat, nat)>>, n: nat)
    requires forall i :: 0 <= i < |cards| && cards[i].Some? ==> cards[i].value.0 < cards[i].value.1 <= n
    ensures InBounds(Cards(cards), n) && !HasAmbiguous(Cards(cards))
  {
    if cards != [] {
      CardsInBounds(cards[..|cards| - 1], n);
    }
  }

  lemma InBoundsConcat(a: seq<Detection>, b: seq<Detection>, n: nat)
    requires InBounds(a, n) && InBounds(b, n) && !HasAmbiguous(a) && !HasAmbiguous(b)
    ensures InBounds(a + b, n) && !HasAmbiguous(a + b)
  {
  }

  lemma MarkInBounds(spans: seq<Span>, category: Category, n: nat)
    requires Matches(spans, n)
    ensures InBounds(Mark(spans, category), n) && !HasAmbiguous(Mark(spans, category))
  {
  }

  lemma FormatsInBounds(f: Findings, n: nat)
    requires Matches(f.pemPrivateKey, n) && Matches(f.awsAccessKey, n) && Matches(f.githubToken, n)
    requires Matches(f.slackToken, n) && Matches(f.jwt, n) && Matches(f.keyValueSecret, n)
    requires Matches(f.medicalKeyValue, n) && Matches(f.email, n)
    ensures InBounds(Formats(f), n) && !HasAmbiguous(Formats(f))
  {
    var parts := [
      Mark(f.pemPrivateKey, PrivateKey), Mark(f.awsAccessKey, ApiKeyOrToken), Mark(f.githubToken, ApiKeyOrToken),
      Mark(f.slackToken, ApiKeyOrToken), Mark(f.jwt, ApiKeyOrToken), Mark(f.keyValueSecret, Password),
      Mark(f.medicalKeyValue, Medical), Mark(f.email, Email)];
    MarkInBounds(f.pemPrivateKey, PrivateKey, n);
    MarkInBounds(f.awsAccessKey, ApiKeyOrToken, n);
    MarkInBounds(f.githubToken, ApiKeyOrToken, n);
    MarkInBounds(f.slackToken, ApiKeyOrToken, n);
    MarkInBounds(f.jwt, ApiKeyOrToken, n);
    MarkInBounds(f.keyValueSecret, Password, n);
    MarkInBounds(f.medicalKeyValue, Medical, n);
    MarkInBounds(f.email, Email, n);
    InBoundsConcat(parts[0], parts[1], n);
    InBoundsConcat(parts[0] + parts[1], parts[2], n);
    InBoundsConcat(parts[0] + parts[1] + parts[2], parts[3], n);
    var half := parts[0] + parts[1] + parts[2] + parts[3];
    InBoundsConcat(half, parts[4], n);
    InBoundsConcat(half + parts[4], parts[5], n);
    InBoundsConcat(half + parts[4] + parts[5], parts[6], n);
    InBoundsConcat(half + parts[4] + parts[5] + parts[6], parts[7], n);
  }

  lemma HighIsInBounds(text: string, f: Findings)
    requires Possible(f, text)
    ensures InBounds(HighConfidence(text, f), |text|) && !HasAmbiguous(HighConfidence(text, f))
  {
    var n := |text|;
    var marked := Formats(f);
    FormatsInBounds(f, n);
    var a, b, c, d := SsnsIn(text, f.ssnDashed, 1), SsnsIn(text, f.ssnSpaced, 1), SsnsIn(text, f.ssnDashless, 0),
      Cards(CardSpans(text, f.creditCardCandidate));
    SsnsInBounds(f.ssnDashed, Plausible(text, f.ssnDashed, 1), n);
    SsnsInBounds(f.ssnSpaced, Plausible(text, f.ssnSpaced, 1), n);
    SsnsInBounds(f.ssnDashless, Plausible(text, f.ssnDashless, 0), n);
    CardsInBounds(CardSpans(text, f.creditCardCandidate), n);
    InBoundsConcat(marked, a, n);
    InBoundsConcat(marked + a, b, n);
    InBoundsConcat(marked + a + b, c, n);
    InBoundsConcat(marked + a + b + c, d, n);
  }

  /** The unclaimed candidate that makes the engine give up on a text. */
  predicate Uncertain(text: string, high: seq<Detection>, s: Span, highEntropy: string -> bool)
    requires s.start <= s.end <= |text|
  {
    !Claimed(high, s) && LooksSecret(text[s.start..s.end], highEntropy)
  }

  function AmbiguousAt(s: Span): Detection {
    Detection(s.start, s.end, AmbiguousSecret, Ambiguous)
  }

  /** `all` extends `high` by the uncertain candidates among `spans`. */
  ghost predicate ExtendedByUncertain(
    text: string, high: seq<Detection>, spans: seq<Span>, highEntropy: string -> bool, all: seq<Detection>)
    requires Matches(spans, |text|)
  {
    && high <= all
    && (forall d :: d in all[|high|..] <==>
          exists k :: 0 <= k < |spans| && Uncertain(text, high, spans[k], highEntropy) && d == AmbiguousAt(spans[k]))
  }

  lemma ClaimedByHigh(
    text: string, high: seq<Detection>, spans: seq<Span>, highEntropy: string -> bool, all: seq<Detection>, s: Span)
    requires Matches(spans + [s], |text|) && Matches(spans, |text|)
    requires ExtendedByUncertain(text, high, spans, highEntropy, all)
    ensures Claimed(all, s) <==> Claimed(high, s)
  {
    forall i | |high| <= i < |all| ensures !RangesOverlap(all[i].start, all[i].end, s.start, s.end) {
      assert all[i] in all[|high|..];
      var k :| 0 <= k < |spans| && Uncertain(text, high, spans[k], highEntropy) && all[i] == AmbiguousAt(spans[k]);
      var more := spans + [s];
      assert more[k] == spans[k] && more[|spans|] == s && more[k].end <= more[|spans|].start;
    }
    assert forall i :: 0 <= i < |high| ==> all[i] == high[i];
  }

  /**
   Earlier ambiguous detections never claim a later candidate, so what is added is one
   detection for each candidate that is uncertain with respect to the high-confidence ones.
   */
  lemma {:induction false} AmbiguousAreUncertain(
    text: string, high: seq<Detection>, spans: seq<Span>, highEntropy: string -> bool)
    requires Matches(spans, |text|)
    ensures ExtendedByUncertain(text, high, spans, highEntropy, WithAmbiguous(text, high, spans, highEntropy))
  {
    if spans != [] {
      var init, s := spans[..|spans| - 1], spans[|spans| - 1];
      AmbiguousAreUncertain(text, high, init, highEntropy);
      var before := WithAmbiguous(text, high, init, highEntropy);
      var all := WithAmbiguous(text, high, spans, highEntropy);
      assert spans == init + [s];
      ClaimedByHigh(text, high, init, highEntropy, before, s);
      UncertainOfMore(text, high, init, s, highEntropy, before, all);
    }
  }

  lemma UncertainOfMore(
    text: string, high: seq<Detection>, init: seq<Span>, s: Span, highEntropy: string -> bool,
    before: seq<Detection>, all: seq<Detection>)
    requires Matches(init + [s], |text|) && Matches(init, |text|) && s.start <= s.end <= |text|
    requires ExtendedByUncertain(text, high, init, highEntropy, before)
    requires all == if Uncertain(text, high, s, highEntropy) then before + [AmbiguousAt(s)] else before
    ensures ExtendedByUncertain(text, high, init + [s], highEntropy, all)
  {
    var spans := init + [s];
    forall d
      ensures d in all[|high|..] <==>
        exists k :: 0 <= k < |spans| && Uncertain(text, high, spans[k], highEntropy) && d == AmbiguousAt(spans[k])
    {
      assert d in all[|high|..] <==> d in before[|high|..] || (Uncertain(text, high, s, highEntropy) && d == AmbiguousAt(s)) by {
        assert Uncertain(text, high, s, highEntropy) ==> all[|high|..] == before[|high|..] + [AmbiguousAt(s)];
      }
      if d in before[|high|..] {
        var k :| 0 <= k < |init| && Uncertain(text, high, init[k], highEntropy) && d == AmbiguousAt(init[k]);
        assert spans[k] == init[k];
      }
      assert spans[|init|] == s;
      if k :| 0 <= k < |spans| && Uncertain(text, high, spans[k], highEntropy) && d == AmbiguousAt(spans[k]) {
        assert k < |init| ==> init[k] == spans[k];
      }
    }
  }

  /** All detections before sorting. */
  ghost function Found(text: string, f: Findings, highEntropy: string -> bool): seq<Detection>
    requires Possible(f, text)
  {
    WithAmbiguous(text, HighConfidence(text, f), f.highEntropyCandidate, highEntropy)
  }

  lemma ExtendedInBounds(
    text: string, high: seq<Detection>, spans: seq<Span>, highEntropy: string -> bool, all: seq<Detection>)
    requires Matches(spans, |text|) && InBounds(high, |text|) && !HasAmbiguous(high)
    requires ExtendedByUncertain(text, high, spans, highEntropy, all)
    ensures InBounds(all, |text|)
    ensures HasAmbiguous(all) <==> exists k :: 0 <= k < |spans| && Uncertain(text, high, spans[k], highEntropy)
    ensures !HasAmbiguous(all) ==> all == high
  {
    var extra := all[|high|..];
    forall i | 0 <= i < |extra|
      ensures extra[i].start < extra[i].end <= |text| && extra[i].confidence == Ambiguous
      ensures exists k :: 0 <= k < |spans| && Uncertain(text, high, spans[k], highEntropy)
    {
      assert extra[i] in extra;
    }
    if k :| 0 <= k < |spans| && Uncertain(text, high, spans[k], highEntropy) {
      assert AmbiguousAt(spans[k]) in extra;
    }
    SplitInBounds(high, extra, |text|);
    assert all == high + extra;
  }

  lemma FoundInBounds(text: string, f: Findings, highEntropy: string -> bool)
    requires Possible(f, text)
    ensures InBounds(Found(text, f, highEntropy), |text|)
    ensures HasAmbiguous(Found(text, f, highEntropy)) <==> SomeUncertain(text, f, highEntropy)
    ensures !SomeUncertain(text, f, highEntropy) ==> Found(text, f, highEntropy) == HighConfidence(text, f)
  {
    var high, spans := HighConfidence(text, f), f.highEntropyCandidate;
    HighIsInBounds(text, f);
    AmbiguousAreUncertain(text, high, spans, highEntropy);
    ExtendedInBounds(text, high, spans, highEntropy, WithAmbiguous(text, high, spans, highEntropy));
  }

  lemma SplitInBounds(high: seq<Detection>, extra: seq<Detection>, n: nat)
    requires InBounds(high, n) && InBounds(extra, n) && !HasAmbiguous(high)
    requires forall i :: 0 <= i < |extra| ==> extra[i].confidence == Ambiguous
    ensures InBounds(high + extra, n)
    ensures HasAmbiguous(high + extra) <==> extra != []
  {
    if extra != [] {
      assert (high + extra)[|high|] == extra[0];
    }
  }

  lemma SortOfDetections(ds: seq<Detection>, n: nat)
    requires InBounds(ds, n)
    ensures var sorted := Sorting.StableSort(StartsNoLater, ds);
      && SortedByStart(sorted) && InBounds(sorted, n)
      && (forall d :: d in sorted <==> d in ds)
  {
    var sorted := Sorting.StableSort(StartsNoLater, ds);
    Sorting.StableSortIsSorted(StartsNoLater, ds);
    Sorting.SameElements(sorted, ds);
    forall i, j | 0 <= i < j < |sorted| ensures sorted[i].start <= sorted[j].start {
      assert StartsNoLater(sorted[i], sorted[j]);
    }
    forall i | 0 <= i < |sorted| ensures sorted[i].start < sorted[i].end <= n {
      assert sorted[i] in ds;
    }
  }

  lemma DetectedIsUsable(text: string, f: Findings, highEntropy: string -> bool)
    requires Possible(f, text)
    ensures SortedByStart(Detected(text, f, highEntropy)) && InBounds(Detected(text, f, highEntropy), |text|)
    ensures forall d :: d in Detected(text, f, highEntropy) <==> d in Found(text, f, highEntropy)
  {
    FoundInBounds(text, f, highEntropy);
    SortOfDetections(Found(text, f, highEntropy), |text|);
  }

  // --- the verdict ---

  ghost predicate SomeUncertain(text: string, f: Findings, highEntropy: string -> bool)
    requires Possible(f, text)
  {
    exists k :: 0 <= k < |f.highEntropyCandidate|
      && Uncertain(text, HighConfidence(text, f), f.highEntropyCandidate[k], highEntropy)
  }

  /**
   The event is dropped exactly when some secret-looking candidate is disjoint from all
   high-confidence detections; it passes unchanged exactly when nothing at all is found.
   */
  lemma VerdictIsExact(text: string, f: Findings, highEntropy: string -> bool)
    requires Possible(f, text)
    ensures Verdict(text, f, highEntropy).Drop? <==> SomeUncertain(text, f, highEntropy)
    ensures Verdict(text, f, highEntropy).Clean? <==>
      HighConfidence(text, f) == [] && !SomeUncertain(text, f, highEntropy)
  {
    DetectedIsUsable(text, f, highEntropy);
    FoundInBounds(text, f, highEntropy);
    SameMembers(Detected(text, f, highEntropy), Found(text, f, highEntropy));
  }

  lemma EmptyTextIsClean(f: Findings, highEntropy: string -> bool)
    requires Possible(f, "")
    ensures Verdict("", f, highEntropy) == Clean("")
  {
    NothingInEmptyText(f);
    VerdictIsExact("", f, highEntropy);
  }

  lemma NoMatchInEmptyText(spans: seq<Span>)
    requires Matches(spans, 0)
    ensures spans == []
  {
    assert |spans| > 0 ==> spans[0].end <= 0;
  }

  lemma NothingInEmptyText(f: Findings)
    requires Possible(f, "")
    ensures HighConfidence("", f) == [] && f.highEntropyCandidate == []
  {
    NoMatchInEmptyText(f.pemPrivateKey);
    NoMatchInEmptyText(f.awsAccessKey);
    NoMatchInEmptyText(f.githubToken);
    NoMatchInEmptyText(f.slackToken);
    NoMatchInEmptyText(f.jwt);
    NoMatchInEmptyText(f.keyValueSecret);
    NoMatchInEmptyText(f.medicalKeyValue);
    NoMatchInEmptyText(f.email);
    NoMatchInEmptyText(f.ssnDashed);
    NoMatchInEmptyText(f.ssnSpaced);
    NoMatchInEmptyText(f.ssnDashless);
    NoMatchInEmptyText(f.creditCardCandidate);
    NoMatchInEmptyText(f.highEntropyCandidate);
    assert Formats(f) == [];
    assert CardSpans("", f.creditCardCandidate) == [];
  }

  lemma SameMembers(a: seq<Detection>, b: seq<Detection>)
    requires forall d :: d in a <==> d in b
    ensures HasAmbiguous(a) <==> HasAmbiguous(b)
    ensures a == [] <==> b == []
  {
    if i :| 0 <= i < |a| && a[i].confidence == Ambiguous {
      assert a[i] in b;
    }
    if i :| 0 <= i < |b| && b[i].confidence == Ambiguous {
      assert b[i] in a;
    }
    assert a != [] ==> a[0] in b;
    assert b != [] ==> b[0] in a;
  }

  /** A returned text is the original with its high-confidence detections replaced. */
  lemma ReturnedTextIsRedacted(text: string, f: Findings, highEntropy: string -> bool)
    requires Possible(f, text) && !Verdict(text, f, highEntropy).Drop?
    ensures var ds := Detected(text, f, highEntropy);
      && (forall d :: d in ds <==> d in HighConfidence(text, f))
      && InBounds(ds, |text|) && SortedByStart(ds)
      && Verdict(text, f, highEntropy).text == Redact(text, ds)
  {
    VerdictIsExact(text, f, highEntropy);
    DetectedIsUsable(text, f, highEntropy);
    FoundInBounds(text, f, highEntropy);
    SameMembers(Detected(text, f, highEntropy), Found(text, f, highEntropy));
    NothingToRedact(text);
  }

  lemma NothingToRedact(text: string)
    ensures InBounds([], |text|) && Redact(text, []) == text
  {
    assert Accepted([], 0) == [] && text[0..] == text;
  }

  // --- what survives in a returned text ---

  lemma CoversSame(a: seq<Detection>, b: seq<Detection>, i: int)
    requires forall d :: d in a <==> d in b
    ensures Covers(a, i) <==> Covers(b, i)
  {
    if k :| 0 <= k < |a| && a[k].start <= i < a[k].end {
      assert a[k] in b;
    }
    if k :| 0 <= k < |b| && b[k].start <= i < b[k].end {
      assert b[k] in a;
    }
  }

  /** The character at position i of the text is in the returned text, at its place. */
  ghost predicate IsReturned(text: string, f: Findings, highEntropy: string -> bool, i: int)
    requires Possible(f, text) && !Verdict(text, f, highEntropy).Drop?
  {
    var at := OutputPosition(Accepted(Detected(text, f, highEntropy), 0), 0, i);
    var returned := Verdict(text, f, highEntropy).text;
    0 <= i < |text| && 0 <= at < |returned| && returned[at] == text[i]
  }

  /** The texts are alike wherever nothing was detected. */
  predicate DifferInDetected(text: string, text': string, ds: seq<Detection>) {
    |text'| == |text| && forall i :: 0 <= i < |text| && !Covers(ds, i) ==> text'[i] == text[i]
  }

  /**
   Whether a returned text holds something detected is decided by one pass over the
   detections: if the pass fails, some detected character is returned; if it succeeds,
   the returned text would be the same whatever the detected characters were.
   */
  lemma SurvivalIsDecidedForReturned(text: string, f: Findings, highEntropy: string -> bool)
    requires Possible(f, text) && !Verdict(text, f, highEntropy).Drop?
    ensures var ds, high := Detected(text, f, highEntropy), HighConfidence(text, f);
      if NothingSurvives(ds, 0, 0)
      then forall text' :: DifferInDetected(text, text', high) ==>
             InBounds(ds, |text'|) && Redact(text', ds) == Verdict(text, f, highEntropy).text
      else exists i :: Covers(high, i) && IsReturned(text, f, highEntropy, i)
  {
    var ds, high := Detected(text, f, highEntropy), HighConfidence(text, f);
    ReturnedTextIsRedacted(text, f, highEntropy);
    SurvivalIsDecided(text, ds);
    if NothingSurvives(ds, 0, 0) {
      forall text' | DifferInDetected(text, text', high)
        ensures InBounds(ds, |text'|) && Redact(text', ds) == Verdict(text, f, highEntropy).text
      {
        forall i | 0 <= i < |text| && !Covers(Accepted(ds, 0), i) ensures text[i] == text'[i] {
          CoversSame(ds, high, i);
        }
        RedactedCharactersAreInvisible(text, text', ds);
      }
    } else {
      var i :| Covers(ds, i) && CopiedOut(text, ds, i);
      CoversSame(ds, high, i);
      assert IsReturned(text, f, highEntropy, i);
    }
  }

  /** A password value and a private-key block that begins inside it are all that is found. */
  predicate BlockInValue(text: string, f: Findings, value: Span, block: Span) {
    && value.start < block.start < value.end < block.end <= |text|
    && f == NO_FINDINGS.(keyValueSecret := [value], pemPrivateKey := [block], highEntropyCandidate := f.highEntropyCandidate)
  }

  function BlockDetections(value: Span, block: Span): seq<Detection> {
    [Detection(value.start, value.end, Password, High), Detection(block.start, block.end, PrivateKey, High)]
  }

  /** Candidates reach into the stretch that the two cover. */
  predicate ReachInto(spans: seq<Span>, value: Span, block: Span) {
    forall k :: 0 <= k < |spans| ==> value.start < spans[k].end && spans[k].start < block.end
  }

  lemma BlockIsHighConfidence(text: string, f: Findings, value: Span, block: Span)
    requires Possible(f, text) && BlockInValue(text, f, value, block)
    ensures HighConfidence(text, f) == [BlockDetections(value, block)[1], BlockDetections(value, block)[0]]
  {
    assert CardSpans(text, []) == [];
    assert Formats(f) == Mark([block], PrivateKey) + Mark([value], Password);
  }

  lemma BlockIsDetected(text: string, f: Findings, highEntropy: string -> bool, value: Span, block: Span)
    requires Possible(f, text) && BlockInValue(text, f, value, block) && ReachInto(f.highEntropyCandidate, value, block)
    ensures Detected(text, f, highEntropy) == BlockDetections(value, block)
  {
    var high, ds := HighConfidence(text, f), BlockDetections(value, block);
    BlockIsHighConfidence(text, f, value, block);
    forall k | 0 <= k < |f.highEntropyCandidate| ensures Claimed(high, f.highEntropyCandidate[k]) {
      assert high[0] == ds[1] && high[1] == ds[0];
    }
    FoundInBounds(text, f, highEntropy);
    SortOfTwo(ds[1], ds[0]);
  }

  lemma SortOfTwo(later: Detection, earlier: Detection)
    requires earlier.start < later.start
    ensures Sorting.StableSort(StartsNoLater, [later, earlier]) == [earlier, later]
  {
    assert [later, earlier][..1] == [later] && [later][..0] == [];
    assert Sorting.StableSort(StartsNoLater, [later]) == [later];
    assert Sorting.Insert(StartsNoLater, [], earlier) == [earlier];
  }

  /**
   A private-key block that begins inside a password value is not replaced: the engine
   returns the text, and all of the block from the value's end on with it.
   */
  lemma BlockIsReturned(text: string, f: Findings, highEntropy: string -> bool, value: Span, block: Span)
    requires Possible(f, text) && BlockInValue(text, f, value, block) && ReachInto(f.highEntropyCandidate, value, block)
    ensures Verdict(text, f, highEntropy) == Redacted(text[..value.start] + "[REDACTED:password]" + text[value.end..])
  {
    var ds := BlockDetections(value, block);
    BlockIsDetected(text, f, highEntropy, value, block);
    DetectedIsUsable(text, f, highEntropy);
    assert ds[1..] == [ds[1]] && [ds[1]][1..] == [];
    assert Accepted([ds[1]], value.end) == [];
    assert Accepted(ds, 0) == [ds[0]];
    RenderOfOne(text, ds[0]);
  }

  lemma RenderOfOne(text: string, d: Detection)
    requires d.start < d.end <= |text|
    ensures InOrder([d], 0, |text|) && Render(text, [d], 0) == text[..d.start] + Marker(d) + text[d.end..]
  {
    assert [d][1..] == [];
    assert text[0..d.start] == text[..d.start];
  }

  const ASSIGNMENT := "password=x-----BEGIN"

  /** What the expressions find when a value runs into the opening line of a block; a candidate has at least 20 characters. */
  predicate FoundInAssignment(text: string, f: Findings) {
    && Possible(f, text) && BlockInValue(text, f, Span(9, 20), Span(10, |text|))
    && forall k :: 0 <= k < |f.highEntropyCandidate| ==>
         f.highEntropyCandidate[k].end >= f.highEntropyCandidate[k].start + 20
  }

  /**
   For example an assignment to a password that runs into the opening line of a private
   key: the value is found up to the space, the block from its dashes on, and whatever
   the key is, it is returned in full.
   */
  lemma PrivateKeyIsReturned(key: string, f: Findings, highEntropy: string -> bool)
    requires FoundInAssignment(ASSIGNMENT + " PRIVATE KEY-----" + key + "-----END PRIVATE KEY-----", f)
    ensures Verdict(ASSIGNMENT + " PRIVATE KEY-----" + key + "-----END PRIVATE KEY-----", f, highEntropy)
         == Redacted("password=" + "[REDACTED:password]" + (" PRIVATE KEY-----" + key + "-----END PRIVATE KEY-----"))
  {
    var rest := " PRIVATE KEY-----" + key + "-----END PRIVATE KEY-----";
    assert ASSIGNMENT + " PRIVATE KEY-----" + key + "-----END PRIVATE KEY-----" == ASSIGNMENT + rest;
    RestIsReturned(rest, f, highEntropy);
  }

  lemma RestIsReturned(rest: string, f: Findings, highEntropy: string -> bool)
    requires FoundInAssignment(ASSIGNMENT + rest, f)
    ensures Verdict(ASSIGNMENT + rest, f, highEntropy) == Redacted("password=" + "[REDACTED:password]" + rest)
  {
    var text := ASSIGNMENT + rest;
    BlockIsReturned(text, f, highEntropy, Span(9, 20), Span(10, |text|));
    assert text[..9] == ASSIGNMENT[..9] == "password=";
    assert text[20..] == rest;
  }
}
