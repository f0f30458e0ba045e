/** What is detected in a text, category by category, and what a verdict means for its characters. */
module DetectionTheorems {
  import opened Wrappers
  import opened Redaction
  import opened Detectors
  import Luhn
  import Sorting

  // --- every high-confidence detection ---

  ghost predicate IsSpanOf(spans: seq<Span>, d: Detection) {
    exists i :: 0 <= i < |spans| && spans[i] == Span(d.start, d.end)
  }

  lemma MarkedSpans(spans: seq<Span>, category: Category, d: Detection)
    ensures d in Mark(spans, category) <==> d.category == category && d.confidence == High && IsSpanOf(spans, d)
  {
    if i :| 0 <= i < |spans| && spans[i] == Span(d.start, d.end) && d.category == category && d.confidence == High {
      assert Mark(spans, category)[i] == d;
    }
  }

  lemma {:induction false} PlausibleSpans(spans: seq<Span>, plausible: seq<bool>, d: Detection)
    requires |plausible| == |spans|
    ensures d in Ssns(spans, plausible) <==>
      d.category == GovernmentId && d.confidence == High
      && exists i :: 0 <= i < |spans| && plausible[i] && spans[i] == Span(d.start, d.end)
  {
    if spans != [] {
      var last := |spans| - 1;
      PlausibleSpans(spans[..last], plausible[..last], d);
      assert forall i :: 0 <= i < last ==> spans[..last][i] == spans[i] && plausible[..last][i] == plausible[i];
    }
  }

  lemma {:induction false} FoundCards(cards: seq<Option<(nat, nat)>>, d: Detection)
    ensures d in Cards(cards) <==>
      d.category == CreditCard && d.confidence == High
      && exists i :: 0 <= i < |cards| && cards[i] == Some((d.start, d.end))
  {
    if cards != [] {
      var init := cards[..|cards| - 1];
      FoundCards(init, d);
      assert forall i :: 0 <= i < |init| ==> init[i] == cards[i];
    }
  }

  predicate AreDigits(s: string) {
    forall i :: 0 <= i < |s| ==> '0' <= s[i] <= '9'
  }

  lemma TwoDigits(s: string)
    requires |s| == 2 && AreDigits(s)
    ensures NumberOf(s) == 10 * (s[0] as int - 48) + (s[1] as int - 48)
  {
    assert s[..1][..0] == [];
    assert NumberOf(s[..1]) == s[0] as int - 48;
  }

  lemma ThreeDigits(s: string)
    requires |s| == 3 && AreDigits(s)
    ensures NumberOf(s) == 100 * (s[0] as int - 48) + 10 * (s[1] as int - 48) + (s[2] as int - 48)
  {
    TwoDigits(s[..2]);
  }

  lemma FourDigits(s: string)
    requires |s| == 4 && AreDigits(s)
    ensures NumberOf(s)
         == 1000 * (s[0] as int - 48) + 100 * (s[1] as int - 48) + 10 * (s[2] as int - 48) + (s[3] as int - 48)
  {
    ThreeDigits(s[..3]);
  }

  /** Issued are the areas other than 000, 666 and 900 to 999, with a group other than 00 and a serial other than 0000. */
  lemma IssuedNumbers(area: string, group: string, serial: string)
    requires |area| == 3 && |group| == 2 && |serial| == 4
    requires AreDigits(area) && AreDigits(group) && AreDigits(serial)
    ensures IsPlausibleSsn(area, group, serial) <==>
      area != "000" && area != "666" && area[0] != '9' && group != "00" && serial != "0000"
  {
    ThreeDigits(area);
    TwoDigits(group);
    FourDigits(serial);
    assert ParseNumber(area) == NumberOf(area) && ParseNumber(group) == NumberOf(group);
    assert ParseNumber(serial) == NumberOf(serial);
  }

  /** A match of nine digits, with `gap` characters between its groups, that looks issued. */
  ghost predicate IsNumberAmong(text: string, spans: seq<Span>, gap: nat, d: Detection)
    requires gap <= 1 && Matches(spans, |text|) && AllOfLength(spans, 9 + 2 * gap)
  {
    exists i :: 0 <= i < |spans| && spans[i] == Span(d.start, d.end) && LooksIssued(text, spans[i].start, gap)
  }

  predicate LooksIssued(text: string, s: nat, gap: nat)
    requires gap <= 1 && s + 9 + 2 * gap <= |text|
  {
    if gap == 0 then IsPlausibleSsn(text[s..s + 3], text[s + 3..s + 5], text[s + 5..s + 9])
    else IsPlausibleSsn(text[s..s + 3], text[s + 4..s + 6], text[s + 7..s + 11])
  }

  lemma NumbersAmong(text: string, spans: seq<Span>, gap: nat, d: Detection)
    requires gap <= 1 && Matches(spans, |text|) && AllOfLength(spans, 9 + 2 * gap)
    ensures d in SsnsIn(text, spans, gap) <==>
      d.category == GovernmentId && d.confidence == High && IsNumberAmong(text, spans, gap, d)
  {
    var plausible := Plausible(text, spans, gap);
    PlausibleSpans(spans, plausible, d);
    forall i | 0 <= i < |spans| ensures plausible[i] <==> LooksIssued(text, spans[i].start, gap) {
      GroupsOfNumber(text, spans[i].start, gap);
    }
  }

  lemma GroupsOfNumber(text: string, s: nat, gap: nat)
    requires gap <= 1 && s + 9 + 2 * gap <= |text|
    ensures PlausibleAt(text, s, gap) <==> LooksIssued(text, s, gap)
  {
  }

  /** The place of a card number inside some candidate. */
  ghost predicate IsCardAmong(text: string, spans: seq<Span>, d: Detection)
    requires Matches(spans, |text|)
  {
    exists i :: 0 <= i < |spans|
      && Luhn.CardSpan(text[spans[i].start..spans[i].end], spans[i].start) == Some((d.start, d.end))
  }

  lemma CardsAmong(text: string, spans: seq<Span>, d: Detection)
    requires Matches(spans, |text|)
    ensures d in Cards(CardSpans(text, spans)) <==>
      d.category == CreditCard && d.confidence == High && IsCardAmong(text, spans, d)
  {
    var cards := CardSpans(text, spans);
    FoundCards(cards, d);
    assert forall i :: 0 <= i < |spans| ==>
      cards[i] == Luhn.CardSpan(text[spans[i].start..spans[i].end], spans[i].start);
  }

  /** What each category's detections are. */
  ghost predicate IsFound(text: string, f: Findings, d: Detection)
    requires Possible(f, text)
  {
    match d.category
    case PrivateKey => IsSpanOf(f.pemPrivateKey, d)
    case ApiKeyOrToken =>
      IsSpanOf(f.awsAccessKey, d) || IsSpanOf(f.githubToken, d) || IsSpanOf(f.slackToken, d) || IsSpanOf(f.jwt, d)
    case Password => IsSpanOf(f.keyValueSecret, d)
    case Medical => IsSpanOf(f.medicalKeyValue, d)
    case Email => IsSpanOf(f.email, d)
    case GovernmentId =>
      || IsNumberAmong(text, f.ssnDashed, 1, d) || IsNumberAmong(text, f.ssnSpaced, 1, d)
      || IsNumberAmong(text, f.ssnDashless, 0, d)
    case CreditCard => IsCardAmong(text, f.creditCardCandidate, d)
    case AmbiguousSecret => false
  }

  lemma FormatsAreFound(text: string, f: Findings, d: Detection)
    requires Possible(f, text)
    ensures d in Formats(f) <==>
      d.confidence == High && d.category !in {GovernmentId, CreditCard, AmbiguousSecret} && IsFound(text, f, d)
  {
    MarkedSpans(f.pemPrivateKey, PrivateKey, d);
    MarkedSpans(f.awsAccessKey, ApiKeyOrToken, d);
    MarkedSpans(f.githubToken, ApiKeyOrToken, d);
    MarkedSpans(f.slackToken, ApiKeyOrToken, d);
    MarkedSpans(f.jwt, ApiKeyOrToken, d);
    MarkedSpans(f.keyValueSecret, Password, d);
    MarkedSpans(f.medicalKeyValue, Medical, d);
    MarkedSpans(f.email, Email, d);
  }

  /**
   Every match of a format, every number that looks issued and every card number is a
   detection of its category, and nothing else is.
   */
  lemma HighConfidenceIsExact(text: string, f: Findings, d: Detection)
    requires Possible(f, text)
    ensures d in HighConfidence(text, f) <==> d.confidence == High && IsFound(text, f, d)
  {
    FormatsAreFound(text, f, d);
    NumbersAmong(text, f.ssnDashed, 1, d);
    NumbersAmong(text, f.ssnSpaced, 1, d);
    NumbersAmong(text, f.ssnDashless, 0, d);
    CardsAmong(text, f.creditCardCandidate, d);
    InOneOfFive(Formats(f), SsnsIn(text, f.ssnDashed, 1), SsnsIn(text, f.ssnSpaced, 1), SsnsIn(text, f.ssnDashless, 0),
                Cards(CardSpans(text, f.creditCardCandidate)), d);
  }

  lemma InOneOfFive(
    a: seq<Detection>, b: seq<Detection>, c: seq<Detection>, e: seq<Detection>, g: seq<Detection>, d: Detection)
    ensures d in a + b + c + e + g <==> d in a || d in b || d in c || d in e || d in g
  {
  }

  // --- which of two detections at one place counts ---

  /** The order in which categories are looked for. */
  function Rank(c: Category): nat {
    match c
    case PrivateKey => 0
    case ApiKeyOrToken => 1
    case Password => 2
    case Medical => 3
    case Email => 4
    case GovernmentId => 5
    case CreditCard => 6
    case AmbiguousSecret => 7
  }

  predicate NotLater(a: Detection, b: Detection) {
    Rank(a.category) <= Rank(b.category)
  }

  ghost predicate AllOfRank(ds: seq<Detection>, lo: nat, hi: nat) {
    forall i :: 0 <= i < |ds| ==> lo <= Rank(ds[i].category) <= hi
  }

  ghost predicate RanksRise(ds: seq<Detection>, hi: nat) {
    Sorting.SortedBy(NotLater, ds) && AllOfRank(ds, 0, hi)
  }

  lemma RankOfMore(a: seq<Detection>, b: seq<Detection>, hi: nat, rank: nat)
    requires RanksRise(a, hi) && hi <= rank && AllOfRank(b, rank, rank)
    ensures RanksRise(a + b, rank)
  {
  }

  lemma RankOfMark(spans: seq<Span>, category: Category)
    ensures AllOfRank(Mark(spans, category), Rank(category), Rank(category))
  {
  }

  lemma FormatsRise(f: Findings)
    ensures RanksRise(Formats(f), 4)
  {
    var a, b, c, d := Mark(f.pemPrivateKey, PrivateKey), Mark(f.awsAccessKey, ApiKeyOrToken),
      Mark(f.githubToken, ApiKeyOrToken), Mark(f.slackToken, ApiKeyOrToken);
    RankOfMark(f.pemPrivateKey, PrivateKey);
    RankOfMark(f.awsAccessKey, ApiKeyOrToken);
    RankOfMark(f.githubToken, ApiKeyOrToken);
    RankOfMark(f.slackToken, ApiKeyOrToken);
    RankOfMark(f.jwt, ApiKeyOrToken);
    RankOfMark(f.keyValueSecret, Password);
    RankOfMark(f.medicalKeyValue, Medical);
    RankOfMark(f.email, Email);
    assert RanksRise(a, 0);
    RankOfMore(a, b, 0, 1);
    RankOfMore(a + b, c, 1, 1);
    RankOfMore(a + b + c, d, 1, 1);
    var half := a + b + c + d;
    RankOfMore(half, Mark(f.jwt, ApiKeyOrToken), 1, 1);
    RankOfMore(half + Mark(f.jwt, ApiKeyOrToken), Mark(f.keyValueSecret, Password), 1, 2);
    RankOfMore(half + Mark(f.jwt, ApiKeyOrToken) + Mark(f.keyValueSecret, Password), Mark(f.medicalKeyValue, Medical), 2, 3);
    RankOfMore(half + Mark(f.jwt, ApiKeyOrToken) + Mark(f.keyValueSecret, Password) + Mark(f.medicalKeyValue, Medical),
               Mark(f.email, Email), 3, 4);
  }

  lemma NumbersHaveRank(text: string, spans: seq<Span>, gap: nat)
    requires gap <= 1 && Matches(spans, |text|) && AllOfLength(spans, 9 + 2 * gap)
    ensures AllOfRank(SsnsIn(text, spans, gap), 5, 5)
  {
    var ds := SsnsIn(text, spans, gap);
    forall i | 0 <= i < |ds| ensures Rank(ds[i].category) == 5 {
      assert ds[i] in ds;
      NumbersAmong(text, spans, gap, ds[i]);
    }
  }

  lemma HighRises(text: string, f: Findings)
    requires Possible(f, text)
    ensures RanksRise(HighConfidence(text, f), 6)
  {
    var formats, a, b, c :=
      Formats(f), SsnsIn(text, f.ssnDashed, 1), SsnsIn(text, f.ssnSpaced, 1), SsnsIn(text, f.ssnDashless, 0);
    var cards := Cards(CardSpans(text, f.creditCardCandidate));
    FormatsRise(f);
    NumbersHaveRank(text, f.ssnDashed, 1);
    NumbersHaveRank(text, f.ssnSpaced, 1);
    NumbersHaveRank(text, f.ssnDashless, 0);
    forall i | 0 <= i < |cards| ensures Rank(cards[i].category) == 6 {
      assert cards[i] in cards;
      CardsAmong(text, f.creditCardCandidate, cards[i]);
    }
    RankOfMore(formats, a, 4, 5);
    RankOfMore(formats + a, b, 5, 5);
    RankOfMore(formats + a + b, c, 5, 5);
    RankOfMore(formats + a + b + c, cards, 5, 6);
  }

  lemma AllRises(text: string, f: Findings, highEntropy: string -> bool)
    requires Possible(f, text)
    ensures RanksRise(Found(text, f, highEntropy), 7)
  {
    var high, all := HighConfidence(text, f), Found(text, f, highEntropy);
    HighRises(text, f);
    HighIsInBounds(text, f);
    AmbiguousAreUncertain(text, high, f.highEntropyCandidate, highEntropy);
    var extra := all[|high|..];
    forall i | 0 <= i < |extra| ensures Rank(extra[i].category) == 7 {
      assert extra[i] in extra;
    }
    RankOfMore(high, extra, 6, 7);
    assert all == high + extra;
  }

  /** Detections come by where they start; of several that start together, by the order of the categories. */
  lemma DetectionsAreOrdered(text: string, f: Findings, highEntropy: string -> bool, i: nat, j: nat)
    requires Possible(f, text) && i < j < |Detected(text, f, highEntropy)|
    ensures var ds := Detected(text, f, highEntropy);
      && ds[i].start <= ds[j].start
      && (ds[i].start == ds[j].start ==> Rank(ds[i].category) <= Rank(ds[j].category))
  {
    AllRises(text, f, highEntropy);
    assert Sorting.TotalPreorder(StartsNoLater);
    Sorting.TiesKeepTheirOrder(StartsNoLater, NotLater, Found(text, f, highEntropy));
    var ds := Detected(text, f, highEntropy);
    assert StartsNoLater(ds[i], ds[j]);
    assert StartsNoLater(ds[j], ds[i]) ==> NotLater(ds[i], ds[j]);
  }

  // --- what a verdict means ---

  predicate LiesIn(i: int, start: nat, end: nat) {
    start <= i < end
  }

  /** Two non-empty stretches overlap exactly when they have a character in common. */
  lemma OverlapIsSharing(a: nat, b: nat, c: nat, d: nat)
    requires a < b && c < d
    ensures RangesOverlap(a, b, c, d) <==> exists i :: LiesIn(i, a, b) && LiesIn(i, c, d)
  {
    var i := if a < c then c else a;
    assert RangesOverlap(a, b, c, d) ==> LiesIn(i, a, b) && LiesIn(i, c, d);
  }

  ghost predicate SharesNothing(ds: seq<Detection>, s: Span) {
    forall i :: s.start <= i < s.end ==> !Covers(ds, i)
  }

  lemma UnclaimedSharesNothing(ds: seq<Detection>, s: Span, n: nat)
    requires InBounds(ds, n) && s.start < s.end
    ensures !Claimed(ds, s) <==> SharesNothing(ds, s)
  {
    if k :| 0 <= k < |ds| && RangesOverlap(ds[k].start, ds[k].end, s.start, s.end) {
      OverlapIsSharing(ds[k].start, ds[k].end, s.start, s.end);
      var i :| LiesIn(i, ds[k].start, ds[k].end) && LiesIn(i, s.start, s.end);
      assert Covers(ds, i);
    }
    if i :| s.start <= i < s.end && Covers(ds, i) {
      var k :| 0 <= k < |ds| && ds[k].start <= i < ds[k].end;
      OverlapIsSharing(ds[k].start, ds[k].end, s.start, s.end);
      assert LiesIn(i, ds[k].start, ds[k].end) && LiesIn(i, s.start, s.end);
    }
  }

  /** Hexadecimal texts as long as common identifiers. */
  lemma HexIds(s: string)
    ensures LooksLikeCommonHexId(s) <==>
      (|s| == 7 || |s| == 8 || |s| == 32 || |s| == 40 || |s| == 64)
      && forall i :: 0 <= i < |s| ==> s[i] in "0123456789abcdefABCDEF"
  {
    forall c: char ensures IsHexDigit(c) <==> c in "0123456789abcdefABCDEF" {
      HexDigits(c);
    }
  }

  lemma HexDigits(c: char)
    ensures IsHexDigit(c) <==> c in "0123456789abcdefABCDEF"
  {
    var digits := "0123456789abcdefABCDEF";
    if '0' <= c <= '9' {
      assert digits[c as int - 48] == c;
    } else if 'a' <= c <= 'f' {
      assert digits[c as int - 97 + 10] == c;
    } else if 'A' <= c <= 'F' {
      assert digits[c as int - 65 + 16] == c;
    }
  }

  /** A candidate that looks secret: no common identifier, mixed, and of high entropy. */
  ghost predicate IsSecret(token: string, highEntropy: string -> bool) {
    && !LooksLikeCommonHexId(token) && highEntropy(token)
    && (exists i :: 0 <= i < |token| && ('a' <= token[i] <= 'z' || 'A' <= token[i] <= 'Z'))
    && (exists i :: 0 <= i < |token| && !('a' <= token[i] <= 'z' || 'A' <= token[i] <= 'Z'))
  }

  ghost predicate HoldsLooseSecret(text: string, f: Findings, highEntropy: string -> bool)
    requires Possible(f, text)
  {
    exists k :: 0 <= k < |f.highEntropyCandidate|
      && SharesNothing(HighConfidence(text, f), f.highEntropyCandidate[k])
      && IsSecret(text[f.highEntropyCandidate[k].start..f.highEntropyCandidate[k].end], highEntropy)
  }

  /** A text is given up exactly when some candidate looks secret and shares no character with any detection. */
  lemma DropIsExact(text: string, f: Findings, highEntropy: string -> bool)
    requires Possible(f, text)
    ensures Verdict(text, f, highEntropy).Drop? <==> HoldsLooseSecret(text, f, highEntropy)
  {
    var high, spans := HighConfidence(text, f), f.highEntropyCandidate;
    VerdictIsExact(text, f, highEntropy);
    HighIsInBounds(text, f);
    forall k | 0 <= k < |spans|
      ensures Uncertain(text, high, spans[k], highEntropy) <==>
        SharesNothing(high, spans[k]) && IsSecret(text[spans[k].start..spans[k].end], highEntropy)
    {
      UnclaimedSharesNothing(high, spans[k], |text|);
      SecretLooks(text[spans[k].start..spans[k].end], highEntropy);
    }
  }

  lemma SecretLooks(token: string, highEntropy: string -> bool)
    ensures LooksSecret(token, highEntropy) <==> IsSecret(token, highEntropy)
  {
    assert forall i :: 0 <= i < |token| ==>
      (IsLetter(token[i]) <==> 'a' <= token[i] <= 'z' || 'A' <= token[i] <= 'Z');
  }
}
