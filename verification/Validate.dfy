/**
 Spotting an occurrence count in prose that differs from the real one.  What the four
 expressions match is an input; which matches count, and as what, is decided here.
 */
module Validate {
  import opened Wrappers
  import opened Detectors
  import Luhn

  const MAX_U32: nat := 0xFFFF_FFFF

  /** A match with the word or digits it captured. */
  datatype WordMatch = WordMatch(span: Span, word: string)

  /** A match such as "thirty-one times". */
  datatype CompoundMatch = CompoundMatch(span: Span, tens: string, ones: string)

  datatype Prose = Prose(
    digits: seq<WordMatch>, compounds: seq<CompoundMatch>, singles: seq<WordMatch>, onceOrTwice: seq<WordMatch>)

  datatype Mention = Mention(start: nat, end: nat, value: nat)

  function Lower(s: string): string {
    seq(|s|, i requires 0 <= i < |s| => if 'A' <= s[i] <= 'Z' then s[i] - 'A' + 'a' else s[i])
  }

  const ONES := [
    "one", "two", "three", "four", "five", "six", "seven", "eight", "nine", "ten", "eleven", "twelve", "thirteen",
    "fourteen", "fifteen", "sixteen", "seventeen", "eighteen", "nineteen"]

  const TENS := ["twenty", "thirty", "forty", "fifty", "sixty", "seventy", "eighty", "ninety"]

  function IndexOf(words: seq<string>, word: string): (r: Option<nat>)
    ensures r.Some? ==> r.value < |words| && words[r.value] == word
    ensures r.None? ==> word !in words
  {
    if words == [] then None
    else if words[|words| - 1] == word then Some(|words| - 1)
    else IndexOf(words[..|words| - 1], word)
  }

  function OnesWordValue(word: string): Option<nat> {
    match IndexOf(ONES, Lower(word))
    case Some(i) => Some(i + 1)
    case None => None
  }

  function TensWordValue(word: string): Option<nat> {
    match IndexOf(TENS, Lower(word))
    case Some(i) => Some(10 * (i + 2))
    case None => None
  }

  function SingleValue(word: string): Option<nat> {
    if OnesWordValue(word).Some? then OnesWordValue(word) else TensWordValue(word)
  }

  function CompoundValue(c: CompoundMatch): Option<nat> {
    if TensWordValue(c.tens).Some? && OnesWordValue(c.ones).Some?
    then Some(TensWordValue(c.tens).value + OnesWordValue(c.ones).value) else None
  }

  /** Digits as a 32-bit number; None when they do not fit. */
  function ParseU32(digits: string): Option<nat> {
    if digits == [] || exists i :: 0 <= i < |digits| && !Luhn.IsDigitChar(digits[i]) then None
    else if NumberOf(digits) <= MAX_U32 then Some(NumberOf(digits))
    else None
  }

  function OnceOrTwiceValue(word: string): nat {
    if Lower(word) == "once" then 1 else 2
  }

  // --- the mentions in the order they are found ---

  /** A match and the number it states, if it states one. */
  datatype Reading = Reading(span: Span, value: Option<nat>)

  function DigitReadings(ms: seq<WordMatch>): (r: seq<Reading>)
    ensures |r| == |ms|
  {
    seq(|ms|, i requires 0 <= i < |ms| => Reading(ms[i].span, ParseU32(ms[i].word)))
  }

  function CompoundReadings(ms: seq<CompoundMatch>): (r: seq<Reading>)
    ensures |r| == |ms|
  {
    seq(|ms|, i requires 0 <= i < |ms| => Reading(ms[i].span, CompoundValue(ms[i])))
  }

  function SingleReadings(ms: seq<WordMatch>): (r: seq<Reading>)
    ensures |r| == |ms|
  {
    seq(|ms|, i requires 0 <= i < |ms| => Reading(ms[i].span, SingleValue(ms[i].word)))
  }

  function OnceOrTwiceReadings(ms: seq<WordMatch>): (r: seq<Reading>)
    ensures |r| == |ms|
  {
    seq(|ms|, i requires 0 <= i < |ms| => Reading(ms[i].span, Some(OnceOrTwiceValue(ms[i].word))))
  }

  function MentionOf(r: Reading): seq<Mention> {
    if r.value.Some? then [Mention(r.span.start, r.span.end, r.value.value)] else []
  }

  function Stated(rs: seq<Reading>): seq<Mention> {
    if rs == [] then [] else Stated(rs[..|rs| - 1]) + MentionOf(rs[|rs| - 1])
  }

  predicate Inside(mentions: seq<Mention>, span: Span) {
    exists i :: 0 <= i < |mentions| && mentions[i].start <= span.start && span.end <= mentions[i].end
  }

  /** Single words, unless inside anything mentioned so far. */
  function WithSingles(mentions: seq<Mention>, rs: seq<Reading>): seq<Mention> {
    if rs == [] then mentions
    else
      var before, r := WithSingles(mentions, rs[..|rs| - 1]), rs[|rs| - 1];
      if Inside(before, r.span) then before else before + MentionOf(r)
  }

  function FirstMentions(p: Prose): seq<Mention> {
    Stated(DigitReadings(p.digits)) + Stated(CompoundReadings(p.compounds))
  }

  function Mentions(p: Prose): seq<Mention> {
    WithSingles(FirstMentions(p), SingleReadings(p.singles)) + Stated(OnceOrTwiceReadings(p.onceOrTwice))
  }

  method MentionedCounts(p: Prose) returns (mentions: seq<Mention>)
    ensures mentions == Mentions(p)
  {
    mentions := PushStated([], DigitReadings(p.digits));
    assert mentions == Stated(DigitReadings(p.digits));
    mentions := PushStated(mentions, CompoundReadings(p.compounds));
    mentions := PushSingles(mentions, SingleReadings(p.singles));
    mentions := PushStated(mentions, OnceOrTwiceReadings(p.onceOrTwice));
  }

  method PushStated(found: seq<Mention>, rs: seq<Reading>) returns (mentions: seq<Mention>)
    ensures mentions == found + Stated(rs)
  {
    mentions := found;
    for i := 0 to |rs|
      invariant mentions == found + Stated(rs[..i])
    {
      assert rs[..i + 1][..i] == rs[..i];
      if rs[i].value.Some? {
        mentions := mentions + [Mention(rs[i].span.start, rs[i].span.end, rs[i].value.value)];
      }
    }
    assert rs[..|rs|] == rs;
  }

  method PushSingles(found: seq<Mention>, rs: seq<Reading>) returns (mentions: seq<Mention>)
    ensures mentions == WithSingles(found, rs)
  {
    mentions := found;
    for i := 0 to |rs|
      invariant mentions == WithSingles(found, rs[..i])
    {
      assert rs[..i + 1][..i] == rs[..i];
      if Inside(mentions, rs[i].span) {
        continue;
      }
      if rs[i].value.Some? {
        mentions := mentions + [Mention(rs[i].span.start, rs[i].span.end, rs[i].value.value)];
      }
    }
    assert rs[..|rs|] == rs;
  }

  predicate ContradictsOccurrenceCount(p: Prose, actual: nat) {
    SomeOther(Mentions(p), actual)
  }

  predicate SomeOther(mentions: seq<Mention>, actual: nat) {
    exists i :: 0 <= i < |mentions| && mentions[i].value != actual
  }

  // --- exactly which prose contradicts a count ---

  predicate Differs(r: Reading, actual: nat) {
    r.value.Some? && r.value.value != actual
  }

  predicate SomeDiffers(rs: seq<Reading>, actual: nat) {
    exists i :: 0 <= i < |rs| && Differs(rs[i], actual)
  }

  lemma SomeOtherOfConcat(a: seq<Mention>, b: seq<Mention>, actual: nat)
    ensures SomeOther(a + b, actual) <==> SomeOther(a, actual) || SomeOther(b, actual)
  {
    if i :| 0 <= i < |a| && a[i].value != actual {
      assert (a + b)[i].value != actual;
    }
    if i :| 0 <= i < |b| && b[i].value != actual {
      assert (a + b)[|a| + i].value != actual;
    }
  }

  lemma OneMention(r: Reading, actual: nat)
    ensures SomeOther(MentionOf(r), actual) <==> Differs(r, actual)
  {
    if Differs(r, actual) {
      assert MentionOf(r)[0].value != actual;
    }
  }

  lemma {:induction false} StatedDiffers(rs: seq<Reading>, actual: nat)
    ensures SomeOther(Stated(rs), actual) <==> SomeDiffers(rs, actual)
  {
    if rs != [] {
      var init, last := rs[..|rs| - 1], rs[|rs| - 1];
      StatedDiffers(init, actual);
      SomeOtherOfConcat(Stated(init), MentionOf(last), actual);
      OneMention(last, actual);
      assert forall i :: 0 <= i < |init| ==> init[i] == rs[i];
    }
  }

  function SpansOf(rs: seq<Reading>): seq<Span> {
    seq(|rs|, i requires 0 <= i < |rs| => rs[i].span)
  }

  /** All mentions from some point on end by `limit`. */
  ghost predicate EndsBy(mentions: seq<Mention>, from: nat, limit: nat) {
    forall i :: from <= i < |mentions| ==> mentions[i].end <= limit
  }

  lemma {:induction false} SinglesEndBy(first: seq<Mention>, rs: seq<Reading>, limit: nat)
    requires forall k :: 0 <= k < |rs| ==> rs[k].span.end <= limit
    ensures first <= WithSingles(first, rs) && EndsBy(WithSingles(first, rs), |first|, limit)
  {
    if rs != [] {
      SinglesEndBy(first, rs[..|rs| - 1], limit);
    }
  }

  lemma InsideOnlyFirst(first: seq<Mention>, before: seq<Mention>, span: Span)
    requires first <= before && EndsBy(before, |first|, span.start) && span.start < span.end
    ensures Inside(before, span) <==> Inside(first, span)
  {
    assert forall i :: 0 <= i < |first| ==> before[i] == first[i];
  }

  lemma MatchesOfInit(rs: seq<Reading>, n: nat)
    requires rs != [] && Matches(SpansOf(rs), n)
    ensures Matches(SpansOf(rs[..|rs| - 1]), n)
    ensures rs[|rs| - 1].span.start < rs[|rs| - 1].span.end
    ensures var init := rs[..|rs| - 1]; forall k :: 0 <= k < |init| ==> init[k].span.end <= rs[|rs| - 1].span.start
  {
    var spans, init := SpansOf(rs), SpansOf(rs[..|rs| - 1]);
    assert forall i :: 0 <= i < |init| ==> init[i] == spans[i];
    assert spans[|rs| - 1] == rs[|rs| - 1].span;
    assert forall k :: 0 <= k < |rs| - 1 ==> spans[k] == rs[k].span && spans[k].end <= spans[|rs| - 1].start;
  }

  predicate SomeSingleDiffers(first: seq<Mention>, rs: seq<Reading>, actual: nat) {
    exists k :: 0 <= k < |rs| && !Inside(first, rs[k].span) && Differs(rs[k], actual)
  }

  /**
   Matches of one expression do not overlap, so a single word is only ever skipped
   because of a digit or compound mention, never because of another single word.
   */
  lemma {:induction false} SinglesAreIndependent(first: seq<Mention>, rs: seq<Reading>, n: nat, actual: nat)
    requires Matches(SpansOf(rs), n)
    ensures SomeOther(WithSingles(first, rs), actual) <==> SomeOther(first, actual) || SomeSingleDiffers(first, rs, actual)
  {
    if rs != [] {
      var init, last := rs[..|rs| - 1], rs[|rs| - 1];
      MatchesOfInit(rs, n);
      SinglesAreIndependent(first, init, n, actual);
      SinglesEndBy(first, init, last.span.start);
      var before := WithSingles(first, init);
      InsideOnlyFirst(first, before, last.span);
      SomeOtherOfConcat(before, MentionOf(last), actual);
      OneMention(last, actual);
      assert forall i :: 0 <= i < |init| ==> init[i] == rs[i];
    }
  }

  /** Single-word matches as an expression finds them in a text of length n. */
  ghost predicate Possible(p: Prose, n: nat) {
    Matches(SpansOf(SingleReadings(p.singles)), n)
  }

  /** Every count the prose names is this one. */
  predicate NamesOnly(p: Prose, actual: nat) {
    && !SomeDiffers(DigitReadings(p.digits), actual)
    && !SomeDiffers(CompoundReadings(p.compounds), actual)
    && !SomeSingleDiffers(FirstMentions(p), SingleReadings(p.singles), actual)
    && !SomeDiffers(OnceOrTwiceReadings(p.onceOrTwice), actual)
  }

  /**
   Prose contradicts a count exactly when it names another: in digits that fit 32 bits,
   in a compound, in a single word outside both, or as "once" or "twice".
   */
  lemma ContradictionIsExact(p: Prose, n: nat, actual: nat)
    requires Possible(p, n)
    ensures ContradictsOccurrenceCount(p, actual) <==> !NamesOnly(p, actual)
  {
    var digits, compounds := DigitReadings(p.digits), CompoundReadings(p.compounds);
    var singles, repeats := SingleReadings(p.singles), OnceOrTwiceReadings(p.onceOrTwice);
    StatedDiffers(digits, actual);
    StatedDiffers(compounds, actual);
    SomeOtherOfConcat(Stated(digits), Stated(compounds), actual);
    SinglesAreIndependent(FirstMentions(p), singles, n, actual);
    StatedDiffers(repeats, actual);
    SomeOtherOfConcat(WithSingles(FirstMentions(p), singles), Stated(repeats), actual);
  }
}
