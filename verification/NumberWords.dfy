/** Numbers as they are written, in words and in digits, and what the count check reads back. */
module NumberWords {
  import opened Wrappers
  import opened Detectors
  import opened Validate
  import Luhn

  // --- words ---

  /** English for 1 to 19 and for the tens from 20 to 90. */
  function Word(n: nat): (r: string)
    requires 1 <= n <= 19 || n in {20, 30, 40, 50, 60, 70, 80, 90}
  {
    match n
    case 1 => "one" case 2 => "two" case 3 => "three" case 4 => "four" case 5 => "five"
    case 6 => "six" case 7 => "seven" case 8 => "eight" case 9 => "nine" case 10 => "ten"
    case 11 => "eleven" case 12 => "twelve" case 13 => "thirteen" case 14 => "fourteen" case 15 => "fifteen"
    case 16 => "sixteen" case 17 => "seventeen" case 18 => "eighteen" case 19 => "nineteen" case 20 => "twenty"
    case 30 => "thirty" case 40 => "forty" case 50 => "fifty" case 60 => "sixty" case 70 => "seventy"
    case 80 => "eighty" case _ => "ninety"
  }

  /** The same letters, each of them large or small. */
  predicate SameLetters(text: string, word: string) {
    |text| == |word| && forall i :: 0 <= i < |word| ==>
      text[i] == word[i] || ('a' <= word[i] <= 'z' && text[i] as int == word[i] as int - 32)
  }

  predicate IsSmall(word: string) {
    forall i :: 0 <= i < |word| ==> 'a' <= word[i] <= 'z'
  }

  lemma LowerOf(text: string, word: string)
    requires IsSmall(word) && SameLetters(text, word)
    ensures Lower(text) == word
  {
  }

  /** In a list without repeats, every word is found where it stands. */
  lemma {:induction false} FoundAt(words: seq<string>, i: nat)
    requires i < |words| && forall j :: i < j < |words| ==> words[j] != words[i]
    ensures IndexOf(words, words[i]) == Some(i)
  {
    if i < |words| - 1 {
      FoundAt(words[..|words| - 1], i);
    }
  }

  lemma OnesAreWords(n: nat)
    requires 1 <= n <= 19
    ensures ONES[n - 1] == Word(n) && IsSmall(Word(n))
  {
  }

  lemma TensAreWords(k: nat)
    requires k < 8
    ensures TENS[k] == Word(10 * (k + 2)) && IsSmall(TENS[k])
  {
  }

  /** No two of these words are alike, and none is one of the tens. */
  lemma WordsDiffer(n: nat, m: nat)
    requires 1 <= n <= 19 && (1 <= m <= 19 || m in {20, 30, 40, 50, 60, 70, 80, 90}) && n != m
    ensures Word(n) != Word(m)
  {
    var a, b := Word(n), Word(m);
    assert |a| == |b| ==> a[0] != b[0] || a[1] != b[1] || (|a| > 3 && a[3] != b[3]);
  }

  predicate HasWord(n: nat) {
    1 <= n <= 19 || n in {20, 30, 40, 50, 60, 70, 80, 90}
  }

  lemma OnesAreFound(n: nat)
    requires 1 <= n <= 19
    ensures IndexOf(ONES, Word(n)) == Some(n - 1)
  {
    OnesAreWords(n);
    forall j | n - 1 < j < 19 ensures ONES[j] != ONES[n - 1] {
      OnesAreWords(j + 1);
      WordsDiffer(j + 1, n);
    }
    FoundAt(ONES, n - 1);
  }

  lemma TensAreNotOnes(n: nat)
    requires n > 19 && HasWord(n)
    ensures IndexOf(ONES, Word(n)) == None
  {
    if i :| 0 <= i < |ONES| && ONES[i] == Word(n) {
      OnesAreWords(i + 1);
      WordsDiffer(i + 1, n);
    }
  }

  lemma OnesReadBack(n: nat, text: string)
    requires HasWord(n) && SameLetters(text, Word(n))
    ensures OnesWordValue(text) == if n <= 19 then Some(n) else None
  {
    WordIsSmall(n);
    LowerOf(text, Word(n));
    if n <= 19 {
      OnesAreFound(n);
    } else {
      TensAreNotOnes(n);
    }
  }

  lemma WordIsSmall(n: nat)
    requires HasWord(n)
    ensures IsSmall(Word(n))
  {
    if n <= 19 {
      OnesAreWords(n);
    } else {
      TensAreWords(n / 10 - 2);
    }
  }

  lemma TensDiffer(i: nat, j: nat)
    requires i < j < 8
    ensures TENS[i] != TENS[j]
  {
    var a, b := TENS[i], TENS[j];
    assert |a| == |b| ==> a[0] != b[0] || a[1] != b[1];
  }

  lemma TensReadBack(k: nat, text: string)
    requires k < 8 && SameLetters(text, Word(10 * (k + 2)))
    ensures TensWordValue(text) == Some(10 * (k + 2))
  {
    TensAreWords(k);
    LowerOf(text, TENS[k]);
    forall j | k < j < 8 ensures TENS[j] != TENS[k] {
      TensDiffer(k, j);
    }
    FoundAt(TENS, k);
  }

  /** A number that is one word, in any letter case, reads back as itself. */
  lemma WordReadsBack(n: nat, text: string)
    requires HasWord(n) && SameLetters(text, Word(n))
    ensures SingleValue(text) == Some(n)
  {
    OnesReadBack(n, text);
    if n > 19 {
      TensReadBack(n / 10 - 2, text);
    }
  }

  /** So does one of two words: the tens, then the ones. */
  lemma TwoWordsReadBack(n: nat, c: CompoundMatch)
    requires 21 <= n <= 99 && n % 10 != 0
    requires SameLetters(c.tens, Word(10 * (n / 10))) && SameLetters(c.ones, Word(n % 10))
    ensures CompoundValue(c) == Some(n)
  {
    TensReadBack(n / 10 - 2, c.tens);
    OnesReadBack(n % 10, c.ones);
  }

  lemma LowerHasTheLetters(text: string)
    ensures SameLetters(text, Lower(text))
  {
  }

  lemma OnlyOnesAreOnes(text: string)
    ensures OnesWordValue(text).Some? ==> 1 <= OnesWordValue(text).value <= 19
    ensures OnesWordValue(text).Some? ==> SameLetters(text, Word(OnesWordValue(text).value))
  {
    var i := IndexOf(ONES, Lower(text));
    if i.Some? {
      OnesAreWords(i.value + 1);
      LowerHasTheLetters(text);
    }
  }

  lemma OnlyTensAreTens(text: string)
    ensures TensWordValue(text).Some? ==> TensWordValue(text).value in {20, 30, 40, 50, 60, 70, 80, 90}
    ensures TensWordValue(text).Some? ==> SameLetters(text, Word(TensWordValue(text).value))
  {
    var i := IndexOf(TENS, Lower(text));
    if i.Some? {
      TensAreWords(i.value);
      LowerHasTheLetters(text);
    }
  }

  /** Nothing but a number's own word reads as that number. */
  lemma OnlyWordsAreRead(text: string)
    ensures SingleValue(text).Some? ==> HasWord(SingleValue(text).value) && SameLetters(text, Word(SingleValue(text).value))
  {
    if OnesWordValue(text).Some? {
      OnlyOnesAreOnes(text);
    } else {
      OnlyTensAreTens(text);
    }
  }

  // --- digits ---

  function Numeral(d: nat): char
    requires d <= 9
  {
    "0123456789"[d]
  }

  /** A number in decimal, without leading zeros. */
  function Decimal(n: nat): string {
    if n <= 9 then [Numeral(n)] else Decimal(n / 10) + [Numeral(n % 10)]
  }

  function Zeros(k: nat): string {
    if k == 0 then "" else Zeros(k - 1) + "0"
  }

  predicate AllDigits(s: string) {
    forall i :: 0 <= i < |s| ==> Luhn.IsDigitChar(s[i])
  }

  lemma NumberOfMore(s: string, d: nat)
    requires AllDigits(s) && d <= 9
    ensures AllDigits(s + [Numeral(d)]) && NumberOf(s + [Numeral(d)]) == 10 * NumberOf(s) + d
  {
    assert (s + [Numeral(d)])[..|s|] == s;
  }

  lemma {:induction false} ZerosAreZero(k: nat)
    ensures AllDigits(Zeros(k)) && NumberOf(Zeros(k)) == 0
  {
    if k > 0 {
      ZerosAreZero(k - 1);
      NumberOfMore(Zeros(k - 1), 0);
    }
  }

  lemma {:induction false} DecimalIsTheNumber(k: nat, n: nat)
    ensures AllDigits(Zeros(k) + Decimal(n)) && NumberOf(Zeros(k) + Decimal(n)) == n
  {
    if n <= 9 {
      ZerosAreZero(k);
      NumberOfMore(Zeros(k), n);
    } else {
      DecimalIsTheNumber(k, n / 10);
      NumberOfMore(Zeros(k) + Decimal(n / 10), n % 10);
      assert Zeros(k) + Decimal(n / 10) + [Numeral(n % 10)] == Zeros(k) + Decimal(n);
    }
  }

  /** Digits, with leading zeros or without, read back as the number if it fits 32 bits, and name none otherwise. */
  lemma DigitsReadBack(k: nat, n: nat)
    ensures ParseU32(Zeros(k) + Decimal(n)) == if n <= 4294967295 then Some(n) else None
  {
    DecimalIsTheNumber(k, n);
    assert Decimal(n) != [];
  }

  // --- once and twice ---

  lemma OnceAndTwice(text: string)
    ensures SameLetters(text, "once") ==> OnceOrTwiceValue(text) == 1
    ensures SameLetters(text, "twice") ==> OnceOrTwiceValue(text) == 2
  {
    if SameLetters(text, "once") {
      LowerOf(text, "once");
    }
    if SameLetters(text, "twice") {
      LowerOf(text, "twice");
      assert |"once"| != |"twice"|;
    }
  }

  // --- what a text with one count says ---

  lemma OneReading(r: Reading)
    ensures Stated([r]) == MentionOf(r) && Stated([]) == []
  {
    assert [r][..0] == [];
  }

  /** Digits as the only count contradict every other number that fits. */
  lemma DigitsDecide(span: Span, k: nat, n: nat, actual: nat)
    ensures var p := Prose([WordMatch(span, Zeros(k) + Decimal(n))], [], [], []);
      ContradictsOccurrenceCount(p, actual) <==> n <= 4294967295 && n != actual
  {
    var p := Prose([WordMatch(span, Zeros(k) + Decimal(n))], [], [], []);
    DigitsReadBack(k, n);
    var r := DigitReadings(p.digits)[0];
    OneReading(r);
    assert DigitReadings(p.digits) == [r] && CompoundReadings([]) == [] && SingleReadings([]) == [];
    assert OnceOrTwiceReadings([]) == [];
    assert Mentions(p) == MentionOf(r);
    OneMention(r, actual);
  }

  /** One word as the only count contradicts every number but its own. */
  lemma WordDecides(span: Span, text: string, n: nat, actual: nat)
    requires HasWord(n) && SameLetters(text, Word(n))
    ensures ContradictsOccurrenceCount(Prose([], [], [WordMatch(span, text)], []), actual) <==> n != actual
  {
    var p := Prose([], [], [WordMatch(span, text)], []);
    WordReadsBack(n, text);
    var r := SingleReadings(p.singles)[0];
    assert SingleReadings(p.singles) == [r] && [r][..0] == [];
    assert DigitReadings([]) == [] && CompoundReadings([]) == [] && OnceOrTwiceReadings([]) == [];
    assert FirstMentions(p) == [] && WithSingles([], []) == [];
    assert Mentions(p) == MentionOf(r);
    OneMention(r, actual);
  }

  /** Two words do, although the second is also found alone: what lies inside them is passed over. */
  lemma TwoWordsDecide(c: CompoundMatch, inner: seq<WordMatch>, n: nat, actual: nat)
    requires 21 <= n <= 99 && n % 10 != 0
    requires SameLetters(c.tens, Word(10 * (n / 10))) && SameLetters(c.ones, Word(n % 10))
    requires forall i :: 0 <= i < |inner| ==> c.span.start <= inner[i].span.start && inner[i].span.end <= c.span.end
    ensures ContradictsOccurrenceCount(Prose([], [c], inner, []), actual) <==> n != actual
  {
    TwoWordsReadBack(n, c);
    CompoundDecides(c, inner, n, actual);
  }

  lemma CompoundDecides(c: CompoundMatch, inner: seq<WordMatch>, n: nat, actual: nat)
    requires CompoundValue(c) == Some(n)
    requires forall i :: 0 <= i < |inner| ==> c.span.start <= inner[i].span.start && inner[i].span.end <= c.span.end
    ensures ContradictsOccurrenceCount(Prose([], [c], inner, []), actual) <==> n != actual
  {
    var p := Prose([], [c], inner, []);
    var r := CompoundReadings(p.compounds)[0];
    OneReading(r);
    assert CompoundReadings(p.compounds) == [r] && DigitReadings([]) == [] && OnceOrTwiceReadings([]) == [];
    assert FirstMentions(p) == MentionOf(r);
    NothingInside(MentionOf(r), SingleReadings(inner), c.span);
    assert Mentions(p) == MentionOf(r) + [] == MentionOf(r);
    OneMention(r, actual);
  }

  lemma {:induction false} NothingInside(mentions: seq<Mention>, rs: seq<Reading>, span: Span)
    requires |mentions| == 1 && mentions[0].start == span.start && mentions[0].end == span.end
    requires forall i :: 0 <= i < |rs| ==> span.start <= rs[i].span.start && rs[i].span.end <= span.end
    ensures WithSingles(mentions, rs) == mentions
  {
    if rs != [] {
      NothingInside(mentions, rs[..|rs| - 1], span);
    }
  }

  /** "once" contradicts every count but 1, "twice" every count but 2. */
  lemma OnceOrTwiceDecides(span: Span, text: string, actual: nat)
    requires SameLetters(text, "once") || SameLetters(text, "twice")
    ensures ContradictsOccurrenceCount(Prose([], [], [], [WordMatch(span, text)]), actual)
       <==> actual != if |text| == 4 then 1 else 2
  {
    var p := Prose([], [], [], [WordMatch(span, text)]);
    OnceAndTwice(text);
    var r := OnceOrTwiceReadings(p.onceOrTwice)[0];
    OneReading(r);
    assert OnceOrTwiceReadings(p.onceOrTwice) == [r];
    assert DigitReadings([]) == [] && CompoundReadings([]) == [] && SingleReadings([]) == [];
    assert Mentions(p) == MentionOf(r);
    OneMention(r, actual);
  }
}
