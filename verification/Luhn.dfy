/**
 The Luhn checksum of ISO/IEC 7812-1, annex B, and the search for a valid card
 number inside a candidate stretch of text.
 */
module Luhn {
  import opened Wrappers

  type Digit = d: int | 0 <= d <= 9

  /** What a digit adds to the sum: itself, or its double with the digits of the double added. */
  function Term(d: Digit, doubled: bool): Digit {
    if !doubled then d else if 2 * d > 9 then 2 * d - 9 else 2 * d
  }

  /** Every second digit counted from the right is doubled; the last one is not. */
  function SumFrom(ds: seq<Digit>, i: nat): nat
    decreases |ds| - i
  {
    if i >= |ds| then 0 else Term(ds[i], (|ds| - i) % 2 == 0) + SumFrom(ds, i + 1)
  }

  function LuhnSum(ds: seq<Digit>): nat {
    SumFrom(ds, 0)
  }

  predicate IsLuhnNumber(ds: seq<Digit>) {
    13 <= |ds| && LuhnSum(ds) % 10 == 0
  }

  method LuhnValid(digits: seq<Digit>) returns (valid: bool)
    ensures valid <==> IsLuhnNumber(digits)
  {
    if |digits| < 13 {
      return false;
    }
    var sum: int := 0;
    for i := 0 to |digits|
      invariant sum == SumFrom(digits, |digits| - i)
    {
      var d: int := digits[|digits| - 1 - i];
      if i % 2 == 1 {
        var doubled: int := d * 2;
        sum := sum + if doubled > 9 then doubled - 9 else doubled;
      } else {
        sum := sum + d;
      }
    }
    return sum % 10 == 0;
  }

  // --- error detection ---

  lemma {:induction false} SumOfUpdate(ds: seq<Digit>, k: nat, d: Digit, i: nat)
    requires k < |ds|
    ensures var doubled := (|ds| - k) % 2 == 0;
      SumFrom(ds[k := d], i)
        == SumFrom(ds, i) + (if i <= k then Term(d, doubled) - Term(ds[k], doubled) else 0)
    decreases |ds| - i
  {
    if i < |ds| {
      SumOfUpdate(ds, k, d, i + 1);
    }
  }

  /** Changing any single digit is detected. */
  lemma SingleDigitErrorsAreDetected(ds: seq<Digit>, k: nat, d: Digit)
    requires IsLuhnNumber(ds) && k < |ds| && d != ds[k]
    ensures !IsLuhnNumber(ds[k := d])
  {
    var doubled := (|ds| - k) % 2 == 0;
    SumOfUpdate(ds, k, d, 0);
    TermTellsDigitsApart(ds[k], d, doubled);
    MultipleOfTen(LuhnSum(ds), LuhnSum(ds[k := d]));
  }

  lemma TermTellsDigitsApart(a: Digit, b: Digit, doubled: bool)
    requires a != b
    ensures (Term(b, doubled) - Term(a, doubled)) % 10 != 0
  {
  }

  function Swapped(ds: seq<Digit>, k: nat): seq<Digit>
    requires k + 1 < |ds|
  {
    ds[k := ds[k + 1]][k + 1 := ds[k]]
  }

  /** Swapping two neighbours is detected exactly when they differ and are not 0 and 9. */
  lemma TranspositionsAreDetected(ds: seq<Digit>, k: nat)
    requires IsLuhnNumber(ds) && k + 1 < |ds|
    ensures IsLuhnNumber(Swapped(ds, k))
       <==> ds[k] == ds[k + 1] || (ds[k] == 0 && ds[k + 1] == 9) || (ds[k] == 9 && ds[k + 1] == 0)
  {
    var a, b := ds[k], ds[k + 1];
    var doubled := (|ds| - k) % 2 == 0;
    SumOfSwap(ds, k, doubled);
    if doubled {
      SwapDifference(a, b);
    } else {
      SwapDifference(b, a);
    }
    MultipleOfTen(LuhnSum(ds), LuhnSum(Swapped(ds, k)));
  }

  lemma SumOfSwap(ds: seq<Digit>, k: nat, doubled: bool)
    requires k + 1 < |ds| && doubled == ((|ds| - k) % 2 == 0)
    ensures var a, b := ds[k], ds[k + 1];
      LuhnSum(Swapped(ds, k)) - LuhnSum(ds)
        == (Term(b, doubled) - Term(b, !doubled)) - (Term(a, doubled) - Term(a, !doubled))
  {
    SumOfUpdate(ds, k, ds[k + 1], 0);
    SumOfUpdate(ds[k := ds[k + 1]], k + 1, ds[k], 0);
  }

  lemma MultipleOfTen(s: int, t: int)
    requires s % 10 == 0
    ensures t % 10 == 0 <==> (t - s) % 10 == 0
  {
  }

  /** Doubling minus not doubling, modulo ten, tells all digits apart but 0 and 9. */
  lemma SwapDifference(a: Digit, b: Digit)
    ensures ((Term(b, true) - Term(b, false)) - (Term(a, true) - Term(a, false))) % 10 == 0
       <==> a == b || (a == 0 && b == 9) || (a == 9 && b == 0)
    ensures ((Term(a, false) - Term(a, true)) - (Term(b, false) - Term(b, true))) % 10 == 0
       <==> a == b || (a == 0 && b == 9) || (a == 9 && b == 0)
  {
  }

  lemma SumOfAppend(ds: seq<Digit>, d: Digit)
    ensures LuhnSum(ds + [d]) == LuhnSum(ds + [0]) + d
  {
    assert (ds + [0])[|ds| := d] == ds + [d];
    SumOfUpdate(ds + [0], |ds|, d, 0);
  }

  /** Every payload of at least twelve digits has exactly one check digit. */
  lemma CheckDigitIsUnique(payload: seq<Digit>)
    requires 12 <= |payload|
    ensures exists d: Digit :: IsLuhnNumber(payload + [d])
    ensures forall d: Digit, e: Digit :: IsLuhnNumber(payload + [d]) && IsLuhnNumber(payload + [e]) ==> d == e
  {
    var rest := LuhnSum(payload + [0]) % 10;
    var check: Digit := if rest == 0 then 0 else 10 - rest;
    SumOfAppend(payload, check);
    assert IsLuhnNumber(payload + [check]);
    forall d: Digit, e: Digit | IsLuhnNumber(payload + [d]) && IsLuhnNumber(payload + [e]) ensures d == e {
      SumOfAppend(payload, d);
      SumOfAppend(payload, e);
    }
  }

  // --- the sum, digit by digit ---

  /** Running totals of what each digit adds: every second one from the right, the last not among them, is doubled. */
  ghost predicate AreRunningTotals(totals: seq<int>, ds: seq<Digit>, n: nat)
    requires |ds| <= n
  {
    && |totals| == |ds| + 1 && totals[0] == 0
    && forall i :: 0 <= i < |ds| ==>
         var d: int := ds[i];
         totals[i + 1] - totals[i] == if (n - i) % 2 == 1 then d else if d <= 4 then d + d else d + d - 9
  }

  lemma {:induction false} TotalsUpTo(ds: seq<Digit>, k: nat) returns (totals: seq<int>)
    requires k <= |ds|
    ensures AreRunningTotals(totals, ds[..k], |ds|) && totals[k] + SumFrom(ds, k) == SumFrom(ds, 0)
  {
    if k == 0 {
      totals := [0];
    } else {
      var before := TotalsUpTo(ds, k - 1);
      totals := before + [before[k - 1] + Term(ds[k - 1], (|ds| - (k - 1)) % 2 == 0)];
      assert forall i :: 0 <= i < k - 1 ==> ds[..k][i] == ds[..k - 1][i];
    }
  }

  /** A number is accepted exactly when it has 13 digits and its digits' contributions add up to a multiple of ten. */
  lemma AcceptedBySum(ds: seq<Digit>) returns (totals: seq<int>)
    ensures AreRunningTotals(totals, ds, |ds|)
    ensures IsLuhnNumber(ds) <==> 13 <= |ds| && totals[|ds|] % 10 == 0
  {
    totals := TotalsUpTo(ds, |ds|);
    assert ds[..|ds|] == ds;
  }

  /** A check digit is right exactly when it completes the payload's contributions to a multiple of ten. */
  lemma CheckDigitCompletes(payload: seq<Digit>, d: Digit) returns (totals: seq<int>)
    ensures AreRunningTotals(totals, payload, |payload| + 1)
    ensures IsLuhnNumber(payload + [d]) <==> 12 <= |payload| && (totals[|payload|] + d) % 10 == 0
  {
    var ds := payload + [d];
    totals := TotalsUpTo(ds, |payload|);
    assert ds[..|payload|] == payload && ds[|payload|] == d;
    assert SumFrom(ds, |payload|) == d;
  }

  /** Zeros alone are accepted, from thirteen on. */
  lemma ZerosAreAccepted(ds: seq<Digit>)
    requires forall i :: 0 <= i < |ds| ==> ds[i] == 0
    ensures IsLuhnNumber(ds) <==> 13 <= |ds|
  {
    ZerosAddNothing(ds, 0);
  }

  lemma {:induction false} ZerosAddNothing(ds: seq<Digit>, i: nat)
    requires forall i :: 0 <= i < |ds| ==> ds[i] == 0
    ensures SumFrom(ds, i) == 0
    decreases |ds| - i
  {
    if i < |ds| {
      ZerosAddNothing(ds, i + 1);
    }
  }

  // --- finding a card number in a candidate span ---

  predicate IsDigitChar(c: char) {
    '0' <= c <= '9'
  }

  function DigitOf(c: char): Digit
    requires IsDigitChar(c)
  {
    (c - '0') as int
  }

  /** Positions of the digits of `candidate`, ascending. */
  function DigitPositions(candidate: string): (r: seq<nat>)
    ensures forall i :: 0 <= i < |r| ==> r[i] < |candidate| && IsDigitChar(candidate[r[i]])
    ensures forall i, j :: 0 <= i < j < |r| ==> r[i] < r[j]
  {
    if candidate == [] then []
    else
      var r := DigitPositions(candidate[..|candidate| - 1]);
      if IsDigitChar(candidate[|candidate| - 1]) then r + [|candidate| - 1] else r
  }

  function DigitsIn(candidate: string): (r: seq<Digit>)
    ensures |r| == |DigitPositions(candidate)|
  {
    var at := DigitPositions(candidate);
    seq(|at|, i requires 0 <= i < |at| => DigitOf(candidate[at[i]]))
  }

  function LongestWindow(total: nat): nat {
    if total < 19 then total else 19
  }

  function ShortestWindow(total: nat): nat {
    var oneLess := if LongestWindow(total) == 0 then 0 else LongestWindow(total) - 1;
    if oneLess < 13 then 13 else oneLess
  }

  /** The `len` digits from the `i`-th on are tried, and pass. */
  predicate Passes(ds: seq<Digit>, len: int, i: int) {
    && ShortestWindow(|ds|) <= len <= LongestWindow(|ds|) && 0 <= i <= |ds| - len
    && IsLuhnNumber(ds[i..i + len])
  }

  /** Longest first, then leftmost. */
  ghost predicate IsFirstWindow(ds: seq<Digit>, len: int, i: int) {
    && Passes(ds, len, i)
    && (forall len', i' :: Passes(ds, len', i') ==> len' < len || (len' == len && i <= i'))
  }

  ghost function FirstWindow(ds: seq<Digit>): (r: Option<(int, int)>)
    ensures r.Some? ==> IsFirstWindow(ds, r.value.0, r.value.1)
    ensures r.None? ==> forall len, i :: !IsFirstWindow(ds, len, i)
  {
    if exists len, i :: IsFirstWindow(ds, len, i) then
      var len, i :| IsFirstWindow(ds, len, i);
      Some((len, i))
    else None
  }

  lemma FirstWindowIsUnique(ds: seq<Digit>, len: int, i: int)
    requires IsFirstWindow(ds, len, i)
    ensures FirstWindow(ds) == Some((len, i))
  {
    var r := FirstWindow(ds);
    assert Passes(ds, len, i) && Passes(ds, r.value.0, r.value.1);
  }

  lemma NothingPasses(ds: seq<Digit>)
    requires forall len, i :: !Passes(ds, len, i)
    ensures FirstWindow(ds) == None
  {
  }

  /** The window's place in the text, from where its digits are. */
  function SpanOfWindow(candidateStart: nat, at: seq<nat>, window: Option<(int, int)>): Option<(nat, nat)>
    requires window.Some? ==> 0 < window.value.0 && 0 <= window.value.1 <= |at| - window.value.0
  {
    if window.None? then None
    else
      var (len, i) := window.value;
      Some((candidateStart + at[i], candidateStart + at[i + len - 1] + 1))
  }

  /** Where the first window's digits begin and end in the text around the candidate. */
  ghost function CardSpan(candidate: string, candidateStart: nat): (r: Option<(nat, nat)>)
    ensures r.Some? ==>
      && candidateStart <= r.value.0 < r.value.1 <= candidateStart + |candidate|
      && IsDigitChar(candidate[r.value.0 - candidateStart])
      && IsDigitChar(candidate[r.value.1 - 1 - candidateStart])
  {
    var at, window := DigitPositions(candidate), FirstWindow(DigitsIn(candidate));
    assert window.Some? ==> at[window.value.1] <= at[window.value.1 + window.value.0 - 1];
    SpanOfWindow(candidateStart, at, window)
  }

  ghost predicate NoLonger(ds: seq<Digit>, len: int) {
    forall len', i :: Passes(ds, len', i) ==> len' <= len
  }

  ghost predicate NoneBefore(ds: seq<Digit>, len: int, start: int) {
    forall i :: 0 <= i < start ==> !Passes(ds, len, i)
  }

  lemma FirstFound(ds: seq<Digit>, len: int, start: int)
    requires NoLonger(ds, len) && NoneBefore(ds, len, start) && Passes(ds, len, start)
    ensures IsFirstWindow(ds, len, start)
  {
  }

  lemma LengthIsDone(ds: seq<Digit>, len: int)
    requires NoLonger(ds, len) && NoneBefore(ds, len, |ds| - len + 1)
    ensures NoLonger(ds, len - 1)
  {
  }

  method FindLuhnValidWindow(candidate: string, candidateStart: nat) returns (r: Option<(nat, nat)>)
    ensures r == CardSpan(candidate, candidateStart)
  {
    var at, ds := DigitPositions(candidate), DigitsIn(candidate);
    var total := |at|;
    if total < 13 {
      NothingPasses(ds);
      return None;
    }
    var maxLen, minLen := LongestWindow(total), ShortestWindow(total);
    var len := maxLen;
    while len >= minLen
      invariant minLen - 1 <= len <= maxLen
      invariant NoLonger(ds, len)
    {
      for start := 0 to total - len + 1
        invariant NoneBefore(ds, len, start)
      {
        var valid := LuhnValid(ds[start..start + len]);
        if valid {
          FirstFound(ds, len, start);
          FirstWindowIsUnique(ds, len, start);
          return Some((candidateStart + at[start], candidateStart + at[start + len - 1] + 1));
        }
      }
      LengthIsDone(ds, len);
      len := len - 1;
    }
    NothingPasses(ds);
    return None;
  }

  // --- the search misses nothing ---

  lemma {:induction false} LeftmostPasses(ds: seq<Digit>, len: int, start: int, i: int)
    requires NoLonger(ds, len) && NoneBefore(ds, len, start) && start <= i && Passes(ds, len, i)
    ensures exists i' :: IsFirstWindow(ds, len, i')
    decreases i - start
  {
    if Passes(ds, len, start) {
      FirstFound(ds, len, start);
    } else {
      LeftmostPasses(ds, len, start + 1, i);
    }
  }

  lemma {:induction false} LongestPasses(ds: seq<Digit>, max: int, len: int, i: int)
    requires NoLonger(ds, max) && len <= max && Passes(ds, len, i)
    ensures exists len', i' :: IsFirstWindow(ds, len', i')
    decreases max - len
  {
    if i' :| Passes(ds, max, i') {
      LeftmostPasses(ds, max, 0, i');
    } else {
      LongestPasses(ds, max - 1, len, i);
    }
  }

  /** A span is found exactly when some run of the longest or the next length passes. */
  lemma CardIsFoundExactly(candidate: string, candidateStart: nat)
    ensures CardSpan(candidate, candidateStart).Some? <==> exists len, i :: Passes(DigitsIn(candidate), len, i)
  {
    var ds := DigitsIn(candidate);
    if len, i :| Passes(ds, len, i) {
      LongestPasses(ds, LongestWindow(|ds|), len, i);
    }
  }

  /** The span goes from the first to the last of `len` consecutive digits that pass. */
  ghost predicate SpansRun(candidate: string, candidateStart: nat, span: (nat, nat), len: int, i: int) {
    var at := DigitPositions(candidate);
    && Passes(DigitsIn(candidate), len, i)
    && span == (candidateStart + at[i], candidateStart + at[i + len - 1] + 1)
  }

  /** All of the candidate's digits but at most one lie in the span, and they pass. */
  ghost predicate CoversAllButOne(candidate: string, candidateStart: nat, span: (nat, nat)) {
    exists len, i :: SpansRun(candidate, candidateStart, span, len, i) && len >= |DigitsIn(candidate)| - 1
  }

  lemma CardSpansARun(candidate: string, candidateStart: nat)
    requires CardSpan(candidate, candidateStart).Some? && |DigitsIn(candidate)| <= 19
    ensures CoversAllButOne(candidate, candidateStart, CardSpan(candidate, candidateStart).value)
  {
    var (len, i) := FirstWindow(DigitsIn(candidate)).value;
    assert SpansRun(candidate, candidateStart, CardSpan(candidate, candidateStart).value, len, i);
  }

  lemma NumberPasses(ds: seq<Digit>, number: seq<Digit>, stray: Digit)
    requires IsLuhnNumber(number) && |number| <= 18
    requires ds == number + [stray] || ds == [stray] + number || ds == number
    ensures exists len, i :: Passes(ds, len, i)
  {
    if ds == [stray] + number {
      assert ds[1..1 + |number|] == number;
      assert Passes(ds, |number|, 1);
    } else {
      assert ds[0..0 + |number|] == number;
      assert Passes(ds, |number|, 0);
    }
  }

  /**
   A valid number of 13 to 18 digits, with any separators, is found although a stray digit
   touches either end: the span leaves out at most one of the candidate's digits.
   */
  lemma StrayDigitIsTolerated(candidate: string, candidateStart: nat, number: seq<Digit>, stray: Digit)
    requires IsLuhnNumber(number) && |number| <= 18
    requires var ds := DigitsIn(candidate); ds == number + [stray] || ds == [stray] + number || ds == number
    ensures CardSpan(candidate, candidateStart).Some?
    ensures CoversAllButOne(candidate, candidateStart, CardSpan(candidate, candidateStart).value)
  {
    NumberPasses(DigitsIn(candidate), number, stray);
    CardIsFoundExactly(candidate, candidateStart);
    CardSpansARun(candidate, candidateStart);
  }

  // --- the digits of a text ---

  lemma PositionsOfMore(text: string, c: char)
    ensures DigitPositions(text + [c]) == DigitPositions(text) + if IsDigitChar(c) then [|text|] else []
  {
    assert (text + [c])[..|text|] == text;
  }

  /** Digits keep their value and their order, everything else is passed over. */
  lemma DigitsOfMore(text: string, c: char)
    ensures DigitsIn("") == []
    ensures DigitsIn(text + [c]) == if '0' <= c <= '9' then DigitsIn(text) + [c as int - 48] else DigitsIn(text)
  {
    PositionsOfMore(text, c);
    var more, at, at' := text + [c], DigitPositions(text), DigitPositions(text + [c]);
    forall i | 0 <= i < |at| ensures DigitsIn(more)[i] == DigitsIn(text)[i] {
      assert at'[i] == at[i] && more[at[i]] == text[at[i]];
    }
  }

  /** Tried are runs of 13 to 19 digits, of the greatest length there is and of the next. */
  lemma TriedRuns(ds: seq<Digit>, len: int, i: int)
    ensures Passes(ds, len, i) <==>
      13 <= len <= 19 && (len >= 18 || len + 1 >= |ds|) && 0 <= i <= i + len <= |ds| && IsLuhnNumber(ds[i..i + len])
  {
  }

  /** A candidate that is one number, with any separators, is found from its first to its last digit. */
  lemma WholeNumberIsFound(candidate: string, candidateStart: nat, first: nat, last: nat)
    requires IsLuhnNumber(DigitsIn(candidate)) && |DigitsIn(candidate)| <= 19
    requires first <= last < |candidate| && IsDigitChar(candidate[first]) && IsDigitChar(candidate[last])
    requires forall i :: (0 <= i < first || last < i < |candidate|) ==> !IsDigitChar(candidate[i])
    ensures CardSpan(candidate, candidateStart) == Some((candidateStart + first, candidateStart + last + 1))
  {
    var ds, at := DigitsIn(candidate), DigitPositions(candidate);
    assert ds[0..0 + |ds|] == ds;
    assert Passes(ds, |ds|, 0);
    FirstWindowIsUnique(ds, |ds|, 0);
    AllPositions(candidate, first);
    AllPositions(candidate, last);
    assert IsDigitChar(candidate[at[0]]) && IsDigitChar(candidate[at[|at| - 1]]);
  }

  lemma {:induction false} AllPositions(candidate: string, i: nat)
    requires i < |candidate| && IsDigitChar(candidate[i])
    ensures i in DigitPositions(candidate)
  {
    if i < |candidate| - 1 {
      AllPositions(candidate[..|candidate| - 1], i);
    }
  }
}
