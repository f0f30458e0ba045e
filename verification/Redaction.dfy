/** Replacing detected spans by markers: `apply_redactions` and what survives it. */
module Redaction {
  datatype Category =
    | ApiKeyOrToken | Password | PrivateKey | Email | CreditCard | GovernmentId | Medical | AmbiguousSecret
  {
    function Label(): string {
      match this
      case ApiKeyOrToken => "api_key_or_token"
      case Password => "password"
      case PrivateKey => "private_key"
      case Email => "email"
      case CreditCard => "credit_card"
      case GovernmentId => "government_id"
      case Medical => "medical"
      case AmbiguousSecret => "ambiguous_secret"
    }
  }

  datatype Confidence = High | Ambiguous

  datatype Detection = Detection(start: nat, end: nat, category: Category, confidence: Confidence)

  function Marker(d: Detection): string {
    "[REDACTED:" + d.category.Label() + "]"
  }

  /** Non-empty spans of a text of length n. */
  predicate InBounds(ds: seq<Detection>, n: nat) {
    forall i :: 0 <= i < |ds| ==> ds[i].start < ds[i].end <= n
  }

  predicate SortedByStart(ds: seq<Detection>) {
    forall i, j :: 0 <= i < j < |ds| ==> ds[i].start <= ds[j].start
  }

  predicate Covers(ds: seq<Detection>, i: int) {
    exists k :: 0 <= k < |ds| && ds[k].start <= i < ds[k].end
  }

  predicate RangesOverlap(aStart: nat, aEnd: nat, bStart: nat, bEnd: nat) {
    aStart < bEnd && bStart < aEnd
  }

  /** The detections that are replaced: each that does not start before the last one's end. */
  function Accepted(ds: seq<Detection>, cursor: nat): seq<Detection> {
    if ds == [] then []
    else if ds[0].start < cursor then Accepted(ds[1..], cursor)
    else [ds[0]] + Accepted(ds[1..], ds[0].end)
  }

  predicate InOrder(acc: seq<Detection>, cursor: nat, n: nat) {
    if acc == [] then cursor <= n
    else cursor <= acc[0].start < acc[0].end <= n && InOrder(acc[1..], acc[0].end, n)
  }

  function Render(text: string, acc: seq<Detection>, cursor: nat): string
    requires InOrder(acc, cursor, |text|)
  {
    if acc == [] then text[cursor..]
    else text[cursor..acc[0].start] + (Marker(acc[0]) + Render(text, acc[1..], acc[0].end))
  }

  lemma {:induction false} AcceptedInOrder(ds: seq<Detection>, cursor: nat, n: nat)
    requires InBounds(ds, n) && cursor <= n
    ensures InOrder(Accepted(ds, cursor), cursor, n)
  {
    if ds != [] {
      if ds[0].start < cursor {
        AcceptedInOrder(ds[1..], cursor, n);
      } else {
        AcceptedInOrder(ds[1..], ds[0].end, n);
        assert Accepted(ds, cursor)[1..] == Accepted(ds[1..], ds[0].end);
      }
    }
  }

  /** What a text becomes once its detections are applied. */
  function Redact(text: string, ds: seq<Detection>): string
    requires InBounds(ds, |text|)
  {
    AcceptedInOrder(ds, 0, |text|);
    Render(text, Accepted(ds, 0), 0)
  }

  method ApplyRedactions(text: string, detections: seq<Detection>) returns (result: string)
    requires InBounds(detections, |text|)
    ensures result == Redact(text, detections)
  {
    AcceptedInOrder(detections, 0, |text|);
    result := [];
    var cursor: nat := 0;
    for i := 0 to |detections|
      invariant cursor <= |text|
      invariant InOrder(Accepted(detections[i..], cursor), cursor, |text|)
      invariant result + Render(text, Accepted(detections[i..], cursor), cursor) == Redact(text, detections)
    {
      var detection := detections[i];
      assert detections[i..][1..] == detections[i + 1..];
      AcceptedInOrder(detections[i + 1..], if detection.start < cursor then cursor else detection.end, |text|);
      if detection.start < cursor {
        continue;
      }
      RenderStep(text, detections[i..], cursor, result);
      result := result + text[cursor..detection.start];
      result := result + "[REDACTED:";
      result := result + detection.category.Label();
      result := result + "]";
      cursor := detection.end;
    }
    assert Accepted(detections[|detections|..], cursor) == [];
    result := result + text[cursor..];
  }

  lemma RenderStep(text: string, ds: seq<Detection>, cursor: nat, done: string)
    requires ds != [] && cursor <= ds[0].start && InOrder(Accepted(ds, cursor), cursor, |text|)
    requires InOrder(Accepted(ds[1..], ds[0].end), ds[0].end, |text|)
    ensures var d := ds[0];
      done + Render(text, Accepted(ds, cursor), cursor)
        == done + text[cursor..d.start] + "[REDACTED:" + d.category.Label() + "]"
           + Render(text, Accepted(ds[1..], d.end), d.end)
  {
    var d := ds[0];
    assert Accepted(ds, cursor)[1..] == Accepted(ds[1..], d.end);
    Regroup(done, text[cursor..d.start], "[REDACTED:", d.category.Label(), "]", Render(text, Accepted(ds[1..], d.end), d.end));
  }

  lemma Regroup(a: string, b: string, c: string, d: string, e: string, f: string)
    ensures a + (b + ((c + d + e) + f)) == a + b + c + d + e + f
  {
  }

  // --- what is kept ---

  /** Where position i of the text ends up in the output. */
  function OutputPosition(acc: seq<Detection>, cursor: nat, i: int): int {
    if acc == [] || i < acc[0].start then i - cursor
    else acc[0].start - cursor + |Marker(acc[0])| + OutputPosition(acc[1..], acc[0].end, i)
  }

  function MarkerLengths(acc: seq<Detection>): nat {
    if acc == [] then 0 else |Marker(acc[0])| + MarkerLengths(acc[1..])
  }

  function SpanLengths(acc: seq<Detection>, cursor: nat, n: nat): nat
    requires InOrder(acc, cursor, n)
  {
    if acc == [] then 0 else acc[0].end - acc[0].start + SpanLengths(acc[1..], acc[0].end, n)
  }

  lemma {:induction false} LengthOfRender(text: string, acc: seq<Detection>, cursor: nat)
    requires InOrder(acc, cursor, |text|)
    ensures |Render(text, acc, cursor)| + SpanLengths(acc, cursor, |text|) == |text| - cursor + MarkerLengths(acc)
  {
    if acc != [] {
      LengthOfRender(text, acc[1..], acc[0].end);
    }
  }

  /** The output's length: the text, less the accepted spans, plus their markers. */
  lemma LengthEquation(text: string, ds: seq<Detection>)
    requires InBounds(ds, |text|)
    ensures InOrder(Accepted(ds, 0), 0, |text|)
    ensures |Redact(text, ds)| + SpanLengths(Accepted(ds, 0), 0, |text|) == |text| + MarkerLengths(Accepted(ds, 0))
  {
    AcceptedInOrder(ds, 0, |text|);
    LengthOfRender(text, Accepted(ds, 0), 0);
  }

  lemma CoversMore(d: Detection, acc: seq<Detection>, i: int)
    ensures Covers([d] + acc, i) <==> d.start <= i < d.end || Covers(acc, i)
  {
    var all := [d] + acc;
    if k :| 0 <= k < |acc| && acc[k].start <= i < acc[k].end {
      assert all[k + 1] == acc[k];
    }
    if k :| 0 <= k < |all| && all[k].start <= i < all[k].end {
      assert k > 0 ==> acc[k - 1] == all[k];
    }
    assert all[0] == d;
  }

  lemma {:induction false} UncoveredIsKept(text: string, acc: seq<Detection>, cursor: nat, i: int)
    requires InOrder(acc, cursor, |text|)
    requires cursor <= i < |text| && !Covers(acc, i)
    ensures 0 <= OutputPosition(acc, cursor, i) < |Render(text, acc, cursor)|
    ensures Render(text, acc, cursor)[OutputPosition(acc, cursor, i)] == text[i]
  {
    if acc != [] && acc[0].start <= i {
      var rest := acc[1..];
      assert acc == [acc[0]] + rest;
      CoversMore(acc[0], rest, i);
      UncoveredIsKept(text, rest, acc[0].end, i);
    }
  }

  lemma {:induction false} OrderIsKept(acc: seq<Detection>, cursor: nat, n: nat, i: int, j: int)
    requires InOrder(acc, cursor, n)
    requires cursor <= i < j < n && !Covers(acc, i) && !Covers(acc, j)
    ensures OutputPosition(acc, cursor, i) < OutputPosition(acc, cursor, j)
  {
    if acc != [] && acc[0].start <= j {
      var rest := acc[1..];
      assert acc == [acc[0]] + rest;
      CoversMore(acc[0], rest, i);
      CoversMore(acc[0], rest, j);
      if acc[0].start <= i {
        OrderIsKept(rest, acc[0].end, n, i, j);
      } else {
        OutputPositionIsNatural(rest, acc[0].end, n, j);
      }
    }
  }

  lemma {:induction false} OutputPositionIsNatural(acc: seq<Detection>, cursor: nat, n: nat, i: int)
    requires InOrder(acc, cursor, n) && cursor <= i < n && !Covers(acc, i)
    ensures 0 <= OutputPosition(acc, cursor, i)
  {
    if acc != [] && acc[0].start <= i {
      assert acc == [acc[0]] + acc[1..];
      CoversMore(acc[0], acc[1..], i);
      OutputPositionIsNatural(acc[1..], acc[0].end, n, i);
    }
  }

  /** Every character outside the accepted spans appears in the output, in the same order. */
  lemma RestIsKeptInOrder(text: string, ds: seq<Detection>, i: int, j: int)
    requires InBounds(ds, |text|)
    requires 0 <= i < j < |text| && !Covers(Accepted(ds, 0), i) && !Covers(Accepted(ds, 0), j)
    ensures var acc := Accepted(ds, 0);
      && 0 <= OutputPosition(acc, 0, i) < OutputPosition(acc, 0, j) < |Redact(text, ds)|
      && Redact(text, ds)[OutputPosition(acc, 0, i)] == text[i]
      && Redact(text, ds)[OutputPosition(acc, 0, j)] == text[j]
  {
    AcceptedInOrder(ds, 0, |text|);
    UncoveredIsKept(text, Accepted(ds, 0), 0, i);
    UncoveredIsKept(text, Accepted(ds, 0), 0, j);
    OrderIsKept(Accepted(ds, 0), 0, |text|, i, j);
  }

  lemma {:induction false} CoveredIsInvisible(text: string, text': string, acc: seq<Detection>, cursor: nat)
    requires |text| == |text'| && InOrder(acc, cursor, |text|)
    requires forall i :: cursor <= i < |text| && !Covers(acc, i) ==> text[i] == text'[i]
    ensures Render(text, acc, cursor) == Render(text', acc, cursor)
  {
    if acc == [] {
      assert text[cursor..] == text'[cursor..];
    } else {
      var d, rest := acc[0], acc[1..];
      assert acc == [d] + rest;
      forall i | cursor <= i < d.start ensures text[i] == text'[i] {
        CoversMore(d, rest, i);
        NothingBefore(rest, d.end, |text|, i);
      }
      assert text[cursor..d.start] == text'[cursor..d.start];
      forall i | d.end <= i < |text| && !Covers(rest, i) ensures text[i] == text'[i] {
        CoversMore(d, rest, i);
      }
      CoveredIsInvisible(text, text', rest, d.end);
    }
  }

  lemma {:induction false} NothingBefore(acc: seq<Detection>, cursor: nat, n: nat, i: int)
    requires InOrder(acc, cursor, n) && i < cursor
    ensures !Covers(acc, i)
  {
    if acc != [] {
      assert acc == [acc[0]] + acc[1..];
      CoversMore(acc[0], acc[1..], i);
      NothingBefore(acc[1..], acc[0].end, n, i);
    }
  }

  /** The output does not depend on any character inside an accepted span. */
  lemma RedactedCharactersAreInvisible(text: string, text': string, ds: seq<Detection>)
    requires |text| == |text'| && InBounds(ds, |text|)
    requires forall i :: 0 <= i < |text| && !Covers(Accepted(ds, 0), i) ==> text[i] == text'[i]
    ensures Redact(text, ds) == Redact(text', ds)
  {
    AcceptedInOrder(ds, 0, |text|);
    CoveredIsInvisible(text, text', Accepted(ds, 0), 0);
  }

  /** What stands for each category. */
  lemma Markers(start: nat, end: nat, c: Confidence)
    ensures Marker(Detection(start, end, ApiKeyOrToken, c)) == "[REDACTED:api_key_or_token]"
    ensures Marker(Detection(start, end, Password, c)) == "[REDACTED:password]"
    ensures Marker(Detection(start, end, PrivateKey, c)) == "[REDACTED:private_key]"
    ensures Marker(Detection(start, end, Email, c)) == "[REDACTED:email]"
    ensures Marker(Detection(start, end, CreditCard, c)) == "[REDACTED:credit_card]"
    ensures Marker(Detection(start, end, GovernmentId, c)) == "[REDACTED:government_id]"
    ensures Marker(Detection(start, end, Medical, c)) == "[REDACTED:medical]"
  {
  }

  function LastEnd(acc: seq<Detection>, cursor: nat): nat {
    if acc == [] then cursor else acc[|acc| - 1].end
  }

  /** One detection more is replaced exactly when it does not start before the last replaced one ends. */
  lemma {:induction false} AcceptedOneMore(ds: seq<Detection>, d: Detection, cursor: nat)
    ensures Accepted(ds + [d], cursor)
         == Accepted(ds, cursor) + if LastEnd(Accepted(ds, cursor), cursor) <= d.start then [d] else []
  {
    if ds != [] {
      var rest := ds[1..];
      assert (ds + [d])[1..] == rest + [d];
      AcceptedOneMore(rest, d, if ds[0].start < cursor then cursor else ds[0].end);
    }
  }

  lemma {:induction false} InOrderOneMore(acc: seq<Detection>, d: Detection, cursor: nat, n: nat)
    requires InOrder(acc + [d], cursor, n)
    ensures cursor <= d.start < d.end <= n && InOrder(acc, cursor, d.start)
  {
    if acc != [] {
      assert (acc + [d])[1..] == acc[1..] + [d];
      InOrderOneMore(acc[1..], d, acc[0].end, n);
    }
  }

  /** One replacement more: the text before it with the earlier ones, its marker, and the text after it. */
  lemma {:induction false} ReplacedOneMore(text: string, acc: seq<Detection>, d: Detection, cursor: nat)
    requires InOrder(acc + [d], cursor, |text|)
    ensures d.start < d.end <= |text| && InOrder(acc, cursor, d.start)
    ensures Render(text, acc + [d], cursor) == Render(text[..d.start], acc, cursor) + Marker(d) + text[d.end..]
  {
    InOrderOneMore(acc, d, cursor, |text|);
    if acc == [] {
      assert [d][1..] == [];
      assert text[..d.start][cursor..] == text[cursor..d.start];
    } else {
      var first, rest := acc[0], acc[1..];
      assert (acc + [d])[1..] == rest + [d];
      assert first.start <= d.start by { InOrderOneMore(rest, d, first.end, |text|); }
      ReplacedOneMore(text, rest, d, first.end);
      SliceOfPrefix(text, d.start, cursor, first.start);
      RegroupFour(text[cursor..first.start], Marker(first), Render(text[..d.start], rest, first.end), Marker(d), text[d.end..]);
    }
  }

  lemma SliceOfPrefix(text: string, end: nat, a: nat, b: nat)
    requires a <= b <= end <= |text|
    ensures text[..end][a..b] == text[a..b]
  {
  }

  lemma RegroupFour(a: string, b: string, c: string, d: string, e: string)
    ensures a + (b + (c + d + e)) == (a + (b + c)) + d + e
  {
  }

  // --- what is skipped ---

  lemma {:induction false} SkippedStartInsideAccepted(ds: seq<Detection>, cursor: nat, k: nat)
    requires SortedByStart(ds) && k < |ds|
    requires forall i :: 0 <= i < |ds| ==> ds[i].start < ds[i].end
    ensures ds[k].start < cursor || Covers(Accepted(ds, cursor), ds[k].start)
  {
    var d := ds[0];
    if d.start < cursor {
      if k > 0 {
        SkippedStartInsideAccepted(ds[1..], cursor, k - 1);
      }
    } else {
      CoversMore(d, Accepted(ds[1..], d.end), ds[k].start);
      if k > 0 {
        SkippedStartInsideAccepted(ds[1..], d.end, k - 1);
      }
    }
  }

  /** Every detection, replaced or skipped, overlaps a replaced one. */
  lemma EveryDetectionMeetsAnAccepted(text: string, ds: seq<Detection>, k: nat)
    requires SortedByStart(ds) && InBounds(ds, |text|) && k < |ds|
    ensures exists a :: a in Accepted(ds, 0) && RangesOverlap(ds[k].start, ds[k].end, a.start, a.end)
  {
    SkippedStartInsideAccepted(ds, 0, k);
    var acc := Accepted(ds, 0);
    var m :| 0 <= m < |acc| && acc[m].start <= ds[k].start < acc[m].end;
    assert acc[m] in acc;
  }

  // --- does anything detected survive? ---

  /**
   One pass over the detections, remembering where the last replaced one ends and how
   far any detection has reached: whatever reaches past the replaced span must be
   continued without a gap.
   */
  predicate NothingSurvives(ds: seq<Detection>, cursor: nat, reach: nat) {
    if ds == [] then reach <= cursor
    else
      var d := ds[0];
      var reach' := if reach < d.end then d.end else reach;
      if d.start < cursor then NothingSurvives(ds[1..], cursor, reach')
      else (reach <= cursor || d.start == cursor) && NothingSurvives(ds[1..], d.end, reach')
  }

  /** Position i at or after the cursor was detected. */
  predicate Pending(ds: seq<Detection>, cursor: nat, reach: nat, i: int) {
    cursor <= i && (i < reach || Covers(ds, i))
  }

  lemma PendingStep(d: Detection, rest: seq<Detection>, cursor: nat, reach: nat, i: int)
    requires d.start < cursor
    ensures Pending([d] + rest, cursor, reach, i) <==> Pending(rest, cursor, if reach < d.end then d.end else reach, i)
  {
    CoversMore(d, rest, i);
  }

  ghost predicate AllReplaced(ds: seq<Detection>, cursor: nat, reach: nat) {
    forall i :: Pending(ds, cursor, reach, i) ==> Covers(Accepted(ds, cursor), i)
  }

  lemma {:induction false} OnePassDecides(ds: seq<Detection>, cursor: nat, reach: nat, n: nat)
    requires SortedByStart(ds) && InBounds(ds, n) && cursor <= n
    ensures NothingSurvives(ds, cursor, reach) <==> AllReplaced(ds, cursor, reach)
  {
    if ds == [] {
      assert reach > cursor ==> Pending(ds, cursor, reach, cursor);
    } else {
      var d, rest := ds[0], ds[1..];
      var reach' := if reach < d.end then d.end else reach;
      assert ds == [d] + rest;
      if d.start < cursor {
        OnePassDecides(rest, cursor, reach', n);
        forall i ensures Pending(ds, cursor, reach, i) <==> Pending(rest, cursor, reach', i) {
          PendingStep(d, rest, cursor, reach, i);
        }
      } else {
        OnePassDecides(rest, d.end, reach', n);
        AcceptDecides(d, rest, cursor, reach, n);
      }
    }
  }

  lemma AcceptDecides(d: Detection, rest: seq<Detection>, cursor: nat, reach: nat, n: nat)
    requires SortedByStart([d] + rest) && InBounds([d] + rest, n) && cursor <= d.start
    ensures AllReplaced([d] + rest, cursor, reach)
       <==> (reach <= cursor || d.start == cursor)
            && AllReplaced(rest, d.end, if reach < d.end then d.end else reach)
  {
    var ds := [d] + rest;
    var reach' := if reach < d.end then d.end else reach;
    var acc, acc' := Accepted(ds, cursor), Accepted(rest, d.end);
    assert ds[1..] == rest && acc == [d] + acc';
    assert InBounds(rest, n) by {
      forall k | 0 <= k < |rest| ensures rest[k].start < rest[k].end <= n { assert rest[k] == ds[k + 1]; }
    }
    assert d.end <= n by { assert ds[0] == d; }
    AcceptedInOrder(rest, d.end, n);
    forall i
      ensures d.end <= i ==>
        (Pending(ds, cursor, reach, i) <==> Pending(rest, d.end, reach', i)) && (Covers(acc, i) <==> Covers(acc', i))
      ensures d.start <= i < d.end ==> Covers(acc, i)
      ensures i < d.start ==> !Covers(acc, i) && (Pending(ds, cursor, reach, i) <==> cursor <= i < reach)
    {
      CoversMore(d, rest, i);
      CoversMore(d, acc', i);
      if i < d.end {
        NothingBefore(acc', d.end, n, i);
      }
      if i < d.start {
        NothingStartsBefore(ds, i);
      }
    }
    if cursor < reach && cursor < d.start {
      assert Pending(ds, cursor, reach, cursor) && !Covers(acc, cursor);
    }
    if AllReplaced(ds, cursor, reach) {
      forall i | Pending(rest, d.end, reach', i) ensures Covers(acc', i) {
        assert Pending(ds, cursor, reach, i);
      }
    }
  }

  lemma NothingStartsBefore(ds: seq<Detection>, i: int)
    requires SortedByStart(ds) && ds != [] && i < ds[0].start
    ensures !Covers(ds, i)
  {
  }

  /** The character at position i of the text is in the output, at its place. */
  predicate CopiedOut(text: string, ds: seq<Detection>, i: int)
    requires InBounds(ds, |text|)
  {
    var at := OutputPosition(Accepted(ds, 0), 0, i);
    0 <= i < |text| && 0 <= at < |Redact(text, ds)| && Redact(text, ds)[at] == text[i]
  }

  /**
   No detected character survives exactly when the one-pass check succeeds; otherwise
   some detected character is copied to the output.
   */
  lemma SurvivalIsDecided(text: string, ds: seq<Detection>)
    requires SortedByStart(ds) && InBounds(ds, |text|)
    ensures NothingSurvives(ds, 0, 0) <==> forall i :: Covers(ds, i) ==> Covers(Accepted(ds, 0), i)
    ensures !NothingSurvives(ds, 0, 0) ==> exists i :: Covers(ds, i) && CopiedOut(text, ds, i)
  {
    OnePassDecides(ds, 0, 0, |text|);
    AcceptedInOrder(ds, 0, |text|);
    forall i | Covers(ds, i) ensures Pending(ds, 0, 0, i) {
    }
    if !NothingSurvives(ds, 0, 0) {
      var i :| Pending(ds, 0, 0, i) && !Covers(Accepted(ds, 0), i);
      UncoveredIsKept(text, Accepted(ds, 0), 0, i);
    }
  }

  /** Nested or disjoint spans, the case the program expects, leave nothing behind. */
  lemma NestedSpansAreSafe(text: string, ds: seq<Detection>)
    requires SortedByStart(ds) && InBounds(ds, |text|)
    requires forall i, j :: 0 <= i < j < |ds| ==> ds[i].end <= ds[j].start || ds[j].end <= ds[i].end
    ensures NothingSurvives(ds, 0, 0)
  {
    forall i | Covers(ds, i) ensures Covers(Accepted(ds, 0), i) {
      var k :| 0 <= k < |ds| && ds[k].start <= i < ds[k].end;
      NestedIsCovered(ds, 0, k, i, |text|);
    }
    SurvivalIsDecided(text, ds);
  }

  lemma {:induction false} NestedIsCovered(ds: seq<Detection>, cursor: nat, k: nat, i: int, n: nat)
    requires SortedByStart(ds) && InBounds(ds, n) && k < |ds| && ds[k].start <= i < ds[k].end
    requires forall a, b :: 0 <= a < b < |ds| ==> ds[a].end <= ds[b].start || ds[b].end <= ds[a].end
    requires cursor <= ds[k].start
    ensures Covers(Accepted(ds, cursor), i)
    decreases |ds|
  {
    var d, rest := ds[0], ds[1..];
    if d.start < cursor {
      NestedIsCovered(rest, cursor, k - 1, i, n);
    } else {
      CoversMore(d, Accepted(rest, d.end), i);
      if k > 0 && d.end <= ds[k].start {
        NestedIsCovered(rest, d.end, k - 1, i, n);
      }
    }
  }

  /**
   A key/value secret that runs into the start of a private-key block: the block is
   skipped and all of it from the secret's end on is copied out.
   */
  lemma PartialOverlapSurvives(text: string, i: int)
    requires |text| >= 80 && 20 <= i < 80
    ensures var ds := [Detection(9, 20, Password, High), Detection(10, 80, PrivateKey, High)];
      && !NothingSurvives(ds, 0, 0)
      && Covers(ds, i) && CopiedOut(text, ds, i)
  {
    var secret, block := Detection(9, 20, Password, High), Detection(10, 80, PrivateKey, High);
    var ds := [secret, block];
    assert ds[1..] == [block] && [block][1..] == [];
    assert Accepted([block], 20) == [];
    assert Accepted(ds, 0) == [secret];
    assert ds[1] == block;
    AcceptedInOrder(ds, 0, |text|);
    UncoveredIsKept(text, [secret], 0, i);
  }
}
