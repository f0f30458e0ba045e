/**
 Where a signature occurs in a sequence of action keys, and which of those
 occurrences the detector keeps.  Everything here is about plain sequences of
 keys; module Detector applies it to event histories.
 */
module Occurrences {

  /** Signature `sig` occupies positions i, ..., i + |sig| - 1 of `keys`. */
  predicate OccursAt<K(==)>(keys: seq<K>, sig: seq<K>, i: int) {
    0 <= i <= i + |sig| <= |keys| && keys[i..i + |sig|] == sig
  }

  /** All start positions of `sig` in `keys` that are below `bound`, ascending. */
  function StartsBelow<K(==)>(keys: seq<K>, sig: seq<K>, bound: nat): (r: seq<nat>)
    ensures forall i :: i in r <==> 0 <= i < bound && OccursAt(keys, sig, i)
    ensures Ascending(r)
  {
    if bound == 0 then []
    else
      var r := StartsBelow(keys, sig, bound - 1);
      assert forall i :: 0 <= i < |r| ==> r[i] in r;
      if OccursAt(keys, sig, bound - 1) then r + [bound - 1] else r
  }

  function Starts<K(==)>(keys: seq<K>, sig: seq<K>): seq<nat> {
    StartsBelow(keys, sig, |keys|)
  }

  predicate Ascending(s: seq<nat>) {
    forall i, j :: 0 <= i < j < |s| ==> s[i] < s[j]
  }

  /** Occurrences of length `w` at these starts, in this order, never share a position. */
  predicate Spaced(s: seq<nat>, w: nat) {
    forall i, j :: 0 <= i < j < |s| ==> s[i] + w <= s[j]
  }

  /** The same, for an unordered choice of occurrences. */
  ghost predicate PairwiseDisjoint(chosen: set<nat>, w: nat) {
    forall a, b | a in chosen && b in chosen && a < b :: a + w <= b
  }

  function ToSet<T>(s: seq<T>): set<T> {
    set x | x in s
  }

  /** Keeps every start that is not before `next`, then moves `next` past it. */
  function Greedy(starts: seq<nat>, w: nat, next: nat): (r: seq<nat>) {
    if starts == [] then []
    else if next <= starts[0] then [starts[0]] + Greedy(starts[1..], w, starts[0] + w)
    else Greedy(starts[1..], w, next)
  }

  /** The occurrences of `sig` that the detector counts. */
  function Selected<K(==)>(keys: seq<K>, sig: seq<K>): seq<nat> {
    Greedy(Starts(keys, sig), |sig|, 0)
  }

  // --- what the greedy choice is ---

  lemma {:induction false} GreedyIsAChoice(starts: seq<nat>, w: nat, next: nat)
    requires Ascending(starts)
    ensures var r := Greedy(starts, w, next);
      && (forall s :: s in r ==> s in starts && next <= s)
      && Spaced(r, w)
  {
    if starts != [] {
      var s0, rest := starts[0], starts[1..];
      assert starts == [s0] + rest;
      if next <= s0 {
        GreedyIsAChoice(rest, w, s0 + w);
        var r := Greedy(rest, w, s0 + w);
        assert forall i :: 0 <= i < |r| ==> r[i] in r;
      } else {
        GreedyIsAChoice(rest, w, next);
      }
    }
  }

  lemma SelectedIsAChoice<K>(keys: seq<K>, sig: seq<K>)
    ensures var r := Selected(keys, sig);
      Spaced(r, |sig|) && forall s :: s in r ==> OccursAt(keys, sig, s)
  {
    GreedyIsAChoice(Starts(keys, sig), |sig|, 0);
  }

  // --- the choice is the earliest one ---

  predicate NoneBetween<K(==)>(keys: seq<K>, sig: seq<K>, lo: nat, hi: nat) {
    forall s :: lo <= s < hi ==> !OccursAt(keys, sig, s)
  }

  /** From `next` on: the first occurrence, then the first one after its end, and so on to the last. */
  predicate IsEarliestFrom<K(==)>(keys: seq<K>, sig: seq<K>, next: nat, r: seq<nat>)
    decreases |r|
  {
    if r == [] then NoneBetween(keys, sig, next, |keys|)
    else
      && next <= r[0] && OccursAt(keys, sig, r[0]) && NoneBetween(keys, sig, next, r[0])
      && IsEarliestFrom(keys, sig, r[0] + |sig|, r[1..])
  }

  ghost predicate AreStartsFrom<K>(keys: seq<K>, sig: seq<K>, next: nat, starts: seq<nat>) {
    Ascending(starts) && forall s :: next <= s < |keys| ==> (s in starts <==> OccursAt(keys, sig, s))
  }

  lemma {:induction false} GreedyIsEarliest<K>(keys: seq<K>, sig: seq<K>, starts: seq<nat>, next: nat)
    requires sig != [] && AreStartsFrom(keys, sig, next, starts)
    requires forall s :: s in starts ==> OccursAt(keys, sig, s)
    ensures IsEarliestFrom(keys, sig, next, Greedy(starts, |sig|, next))
    decreases |starts|
  {
    if starts != [] {
      var s0, rest := starts[0], starts[1..];
      assert starts == [s0] + rest;
      assert s0 in starts;
      if next <= s0 {
        RestAreStarts(keys, sig, starts, s0 + |sig|);
        GreedyIsEarliest(keys, sig, rest, s0 + |sig|);
        assert Greedy(starts, |sig|, next)[1..] == Greedy(rest, |sig|, s0 + |sig|);
      } else {
        RestAreStarts(keys, sig, starts, next);
        GreedyIsEarliest(keys, sig, rest, next);
      }
    }
  }

  lemma RestAreStarts<K>(keys: seq<K>, sig: seq<K>, starts: seq<nat>, next: nat)
    requires starts != [] && starts[0] < next
    requires AreStartsFrom(keys, sig, next, starts) || AreStartsFrom(keys, sig, starts[0], starts)
    ensures AreStartsFrom(keys, sig, next, starts[1..])
  {
    assert starts == [starts[0]] + starts[1..];
  }

  /** The kept occurrences are the ones found by always taking the next that has not begun yet. */
  lemma SelectedIsEarliest<K>(keys: seq<K>, sig: seq<K>)
    requires sig != []
    ensures IsEarliestFrom(keys, sig, 0, Selected(keys, sig))
  {
    GreedyIsEarliest(keys, sig, Starts(keys, sig), 0);
  }

  /** Nothing else can be found that way. */
  lemma {:induction false} EarliestIsUnique<K>(keys: seq<K>, sig: seq<K>, next: nat, r: seq<nat>, r': seq<nat>)
    requires sig != [] && IsEarliestFrom(keys, sig, next, r) && IsEarliestFrom(keys, sig, next, r')
    ensures r == r'
    decreases |r|
  {
    if r != [] && r' != [] {
      assert r[0] == r'[0];
      EarliestIsUnique(keys, sig, r[0] + |sig|, r[1..], r'[1..]);
      assert r == [r[0]] + r[1..] && r' == [r'[0]] + r'[1..];
    }
  }

  // --- the greedy choice is a largest one ---

  function From(chosen: set<nat>, bound: nat): set<nat> {
    set c | c in chosen && bound <= c
  }

  /** Two disjoint occurrences cannot both start in a window of length w. */
  lemma AtMostOneInWindow(chosen: set<nat>, w: nat, lo: nat)
    requires forall c :: c in chosen ==> lo <= c
    requires PairwiseDisjoint(chosen, w)
    ensures |chosen| <= |From(chosen, lo + w)| + 1
  {
    var later := From(chosen, lo + w);
    if early :| early in chosen && early !in later {
      assert chosen <= later + {early};
      Cardinality(chosen, later + {early});
    } else {
      assert chosen <= later;
      Cardinality(chosen, later);
    }
  }

  lemma {:induction false} GreedyIsLargest(starts: seq<nat>, w: nat, next: nat, chosen: set<nat>)
    requires Ascending(starts) && 1 <= w
    requires forall c :: c in chosen ==> c in starts && next <= c
    requires PairwiseDisjoint(chosen, w)
    ensures |chosen| <= |Greedy(starts, w, next)|
  {
    if starts == [] {
      assert chosen == {};
    } else {
      var s0, rest := starts[0], starts[1..];
      assert starts == [s0] + rest;
      if next <= s0 {
        AtMostOneInWindow(chosen, w, s0);
        GreedyIsLargest(rest, w, s0 + w, From(chosen, s0 + w));
      } else {
        GreedyIsLargest(rest, w, next, chosen);
      }
    }
  }

  lemma {:induction false} Cardinality<T>(a: set<T>, b: set<T>)
    requires a <= b
    ensures |a| <= |b|
  {
    if a != {} {
      var x :| x in a;
      Cardinality(a - {x}, b - {x});
    }
  }

  lemma {:induction false} SpacedHasNoRepeats(s: seq<nat>, w: nat)
    requires 1 <= w && Spaced(s, w)
    ensures |ToSet(s)| == |s|
    ensures PairwiseDisjoint(ToSet(s), w)
  {
    SpacedIsDisjoint(s, w);
    if s != [] {
      var init, last := s[..|s| - 1], s[|s| - 1];
      SpacedHasNoRepeats(init, w);
      OneMoreElement(init, last);
      assert s == init + [last];
    }
  }

  lemma OneMoreElement(init: seq<nat>, last: nat)
    requires forall i :: 0 <= i < |init| ==> init[i] < last
    ensures |ToSet(init + [last])| == |ToSet(init)| + 1
  {
    assert ToSet(init + [last]) == ToSet(init) + {last};
  }

  lemma SpacedIsDisjoint(s: seq<nat>, w: nat)
    requires 1 <= w && Spaced(s, w)
    ensures PairwiseDisjoint(ToSet(s), w)
  {
    forall a, b | a in ToSet(s) && b in ToSet(s) && a < b ensures a + w <= b {
      var i :| 0 <= i < |s| && s[i] == a;
      var j :| 0 <= j < |s| && s[j] == b;
      assert j < i ==> s[j] + w <= s[i];
    }
  }

  ghost predicate DisjointOccurrences<K>(keys: seq<K>, sig: seq<K>, chosen: set<nat>) {
    (forall c :: c in chosen ==> OccursAt(keys, sig, c)) && PairwiseDisjoint(chosen, |sig|)
  }

  /** n is the size of a largest pairwise disjoint set of occurrences of sig. */
  ghost predicate IsLargestDisjoint<K>(keys: seq<K>, sig: seq<K>, n: nat) {
    && (exists chosen: set<nat> :: DisjointOccurrences(keys, sig, chosen) && |chosen| == n)
    && (forall chosen: set<nat> :: DisjointOccurrences(keys, sig, chosen) ==> |chosen| <= n)
  }

  /** No disjoint choice of occurrences is larger than the one the detector keeps. */
  lemma SelectedIsMaximum<K>(keys: seq<K>, sig: seq<K>)
    requires sig != []
    ensures IsLargestDisjoint(keys, sig, |Selected(keys, sig)|)
  {
    SelectedIsAChoice(keys, sig);
    var kept := Selected(keys, sig);
    SpacedHasNoRepeats(kept, |sig|);
    assert DisjointOccurrences(keys, sig, ToSet(kept));
    forall chosen: set<nat> | DisjointOccurrences(keys, sig, chosen) ensures |chosen| <= |kept| {
      GreedyIsLargest(Starts(keys, sig), |sig|, 0, chosen);
    }
  }

  /** Every sub-signature occurs, disjointly and in total, at least as often as the whole. */
  lemma SubSignatureCount<K>(keys: seq<K>, sig: seq<K>, from: nat, to: nat)
    requires from < to <= |sig|
    ensures |Selected(keys, sig)| <= |Selected(keys, sig[from..to])|
    ensures |Starts(keys, sig)| <= |Starts(keys, sig[from..to])|
  {
    SelectedIsAChoice(keys, sig);
    PartsOccur(keys, sig, from, to, Selected(keys, sig));
    PartIsKeptAsOften(keys, sig[from..to], Shifted(Selected(keys, sig), from));
    PartsOccur(keys, sig, from, to, Starts(keys, sig));
    AscendingSubset(Shifted(Starts(keys, sig), from), Starts(keys, sig[from..to]));
  }

  lemma PartsOccur<K>(keys: seq<K>, sig: seq<K>, from: nat, to: nat, starts: seq<nat>)
    requires from < to <= |sig| && forall s :: s in starts ==> OccursAt(keys, sig, s)
    ensures forall m :: m in Shifted(starts, from) ==> m in Starts(keys, sig[from..to])
    ensures Spaced(starts, |sig|) ==> Spaced(Shifted(starts, from), to - from)
    ensures Ascending(starts) ==> Ascending(Shifted(starts, from))
  {
    forall i | 0 <= i < |starts| ensures Shifted(starts, from)[i] in Starts(keys, sig[from..to]) {
      assert starts[i] in starts;
      OccursInPart(keys, sig, from, to, starts[i]);
    }
  }

  lemma PartIsKeptAsOften<K>(keys: seq<K>, part: seq<K>, moved: seq<nat>)
    requires part != [] && Spaced(moved, |part|) && forall m :: m in moved ==> m in Starts(keys, part)
    ensures |moved| <= |Selected(keys, part)|
  {
    SpacedHasNoRepeats(moved, |part|);
    GreedyIsLargest(Starts(keys, part), |part|, 0, ToSet(moved));
  }

  lemma OccursInPart<K>(keys: seq<K>, sig: seq<K>, from: nat, to: nat, s: nat)
    requires from <= to <= |sig|
    requires OccursAt(keys, sig, s)
    ensures OccursAt(keys, sig[from..to], s + from)
  {
    var part, here := sig[from..to], keys[s + from..s + to];
    assert forall k :: 0 <= k < |part| ==> here[k] == keys[s..s + |sig|][from + k];
    assert part == here;
  }

  function Shifted(s: seq<nat>, d: nat): (r: seq<nat>)
    ensures |r| == |s| && forall i :: 0 <= i < |s| ==> r[i] == s[i] + d
  {
    seq(|s|, i requires 0 <= i < |s| => s[i] + d)
  }

  lemma {:induction false} AscendingSubset(a: seq<nat>, b: seq<nat>)
    requires Ascending(a) && Ascending(b) && forall x :: x in a ==> x in b
    ensures |a| <= |b|
  {
    SpacedHasNoRepeats(a, 1);
    SpacedHasNoRepeats(b, 1);
    Cardinality(ToSet(a), ToSet(b));
  }

  // --- bounds that do not need the history ---

  lemma AtMostWInWindow(chosen: set<nat>, w: nat, lo: nat)
    requires forall c :: c in chosen ==> lo <= c
    ensures |chosen| <= w + |From(chosen, lo + w)|
  {
    var early := set c | c in chosen && c < lo + w;
    assert chosen == early + From(chosen, lo + w);
    IntervalSize(early, lo, w);
  }

  /** Discarding overlaps loses at most a factor of the signature's length. */
  lemma {:induction false} GreedyKeepsAFraction(starts: seq<nat>, w: nat, next: nat, wanted: set<nat>)
    requires Ascending(starts) && 1 <= w
    requires forall c :: c in wanted ==> c in starts && next <= c
    ensures |wanted| <= w * |Greedy(starts, w, next)|
  {
    if starts == [] {
      assert wanted == {};
    } else {
      var s0, rest := starts[0], starts[1..];
      assert starts == [s0] + rest;
      if next <= s0 {
        AtMostWInWindow(wanted, w, s0);
        GreedyKeepsAFraction(rest, w, s0 + w, From(wanted, s0 + w));
        Distribute(w, |Greedy(rest, w, s0 + w)|);
      } else {
        GreedyKeepsAFraction(rest, w, next, wanted);
      }
    }
  }

  lemma Distribute(w: nat, k: nat)
    ensures w * (1 + k) == w + w * k
  {
  }

  lemma {:induction false} IntervalSize(chosen: set<nat>, lo: nat, w: nat)
    requires forall c :: c in chosen ==> lo <= c < lo + w
    ensures |chosen| <= w
  {
    if w > 0 {
      IntervalSize(chosen - {lo + w - 1}, lo, w - 1);
    } else {
      assert chosen == {};
    }
  }

  lemma {:induction false} SpacedFits(s: seq<nat>, w: nat, n: nat)
    requires Spaced(s, w)
    requires forall x :: x in s ==> x + w <= n
    ensures w * |s| <= n
  {
    if s != [] {
      var init, last := s[..|s| - 1], s[|s| - 1];
      assert last in s;
      SpacedFits(init, w, last);
      assert w * |s| == w * |init| + w;
    }
  }

  /** raw / window <= count, and window * count <= length of the history */
  lemma SelectedBounds<K>(keys: seq<K>, sig: seq<K>)
    requires sig != []
    ensures |Starts(keys, sig)| <= |sig| * |Selected(keys, sig)|
    ensures |sig| * |Selected(keys, sig)| <= |keys|
    ensures |Selected(keys, sig)| <= |Starts(keys, sig)|
  {
    var starts := Starts(keys, sig);
    SpacedHasNoRepeats(starts, 1);
    GreedyKeepsAFraction(starts, |sig|, 0, ToSet(starts));
    SelectedIsAChoice(keys, sig);
    SpacedFits(Selected(keys, sig), |sig|, |keys|);
    AscendingSubset(Selected(keys, sig), starts);
  }

  /** When occurrences cannot overlap anyway, nothing is discarded. */
  lemma {:induction false} SpacedStartsAreAllKept(starts: seq<nat>, w: nat, next: nat)
    requires Spaced(starts, w)
    requires starts != [] ==> next <= starts[0]
    ensures Greedy(starts, w, next) == starts
  {
    if starts != [] {
      assert starts == [starts[0]] + starts[1..];
      SpacedStartsAreAllKept(starts[1..], w, starts[0] + w);
    }
  }

  // --- appending to the history ---

  lemma {:induction false} GreedyOfConcat(a: seq<nat>, b: seq<nat>, w: nat, next: nat)
    ensures Greedy(a, w, next) <= Greedy(a + b, w, next)
  {
    if a == [] {
      assert a + b == b;
    } else {
      assert (a + b)[1..] == a[1..] + b;
      GreedyOfConcat(a[1..], b, w, if next <= a[0] then a[0] + w else next);
    }
  }

  lemma {:induction false} SameStarts<K>(keys: seq<K>, more: seq<K>, sig: seq<K>, bound: nat)
    requires bound + |sig| <= |keys| + 1
    ensures StartsBelow(keys + more, sig, bound) == StartsBelow(keys, sig, bound)
  {
    if bound > 0 {
      SameStarts(keys, more, sig, bound - 1);
      assert (keys + more)[bound - 1..bound - 1 + |sig|] == keys[bound - 1..bound - 1 + |sig|];
    }
  }

  lemma {:induction false} StartsOfExtension<K>(keys: seq<K>, more: seq<K>, sig: seq<K>, bound: nat)
    ensures StartsBelow(keys, sig, bound) <= StartsBelow(keys + more, sig, bound)
  {
    if bound > 0 {
      if OccursAt(keys, sig, bound - 1) {
        SameStarts(keys, more, sig, bound);
      } else {
        StartsOfExtension(keys, more, sig, bound - 1);
      }
    }
  }

  lemma {:induction false} BoundBeyondKeys<K>(keys: seq<K>, sig: seq<K>, bound: nat)
    requires |keys| <= bound && sig != []
    ensures StartsBelow(keys, sig, bound) == Starts(keys, sig)
  {
    if |keys| < bound {
      BoundBeyondKeys(keys, sig, bound - 1);
    }
  }

  /** New events never change which earlier occurrences are kept, so counts never fall. */
  lemma SelectedIsStable<K>(keys: seq<K>, more: seq<K>, sig: seq<K>)
    requires sig != []
    ensures Selected(keys, sig) <= Selected(keys + more, sig)
  {
    BoundBeyondKeys(keys, sig, |keys + more|);
    StartsOfExtension(keys, more, sig, |keys + more|);
    var a, ab := Starts(keys, sig), Starts(keys + more, sig);
    assert ab == a + ab[|a|..];
    GreedyOfConcat(a, ab[|a|..], |sig|, 0);
  }
}
