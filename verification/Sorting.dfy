/** Stable sorting of sequences, for the places where the program calls its library's sort. */
module Sorting {

  ghost predicate TotalPreorder<T(!new)>(leq: (T, T) -> bool) {
    && (forall a, b :: leq(a, b) || leq(b, a))
    && (forall a, b, c :: leq(a, b) && leq(b, c) ==> leq(a, c))
  }

  ghost predicate SortedBy<T>(leq: (T, T) -> bool, s: seq<T>) {
    forall i, j :: 0 <= i < j < |s| ==> leq(s[i], s[j])
  }

  /** Puts x after every element that does not have to come after it. */
  function Insert<T>(leq: (T, T) -> bool, s: seq<T>, x: T): seq<T> {
    if s == [] || leq(s[|s| - 1], x) then s + [x]
    else Insert(leq, s[..|s| - 1], x) + [s[|s| - 1]]
  }

  function StableSort<T>(leq: (T, T) -> bool, s: seq<T>): seq<T> {
    if s == [] then [] else Insert(leq, StableSort(leq, s[..|s| - 1]), s[|s| - 1])
  }

  lemma {:induction false} InsertIsSorted<T(!new)>(leq: (T, T) -> bool, s: seq<T>, x: T)
    requires TotalPreorder(leq) && SortedBy(leq, s)
    ensures SortedBy(leq, Insert(leq, s, x))
    ensures multiset(Insert(leq, s, x)) == multiset(s) + multiset{x}
  {
    if s != [] {
      var init, last := s[..|s| - 1], s[|s| - 1];
      assert s == init + [last];
      if leq(last, x) {
        forall i | 0 <= i < |s| ensures leq(s[i], x) {
          assert leq(s[i], last) || i == |s| - 1;
        }
      } else {
        InsertIsSorted(leq, init, x);
        var r := Insert(leq, init, x);
        forall i | 0 <= i < |r| ensures leq(r[i], last) {
          assert r[i] in multiset(r);
          if r[i] != x {
            assert r[i] in multiset(init);
          }
        }
      }
    }
  }

  lemma {:induction false} StableSortIsSorted<T(!new)>(leq: (T, T) -> bool, s: seq<T>)
    requires TotalPreorder(leq)
    ensures SortedBy(leq, StableSort(leq, s))
    ensures multiset(StableSort(leq, s)) == multiset(s)
  {
    if s != [] {
      var init, last := s[..|s| - 1], s[|s| - 1];
      StableSortIsSorted(leq, init);
      InsertIsSorted(leq, StableSort(leq, init), last);
      LastOccurrence(init, last);
      assert s == init + [last];
    }
  }

  lemma LastOccurrence<T>(init: seq<T>, last: T)
    ensures multiset(init + [last]) == multiset(init) + multiset{last}
  {
  }

  lemma {:induction false} SortedIsKept<T>(leq: (T, T) -> bool, s: seq<T>)
    requires SortedBy(leq, s)
    ensures StableSort(leq, s) == s
  {
    if s != [] {
      SortedIsKept(leq, s[..|s| - 1]);
      assert s == s[..|s| - 1] + [s[|s| - 1]];
      if |s| > 1 {
        assert leq(s[|s| - 2], s[|s| - 1]);
      }
    }
  }

  // --- ties keep their order ---

  /** In the order of the first test, and of the second where the first makes no difference. */
  ghost predicate SortedByBoth<T>(leq: (T, T) -> bool, tie: (T, T) -> bool, s: seq<T>) {
    forall i, j :: 0 <= i < j < |s| ==> leq(s[i], s[j]) && (leq(s[j], s[i]) ==> tie(s[i], s[j]))
  }

  lemma {:induction false} InsertKeepsTies<T(!new)>(leq: (T, T) -> bool, tie: (T, T) -> bool, s: seq<T>, x: T)
    requires TotalPreorder(leq) && SortedByBoth(leq, tie, s)
    requires forall i :: 0 <= i < |s| ==> tie(s[i], x)
    ensures SortedByBoth(leq, tie, Insert(leq, s, x))
    ensures forall y :: y in Insert(leq, s, x) <==> y == x || y in s
  {
    if s != [] {
      var init, last := s[..|s| - 1], s[|s| - 1];
      assert s == init + [last];
      if leq(last, x) {
        forall i | 0 <= i < |s| ensures leq(s[i], x) {
          assert leq(s[i], last) || i == |s| - 1;
        }
      } else {
        InsertKeepsTies(leq, tie, init, x);
        var r := Insert(leq, init, x);
        forall i | 0 <= i < |r| ensures leq(r[i], last) && (leq(last, r[i]) ==> tie(r[i], last)) {
          assert r[i] in r;
          if r[i] != x {
            var k :| 0 <= k < |init| && init[k] == r[i];
            assert s[k] == r[i];
          }
        }
      }
    }
  }

  /** Sorting a sequence that is in the order of the second test settles ties by it. */
  lemma {:induction false} TiesKeepTheirOrder<T(!new)>(leq: (T, T) -> bool, tie: (T, T) -> bool, s: seq<T>)
    requires TotalPreorder(leq) && SortedBy(tie, s)
    ensures SortedByBoth(leq, tie, StableSort(leq, s))
    ensures forall y :: y in StableSort(leq, s) <==> y in s
  {
    if s != [] {
      var init, last := s[..|s| - 1], s[|s| - 1];
      assert s == init + [last];
      TiesKeepTheirOrder(leq, tie, init);
      var r := StableSort(leq, init);
      forall i | 0 <= i < |r| ensures tie(r[i], last) {
        assert r[i] in r;
        var k :| 0 <= k < |init| && init[k] == r[i];
        assert tie(s[k], s[|s| - 1]);
      }
      InsertKeepsTies(leq, tie, r, last);
    }
  }

  lemma SameElements<T>(a: seq<T>, b: seq<T>)
    requires multiset(a) == multiset(b)
    ensures |a| == |b| && forall x :: x in a <==> x in b
  {
    assert |multiset(a)| == |a| && |multiset(b)| == |b|;
    forall x ensures x in a <==> x in b {
      assert x in a <==> x in multiset(a);
    }
  }

  // --- the first k of a sorted sequence ---

  function FirstOf<T>(leq: (T, T) -> bool, s: seq<T>, k: nat): seq<T> {
    SortKeepsLength(leq, s);
    StableSort(leq, s)[..if k < |s| then k else |s|]
  }

  lemma {:induction false} SortKeepsLength<T>(leq: (T, T) -> bool, s: seq<T>)
    ensures |StableSort(leq, s)| == |s|
  {
    if s != [] {
      SortKeepsLength(leq, s[..|s| - 1]);
      InsertGrows(leq, StableSort(leq, s[..|s| - 1]), s[|s| - 1]);
    }
  }

  lemma {:induction false} InsertGrows<T>(leq: (T, T) -> bool, s: seq<T>, x: T)
    ensures |Insert(leq, s, x)| == |s| + 1
  {
    if s != [] && !leq(s[|s| - 1], x) {
      InsertGrows(leq, s[..|s| - 1], x);
    }
  }

  ghost predicate NoRepeats<T>(s: seq<T>) {
    forall i, j :: 0 <= i < j < |s| ==> s[i] != s[j]
  }

  /** Of a sequence without repeats: k elements, in order, none of the others before any of them. */
  lemma FirstOfIsBest<T(!new)>(leq: (T, T) -> bool, s: seq<T>, k: nat)
    requires TotalPreorder(leq) && NoRepeats(s)
    ensures var r := FirstOf(leq, s, k);
      && |r| == (if k < |s| then k else |s|)
      && SortedBy(leq, r) && NoRepeats(r)
      && (forall x :: x in r ==> x in s)
      && (forall x, y :: x in s && x !in r && y in r ==> leq(y, x))
  {
    var sorted, r := StableSort(leq, s), FirstOf(leq, s, k);
    StableSortIsSorted(leq, s);
    SameElements(sorted, s);
    StaysWithoutRepeats(s, sorted);
    forall x, y | x in s && x !in r && y in r ensures leq(y, x) {
      var i :| 0 <= i < |sorted| && sorted[i] == x;
      var j :| 0 <= j < |r| && r[j] == y;
      assert |r| <= i;
    }
  }

  lemma StaysWithoutRepeats<T>(a: seq<T>, b: seq<T>)
    requires NoRepeats(a) && multiset(a) == multiset(b)
    ensures NoRepeats(b)
  {
    forall i, j | 0 <= i < j < |b| ensures b[i] != b[j] {
      AtMostOnce(a, b[i]);
      AtLeastTwice(b, i, j);
    }
  }

  lemma {:induction false} AtMostOnce<T>(a: seq<T>, x: T)
    requires NoRepeats(a)
    ensures multiset(a)[x] <= 1
  {
    if a != [] {
      var init, last := a[..|a| - 1], a[|a| - 1];
      AtMostOnce(init, x);
      assert a == init + [last];
      if last == x {
        assert x !in init;
      }
    }
  }

  lemma AtLeastTwice<T>(b: seq<T>, i: nat, j: nat)
    requires i < j < |b|
    ensures b[i] == b[j] ==> multiset(b)[b[i]] >= 2
  {
    var front, back := b[..j], b[j..];
    assert b == front + back && front[i] == b[i] && back[0] == b[j];
    assert b[i] in multiset(front) && b[j] in multiset(back);
  }
}
