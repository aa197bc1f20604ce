/** The list operations both components lean on: `sum`/`len` averages,
    `Counter(...).most_common(1)`, the stable `list.sort(key=...)`,
    `list.remove` and removal of a whole work list. */
module Lists {

  datatype Option<T> = None | Some(value: T)

  // ---------------------------------------------------------------------
  // sum and mean

  /** `sum(s)`, accumulated left to right. */
  function Sum(s: seq<real>): real {
    if s == [] then 0.0 else Sum(s[..|s| - 1]) + s[|s| - 1]
  }

  /** `sum(s) / len(s) if s else 0`. */
  function Mean(s: seq<real>): real {
    if s == [] then 0.0 else Sum(s) / |s| as real
  }

  lemma {:induction false} SumAtMost(s: seq<real>, m: real)
    requires forall k :: 0 <= k < |s| ==> s[k] <= m
    ensures Sum(s) <= |s| as real * m
  {
    if s != [] {
      SumAtMost(s[..|s| - 1], m);
    }
  }

  /** Position of a largest element (the last one, scanning left to right). */
  function ArgMax(s: seq<real>): (k: nat)
    requires s != []
    ensures k < |s|
    ensures forall j :: 0 <= j < |s| ==> s[j] <= s[k]
  {
    if |s| == 1 then 0
    else
      var k := ArgMax(s[..|s| - 1]);
      assert forall j :: 0 <= j < |s| - 1 ==> s[..|s| - 1][j] == s[j];
      if s[|s| - 1] >= s[k] then |s| - 1 else k
  }

  /** Some element of a non-empty list is at least its mean. */
  lemma MeanReached(s: seq<real>)
    requires s != []
    ensures exists k :: 0 <= k < |s| && s[k] >= Mean(s)
  {
    var k := ArgMax(s);
    SumAtMost(s, s[k]);
    var n := |s| as real;
    assert Sum(s) / n <= s[k];
  }

  // ---------------------------------------------------------------------
  // Counter(s).most_common(1)[0][0]

  function Count<T(==)>(s: seq<T>, x: T): nat {
    multiset(s)[x]
  }

  /** The value with the largest count; among equally frequent values the one
      seen first (a Counter iterates its keys in insertion order and `max`
      keeps the first maximum). */
  function MostCommon<T(==)>(s: seq<T>): (r: T)
    requires s != []
    ensures r in s
  {
    s[MostCommonFrom(s, 1, 0)]
  }

  /** No value is more frequent than the most common one. */
  lemma MostCommonMax<T>(s: seq<T>)
    requires s != []
    ensures forall j :: 0 <= j < |s| ==> Count(s, s[j]) <= Count(s, MostCommon(s))
  {
    MostCommonFromBest(s, 1, 0);
  }

  /** A value strictly more frequent than every other value is the most
      common one. */
  lemma MostCommonIs<T>(s: seq<T>, i: nat)
    requires i < |s|
    requires forall j :: 0 <= j < |s| ==> s[j] == s[i] || Count(s, s[j]) < Count(s, s[i])
    ensures MostCommon(s) == s[i]
  {
    MostCommonMax(s);
    var m :| 0 <= m < |s| && s[m] == MostCommon(s);
    assert Count(s, s[i]) <= Count(s, s[m]);
  }

  /** Among equally frequent values the first seen wins. */
  lemma MostCommonFirst<T>(s: seq<T>, j: nat)
    requires j < |s| && s != []
    requires Count(s, s[j]) == Count(s, MostCommon(s))
    ensures exists m :: 0 <= m <= j && s[m] == MostCommon(s)
  {
    MostCommonFromBest(s, 1, 0);
    var k := MostCommonFrom(s, 1, 0);
    assert k <= j;
  }

  /** Scans positions `i..`, keeping in `best` the first position whose value
      has the strictly largest count so far. */
  function MostCommonFrom<T(==)>(s: seq<T>, i: nat, best: nat): (k: nat)
    requires best < i <= |s|
    ensures k < |s|
    decreases |s| - i
  {
    if i == |s| then best
    else MostCommonFrom(s, i + 1, if Count(s, s[i]) > Count(s, s[best]) then i else best)
  }

  /** When `best` holds the first most frequent value of `s[..i]`, the scan
      ends on the first most frequent value of `s`. */
  lemma {:induction false} MostCommonFromBest<T>(s: seq<T>, i: nat, best: nat)
    requires best < i <= |s|
    requires forall j :: 0 <= j < i ==> Count(s, s[j]) <= Count(s, s[best])
    requires forall j :: 0 <= j < i && Count(s, s[j]) == Count(s, s[best]) ==> best <= j
    ensures var k := MostCommonFrom(s, i, best);
      (forall j :: 0 <= j < |s| ==> Count(s, s[j]) <= Count(s, s[k])) &&
      (forall j :: 0 <= j < |s| && Count(s, s[j]) == Count(s, s[k]) ==> k <= j)
    decreases |s| - i
  {
    if i < |s| {
      MostCommonFromBest(s, i + 1, if Count(s, s[i]) > Count(s, s[best]) then i else best);
    }
  }

  // ---------------------------------------------------------------------
  // list.sort(key=...): a stable sort

  predicate SortedBy<T>(s: seq<T>, key: T -> real) {
    forall i, j :: 0 <= i < j < |s| ==> key(s[i]) <= key(s[j])
  }

  /** Inserts `x` after every element whose key is not larger than its own. */
  function Insert<T>(x: T, s: seq<T>, key: T -> real): seq<T> {
    if s == [] then [x]
    else if key(x) < key(s[0]) then [x] + s
    else [s[0]] + Insert(x, s[1..], key)
  }

  /** Insertion sort taking the elements in list order, so equal keys keep
      their relative order as in Python's stable sort. */
  function SortBy<T>(s: seq<T>, key: T -> real): seq<T> {
    if s == [] then [] else Insert(s[|s| - 1], SortBy(s[..|s| - 1], key), key)
  }

  lemma {:induction false} InsertCount<T>(x: T, s: seq<T>, key: T -> real)
    ensures multiset(Insert(x, s, key)) == multiset(s) + multiset{x}
  {
    if s != [] && key(s[0]) <= key(x) {
      InsertCount(x, s[1..], key);
      assert s == [s[0]] + s[1..];
    }
  }

  lemma {:induction false} InsertSorted<T>(x: T, s: seq<T>, key: T -> real)
    requires SortedBy(s, key)
    ensures SortedBy(Insert(x, s, key), key)
  {
    if s != [] && key(s[0]) <= key(x) {
      var r := Insert(x, s[1..], key);
      InsertSorted(x, s[1..], key);
      InsertCount(x, s[1..], key);
      forall k | 0 <= k < |r| ensures key(s[0]) <= key(r[k]) {
        assert r[k] in multiset(r);
        if r[k] != x {
          assert r[k] in multiset(s[1..]);
          var m :| 0 <= m < |s[1..]| && s[1..][m] == r[k];
          assert s[1 + m] == r[k];
        }
      }
    }
  }

  /** The sorted list is ordered by key and is a permutation of the input. */
  lemma {:induction false} SortByShape<T>(s: seq<T>, key: T -> real)
    ensures SortedBy(SortBy(s, key), key)
    ensures multiset(SortBy(s, key)) == multiset(s)
    ensures |SortBy(s, key)| == |s|
  {
    if s != [] {
      var t := s[..|s| - 1];
      SortByShape(t, key);
      InsertSorted(s[|s| - 1], SortBy(t, key), key);
      InsertCount(s[|s| - 1], SortBy(t, key), key);
      assert s == t + [s[|s| - 1]];
      assert |multiset(SortBy(s, key))| == |s|;
    }
  }

  lemma {:induction false} InsertLast<T>(x: T, s: seq<T>, key: T -> real)
    requires forall k :: 0 <= k < |s| ==> key(s[k]) <= key(x)
    ensures Insert(x, s, key) == s + [x]
  {
    if s != [] {
      InsertLast(x, s[1..], key);
    }
  }

  /** Sorting a list that is already in key order leaves it unchanged. */
  lemma {:induction false} SortBySorted<T>(s: seq<T>, key: T -> real)
    requires SortedBy(s, key)
    ensures SortBy(s, key) == s
  {
    if s != [] {
      var t := s[..|s| - 1];
      SortBySorted(t, key);
      InsertLast(s[|s| - 1], t, key);
    }
  }

  /** Extending a slice by one position appends that element. */
  lemma SliceStep<T>(s: seq<T>, i: nat, j: nat)
    requires i <= j < |s|
    ensures s[i..j + 1] == s[i..j] + [s[j]]
  {
  }

  lemma PrefixStep<T>(s: seq<T>, k: nat)
    requires k < |s|
    ensures s[..k + 1] == s[..k] + [s[k]]
  {
  }

  /** A sub-multiset stays one when both lists grow by the same element,
      or only the larger one does. */
  lemma SubStep<T>(a: seq<T>, b: seq<T>, x: T, grow: bool)
    requires multiset(a) <= multiset(b)
    ensures multiset(a + if grow then [x] else []) <= multiset(b + [x])
  {
    assert multiset(b + [x]) == multiset(b) + multiset{x};
    if grow {
      assert multiset(a + [x]) == multiset(a) + multiset{x};
    } else {
      assert a + [] == a;
    }
  }

  // ---------------------------------------------------------------------
  // list.remove and moving a work list

  /** No element occurs twice. */
  ghost predicate Distinct<T(!new)>(s: seq<T>) {
    forall x :: multiset(s)[x] <= 1
  }

  /** `s.remove(x)` for an `x` known to be present: drops its first occurrence. */
  function Remove<T(==)>(s: seq<T>, x: T): seq<T> {
    if s == [] then []
    else if s[0] == x then s[1..]
    else [s[0]] + Remove(s[1..], x)
  }

  /** `s` without every element of `m`, the rest in order. */
  function Without<T(==)>(s: seq<T>, m: seq<T>): seq<T> {
    if s == [] then [] else (if s[0] in m then [] else [s[0]]) + Without(s[1..], m)
  }

  lemma {:induction false} WithoutCount<T>(s: seq<T>, m: seq<T>, x: T)
    ensures multiset(Without(s, m))[x] == if x in m then 0 else multiset(s)[x]
  {
    if s != [] {
      WithoutCount(s[1..], m, x);
      assert s == [s[0]] + s[1..];
    }
  }

  lemma {:induction false} WithoutNothing<T>(s: seq<T>)
    ensures Without(s, []) == s
  {
    if s != [] {
      WithoutNothing(s[1..]);
    }
  }

  /** An element is kept exactly when it is not in the work list. */
  lemma WithoutMember<T>(s: seq<T>, m: seq<T>, x: T)
    ensures x in Without(s, m) <==> x in s && x !in m
  {
    WithoutCount(s, m, x);
    assert x in Without(s, m) <==> x in multiset(Without(s, m));
    assert x in s <==> x in multiset(s);
  }

  /** Part of a list without duplicates has no duplicates. */
  lemma DistinctPart<T(!new)>(part: seq<T>, s: seq<T>)
    requires Distinct(s) && multiset(part) <= multiset(s)
    ensures Distinct(part)
  {
    forall x ensures multiset(part)[x] <= 1 {
      assert multiset(s)[x] <= 1;
    }
  }

  lemma {:induction false} WithoutAbsent<T>(s: seq<T>, m: seq<T>, x: T)
    requires x !in s
    ensures Without(s, m + [x]) == Without(s, m)
  {
    if s != [] {
      WithoutAbsent(s[1..], m, x);
    }
  }

  /** Removing one more element from a list of distinct elements extends the
      work list by it. */
  lemma {:induction false} RemoveWithout<T(!new)>(s: seq<T>, m: seq<T>, x: T)
    requires Distinct(s)
    ensures Remove(Without(s, m), x) == Without(s, m + [x])
  {
    if s != [] {
      assert s == [s[0]] + s[1..];
      assert multiset(s) == multiset{s[0]} + multiset(s[1..]);
      assert Distinct(s[1..]) by {
        forall y ensures multiset(s[1..])[y] <= 1 {
          assert multiset(s)[y] <= 1;
        }
      }
      if s[0] in m {
        assert s[0] in m + [x];
        assert Without(s, m) == Without(s[1..], m);
        assert Without(s, m + [x]) == Without(s[1..], m + [x]);
        RemoveWithout(s[1..], m, x);
      } else if s[0] == x {
        assert multiset(s)[x] <= 1;
        assert x !in s[1..];
        WithoutAbsent(s[1..], m, x);
      } else {
        assert s[0] !in m + [x];
        RemoveWithout(s[1..], m, x);
      }
    }
  }

  /** Moving a work list of distinct members of a distinct list `s` out of
      it loses and duplicates nothing. */
  lemma WithoutSplit<T(!new)>(s: seq<T>, m: seq<T>)
    requires Distinct(s) && Distinct(m)
    requires forall x :: x in m ==> x in s
    ensures multiset(Without(s, m)) + multiset(m) == multiset(s)
  {
    forall x ensures (multiset(Without(s, m)) + multiset(m))[x] == multiset(s)[x] {
      WithoutCount(s, m, x);
      assert multiset(s)[x] <= 1 && multiset(m)[x] <= 1;
    }
  }
}
