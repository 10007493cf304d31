/** The language's built-in stable sort by a numeric key, written as insertion sort. */
module StableSort {
  import opened Sequences

  function Insert<T>(x: T, s: seq<T>, key: T -> real): seq<T> {
    if s == [] || key(x) <= key(s[0]) then [x] + s
    else [s[0]] + Insert(x, s[1..], key)
  }

  function Sort<T>(s: seq<T>, key: T -> real): seq<T> {
    if s == [] then [] else Insert(s[0], Sort(s[1..], key), key)
  }

  ghost predicate SortedBy<T(!new)>(s: seq<T>, key: T -> real) {
    forall i, j | 0 <= i < j < |s| :: key(s[i]) <= key(s[j])
  }

  /** The elements of s whose key is k, in the order of s. */
  function WithKey<T>(s: seq<T>, key: T -> real, k: real): seq<T> {
    if s == [] then []
    else (if key(s[0]) == k then [s[0]] else []) + WithKey(s[1..], key, k)
  }

  lemma {:induction false} InsertElements<T>(x: T, s: seq<T>, key: T -> real)
    ensures multiset(Insert(x, s, key)) == multiset{x} + multiset(s)
  {
    if s != [] && key(x) > key(s[0]) {
      InsertElements(x, s[1..], key);
      assert s == [s[0]] + s[1..];
    }
  }

  lemma {:induction false} InsertSorted<T(!new)>(x: T, s: seq<T>, key: T -> real)
    requires SortedBy(s, key)
    ensures SortedBy(Insert(x, s, key), key)
  {
    if s != [] && key(x) > key(s[0]) {
      InsertSorted(x, s[1..], key);
      InsertElements(x, s[1..], key);
      var rest := Insert(x, s[1..], key);
      forall j | 0 <= j < |rest|
        ensures key(s[0]) <= key(rest[j])
      {
        assert rest[j] in multiset(rest);
        assert rest[j] == x || rest[j] in s[1..];
      }
      assert Insert(x, s, key) == [s[0]] + rest;
    } else {
      assert forall j | 0 <= j < |s| :: key(x) <= key(s[j]);
    }
  }

  lemma WithKeyCons<T>(x: T, s: seq<T>, key: T -> real, k: real)
    ensures WithKey([x] + s, key, k) == (if key(x) == k then [x] else []) + WithKey(s, key, k)
  {
    assert ([x] + s)[1..] == s;
  }

  lemma {:induction false} InsertStable<T>(x: T, s: seq<T>, key: T -> real, k: real)
    ensures WithKey(Insert(x, s, key), key, k)
         == (if key(x) == k then [x] else []) + WithKey(s, key, k)
  {
    if s == [] || key(x) <= key(s[0]) {
      WithKeyCons(x, s, key, k);
    } else {
      InsertStable(x, s[1..], key, k);
      WithKeyCons(s[0], Insert(x, s[1..], key), key, k);
      if key(x) == k {
        assert key(s[0]) != k;
      }
    }
  }

  /** Sorting permutes the list, orders it by key, and keeps the order of equal keys. */
  lemma {:induction false} SortProperties<T(!new)>(s: seq<T>, key: T -> real)
    ensures multiset(Sort(s, key)) == multiset(s)
    ensures |Sort(s, key)| == |s|
    ensures SortedBy(Sort(s, key), key)
    ensures forall k :: WithKey(Sort(s, key), key, k) == WithKey(s, key, k)
  {
    if s != [] {
      SortProperties(s[1..], key);
      InsertElements(s[0], Sort(s[1..], key), key);
      InsertSorted(s[0], Sort(s[1..], key), key);
      assert s == [s[0]] + s[1..];
      forall k
        ensures WithKey(Sort(s, key), key, k) == WithKey(s, key, k)
      {
        InsertStable(s[0], Sort(s[1..], key), key, k);
      }
    }
    assert |multiset(Sort(s, key))| == |multiset(s)|;
  }

  lemma {:induction false} WithKeyIndexes<T>(s: seq<T>, key: T -> real, k: real, i: nat, j: nat) returns (a: nat, b: nat)
    requires i < j < |s| && key(s[i]) == key(s[j]) == k
    ensures a < b < |WithKey(s, key, k)| && WithKey(s, key, k)[a] == s[i] && WithKey(s, key, k)[b] == s[j]
  {
    var head := if key(s[0]) == k then [s[0]] else [];
    if i > 0 {
      a, b := WithKeyIndexes(s[1..], key, k, i - 1, j - 1);
      a, b := a + |head|, b + |head|;
    } else {
      a := 0;
      b := WithKeyIndex(s[1..], key, k, j - 1);
      b := b + 1;
    }
  }

  lemma {:induction false} WithKeyIndex<T>(s: seq<T>, key: T -> real, k: real, i: nat) returns (a: nat)
    requires i < |s| && key(s[i]) == k
    ensures a < |WithKey(s, key, k)| && WithKey(s, key, k)[a] == s[i]
  {
    if i > 0 {
      a := WithKeyIndex(s[1..], key, k, i - 1);
      a := a + if key(s[0]) == k then 1 else 0;
    } else {
      a := 0;
    }
  }

  /** Where the keys of two elements tie, the sorted list has them in list order. */
  lemma TiesKeepListOrder<T(!new)>(s: seq<T>, key: T -> real, i: nat, j: nat, x: nat, y: nat)
    requires NoDup(s) && i < j < |s| && key(s[i]) == key(s[j])
    requires x < |Sort(s, key)| && y < |Sort(s, key)| && Sort(s, key)[x] == s[i] && Sort(s, key)[y] == s[j]
    ensures x < y
  {
    var k, sorted := key(s[i]), Sort(s, key);
    SortProperties(s, key);
    WithKeyElements(s, key, k);
    var a, b := WithKeyIndexes(s, key, k, i, j);
    if y <= x {
      assert s[i] != s[j];
      var c, d := WithKeyIndexes(sorted, key, k, y, x);
      assert false;
    }
  }

  /** x comes before y in s. */
  predicate ComesBefore<T(==)>(s: seq<T>, x: T, y: T) {
    exists i, j | 0 <= i < j < |s| :: s[i] == x && s[j] == y
  }

  lemma PositionIn<T(!new)>(s: seq<T>, key: T -> real, x: T) returns (i: nat)
    requires x in s
    ensures i < |Sort(s, key)| && Sort(s, key)[i] == x
  {
    SortProperties(s, key);
    assert x in multiset(Sort(s, key));
    i :| 0 <= i < |Sort(s, key)| && Sort(s, key)[i] == x;
  }

  /** Where two elements stand that differ in their keys, or come one before the other. */
  lemma PositionsIn<T(!new)>(s: seq<T>, key: T -> real, x: T, y: T) returns (i: nat, j: nat)
    requires NoDup(s) && x in s && y in s
    requires key(x) < key(y) || (key(x) == key(y) && ComesBefore(s, x, y))
    ensures i < j < |Sort(s, key)| && Sort(s, key)[i] == x && Sort(s, key)[j] == y
  {
    i := PositionIn(s, key, x);
    j := PositionIn(s, key, y);
    if key(x) < key(y) {
      SortProperties(s, key);
    } else {
      var a, b :| 0 <= a < b < |s| && s[a] == x && s[b] == y;
      TiesKeepListOrder(s, key, a, b, i, j);
    }
  }

  lemma SortPair<T>(a: T, b: T, key: T -> real)
    requires key(a) == key(b)
    ensures Sort([a, b], key) == [a, b]
  {
    assert [a, b][1..] == [b] && [b][1..] == [];
    assert Sort([b], key) == Insert(b, [], key) == [b];
    assert Insert(a, [b], key) == [a] + [b];
  }

  // ----- Sorting the other way round -----

  function Reversed<T>(s: seq<T>): (r: seq<T>)
    ensures |r| == |s|
  {
    seq(|s|, i requires 0 <= i < |s| => s[|s| - 1 - i])
  }

  lemma {:induction false} ReversedElements<T>(s: seq<T>)
    ensures multiset(Reversed(s)) == multiset(s)
  {
    if s != [] {
      var init, last := s[..|s| - 1], s[|s| - 1];
      ReversedElements(init);
      assert s == init + [last];
      assert Reversed(s) == [last] + Reversed(init);
    }
  }

  ghost predicate Ascending<T(!new)>(s: seq<T>, key: T -> real) {
    forall i, j | 0 <= i < j < |s| :: key(s[i]) < key(s[j])
  }

  lemma SmallestComesFirst<T(!new)>(a: seq<T>, b: seq<T>, key: T -> real)
    requires Ascending(a, key) && Ascending(b, key) && multiset(a) == multiset(b) && a != []
    ensures b != [] && a[0] == b[0]
  {
    var k := FindHead(a, b);
    assert b[0] in multiset(a);
    var i :| 0 <= i < |a| && a[i] == b[0];
    if k > 0 {
      assert false;
    }
  }

  lemma TailElements<T>(s: seq<T>)
    requires s != []
    ensures multiset(s[1..]) == multiset(s) - multiset{s[0]}
  {
    assert s == [s[0]] + s[1..];
  }

  /** A list with ascending keys is the only such arrangement of its elements. */
  lemma {:induction false} AscendingIsUnique<T(!new)>(a: seq<T>, b: seq<T>, key: T -> real)
    requires Ascending(a, key) && Ascending(b, key) && multiset(a) == multiset(b)
    ensures a == b
  {
    if a == [] {
      assert |multiset(b)| == 0;
    } else {
      SmallestComesFirst(a, b, key);
      TailElements(a);
      TailElements(b);
      AscendingIsUnique(a[1..], b[1..], key);
    }
  }

  /** back orders the other way round. */
  ghost predicate Opposite<T(!new)>(key: T -> real, back: T -> real) {
    forall x :: back(x) == -key(x)
  }

  lemma SortAscends<T(!new)>(s: seq<T>, key: T -> real)
    requires NoDup(Map(key, s))
    ensures Ascending(Sort(s, key), key)
  {
    var sorted := Sort(s, key);
    SortProperties(s, key);
    MapPermutation(key, s, sorted);
    NoDupPermutation(Map(key, s), Map(key, sorted));
    forall i, j | 0 <= i < j < |sorted|
      ensures key(sorted[i]) < key(sorted[j])
    {
      assert Map(key, sorted)[i] != Map(key, sorted)[j];
    }
  }

  lemma OppositeSortReverses<T(!new)>(s: seq<T>, key: T -> real, back: T -> real)
    requires Opposite(key, back) && NoDup(Map(key, s))
    ensures Sort(s, back) == Reversed(Sort(s, key))
  {
    forall i, j | 0 <= i < j < |s|
      ensures Map(back, s)[i] != Map(back, s)[j]
    {
      assert Map(key, s)[i] != Map(key, s)[j];
    }
    SortAscends(s, key);
    SortAscends(s, back);
    SortProperties(s, key);
    SortProperties(s, back);
    ReversedElements(Sort(s, key));
    AscendingIsUnique(Sort(s, back), Reversed(Sort(s, key)), back);
  }

  lemma {:induction false} WithKeyElements<T>(s: seq<T>, key: T -> real, k: real)
    ensures forall x :: x in WithKey(s, key, k) <==> x in s && key(x) == k
    ensures NoDup(s) ==> NoDup(WithKey(s, key, k))
  {
    if s != [] {
      WithKeyElements(s[1..], key, k);
      assert s == [s[0]] + s[1..];
    }
  }

  lemma {:induction false} WithOppositeKey<T(!new)>(s: seq<T>, key: T -> real, back: T -> real, k: real)
    requires Opposite(key, back)
    ensures WithKey(s, back, -k) == WithKey(s, key, k)
  {
    if s != [] {
      WithOppositeKey(s[1..], key, back, k);
    }
  }

  lemma {:induction false} WithKeySnoc<T>(s: seq<T>, x: T, key: T -> real, k: real)
    ensures WithKey(s + [x], key, k) == WithKey(s, key, k) + (if key(x) == k then [x] else [])
  {
    if s == [] {
      assert s + [x] == [x];
      assert [x][1..] == [];
    } else {
      WithKeySnoc(s[1..], x, key, k);
      assert s + [x] == [s[0]] + (s[1..] + [x]);
      WithKeyCons(s[0], s[1..] + [x], key, k);
    }
  }

  lemma {:induction false} WithKeyReversed<T>(s: seq<T>, key: T -> real, k: real)
    ensures WithKey(Reversed(s), key, k) == Reversed(WithKey(s, key, k))
  {
    if s != [] {
      WithKeyReversed(s[1..], key, k);
      assert Reversed(s) == Reversed(s[1..]) + [s[0]];
      WithKeySnoc(Reversed(s[1..]), s[0], key, k);
    }
  }

  lemma SortKeepsTies<T(!new)>(s: seq<T>, key: T -> real, k: real)
    ensures WithKey(Sort(s, key), key, k) == WithKey(s, key, k)
  {
    SortProperties(s, key);
  }

  lemma OppositeSortKeepsTies<T(!new)>(s: seq<T>, key: T -> real, back: T -> real, k: real)
    requires Opposite(key, back)
    ensures WithKey(Sort(s, back), key, k) == WithKey(s, key, k)
  {
    SortKeepsTies(s, back, -k);
    WithOppositeKey(s, key, back, k);
    WithOppositeKey(Sort(s, back), key, back, k);
  }

  lemma NotItsOwnReverse<T>(s: seq<T>, x: T, y: T)
    requires NoDup(s) && x in s && y in s && x != y
    ensures s != Reversed(s)
  {
    assert |s| > 1;
    assert Reversed(s)[0] == s[|s| - 1] != s[0];
  }

  /** Two elements of equal key keep their order both ways. */
  lemma TiesAreNotReversed<T(!new)>(s: seq<T>, key: T -> real, back: T -> real, i: nat, j: nat)
    requires Opposite(key, back) && NoDup(s) && i < j < |s| && key(s[i]) == key(s[j])
    ensures Sort(s, back) != Reversed(Sort(s, key))
  {
    var k := key(s[i]);
    SortKeepsTies(s, key, k);
    OppositeSortKeepsTies(s, key, back, k);
    WithKeyReversed(Sort(s, key), key, k);
    WithKeyElements(s, key, k);
    NotItsOwnReverse(WithKey(s, key, k), s[i], s[j]);
  }

  /** Sorting by the opposite key reverses the sorted list exactly when no two keys are equal. */
  lemma ReversedIffNoTies<T(!new)>(s: seq<T>, key: T -> real, back: T -> real)
    requires Opposite(key, back) && NoDup(s)
    ensures Sort(s, back) == Reversed(Sort(s, key)) <==> NoDup(Map(key, s))
  {
    if NoDup(Map(key, s)) {
      OppositeSortReverses(s, key, back);
    } else {
      var i, j :| 0 <= i < j < |s| && Map(key, s)[i] == Map(key, s)[j];
      TiesAreNotReversed(s, key, back, i, j);
    }
  }
}
