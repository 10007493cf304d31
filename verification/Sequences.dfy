/** Duplicate-free sequences, ordered dictionaries' keys, and finite sums of reals. */
module Sequences {

  ghost predicate NoDup<T>(s: seq<T>) {
    forall i, j | 0 <= i < j < |s| :: s[i] != s[j]
  }

  function ToSet<T>(s: seq<T>): set<T> {
    set x | x in s
  }

  lemma ToSetSnoc<T>(s: seq<T>, x: T)
    ensures ToSet(s + [x]) == ToSet(s) + {x}
  {
  }

  lemma NoDupSnoc<T>(s: seq<T>, x: T)
    ensures NoDup(s + [x]) <==> NoDup(s) && x !in s
  {
    var t := s + [x];
    assert forall i | 0 <= i < |s| :: t[i] == s[i];
    assert t[|s|] == x;
    if NoDup(t) {
      forall i, j | 0 <= i < j < |s|
        ensures s[i] != s[j]
      {
        assert t[i] != t[j];
      }
    }
  }

  /** The keys of a dictionary filled in the order of s: first occurrences only. */
  function Dedup<T(==)>(s: seq<T>): seq<T> {
    if s == [] then []
    else
      var init := Dedup(s[..|s| - 1]);
      var last := s[|s| - 1];
      if last in init then init else init + [last]
  }

  lemma DedupKeepsElements<T>(s: seq<T>)
    ensures NoDup(Dedup(s))
    ensures forall x :: x in Dedup(s) <==> x in s
  {
    if s != [] {
      DedupKeepsElements(s[..|s| - 1]);
      assert s == s[..|s| - 1] + [s[|s| - 1]];
    }
  }

  lemma {:induction false} DedupOfNoDup<T>(s: seq<T>)
    requires NoDup(s)
    ensures Dedup(s) == s
  {
    if s != [] {
      DedupOfNoDup(s[..|s| - 1]);
      assert s == s[..|s| - 1] + [s[|s| - 1]];
    }
  }

  lemma {:induction false} NoDupBound<T>(s: seq<T>, u: set<T>)
    requires NoDup(s)
    requires forall x | x in s :: x in u
    ensures |s| <= |u|
  {
    if s != [] {
      var last := s[|s| - 1];
      assert last in s;
      NoDupBound(s[..|s| - 1], u - {last});
    }
  }

  lemma {:induction false} NoDupCardinality<T>(s: seq<T>)
    requires NoDup(s)
    ensures |ToSet(s)| == |s|
  {
    if s != [] {
      var init, last := s[..|s| - 1], s[|s| - 1];
      NoDupCardinality(init);
      assert s == init + [last];
      assert ToSet(s) == ToSet(init) + {last};
    }
  }

  function Sum(s: seq<real>): real {
    if s == [] then 0.0 else s[0] + Sum(s[1..])
  }

  lemma {:induction false} SumAppend(a: seq<real>, b: seq<real>)
    ensures Sum(a + b) == Sum(a) + Sum(b)
  {
    if a == [] {
      assert a + b == b;
    } else {
      assert (a + b)[1..] == a[1..] + b;
      SumAppend(a[1..], b);
    }
  }

  lemma TakeSnoc<T>(s: seq<T>, n: nat)
    requires n < |s|
    ensures s[..n + 1] == s[..n] + [s[n]]
  {
  }

  lemma SnocAt<T>(s: seq<T>, x: T, t: nat)
    requires t <= |s|
    ensures (s + [x])[t] == if t < |s| then s[t] else x
  {
  }

  lemma SumSnoc(a: seq<real>, x: real)
    ensures Sum(a + [x]) == Sum(a) + x
  {
    SumAppend(a, [x]);
  }

  /** Two series added element by element. */
  function AddSeries(a: seq<real>, b: seq<real>): (r: seq<real>)
    requires |a| == |b|
    ensures |r| == |a|
  {
    seq(|a|, t requires 0 <= t < |a| => a[t] + b[t])
  }

  lemma {:induction false} SumAddSeries(a: seq<real>, b: seq<real>)
    requires |a| == |b|
    ensures Sum(AddSeries(a, b)) == Sum(a) + Sum(b)
  {
    if a != [] {
      SumAddSeries(a[1..], b[1..]);
      assert AddSeries(a, b)[1..] == AddSeries(a[1..], b[1..]);
    }
  }

  lemma SumReplaced(s: seq<real>, i: nat, v: real)
    requires i < |s|
    ensures Sum(s[i := v]) == Sum(s) - s[i] + v
  {
    assert s == s[..i] + ([s[i]] + s[i + 1..]);
    assert s[i := v] == s[..i] + ([v] + s[i + 1..]);
    SumAppend(s[..i], [s[i]] + s[i + 1..]);
    SumAppend(s[..i], [v] + s[i + 1..]);
  }

  /** s without its i-th element. */
  function Without<T>(s: seq<T>, i: nat): (r: seq<T>)
    requires i < |s|
    ensures |r| == |s| - 1
  {
    s[..i] + s[i + 1..]
  }

  lemma WithoutFrom<T>(s: seq<T>, i: nat, k: nat)
    requires i < |s| && k < |s| - 1
    ensures Without(s, i)[k] == s[if k < i then k else k + 1]
  {
  }

  lemma SumCons(x: real, s: seq<real>)
    ensures Sum([x] + s) == x + Sum(s)
  {
    assert ([x] + s)[1..] == s;
  }

  lemma SplitAt<T>(s: seq<T>, i: nat)
    requires i < |s|
    ensures s == s[..i] + ([s[i]] + s[i + 1..])
  {
  }

  lemma SumAround(front: seq<real>, x: real, back: seq<real>)
    ensures Sum(front + ([x] + back)) == x + Sum(front + back)
  {
    SumAppend(front, [x] + back);
    SumAppend(front, back);
    SumCons(x, back);
  }

  lemma SumWithout(s: seq<real>, i: nat)
    requires i < |s|
    ensures Sum(s) == s[i] + Sum(Without(s, i))
  {
    SplitAt(s, i);
    SumAround(s[..i], s[i], s[i + 1..]);
  }

  lemma {:induction false} SumOfEqual(s: seq<real>, x: real)
    requires forall i | 0 <= i < |s| :: s[i] == x
    ensures Sum(s) == |s| as real * x
  {
    if s != [] {
      SumOfEqual(s[1..], x);
      assert |s| as real * x == x + (|s| - 1) as real * x;
    }
  }

  /** The sum of f over the elements of a list. */
  function SumOver<S>(s: seq<S>, f: S -> real): real {
    if s == [] then 0.0 else f(s[0]) + SumOver(s[1..], f)
  }

  lemma SumOverOne<S>(x: S, f: S -> real)
    ensures SumOver([x], f) == f(x)
  {
    assert [x][1..] == [];
  }

  lemma {:induction false} SumOverIsSum<S>(s: seq<S>, f: S -> real)
    ensures SumOver(s, f) == Sum(Map(f, s))
  {
    if s != [] {
      SumOverIsSum(s[1..], f);
      assert Map(f, s)[1..] == Map(f, s[1..]);
    }
  }

  /** It does not depend on the order of the list. */
  lemma SumOverPermutation<S>(a: seq<S>, b: seq<S>, f: S -> real)
    requires multiset(a) == multiset(b)
    ensures SumOver(a, f) == SumOver(b, f)
  {
    SumOverIsSum(a, f);
    SumOverIsSum(b, f);
    MapPermutation(f, a, b);
    SumPermutation(Map(f, a), Map(f, b));
  }

  lemma {:induction false} SumOverMonotone<S>(s: seq<S>, f: S -> real, g: S -> real)
    requires forall x | x in s :: f(x) <= g(x)
    ensures SumOver(s, f) <= SumOver(s, g)
  {
    if s != [] {
      SumOverMonotone(s[1..], f, g);
    }
  }

  lemma {:induction false} SumOverSame<S>(s: seq<S>, f: S -> real, g: S -> real)
    requires forall x | x in s :: f(x) == g(x)
    ensures SumOver(s, f) == SumOver(s, g)
  {
    if s != [] {
      SumOverSame(s[1..], f, g);
    }
  }

  lemma {:induction false} SumOverAdd<S>(s: seq<S>, f: S -> real, g: S -> real, h: S -> real)
    requires forall x | x in s :: f(x) == g(x) + h(x)
    ensures SumOver(s, f) == SumOver(s, g) + SumOver(s, h)
  {
    if s != [] {
      SumOverAdd(s[1..], f, g, h);
    }
  }

  /** Two lists whose elements match pair by pair under f and g. */
  lemma {:induction false} SumOverMatched<S, T>(a: seq<S>, f: S -> real, b: seq<T>, g: T -> real)
    requires |a| == |b|
    requires forall k | 0 <= k < |a| :: f(a[k]) == g(b[k])
    ensures SumOver(a, f) == SumOver(b, g)
  {
    if a != [] {
      SumOverMatched(a[1..], f, b[1..], g);
    }
  }

  lemma SumOverNonNegative<S>(s: seq<S>, f: S -> real)
    requires forall x | x in s :: f(x) >= 0.0
    ensures SumOver(s, f) >= 0.0
  {
  }

  lemma {:induction false} SumOverZero<S>(s: seq<S>, f: S -> real)
    requires forall x | x in s :: f(x) >= 0.0
    ensures SumOver(s, f) == 0.0 <==> forall x | x in s :: f(x) == 0.0
  {
    if s != [] {
      assert s[0] in s;
      assert forall x | x in s[1..] :: x in s;
      SumOverZero(s[1..], f);
      SumOverNonNegative(s[1..], f);
      assert forall x | x in s :: x == s[0] || x in s[1..];
    }
  }

  lemma {:induction false} SumOverAppend<S>(a: seq<S>, b: seq<S>, f: S -> real)
    ensures SumOver(a + b, f) == SumOver(a, f) + SumOver(b, f)
  {
    if a == [] {
      assert a + b == b;
    } else {
      assert (a + b)[1..] == a[1..] + b;
      SumOverAppend(a[1..], b, f);
    }
  }

  /** A partial sum grows by the element it takes in. */
  lemma SumOverTake<S>(s: seq<S>, i: nat, f: S -> real)
    requires i < |s|
    ensures SumOver(s[..i + 1], f) == SumOver(s[..i], f) + f(s[i])
  {
    assert s[..i + 1] == s[..i] + [s[i]];
    SumOverAppend(s[..i], [s[i]], f);
  }

  lemma NoDupPermutation<T>(a: seq<T>, b: seq<T>)
    requires multiset(a) == multiset(b) && NoDup(a)
    ensures NoDup(b)
  {
    forall i, j | 0 <= i < j < |b|
      ensures b[i] != b[j]
    {
      if b[i] == b[j] {
        assert b == b[..i] + [b[i]] + b[i + 1..j] + [b[j]] + b[j + 1..];
        assert multiset(b)[b[i]] >= 2;
        NoDupMultiplicity(a, b[i]);
        assert false;
      }
    }
  }

  lemma {:induction false} NoDupMultiplicity<T>(s: seq<T>, x: T)
    requires NoDup(s)
    ensures multiset(s)[x] <= 1
  {
    if s != [] {
      assert s == [s[0]] + s[1..];
      NoDupMultiplicity(s[1..], x);
      if x == s[0] {
        assert x !in s[1..];
      }
    }
  }

  /** Two lists without duplicates and with the same elements are permutations of each other. */
  lemma SameElementsSameMultiset<T(!new)>(a: seq<T>, b: seq<T>)
    requires NoDup(a) && NoDup(b) && forall x :: x in a <==> x in b
    ensures multiset(a) == multiset(b)
  {
    forall x
      ensures multiset(a)[x] == multiset(b)[x]
    {
      NoDupMultiplicity(a, x);
      NoDupMultiplicity(b, x);
      assert x in a <==> x in multiset(a);
      assert x in b <==> x in multiset(b);
    }
  }

  lemma {:induction false} SumMonotone(a: seq<real>, b: seq<real>)
    requires |a| == |b|
    requires forall i | 0 <= i < |a| :: a[i] <= b[i]
    ensures Sum(a) <= Sum(b)
  {
    if a != [] {
      SumMonotone(a[1..], b[1..]);
    }
  }

  /** Applies f to every element. */
  function Map<S, T>(f: S -> T, s: seq<S>): (r: seq<T>)
    ensures |r| == |s|
    ensures forall i | 0 <= i < |s| :: r[i] == f(s[i])
  {
    seq(|s|, i requires 0 <= i < |s| => f(s[i]))
  }

  lemma MapConcat<S, T>(f: S -> T, a: seq<S>, b: seq<S>)
    ensures Map(f, a + b) == Map(f, a) + Map(f, b)
  {
  }

  /** Two permutations of each other: the first's head sits somewhere in the second. */
  lemma FindHead<S>(a: seq<S>, b: seq<S>) returns (k: nat)
    requires a != []
    requires multiset(a) == multiset(b)
    ensures k < |b| && b[k] == a[0]
    ensures b == b[..k] + ([a[0]] + b[k + 1..])
    ensures multiset(b[..k] + b[k + 1..]) == multiset(a[1..])
  {
    assert a[0] in multiset(b);
    k :| 0 <= k < |b| && b[k] == a[0];
    assert a == [a[0]] + a[1..];
    assert b == b[..k] + ([b[k]] + b[k + 1..]);
    assert multiset(b[..k] + b[k + 1..]) == multiset(b) - multiset{b[k]};
    assert multiset(a[1..]) == multiset(a) - multiset{a[0]};
  }

  lemma {:induction false} SumPermutation(a: seq<real>, b: seq<real>)
    requires multiset(a) == multiset(b)
    ensures Sum(a) == Sum(b)
  {
    if a == [] {
      assert |b| == |multiset(b)| == 0;
    } else {
      var k := FindHead(a, b);
      SumPermutation(a[1..], b[..k] + b[k + 1..]);
      SumAppend(b[..k], [a[0]] + b[k + 1..]);
      SumAppend(b[..k], b[k + 1..]);
    }
  }

  lemma {:induction false} MapPermutation<S, T>(f: S -> T, a: seq<S>, b: seq<S>)
    requires multiset(a) == multiset(b)
    ensures multiset(Map(f, a)) == multiset(Map(f, b))
  {
    if a == [] {
      assert |b| == |multiset(b)| == 0;
    } else {
      var k := FindHead(a, b);
      var front, back := b[..k], b[k + 1..];
      MapPermutation(f, a[1..], front + back);
      calc {
        multiset(Map(f, b));
        { MapConcat(f, front, [a[0]] + back); }
        multiset(Map(f, front) + Map(f, [a[0]] + back));
        { MapConcat(f, [a[0]], back); }
        multiset(Map(f, front) + (Map(f, [a[0]]) + Map(f, back)));
        multiset(Map(f, [a[0]])) + multiset(Map(f, front) + Map(f, back));
        { MapConcat(f, front, back); }
        multiset(Map(f, [a[0]])) + multiset(Map(f, front + back));
        multiset(Map(f, [a[0]])) + multiset(Map(f, a[1..]));
        { MapConcat(f, [a[0]], a[1..]); assert a == [a[0]] + a[1..]; }
        multiset(Map(f, a));
      }
    }
  }

  function Min(x: real, y: real): real {
    if y < x then y else x
  }

  function Max(x: real, y: real): real {
    if y > x then y else x
  }

  function Abs(x: real): real {
    if x < 0.0 then -x else x
  }

  function Clamp(x: real, lo: real, hi: real): (r: real)
    ensures lo <= hi ==> lo <= r <= hi
    ensures lo <= x <= hi ==> r == x
    ensures r == lo || r == hi || r == x
  {
    Max(lo, Min(hi, x))
  }

  function Zeros(n: nat): (r: seq<real>)
    ensures |r| == n
  {
    seq(n, _ => 0.0)
  }

  function Lookup<K, V>(m: map<K, V>, k: K, otherwise: V): V {
    if k in m then m[k] else otherwise
  }
}
