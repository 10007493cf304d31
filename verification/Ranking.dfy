/** Average ranks and their rank correlation (weekly_validator.py). */
module Ranking {
  import opened Sequences
  import opened StableSort

  // ----- The rank of a value -----

  /** One where x lies below v, one half where they tie. */
  function Ahead(x: real, v: real): real {
    if x < v then 1.0 else if x == v then 0.5 else 0.0
  }

  function IsLess(v: real): real -> real {
    (x: real) => if x < v then 1.0 else 0.0
  }

  function IsTied(v: real): real -> real {
    (x: real) => if x == v then 1.0 else 0.0
  }

  function IsAhead(v: real): real -> real {
    (x: real) => Ahead(x, v)
  }

  /** Average rank by counting: smaller values, and the middle of the tied ones. */
  function RankOf(values: seq<real>, v: real): real {
    SumOver(values, IsLess(v)) + (SumOver(values, IsTied(v)) + 1.0) / 2.0
  }

  function Ranks(values: seq<real>): (ranks: seq<real>)
    ensures |ranks| == |values|
  {
    seq(|values|, i requires 0 <= i < |values| => RankOf(values, values[i]))
  }

  lemma {:induction false} RankOfIsAhead(values: seq<real>, v: real)
    ensures RankOf(values, v) == SumOver(values, IsAhead(v)) + 0.5
  {
    if values != [] {
      RankOfIsAhead(values[1..], v);
    }
  }

  // ----- The sort-and-group loop -----

  datatype Entry = Entry(index: nat, value: real)

  const VALUE: Entry -> real := (e: Entry) => e.value

  function Enumerate(values: seq<real>): (entries: seq<Entry>)
    ensures |entries| == |values|
  {
    seq(|values|, i requires 0 <= i < |values| => Entry(i, values[i]))
  }

  /** The values lo to hi - 1 of a sorted list are exactly those equal to v. */
  ghost predicate IsGroup(s: seq<real>, lo: nat, hi: nat, v: real) {
    && lo <= hi <= |s|
    && (forall k | 0 <= k < lo :: s[k] < v)
    && (forall k | lo <= k < hi :: s[k] == v)
    && (forall k | hi <= k < |s| :: s[k] > v)
  }

  /** The middle position of a group is the rank of its value. */
  lemma GroupRank(s: seq<real>, lo: nat, hi: nat, v: real)
    requires IsGroup(s, lo, hi, v)
    ensures RankOf(s, v) == lo as real + ((hi - lo) as real + 1.0) / 2.0
  {
    CountPrefix(s, lo, IsLess(v));
    CountPrefix(s[lo..], hi - lo, IsTied(v));
    assert s == s[..lo] + s[lo..];
    SumOverAppend(s[..lo], s[lo..], IsTied(v));
    SumOverZero(s[..lo], IsTied(v));
  }

  lemma {:induction false} CountPrefix(s: seq<real>, n: nat, f: real -> real)
    requires n <= |s|
    requires forall k | 0 <= k < n :: f(s[k]) == 1.0
    requires forall k | n <= k < |s| :: f(s[k]) == 0.0
    ensures SumOver(s, f) == n as real
  {
    if s != [] {
      var m := if n > 0 then n - 1 else 0;
      forall k | 0 <= k < |s| - 1
        ensures f(s[1..][k]) == if k < m then 1.0 else 0.0
      {
        assert s[1..][k] == s[k + 1];
      }
      CountPrefix(s[1..], m, f);
    }
  }

  /** The positions of values, sorted by value. */
  ghost predicate SortedPositions(values: seq<real>, indexed: seq<Entry>) {
    && |indexed| == |values|
    && multiset(Map(VALUE, indexed)) == multiset(values)
    && SortedBy(indexed, VALUE)
    && (forall e | e in indexed :: e.index < |values| && values[e.index] == e.value)
    && (forall i | 0 <= i < |values| :: Entry(i, values[i]) in indexed)
  }

  lemma SortedEntries(values: seq<real>)
    ensures SortedPositions(values, Sort(Enumerate(values), VALUE))
  {
    var entries := Enumerate(values);
    var sorted := Sort(entries, VALUE);
    SortProperties(entries, VALUE);
    MapPermutation(VALUE, sorted, entries);
    assert Map(VALUE, entries) == values;
    forall e | e in sorted
      ensures e in entries
    {
      assert e in multiset(sorted);
    }
    forall i | 0 <= i < |values|
      ensures Entry(i, values[i]) in sorted
    {
      assert entries[i] in multiset(entries);
    }
  }

  /** Sorts the positions by value and gives every group of equal values the average of the
      positions it fills. */
  method Rank(values: seq<real>) returns (ranks: array<real>)
    ensures fresh(ranks) && ranks[..] == Ranks(values)
  {
    var n := |values|;
    var indexed := Sort(Enumerate(values), VALUE);
    SortedEntries(values);
    ranks := new real[n](_ => 0.0);
    NonePlaced(values, indexed, ranks[..]);
    var i := 0;
    while i < n
      invariant 0 <= i <= n == ranks.Length == |indexed|
      invariant AtGroupStart(indexed, i)
      invariant Placed(ranks[..], Ranks(values), indexed, i)
    {
      i := RankGroup(values, indexed, ranks, i);
    }
    AllPlaced(values, indexed, ranks[..]);
  }

  ghost predicate AtGroupStart(indexed: seq<Entry>, i: nat) {
    0 < i < |indexed| ==> indexed[i - 1].value < indexed[i].value
  }

  /** Ranks the group that starts at i. */
  method RankGroup(values: seq<real>, indexed: seq<Entry>, ranks: array<real>, i: nat) returns (next: nat)
    requires SortedPositions(values, indexed) && AtGroupStart(indexed, i) && i < |indexed|
    requires Placed(ranks[..], Ranks(values), indexed, i)
    modifies ranks
    ensures i < next <= |indexed| && AtGroupStart(indexed, next)
    ensures Placed(ranks[..], Ranks(values), indexed, next)
  {
    var j := GroupEnd(indexed, i);
    var avgRank := (i + j) as real / 2.0 + 1.0;
    GroupFound(values, indexed, i, j);
    AssignGroup(ranks, indexed, i, j, avgRank, Ranks(values));
    next := j + 1;
    GroupStarts(indexed, next);
  }

  lemma GroupStarts(indexed: seq<Entry>, i: nat)
    requires SortedBy(indexed, VALUE)
    requires 0 < i < |indexed| ==> indexed[i].value != indexed[i - 1].value
    ensures AtGroupStart(indexed, i)
  {
    if 0 < i < |indexed| {
      assert VALUE(indexed[i - 1]) <= VALUE(indexed[i]);
    }
  }

  /** The first k sorted positions have their rank. */
  ghost predicate Placed(ranks: seq<real>, goal: seq<real>, indexed: seq<Entry>, k: nat) {
    && k <= |indexed|
    && |ranks| == |goal|
    && (forall m | 0 <= m < |indexed| :: indexed[m].index < |ranks|)
    && (forall m | 0 <= m < k :: ranks[indexed[m].index] == goal[indexed[m].index])
  }

  lemma AllPlaced(values: seq<real>, indexed: seq<Entry>, ranks: seq<real>)
    requires SortedPositions(values, indexed) && Placed(ranks, Ranks(values), indexed, |indexed|)
    ensures ranks == Ranks(values)
  {
    forall i | 0 <= i < |values|
      ensures ranks[i] == Ranks(values)[i]
    {
      assert Entry(i, values[i]) in indexed;
      var k :| 0 <= k < |indexed| && indexed[k] == Entry(i, values[i]);
    }
  }

  lemma NonePlaced(values: seq<real>, indexed: seq<Entry>, ranks: seq<real>)
    requires SortedPositions(values, indexed) && |ranks| == |values|
    ensures Placed(ranks, Ranks(values), indexed, 0)
  {
    forall m | 0 <= m < |indexed|
      ensures indexed[m].index < |ranks|
    {
      assert indexed[m] in indexed;
    }
  }

  method GroupEnd(indexed: seq<Entry>, i: nat) returns (j: nat)
    requires i < |indexed|
    ensures i <= j < |indexed|
    ensures forall k | i <= k <= j :: indexed[k].value == indexed[i].value
    ensures j + 1 < |indexed| ==> indexed[j + 1].value != indexed[j].value
  {
    j := i;
    while j < |indexed| - 1 && indexed[j + 1].value == indexed[j].value
      invariant i <= j < |indexed|
      invariant forall k | i <= k <= j :: indexed[k].value == indexed[i].value
    {
      j := j + 1;
    }
  }

  method AssignGroup(ranks: array<real>, indexed: seq<Entry>, i: nat, j: nat, avgRank: real, ghost goal: seq<real>)
    requires i <= j < |indexed| && Placed(ranks[..], goal, indexed, i)
    requires forall k | i <= k <= j :: goal[indexed[k].index] == avgRank
    modifies ranks
    ensures Placed(ranks[..], goal, indexed, j + 1)
  {
    for k := i to j + 1
      invariant Placed(ranks[..], goal, indexed, k)
    {
      ranks[indexed[k].index] := avgRank;
    }
  }

  lemma SortedColumn(indexed: seq<Entry>, i: nat, j: nat)
    requires SortedBy(indexed, VALUE) && i <= j < |indexed| && AtGroupStart(indexed, i)
    requires forall k | i <= k <= j :: indexed[k].value == indexed[i].value
    requires j + 1 < |indexed| ==> indexed[j + 1].value != indexed[j].value
    ensures IsGroup(Map(VALUE, indexed), i, j + 1, indexed[i].value)
  {
    var column := Map(VALUE, indexed);
    forall a, b | 0 <= a < b < |column|
      ensures column[a] <= column[b]
    {
      assert VALUE(indexed[a]) <= VALUE(indexed[b]);
    }
  }

  /** A rank depends on the values only as a multiset. */
  lemma RankOfPermuted(a: seq<real>, b: seq<real>, v: real)
    requires multiset(a) == multiset(b)
    ensures RankOf(a, v) == RankOf(b, v)
  {
    SumOverPermutation(a, b, IsLess(v));
    SumOverPermutation(a, b, IsTied(v));
  }

  lemma GroupFound(values: seq<real>, indexed: seq<Entry>, i: nat, j: nat)
    requires SortedPositions(values, indexed) && i <= j < |indexed|
    requires AtGroupStart(indexed, i)
    requires forall k | i <= k <= j :: indexed[k].value == indexed[i].value
    requires j + 1 < |indexed| ==> indexed[j + 1].value != indexed[j].value
    ensures forall k | i <= k <= j :: indexed[k].index < |values|
    ensures forall k | i <= k <= j :: Ranks(values)[indexed[k].index] == (i + j) as real / 2.0 + 1.0
  {
    var v := indexed[i].value;
    SortedColumn(indexed, i, j);
    GroupRank(Map(VALUE, indexed), i, j + 1, v);
    RankOfPermuted(Map(VALUE, indexed), values, v);
    forall k | i <= k <= j
      ensures indexed[k].index < |values| && Ranks(values)[indexed[k].index] == RankOf(values, v)
    {
      assert indexed[k] in indexed;
    }
  }

  // ----- Laws of ranks -----

  /** Ranks order positions exactly as the values do. */
  lemma RanksKeepOrder(values: seq<real>, i: nat, j: nat)
    requires i < |values| && j < |values|
    ensures Ranks(values)[i] < Ranks(values)[j] <==> values[i] < values[j]
    ensures Ranks(values)[i] == Ranks(values)[j] <==> values[i] == values[j]
  {
    if values[i] < values[j] {
      RankOfRises(values, values[i], values[j]);
    } else if values[j] < values[i] {
      RankOfRises(values, values[j], values[i]);
    }
  }

  lemma RankOfRises(values: seq<real>, v: real, w: real)
    requires v < w && v in values
    ensures RankOf(values, v) < RankOf(values, w)
  {
    var gain := (x: real) => Ahead(x, w) - Ahead(x, v);
    RankOfIsAhead(values, v);
    RankOfIsAhead(values, w);
    SumOverAdd(values, IsAhead(w), IsAhead(v), gain);
    SumOverZero(values, gain);
    SumOverNonNegative(values, gain);
    assert gain(v) == 0.5;
  }

  /** Ranks add up to n (n + 1) / 2, ties or not. */
  lemma RankSum(values: seq<real>)
    ensures var n := |values| as real; Sum(Ranks(values)) == n * (n + 1.0) / 2.0
  {
    forall v | v in values
      ensures (x => RankOf(values, x))(v) == OnAhead(values)(v) + (_ => 0.5)(v)
    {
      RankOfIsAhead(values, v);
    }
    SumOverIsSum(values, x => RankOf(values, x));
    assert Map(x => RankOf(values, x), values) == Ranks(values);
    SumOverAdd(values, x => RankOf(values, x), OnAhead(values), _ => 0.5);
    AheadSum(values);
    SumOverConstant(values, 0.5);
  }

  function OnAhead(values: seq<real>): real -> real {
    (v: real) => SumOver(values, IsAhead(v))
  }

  lemma {:induction false} SumOverConstant(s: seq<real>, c: real)
    ensures SumOver(s, _ => c) == |s| as real * c
  {
    if s != [] {
      SumOverConstant(s[1..], c);
      SumOverSame(s[1..], _ => c, _ => c);
    }
  }

  /** Every pair contributes one, every element one half. */
  lemma {:induction false} AheadSum(s: seq<real>)
    ensures SumOver(s, OnAhead(s)) == |s| as real * |s| as real / 2.0
  {
    if s != [] {
      var x, rest := s[0], s[1..];
      assert s == [x] + rest;
      AheadSum(rest);
      AheadOfRest(x, rest);
      assert IsAhead(x)(x) == 0.5;
      assert |s| as real == |rest| as real + 1.0;
      assert OnAhead(s)(x) == 0.5 + SumOver(rest, IsAhead(x));
      Square(|rest| as real);
    }
  }

  lemma Square(n: real)
    ensures (n + 1.0) * (n + 1.0) / 2.0 == n * n / 2.0 + n + 0.5
  {
  }

  /** Putting x in front: it is ahead of, tied with or behind each of the rest. */
  lemma AheadOfRest(x: real, rest: seq<real>)
    ensures SumOver(rest, OnAhead([x] + rest)) + SumOver(rest, IsAhead(x))
         == SumOver(rest, OnAhead(rest)) + |rest| as real
  {
    var behind := (v: real) => Ahead(x, v);
    var one := (_: real) => 1.0;
    assert ([x] + rest)[1..] == rest;
    SumOverAdd(rest, OnAhead([x] + rest), OnAhead(rest), behind);
    SumOverAdd(rest, one, behind, IsAhead(x));
    SumOverConstant(rest, 1.0);
    SumOverSame(rest, one, _ => 1.0);
  }

  /** A strictly increasing map of the values leaves every rank as it is. */
  lemma RanksOfIncreasing(values: seq<real>, f: real -> real)
    requires forall x, y | x in values && y in values && x < y :: f(x) < f(y)
    ensures Ranks(Map(f, values)) == Ranks(values)
  {
    SameOrderSameRanks(values, Map(f, values));
  }

  /** The two lists order every pair of positions alike. */
  ghost predicate SameOrder(a: seq<real>, b: seq<real>) {
    |a| == |b| && forall i, j | 0 <= i < |a| && 0 <= j < |a| :: a[i] < a[j] <==> b[i] < b[j]
  }

  ghost predicate OppositeOrder(a: seq<real>, b: seq<real>) {
    |a| == |b| && forall i, j | 0 <= i < |a| && 0 <= j < |a| :: a[i] < a[j] <==> b[i] > b[j]
  }

  /** Ranks carry the order of the values and nothing else. */
  lemma SameOrderSameRanks(a: seq<real>, b: seq<real>)
    requires |a| == |b|
    ensures Ranks(a) == Ranks(b) <==> SameOrder(a, b)
  {
    if SameOrder(a, b) {
      forall i | 0 <= i < |a|
        ensures Ranks(a)[i] == Ranks(b)[i]
      {
        forall k | 0 <= k < |a|
          ensures Ahead(a[k], a[i]) == Ahead(b[k], b[i])
        {
          assert a[k] < a[i] <==> b[k] < b[i];
          assert a[i] < a[k] <==> b[i] < b[k];
        }
        RankOfIsAhead(a, a[i]);
        RankOfIsAhead(b, b[i]);
        SumOverMatched(a, IsAhead(a[i]), b, IsAhead(b[i]));
      }
    } else {
      var i, j :| 0 <= i < |a| && 0 <= j < |a| && !(a[i] < a[j] <==> b[i] < b[j]);
      RanksKeepOrder(a, i, j);
      RanksKeepOrder(b, i, j);
    }
  }

  /** Turning the order around turns every rank r into n + 1 - r. */
  lemma OppositeOrderMirrorsRanks(a: seq<real>, b: seq<real>)
    requires OppositeOrder(a, b)
    ensures forall i | 0 <= i < |a| :: Ranks(b)[i] == |a| as real + 1.0 - Ranks(a)[i]
  {
    forall i | 0 <= i < |a|
      ensures Ranks(b)[i] == |a| as real + 1.0 - Ranks(a)[i]
    {
      var mirrored := (x: real) => 1.0 - Ahead(x, a[i]);
      var one := (_: real) => 1.0;
      forall k | 0 <= k < |a|
        ensures mirrored(a[k]) == Ahead(b[k], b[i])
      {
        assert a[k] < a[i] <==> b[k] > b[i];
        assert a[i] < a[k] <==> b[i] > b[k];
      }
      RankOfIsAhead(a, a[i]);
      RankOfIsAhead(b, b[i]);
      SumOverMatched(a, mirrored, b, IsAhead(b[i]));
      SumOverAdd(a, one, mirrored, IsAhead(a[i]));
      SumOverConstant(a, 1.0);
      SumOverSame(a, one, _ => 1.0);
    }
  }
}
