/** Adding series up line by line (consolidation.py). */
module Ledger {
  import opened Dicts
  import opened Labels
  import opened Sequences
  import opened StatementLines

  /** A series to be added to a line; the line starts at zero when it is new. */
  datatype Posting = Posting(key: Label, values: seq<real>)

  ghost predicate Sized(ps: seq<Posting>, horizon: nat) {
    forall p | p in ps :: |p.values| == horizon
  }

  function LineOf(d: LineTable, k: Label, horizon: nat): (r: seq<real>)
    requires Fits(d, horizon)
    ensures |r| == horizon
  {
    if k in d.items then d.items[k] else Zeros(horizon)
  }

  function Post(d: LineTable, p: Posting, horizon: nat): LineTable
    requires Fits(d, horizon) && |p.values| == horizon
  {
    Put(d, p.key, AddSeries(LineOf(d, p.key, horizon), p.values))
  }

  lemma PostFits(d: LineTable, p: Posting, horizon: nat)
    requires Fits(d, horizon) && |p.values| == horizon
    ensures Fits(Post(d, p, horizon), horizon)
  {
    PutIsValid(d, p.key, AddSeries(LineOf(d, p.key, horizon), p.values));
  }

  function PostAll(d: LineTable, ps: seq<Posting>, horizon: nat): (r: LineTable)
    requires Fits(d, horizon) && Sized(ps, horizon)
    ensures Fits(r, horizon)
    decreases |ps|
  {
    if ps == [] then d
    else
      PostFits(d, ps[0], horizon);
      PostAll(Post(d, ps[0], horizon), ps[1..], horizon)
  }

  lemma {:induction false} PostAllAppend(d: LineTable, ps: seq<Posting>, qs: seq<Posting>, horizon: nat)
    requires Fits(d, horizon) && Sized(ps, horizon) && Sized(qs, horizon)
    ensures Sized(ps + qs, horizon)
    ensures PostAll(d, ps + qs, horizon) == PostAll(PostAll(d, ps, horizon), qs, horizon)
    decreases |ps|
  {
    if ps == [] {
      assert ps + qs == qs;
    } else {
      PostFits(d, ps[0], horizon);
      assert (ps + qs)[1..] == ps[1..] + qs;
      PostAllAppend(Post(d, ps[0], horizon), ps[1..], qs, horizon);
    }
  }

  // ----- What a table says -----

  function LineAt(d: LineTable, k: Label, t: nat): real {
    if k in d.items && t < |d.items[k]| then d.items[k][t] else 0.0
  }

  function OnLabel(k: Label, t: nat): Posting -> real {
    (p: Posting) => if p.key == k && t < |p.values| then p.values[t] else 0.0
  }

  function OnPresence(k: Label): Posting -> real {
    (p: Posting) => if p.key == k then 1.0 else 0.0
  }

  /** Every line is the sum of what was posted to it, and exists when something was. */
  lemma {:induction false} PostedLines(d: LineTable, ps: seq<Posting>, horizon: nat, k: Label, t: nat)
    requires Fits(d, horizon) && Sized(ps, horizon) && t < horizon
    ensures LineAt(PostAll(d, ps, horizon), k, t) == LineAt(d, k, t) + SumOver(ps, OnLabel(k, t))
    decreases |ps|
  {
    if ps != [] {
      PostFits(d, ps[0], horizon);
      PostedLines(Post(d, ps[0], horizon), ps[1..], horizon, k, t);
    }
  }

  lemma {:induction false} PostedKeys(d: LineTable, ps: seq<Posting>, horizon: nat, k: Label)
    requires Fits(d, horizon) && Sized(ps, horizon)
    ensures SumOver(ps, OnPresence(k)) >= 0.0
    ensures k in PostAll(d, ps, horizon).items <==> k in d.items || SumOver(ps, OnPresence(k)) > 0.0
    decreases |ps|
  {
    if ps != [] {
      PostFits(d, ps[0], horizon);
      PostedKeys(Post(d, ps[0], horizon), ps[1..], horizon, k);
    }
  }

  // ----- Weighted totals -----

  function Weighted(w: Label -> real, x: real, k: Label): real {
    w(k) * x
  }

  function OnWeight(w: Label -> real, d: LineTable, t: nat): Label -> real {
    (k: Label) => Weighted(w, LineAt(d, k, t), k)
  }

  /** All lines of a period, each with the weight of its label. */
  function Net(w: Label -> real, d: LineTable, t: nat): real {
    SumOver(d.keys, OnWeight(w, d, t))
  }

  function OnPosted(w: Label -> real, t: nat): Posting -> real {
    (p: Posting) => if t < |p.values| then Weighted(w, p.values[t], p.key) else 0.0
  }

  lemma {:induction false} SumOverBut<T>(s: seq<T>, x: T, f: T -> real, g: T -> real)
    requires NoDup(s) && x in s && forall y | y in s && y != x :: f(y) == g(y)
    ensures SumOver(s, g) == SumOver(s, f) + g(x) - f(x)
  {
    if s[0] == x {
      forall y | y in s[1..]
        ensures f(y) == g(y)
      {
        var i :| 0 <= i < |s| - 1 && s[1..][i] == y;
        assert s[i + 1] != s[0];
      }
      SumOverSame(s[1..], f, g);
    } else {
      assert x in s[1..];
      SumOverBut(s[1..], x, f, g);
    }
  }

  /** Posting moves a weighted total by the weighted amount. */
  lemma NetAfterPost(w: Label -> real, d: LineTable, p: Posting, horizon: nat, t: nat)
    requires Fits(d, horizon) && |p.values| == horizon && t < horizon
    ensures Net(w, Post(d, p, horizon), t) == Net(w, d, t) + Weighted(w, p.values[t], p.key)
  {
    var e := Post(d, p, horizon);
    PostFits(d, p, horizon);
    var f, g := OnWeight(w, d, t), OnWeight(w, e, t);
    WeightedAdds(w, LineAt(d, p.key, t), p.values[t], p.key);
    if p.key in d.items {
      SumOverBut(d.keys, p.key, f, g);
    } else {
      assert e.keys == d.keys + [p.key];
      SumOverAppend(d.keys, [p.key], g);
      SumOverSame(d.keys, f, g);
      SumOverOne(p.key, g);
      assert Weighted(w, 0.0, p.key) == 0.0;
    }
  }

  lemma WeightedAdds(w: Label -> real, x: real, y: real, k: Label)
    ensures Weighted(w, x + y, k) == Weighted(w, x, k) + Weighted(w, y, k)
  {
  }

  lemma {:induction false} NetOfPostings(w: Label -> real, d: LineTable, ps: seq<Posting>, horizon: nat, t: nat)
    requires Fits(d, horizon) && Sized(ps, horizon) && t < horizon
    ensures Net(w, PostAll(d, ps, horizon), t) == Net(w, d, t) + SumOver(ps, OnPosted(w, t))
    decreases |ps|
  {
    if ps != [] {
      PostFits(d, ps[0], horizon);
      NetAfterPost(w, d, ps[0], horizon, t);
      NetOfPostings(w, Post(d, ps[0], horizon), ps[1..], horizon, t);
    }
  }

  // ----- A whole table as postings -----

  function Times(values: seq<real>, factor: real): (r: seq<real>)
    ensures |r| == |values|
  {
    seq(|values|, t requires 0 <= t < |values| => values[t] * factor)
  }

  /** Every line of the table, times the factor. */
  function ShareOf(d: LineTable, factor: real): (ps: seq<Posting>)
    ensures |ps| == |d.keys|
  {
    seq(|d.keys|, i requires 0 <= i < |d.keys| => Posting(d.keys[i], Times(Lookup(d.items, d.keys[i], []), factor)))
  }

  lemma ShareIsSized(d: LineTable, factor: real, horizon: nat)
    requires Fits(d, horizon)
    ensures Sized(ShareOf(d, factor), horizon)
  {
  }

  /** The share of a table weighs that share of the table. */
  lemma ShareWeighs(w: Label -> real, d: LineTable, factor: real, horizon: nat, t: nat)
    requires Fits(d, horizon) && t < horizon
    ensures SumOver(ShareOf(d, factor), OnPosted(w, t)) == Portion(factor, Net(w, d, t))
  {
    SharePostings(w, d, factor, horizon, t);
    SumOverFactor(d.keys, OnWeight(w, d, t), factor);
  }

  lemma WholeWeighs(w: Label -> real, d: LineTable, horizon: nat, t: nat)
    requires Fits(d, horizon) && t < horizon
    ensures SumOver(ShareOf(d, 1.0), OnPosted(w, t)) == Net(w, d, t)
  {
    ShareWeighs(w, d, 1.0, horizon, t);
    assert Portion(1.0, Net(w, d, t)) == Net(w, d, t);
  }

  lemma SharePostings(w: Label -> real, d: LineTable, factor: real, horizon: nat, t: nat)
    requires Fits(d, horizon) && t < horizon
    ensures SumOver(ShareOf(d, factor), OnPosted(w, t)) == SumOver(d.keys, Factored(OnWeight(w, d, t), factor))
  {
    var ps := ShareOf(d, factor);
    forall i | 0 <= i < |ps|
      ensures OnPosted(w, t)(ps[i]) == Factored(OnWeight(w, d, t), factor)(d.keys[i])
    {
      assert d.keys[i] in d.items;
      PostingWeighs(w, d, d.keys[i], factor, t);
    }
    SumOverMatched(ps, OnPosted(w, t), d.keys, Factored(OnWeight(w, d, t), factor));
  }

  function Portion(factor: real, x: real): real {
    factor * x
  }

  function Factored<T>(f: T -> real, factor: real): T -> real {
    (x: T) => Portion(factor, f(x))
  }

  lemma PostingWeighs(w: Label -> real, d: LineTable, k: Label, factor: real, t: nat)
    requires k in d.items && t < |d.items[k]|
    ensures OnPosted(w, t)(Posting(k, Times(d.items[k], factor))) == Factored(OnWeight(w, d, t), factor)(k)
  {
    FactorOut(w(k), d.items[k][t], factor);
  }

  lemma FactorOut(w: real, x: real, factor: real)
    ensures w * (x * factor) == factor * (w * x)
  {
  }

  lemma PortionAdds(factor: real, x: real, y: real)
    ensures Portion(factor, x + y) == Portion(factor, x) + Portion(factor, y)
  {
  }

  lemma {:induction false} SumOverFactor<T>(s: seq<T>, f: T -> real, factor: real)
    ensures SumOver(s, Factored(f, factor)) == Portion(factor, SumOver(s, f))
  {
    if s != [] {
      SumOverFactor(s[1..], f, factor);
      PortionAdds(factor, f(s[0]), SumOver(s[1..], f));
    }
  }

  /** Adds every line of source, times factor, to target. */
  method MergeInto(target: LineTable, source: LineTable, factor: real, horizon: nat) returns (out: LineTable)
    requires Fits(target, horizon) && Fits(source, horizon)
    ensures Sized(ShareOf(source, factor), horizon) && Fits(out, horizon)
    ensures out == PostAll(target, ShareOf(source, factor), horizon)
  {
    ghost var ps := ShareOf(source, factor);
    ShareIsSized(source, factor, horizon);
    out := target;
    for i := 0 to |source.keys|
      invariant Fits(out, horizon)
      invariant PostAll(target, ps, horizon) == PostAll(out, ps[i..], horizon)
    {
      var key := source.keys[i];
      var vals := source.items[key];
      var line := LineOf(out, key, horizon);
      PostFits(out, ps[i], horizon);
      assert ps[i..][0] == ps[i] && ps[i..][1..] == ps[i + 1..];
      line := AddInPlace(line, vals, factor);
      out := Put(out, key, line);
    }
  }

  method AddInPlace(was: seq<real>, vals: seq<real>, factor: real) returns (line: seq<real>)
    requires |was| == |vals|
    ensures line == AddSeries(was, Times(vals, factor))
  {
    line := was;
    for t := 0 to |vals|
      invariant |line| == |was|
      invariant forall u | 0 <= u < t :: line[u] == AddSeries(was, Times(vals, factor))[u]
      invariant forall u | t <= u < |was| :: line[u] == was[u]
    {
      line := line[t := line[t] + vals[t] * factor];
    }
  }

  // ----- The same lines give the same rows -----

  lemma SameLinesSameRows(d: LineTable, e: LineTable, horizon: nat)
    requires Fits(d, horizon) && Fits(e, horizon) && d.items == e.items
    ensures DictToPeriodSeries(d, horizon) == DictToPeriodSeries(e, horizon)
  {
    SortKeepsNoDup(d.keys);
    SortKeepsNoDup(e.keys);
    SortKeeps(d.keys);
    SortKeeps(e.keys);
    AlphabeticalIsUnique(SortLabels(d.keys), SortLabels(e.keys));
  }
}
