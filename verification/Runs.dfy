/** Runs of a step relation, and steps repeated until something stops them. */
module Runs {
  import opened RealArith

  /** Some number of steps leads from start to end. */
  ghost predicate Reached<S(!new)>(step: (S, S) -> bool, start: S, end: S, steps: nat)
    decreases steps
  {
    if steps == 0 then end == start
    else exists prev :: Reached(step, start, prev, steps - 1) && step(prev, end)
  }

  lemma Extend<S(!new)>(step: (S, S) -> bool, start: S, end: S, steps: nat, next: S)
    requires Reached(step, start, end, steps) && step(end, next)
    ensures Reached(step, start, next, steps + 1)
  {
  }

  lemma LastStep<S(!new)>(step: (S, S) -> bool, start: S, end: S, steps: nat) returns (prev: S)
    requires steps > 0 && Reached(step, start, end, steps)
    ensures Reached(step, start, prev, steps - 1) && step(prev, end)
  {
    prev :| Reached(step, start, prev, steps - 1) && step(prev, end);
  }

  /** Up to the given number of steps, stopping early where stop says so. */
  function Repeat<S>(step: S -> S, stop: S -> bool, s: S, passes: nat): S
    decreases passes
  {
    if passes == 0 || stop(s) then s else Repeat(step, stop, step(s), passes - 1)
  }

  /** How many steps that takes. */
  function StepsMade<S>(step: S -> S, stop: S -> bool, s: S, passes: nat): (r: nat)
    ensures r <= passes
    decreases passes
  {
    if passes == 0 || stop(s) then 0 else 1 + StepsMade(step, stop, step(s), passes - 1)
  }

  lemma {:induction false} StoppedEarly<S>(step: S -> S, stop: S -> bool, s: S, passes: nat)
    requires StepsMade(step, stop, s, passes) < passes
    ensures stop(Repeat(step, stop, s, passes))
    decreases passes
  {
    if !stop(s) {
      StoppedEarly(step, stop, step(s), passes - 1);
    }
  }

  /** A step from s keeps inv. */
  predicate KeptFrom<S>(step: S -> S, stop: S -> bool, inv: S -> bool, s: S) {
    inv(s) && !stop(s) ==> inv(step(s))
  }

  lemma {:induction false} RepeatKeeps<S(!new)>(step: S -> S, stop: S -> bool, inv: S -> bool, s: S, passes: nat)
    requires inv(s) && forall x :: KeptFrom(step, stop, inv, x)
    ensures inv(Repeat(step, stop, s, passes))
    decreases passes
  {
    if passes > 0 && !stop(s) {
      assert KeptFrom(step, stop, inv, s);
      RepeatKeeps(step, stop, inv, step(s), passes - 1);
    }
  }

  /** A step from s raises f, by at most b. */
  predicate RaisedFrom<S>(step: S -> S, inv: S -> bool, f: S -> real, b: real, s: S) {
    inv(s) ==> f(s) <= f(step(s)) <= f(s) + b
  }

  lemma {:induction false} RepeatRaises<S(!new)>(step: S -> S, stop: S -> bool, inv: S -> bool, f: S -> real, b: real,
                                                 s: S, passes: nat)
    requires inv(s) && b >= 0.0
    requires forall x :: KeptFrom(step, stop, inv, x) && RaisedFrom(step, inv, f, b, x)
    ensures f(s) <= f(Repeat(step, stop, s, passes)) <= f(s) + Manyfold(passes, b)
    decreases passes
  {
    if passes > 0 && !stop(s) {
      assert KeptFrom(step, stop, inv, s) && RaisedFrom(step, inv, f, b, s);
      RepeatRaises(step, stop, inv, f, b, step(s), passes - 1);
      OneMore(passes - 1, b);
    } else {
      ManyfoldSign(passes, b);
    }
  }

  function Grown(q: real, d: real): real {
    q * d
  }

  /** d, then q times as much with every further step. */
  function Compounded(q: real, d: real, passes: nat): real
    decreases passes
  {
    if passes == 0 then 0.0 else d + Compounded(q, Grown(q, d), passes - 1)
  }

  lemma GrownSign(q: real, d: real)
    requires q >= 0.0 && d >= 0.0
    ensures Grown(q, d) >= 0.0
  {
  }

  lemma {:induction false} CompoundedSign(q: real, d: real, passes: nat)
    requires q >= 0.0 && d >= 0.0
    ensures Compounded(q, d, passes) >= 0.0
    decreases passes
  {
    if passes > 0 {
      GrownSign(q, d);
      CompoundedSign(q, Grown(q, d), passes - 1);
    }
  }

  /** A step from s, if it is good for d, raises f by at most d, and leads to a state good for q times d
      as long as that is within the limit. */
  predicate SpillsFrom<S>(step: S -> S, stop: S -> bool, good: (S, real) -> bool, f: S -> real, q: real, limit: real, s: S, d: real)
  {
    good(s, d) && !stop(s) ==>
      f(step(s)) <= f(s) + d && (0.0 <= d && Grown(q, d) <= limit ==> good(step(s), Grown(q, d)))
  }

  lemma {:induction false} RepeatSpills<S(!new)>(step: S -> S, stop: S -> bool, good: (S, real) -> bool, f: S -> real, q: real,
                                                 limit: real, s: S, d: real, passes: nat)
    requires forall x, y :: SpillsFrom(step, stop, good, f, q, limit, x, y)
    requires good(s, d) && q >= 0.0 && d >= 0.0
    requires Compounded(q, d, passes) <= limit
    ensures f(Repeat(step, stop, s, passes)) <= f(s) + Compounded(q, d, passes)
    decreases passes
  {
    GrownSign(q, d);
    CompoundedSign(q, d, passes);
    if passes > 0 && !stop(s) {
      assert SpillsFrom(step, stop, good, f, q, limit, s, d);
      CompoundedSign(q, Grown(q, d), passes - 1);
      if passes > 1 {
        GrownSign(q, Grown(q, d));
        CompoundedSign(q, Grown(q, Grown(q, d)), passes - 2);
        RepeatSpills(step, stop, good, f, q, limit, step(s), Grown(q, d), passes - 1);
      }
    }
  }
}
