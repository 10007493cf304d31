/** What evaluated expressions are worth: the laws of arithmetic, the builtins, and when there is a
    value at all (evaluator.py). */
module EvaluatorLaws {
  import opened Evaluator
  import opened RealArith
  import opened Wrappers

  predicate Evaluates(e: Expr, variables: Variables) {
    EvalNode(e, variables).Success?
  }

  /** The two expressions have the same value or the same error. */
  predicate Same(a: Expr, b: Expr, variables: Variables) {
    EvalNode(a, variables) == EvalNode(b, variables)
  }

  predicate Zero(e: Expr, variables: Variables) {
    EvalNode(e, variables) == Success(0.0)
  }

  function Sum2(a: Expr, b: Expr): Expr {
    Binary(Add, a, b)
  }

  function Minus(a: Expr, b: Expr): Expr {
    Binary(Sub, a, b)
  }

  function Product(a: Expr, b: Expr): Expr {
    Binary(Mult, a, b)
  }

  function Ratio(a: Expr, b: Expr): Expr {
    Binary(Div, a, b)
  }

  // ----- Arithmetic -----

  /** Sums and products commute and associate, and products distribute over sums; zero and one are
      neutral. */
  lemma SumLaws(a: Expr, b: Expr, c: Expr, v: Variables)
    requires Evaluates(a, v) && Evaluates(b, v) && Evaluates(c, v)
    ensures Same(Sum2(a, b), Sum2(b, a), v)
    ensures Same(Sum2(Sum2(a, b), c), Sum2(a, Sum2(b, c)), v)
    ensures Same(Sum2(a, Constant(0.0)), a, v)
  {
  }

  lemma ProductLaws(a: Expr, b: Expr, c: Expr, v: Variables)
    requires Evaluates(a, v) && Evaluates(b, v) && Evaluates(c, v)
    ensures Same(Product(a, b), Product(b, a), v)
    ensures Same(Product(Product(a, b), c), Product(a, Product(b, c)), v)
    ensures Same(Product(a, Constant(1.0)), a, v)
    ensures Same(Product(Sum2(a, b), c), Sum2(Product(a, c), Product(b, c)), v)
  {
    var x, y, z := EvalNode(a, v).value, EvalNode(b, v).value, EvalNode(c, v).value;
    ProductsCommute(a, b, v, x, y);
    ProductsAssociate(a, b, c, v, x, y, z);
    ProductsDistribute(a, b, c, v, x, y, z);
  }

  lemma ProductOf(a: Expr, b: Expr, v: Variables, x: real, y: real)
    requires Worth(a, v, x) && Worth(b, v, y)
    ensures Worth(Product(a, b), v, Times(x, y))
  {
    Valued(Mult, a, b, v, x, y, Times(x, y));
  }

  lemma SumOf(a: Expr, b: Expr, v: Variables, x: real, y: real)
    requires Worth(a, v, x) && Worth(b, v, y)
    ensures Worth(Sum2(a, b), v, x + y)
  {
    Valued(Add, a, b, v, x, y, x + y);
  }

  lemma ProductsCommute(a: Expr, b: Expr, v: Variables, x: real, y: real)
    requires Worth(a, v, x) && Worth(b, v, y)
    ensures Same(Product(a, b), Product(b, a), v)
    ensures Same(Product(a, Constant(1.0)), a, v)
  {
    ProductOf(a, b, v, x, y);
    ProductOf(b, a, v, y, x);
    ProductOf(a, Constant(1.0), v, x, 1.0);
    TimesLaws(x, y, 1.0);
  }

  lemma ProductsAssociate(a: Expr, b: Expr, c: Expr, v: Variables, x: real, y: real, z: real)
    requires Worth(a, v, x) && Worth(b, v, y) && Worth(c, v, z)
    ensures Same(Product(Product(a, b), c), Product(a, Product(b, c)), v)
  {
    ProductOf(a, b, v, x, y);
    ProductOf(b, c, v, y, z);
    ProductOf(Product(a, b), c, v, Times(x, y), z);
    ProductOf(a, Product(b, c), v, x, Times(y, z));
    TimesLaws(x, y, z);
  }

  lemma ProductsDistribute(a: Expr, b: Expr, c: Expr, v: Variables, x: real, y: real, z: real)
    requires Worth(a, v, x) && Worth(b, v, y) && Worth(c, v, z)
    ensures Same(Product(Sum2(a, b), c), Sum2(Product(a, c), Product(b, c)), v)
  {
    ProductOf(a, c, v, x, z);
    ProductOf(b, c, v, y, z);
    SumOf(a, b, v, x, y);
    ProductOf(Sum2(a, b), c, v, x + y, z);
    SumOf(Product(a, c), Product(b, c), v, Times(x, z), Times(y, z));
    TimesLaws(x, y, z);
  }

  /** The expression is worth x. */
  predicate Worth(e: Expr, v: Variables, x: real) {
    EvalNode(e, v).Success? && EvalNode(e, v).value == x
  }

  lemma Valued(op: BinaryOp, a: Expr, b: Expr, v: Variables, x: real, y: real, r: real)
    requires Worth(a, v, x) && Worth(b, v, y)
    requires EvalBinary(op, x, y).Success? && EvalBinary(op, x, y).value == r
    ensures Worth(Binary(op, a, b), v, r)
  {
  }

  /** Subtraction undoes addition, and division multiplication. */
  lemma UndoLaws(a: Expr, b: Expr, v: Variables)
    requires Evaluates(a, v) && Evaluates(b, v)
    ensures Same(Sum2(Minus(a, b), b), a, v)
    ensures Zero(Sum2(Unary(USub, a), a), v)
    ensures !Zero(b, v) ==> Same(Product(Ratio(a, b), b), a, v)
    ensures Zero(b, v) ==> EvalNode(Ratio(a, b), v) == Failure(DivisionByZero)
  {
    var x, y := EvalNode(a, v).value, EvalNode(b, v).value;
    if y != 0.0 {
      RatioOf(a, b, v, x, y);
      ProductOf(Ratio(a, b), b, v, Quotient(x, y), y);
      QuotientTimesDivisor(x, y);
    }
  }

  function Quotient(x: real, y: real): real
    requires y != 0.0
  {
    x / y
  }

  lemma QuotientTimesDivisor(x: real, y: real)
    requires y != 0.0
    ensures Times(Quotient(x, y), y) == x
  {
  }

  lemma RatioOf(a: Expr, b: Expr, v: Variables, x: real, y: real)
    requires Worth(a, v, x) && Worth(b, v, y) && y != 0.0
    ensures Worth(Ratio(a, b), v, Quotient(x, y))
  {
    Valued(Div, a, b, v, x, y, Quotient(x, y));
  }

  /** On numbers the operators are those of arithmetic. */
  lemma OnNumbers(x: real, y: real, v: Variables)
    ensures Worth(Sum2(Constant(x), Constant(y)), v, x + y)
    ensures Worth(Minus(Constant(x), Constant(y)), v, x - y)
    ensures Worth(Product(Constant(x), Constant(y)), v, x * y)
    ensures y != 0.0 ==> Worth(Ratio(Constant(x), Constant(y)), v, x / y)
    ensures Worth(Unary(USub, Constant(x)), v, -x)
  {
    ProductOf(Constant(x), Constant(y), v, x, y);
    if y != 0.0 {
      RatioOf(Constant(x), Constant(y), v, x, y);
    }
  }

  // ----- Builtins -----

  lemma NextArgument(a: Expr, rest: seq<Expr>, v: Variables, vals: seq<real>)
    requires Evaluates(a, v) && EvalArgs(rest, v) == Success(vals)
    ensures EvalArgs([a] + rest, v) == Success([EvalNode(a, v).value] + vals)
  {
    assert ([a] + rest)[1..] == rest;
  }

  lemma OneArgument(a: Expr, v: Variables)
    requires Evaluates(a, v)
    ensures EvalArgs([a], v) == Success([EvalNode(a, v).value])
  {
    NextArgument(a, [], v, []);
    assert [a] + [] == [a] && [EvalNode(a, v).value] + [] == [EvalNode(a, v).value];
  }

  lemma ThreeArguments(a: Expr, b: Expr, c: Expr, v: Variables)
    requires Evaluates(a, v) && Evaluates(b, v) && Evaluates(c, v)
    ensures EvalArgs([a, b, c], v) == Success([EvalNode(a, v).value, EvalNode(b, v).value, EvalNode(c, v).value])
  {
    var x, y, z := EvalNode(a, v).value, EvalNode(b, v).value, EvalNode(c, v).value;
    OneArgument(c, v);
    NextArgument(b, [c], v, [z]);
    assert [b] + [c] == [b, c] && [y] + [z] == [y, z];
    NextArgument(a, [b, c], v, [y, z]);
    assert [a] + [b, c] == [a, b, c] && [x] + [y, z] == [x, y, z];
  }

  /** The larger of a and -a. */
  lemma AbsIsLarger(a: Expr, v: Variables)
    requires Evaluates(a, v)
    ensures var x := EvalNode(a, v).value;
            EvalNode(Call("abs", [a]), v) == Success(if x >= -x then x else -x)
  {
    OneArgument(a, v);
  }

  /** x inside the bounds, the nearer bound outside, and the lower one if they are crossed. */
  lemma ClampIsNearest(a: Expr, lo: Expr, hi: Expr, v: Variables)
    requires Evaluates(a, v) && Evaluates(lo, v) && Evaluates(hi, v)
    ensures var x, l, h := EvalNode(a, v).value, EvalNode(lo, v).value, EvalNode(hi, v).value;
            EvalNode(Call("clamp", [a, lo, hi]), v)
            == Success(if l > h || x < l then l else if x > h then h else x)
  {
    ThreeArguments(a, lo, hi, v);
  }

  /** The second argument exactly when the first is not zero, else the third; both are evaluated. */
  lemma IfElsePicks(cond: Expr, a: Expr, b: Expr, v: Variables)
    requires Evaluates(cond, v) && Evaluates(a, v) && Evaluates(b, v)
    ensures Same(Call("if_else", [cond, a, b]), if Zero(cond, v) then b else a, v)
  {
    ThreeArguments(cond, a, b, v);
  }

  /** The values of a list of expressions. */
  lemma {:induction false} ArgumentValues(args: seq<Expr>, v: Variables)
    ensures EvalArgs(args, v).Success? <==> forall i | 0 <= i < |args| :: Evaluates(args[i], v)
    ensures EvalArgs(args, v).Success? ==>
              forall i | 0 <= i < |args| :: Success(EvalArgs(args, v).value[i]) == EvalNode(args[i], v)
  {
    if args != [] {
      ArgumentValues(args[1..], v);
      assert args[0] == args[0];
      if EvalArgs(args, v).Success? {
        forall i | 0 <= i < |args|
          ensures Success(EvalArgs(args, v).value[i]) == EvalNode(args[i], v)
        {
          if i > 0 {
            assert args[i] == args[1..][i - 1];
          }
        }
      }
      if forall i | 0 <= i < |args| :: Evaluates(args[i], v) {
        forall i | 0 <= i < |args| - 1
          ensures Evaluates(args[1..][i], v)
        {
          assert args[1..][i] == args[i + 1];
        }
      }
    }
  }

  /** min and max of two arguments or more are one of the values, and no value lies beyond. */
  lemma ExtremesOfArguments(args: seq<Expr>, v: Variables)
    requires |args| >= 2 && forall i | 0 <= i < |args| :: Evaluates(args[i], v)
    ensures Evaluates(Call("min", args), v) && Evaluates(Call("max", args), v)
    ensures exists i :: 0 <= i < |args| && Same(Call("min", args), args[i], v)
    ensures exists i :: 0 <= i < |args| && Same(Call("max", args), args[i], v)
    ensures forall i | 0 <= i < |args| && Evaluates(args[i], v) ::
              EvalNode(Call("min", args), v).value <= EvalNode(args[i], v).value <= EvalNode(Call("max", args), v).value
  {
    ArgumentValues(args, v);
    var vals := EvalArgs(args, v).value;
    var least, most := MinOf(vals), MaxOf(vals);
    assert EvalNode(Call("min", args), v) == Success(least) && EvalNode(Call("max", args), v) == Success(most);
    var i :| 0 <= i < |vals| && vals[i] == least;
    var j :| 0 <= j < |vals| && vals[j] == most;
    assert Same(Call("min", args), args[i], v) && Same(Call("max", args), args[j], v);
    forall k | 0 <= k < |args| && Evaluates(args[k], v)
      ensures least <= EvalNode(args[k], v).value <= most
    {
      assert vals[k] in vals;
    }
  }

  // ----- When there is a value -----

  predicate ArityFits(fn: string, n: nat) {
    if fn == "min" || fn == "max" then n >= 2
    else if fn == "abs" then n == 1
    else (fn == "clamp" || fn == "if_else") && n == 3
  }

  /** Made of numbers, names, the four operators, negation, and builtins with the right number of
      arguments. */
  predicate Arithmetic(e: Expr)
    decreases e, 1
  {
    match e
    case Constant(_) => true
    case Name(_) => true
    case Unary(op, operand) => op == USub && Arithmetic(operand)
    case Binary(op, left, right) => op != OtherBinary && Arithmetic(left) && Arithmetic(right)
    case Call(fn, args) => ArityFits(fn, |args|) && AllArithmetic(args)
    case _ => false
  }

  predicate AllArithmetic(args: seq<Expr>)
    decreases args, 0
  {
    args == [] || (Arithmetic(args[0]) && AllArithmetic(args[1..]))
  }

  /** No divisor in it is worth zero. */
  predicate DivisorsNonZero(e: Expr, v: Variables)
    decreases e, 1
  {
    match e
    case Unary(_, operand) => DivisorsNonZero(operand, v)
    case Binary(op, left, right) =>
      DivisorsNonZero(left, v) && DivisorsNonZero(right, v) && (op == Div ==> !Zero(right, v))
    case Call(_, args) => AllDivisorsNonZero(args, v)
    case _ => true
  }

  predicate AllDivisorsNonZero(args: seq<Expr>, v: Variables)
    decreases args, 0
  {
    args == [] || (DivisorsNonZero(args[0], v) && AllDivisorsNonZero(args[1..], v))
  }

  /** An expression has a value exactly if it is arithmetic, every name in it is bound and no divisor
      is zero. */
  lemma {:induction false} EvaluatesIff(e: Expr, v: Variables)
    ensures Evaluates(e, v) <==> Arithmetic(e) && FreeNames(e) <= v.Keys && DivisorsNonZero(e, v)
    decreases e, 1
  {
    match e
    case Unary(_, operand) =>
      EvaluatesIff(operand, v);
    case Binary(_, left, right) =>
      EvaluatesIff(left, v);
      EvaluatesIff(right, v);
    case Call(_, args) =>
      ArgumentsEvaluateIff(args, v);
    case _ =>
  }

  lemma {:induction false} ArgumentsEvaluateIff(args: seq<Expr>, v: Variables)
    ensures EvalArgs(args, v).Success?
       <==> AllArithmetic(args) && FreeNamesOfArgs(args) <= v.Keys && AllDivisorsNonZero(args, v)
    decreases args, 0
  {
    if args != [] {
      EvaluatesIff(args[0], v);
      ArgumentsEvaluateIff(args[1..], v);
    }
  }
}
