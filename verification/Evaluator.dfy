/** The safe arithmetic evaluator for formula expressions (evaluator.py). */
module Evaluator {
  import opened Sequences
  import opened Wrappers

  datatype UnaryOp = USub | OtherUnary

  datatype BinaryOp = Add | Sub | Mult | Div | OtherBinary

  /** The syntax trees the parser can hand to the evaluator. */
  datatype Expr =
    | Constant(value: real)
    | NonNumericConstant
    | Name(id: string)
    | Unary(unaryOp: UnaryOp, operand: Expr)
    | Binary(binaryOp: BinaryOp, left: Expr, right: Expr)
    | Call(fn: string, args: seq<Expr>)
    | ComputedCall
    | OtherNode

  datatype EvalError =
    | InvalidSyntax
    | UnsupportedConstant
    | UnknownVariable(name: string)
    | UnsupportedUnaryOp
    | UnsupportedBinaryOp
    | DivisionByZero
    | NotASimpleCall
    | DisallowedFunction(name: string)
    | BadCall(name: string, arity: nat)
    | UnsupportedNode

  type Variables = map<string, real>

  const BUILTINS: set<string> := {"min", "max", "abs", "clamp", "if_else"}

  function IfElse(cond: real, trueVal: real, falseVal: real): real {
    if cond != 0.0 then trueVal else falseVal
  }

  function MinOf(vals: seq<real>): (r: real)
    requires vals != []
    ensures r in vals
    ensures forall v | v in vals :: r <= v
  {
    if |vals| == 1 then vals[0]
    else
      assert vals == vals[..|vals| - 1] + [vals[|vals| - 1]];
      Min(MinOf(vals[..|vals| - 1]), vals[|vals| - 1])
  }

  function MaxOf(vals: seq<real>): (r: real)
    requires vals != []
    ensures r in vals
    ensures forall v | v in vals :: v <= r
  {
    if |vals| == 1 then vals[0]
    else
      assert vals == vals[..|vals| - 1] + [vals[|vals| - 1]];
      Max(MaxOf(vals[..|vals| - 1]), vals[|vals| - 1])
  }

  /** Calling a whitelisted builtin; a wrong number of arguments is a call error. */
  function CallBuiltin(fn: string, vals: seq<real>): Result<real, EvalError> {
    if fn == "min" && |vals| >= 2 then Success(MinOf(vals))
    else if fn == "max" && |vals| >= 2 then Success(MaxOf(vals))
    else if fn == "abs" && |vals| == 1 then Success(Abs(vals[0]))
    else if fn == "clamp" && |vals| == 3 then Success(Clamp(vals[0], vals[1], vals[2]))
    else if fn == "if_else" && |vals| == 3 then Success(IfElse(vals[0], vals[1], vals[2]))
    else Failure(BadCall(fn, |vals|))
  }

  function EvalBinary(op: BinaryOp, x: real, y: real): Result<real, EvalError> {
    match op
    case Add => Success(x + y)
    case Sub => Success(x - y)
    case Mult => Success(x * y)
    case Div => if y == 0.0 then Failure(DivisionByZero) else Success(x / y)
    case OtherBinary => Failure(UnsupportedBinaryOp)
  }

  function EvalNode(e: Expr, variables: Variables): Result<real, EvalError>
    decreases e, 1
  {
    match e
    case Constant(value) => Success(value)
    case NonNumericConstant => Failure(UnsupportedConstant)
    case Name(id) => if id in variables then Success(variables[id]) else Failure(UnknownVariable(id))
    case Unary(op, operand) =>
      if op == USub then
        var v :- EvalNode(operand, variables);
        Success(-v)
      else
        Failure(UnsupportedUnaryOp)
    case Binary(op, left, right) =>
      var x :- EvalNode(left, variables);
      var y :- EvalNode(right, variables);
      EvalBinary(op, x, y)
    case Call(fn, args) =>
      if fn !in BUILTINS then
        Failure(DisallowedFunction(fn))
      else
        var vals :- EvalArgs(args, variables);
        CallBuiltin(fn, vals)
    case ComputedCall => Failure(NotASimpleCall)
    case OtherNode => Failure(UnsupportedNode)
  }

  /** Arguments are evaluated eagerly, left to right; the first error wins. */
  function EvalArgs(args: seq<Expr>, variables: Variables): (r: Result<seq<real>, EvalError>)
    ensures r.Success? ==> |r.value| == |args|
    decreases args, 0
  {
    if args == [] then Success([])
    else
      var v :- EvalNode(args[0], variables);
      var vs :- EvalArgs(args[1..], variables);
      Success([v] + vs)
  }

  /** A formula's text, parsed; None stands for a syntax error. */
  function Evaluate(expression: Option<Expr>, variables: Variables): Result<real, EvalError> {
    match expression
    case None => Failure(InvalidSyntax)
    case Some(body) => EvalNode(body, variables)
  }

  // ----- Which variables matter -----

  function FreeNames(e: Expr): set<string>
    decreases e, 1
  {
    match e
    case Name(id) => {id}
    case Unary(_, operand) => FreeNames(operand)
    case Binary(_, left, right) => FreeNames(left) + FreeNames(right)
    case Call(_, args) => FreeNamesOfArgs(args)
    case _ => {}
  }

  function FreeNamesOfArgs(args: seq<Expr>): set<string>
    decreases args, 0
  {
    if args == [] then {} else FreeNames(args[0]) + FreeNamesOfArgs(args[1..])
  }

  ghost predicate AgreeOn(names: set<string>, v0: Variables, v1: Variables) {
    forall x | x in names :: (x in v0 <==> x in v1) && (x in v0 ==> v0[x] == v1[x])
  }

  /** Coincidence: the value, or the error, depends only on the expression's free names. */
  lemma {:induction false} EvalCoincidence(e: Expr, v0: Variables, v1: Variables)
    requires AgreeOn(FreeNames(e), v0, v1)
    ensures EvalNode(e, v0) == EvalNode(e, v1)
    decreases e, 1
  {
    match e
    case Unary(_, operand) =>
      EvalCoincidence(operand, v0, v1);
    case Binary(_, left, right) =>
      EvalCoincidence(left, v0, v1);
      EvalCoincidence(right, v0, v1);
    case Call(_, args) =>
      EvalArgsCoincidence(args, v0, v1);
    case _ =>
  }

  lemma {:induction false} EvalArgsCoincidence(args: seq<Expr>, v0: Variables, v1: Variables)
    requires AgreeOn(FreeNamesOfArgs(args), v0, v1)
    ensures EvalArgs(args, v0) == EvalArgs(args, v1)
    decreases args, 0
  {
    if args != [] {
      EvalCoincidence(args[0], v0, v1);
      EvalArgsCoincidence(args[1..], v0, v1);
    }
  }

  /** Evaluation is eager throughout: it succeeds only when every free name, in every
      branch of every if_else, is bound. */
  lemma {:induction false} SuccessBindsEveryName(e: Expr, variables: Variables)
    requires EvalNode(e, variables).Success?
    ensures FreeNames(e) <= variables.Keys
    decreases e, 1
  {
    match e
    case Unary(_, operand) =>
      SuccessBindsEveryName(operand, variables);
    case Binary(_, left, right) =>
      SuccessBindsEveryName(left, variables);
      SuccessBindsEveryName(right, variables);
    case Call(_, args) =>
      ArgsSuccessBindsEveryName(args, variables);
    case _ =>
  }

  lemma {:induction false} ArgsSuccessBindsEveryName(args: seq<Expr>, variables: Variables)
    requires EvalArgs(args, variables).Success?
    ensures FreeNamesOfArgs(args) <= variables.Keys
    decreases args, 0
  {
    if args != [] {
      SuccessBindsEveryName(args[0], variables);
      ArgsSuccessBindsEveryName(args[1..], variables);
    }
  }
}
