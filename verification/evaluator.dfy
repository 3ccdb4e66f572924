/** Evaluation: the recursive reduction of an expression tree, a reference
    operand-stack evaluation of a postfix sequence, and the whole pipeline from
    an input line to a number. */
module Evaluator {
  import opened Base
  import opened Tokens
  import opened Trees
  import Converter

  /** One operator applied to its left and right operand values. Unknown
      operators give 0; division by zero is reported instead of producing an
      infinity. */
  function Apply(op: char, left: real, right: real): (r: Result<real>)
    ensures r.Err? <==> op == '/' && right == 0.0
    ensures r.Err? ==> r.error == DivisionByZero
  {
    match op
    case '+' => Ok(left + right)
    case '-' => Ok(left - right)
    case '*' => Ok(left * right)
    case '/' => if right == 0.0 then Err(DivisionByZero) else Ok(left / right)
    case _ => Ok(0.0)
  }

  /** Post-order reduction of a tree: the right operand first, then the left
      one (0 when absent), then the operator. */
  function Eval(t: Tree): (r: Result<real>)
    ensures r.Err? ==> r.error == DivisionByZero
  {
    match t
    case Leaf(v) => Ok(v)
    case Node(op, left, right) =>
      match Eval(right)
      case Err(e) => Err(e)
      case Ok(rv) =>
        var lv := if left.Some? then Eval(left.value) else Ok(0.0);
        match lv
        case Err(e) => Err(e)
        case Ok(l) => Apply(op, l, rv)
  }

  /** Reference evaluation of postfix tokens, front to back, with an operand
      stack: a number is pushed; an operator pops its right operand, then its
      left operand, and pushes the result. Like the tree builder, it takes every
      operator to be binary. */
  function RunStack(ps: seq<Token>, stack: seq<real>): (r: Result<seq<real>>)
    ensures r.Err? ==> r.error == MissingOperand || r.error == DivisionByZero
    decreases |ps|
  {
    if ps == [] then Ok(stack)
    else match ps[0]
      case Num(v) => RunStack(ps[1..], stack + [v])
      case Op(op) =>
        if |stack| < 2 then Err(MissingOperand)
        else match Apply(op, stack[|stack| - 2], Top(stack))
          case Err(e) => Err(e)
          case Ok(v) => RunStack(ps[1..], stack[..|stack| - 2] + [v])
  }

  /** The value of a postfix sequence that reduces to exactly one number. */
  function EvalPostfix(ps: seq<Token>): Result<real>
  {
    match RunStack(ps, [])
    case Err(e) => Err(e)
    case Ok(stack) => if |stack| == 1 then Ok(stack[0]) else Err(MissingOperand)
  }

  /** The whole pipeline: convert the line to postfix, build one tree from the
      tail of the postfix sequence, and evaluate it. Tokens in front of that tree
      are ignored; an empty postfix sequence or one that runs out while building
      is a missing operand. */
  function Calculate(text: string): Result<real>
  {
    match Converter.InToPostfix(text)
    case Err(e) => Err(e)
    case Ok(ps) =>
      match Build(ps)
      case None => Err(MissingOperand)
      case Some((t, _)) => Eval(t)
  }

  lemma {:induction false} RunStackAppend(a: seq<Token>, b: seq<Token>, stack: seq<real>)
    ensures RunStack(a + b, stack) ==
      match RunStack(a, stack)
      case Err(e) => Err(e)
      case Ok(s) => RunStack(b, s)
    decreases |a|
  {
    if a == [] {
      assert a + b == b;
    } else {
      assert (a + b)[0] == a[0];
      assert (a + b)[1..] == a[1..] + b;
      match a[0]
      case Num(v) =>
        RunStackAppend(a[1..], b, stack + [v]);
      case Op(op) =>
        if |stack| >= 2 {
          match Apply(op, stack[|stack| - 2], Top(stack))
          case Err(e) =>
          case Ok(v) =>
            RunStackAppend(a[1..], b, stack[..|stack| - 2] + [v]);
        }
    }
  }

  /** Running the reference evaluator over a complete tree's traversal pushes
      exactly that tree's value, or fails exactly as evaluating the tree does. */
  lemma {:induction false} RunStackPostOrder(t: Tree, stack: seq<real>)
    requires Complete(t)
    ensures RunStack(PostOrder(t), stack) ==
      match Eval(t)
      case Err(e) => Err(e)
      case Ok(v) => Ok(stack + [v])
  {
    match t
    case Leaf(v) =>
    case Node(op, left, right) =>
      var l := left.value;
      var lr := PostOrder(l);
      var rr := PostOrder(right);
      assert PostOrder(t) == lr + (rr + [Op(op)]);
      RunStackAppend(lr, rr + [Op(op)], stack);
      RunStackPostOrder(l, stack);
      match Eval(l)
      case Err(e) =>
      case Ok(lv) =>
        RunStackAppend(rr, [Op(op)], stack + [lv]);
        RunStackPostOrder(right, stack + [lv]);
        match Eval(right)
        case Err(e) =>
        case Ok(rv) =>
          var s := stack + [lv] + [rv];
          assert s[|s| - 2] == lv && Top(s) == rv && s[..|s| - 2] == stack;
          assert [Op(op)][1..] == [];
  }

  /** Building then evaluating agrees with the reference evaluator: the tokens
      in front of the tree are reduced first, then the tree's value is pushed. */
  lemma BuildThenEval(ps: seq<Token>)
    requires Build(ps).Some?
    ensures var (t, rest) := Build(ps).value;
      RunStack(ps, []) ==
        match RunStack(rest, [])
        case Err(e) => Err(e)
        case Ok(s) =>
          match Eval(t)
          case Err(e) => Err(e)
          case Ok(v) => Ok(s + [v])
  {
    var (t, rest) := Build(ps).value;
    RunStackAppend(rest, PostOrder(t), []);
    match RunStack(rest, [])
    case Err(e) =>
    case Ok(s) => RunStackPostOrder(t, s);
  }

  /** On a postfix sequence that is exactly one expression, building then
      evaluating gives the reference value. */
  lemma BuildThenEvalWhole(ps: seq<Token>)
    requires Build(ps).Some? && Build(ps).value.1 == []
    ensures Eval(Build(ps).value.0) == EvalPostfix(ps)
  {
    BuildThenEval(ps);
  }
}
