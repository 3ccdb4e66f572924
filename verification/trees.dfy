/** The expression tree and its construction from a postfix sequence, which is
    consumed from its tail: the right operand is built first, then the left. */
module Trees {
  import opened Base
  import opened Precedence
  import opened Tokens

  /** A leaf holds a number; an operator node holds its right operand and,
      unless the operator is unary, its left operand. */
  datatype Tree = Leaf(value: real) | Node(op: char, left: Option<Tree>, right: Tree)

  /** Every operator node has a left operand exactly when its operator is not unary. */
  predicate Complete(t: Tree)
  {
    match t
    case Leaf(_) => true
    case Node(op, left, right) =>
      && (left.Some? <==> !IsUnary(op))
      && Complete(right)
      && (left.Some? ==> Complete(left.value))
  }

  /** Post-order traversal (left, right, node) as a postfix sequence. */
  function PostOrder(t: Tree): (ps: seq<Token>)
    ensures |ps| > 0
  {
    match t
    case Leaf(v) => [Num(v)]
    case Node(op, left, right) =>
      (if left.Some? then PostOrder(left.value) else []) + PostOrder(right) + [Op(op)]
  }

  /** Builds one tree from the tail of `ps` and returns it with the tokens that
      precede it; None when the sequence runs out before the tree is complete.
      The consumed tokens are exactly the tree's post-order traversal. */
  function Build(ps: seq<Token>): (r: Option<(Tree, seq<Token>)>)
    ensures r.Some? ==> Complete(r.value.0)
    ensures r.Some? ==> ps == r.value.1 + PostOrder(r.value.0)
    decreases |ps|
  {
    if ps == [] then None
    else match Top(ps)
      case Num(v) => Some((Leaf(v), Pop(ps)))
      case Op(op) =>
        match Build(Pop(ps))
        case None => None
        case Some((right, rest)) =>
          if IsUnary(op) then Some((Node(op, None, right), rest))
          else
            match Build(rest)
            case None => None
            case Some((left, rest')) => Some((Node(op, Some(left), right), rest'))
  }

  /** Building inverts the traversal: from any prefix followed by the
      post-order traversal of a complete tree, the builder takes back exactly
      that tree and leaves exactly the prefix. */
  lemma {:induction false} BuildPostOrder(t: Tree, rest: seq<Token>)
    requires Complete(t)
    ensures Build(rest + PostOrder(t)) == Some((t, rest))
  {
    var ps := rest + PostOrder(t);
    match t
    case Leaf(v) =>
      assert Pop(ps) == rest;
    case Node(op, left, right) =>
      var l := left.value;
      assert ps == (rest + PostOrder(l)) + PostOrder(right) + [Op(op)];
      assert Pop(ps) == (rest + PostOrder(l)) + PostOrder(right);
      BuildPostOrder(right, rest + PostOrder(l));
      BuildPostOrder(l, rest);
  }

  /** A well-formed postfix sequence holds one more number than operators. */
  function Arity(ps: seq<Token>): int
  {
    if ps == [] then 0 else (if ps[0].Num? then 1 else -1) + Arity(ps[1..])
  }

  lemma {:induction false} ArityAppend(a: seq<Token>, b: seq<Token>)
    ensures Arity(a + b) == Arity(a) + Arity(b)
  {
    if a == [] {
      assert a + b == b;
    } else {
      assert (a + b)[1..] == a[1..] + b;
      ArityAppend(a[1..], b);
    }
  }

  /** The tokens the builder consumes hold exactly one more number than operators. */
  lemma {:induction false} PostOrderArity(t: Tree)
    requires Complete(t)
    ensures Arity(PostOrder(t)) == 1
  {
    match t
    case Leaf(_) =>
    case Node(op, left, right) =>
      PostOrderArity(left.value);
      PostOrderArity(right);
      ArityAppend(PostOrder(left.value), PostOrder(right));
      ArityAppend(PostOrder(left.value) + PostOrder(right), [Op(op)]);
  }
}
