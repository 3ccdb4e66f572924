/** Arithmetic expressions written out as text, with the parentheses that
    precedence and left-associativity require plus any number of redundant ones,
    and the end-to-end theorem: the calculator returns the expression's value
    for every such text. */
module Rendering {
  import opened Base
  import opened Precedence
  import opened Lexer
  import opened Tokens
  import opened Converter
  import opened ConverterProperties
  import opened Trees
  import opened Evaluator

  /** An arithmetic expression over number literals and the four binary
      operators; a group is a subexpression the writer put in parentheses
      whether or not precedence asks for them. */
  datatype Expr = Lit(text: NumText) | Bin(op: char, left: Expr, right: Expr) | Group(inner: Expr)

  predicate IsBinaryOp(c: char)
  {
    c == '+' || c == '-' || c == '*' || c == '/'
  }

  predicate WellFormed(e: Expr)
  {
    match e
    case Lit(t) => WellFormedNumber(t)
    case Bin(op, l, r) => IsBinaryOp(op) && WellFormed(l) && WellFormed(r)
    case Group(g) => WellFormed(g)
  }

  lemma BinaryLevel(op: char)
    requires IsBinaryOp(op)
    ensures 1 <= Level(op) <= 2
  {
  }

  /** How tightly the expression's outermost operator binds; literals and
      groups bind tightest. */
  function Tightness(e: Expr): nat
  {
    match e
    case Lit(_) => 6
    case Bin(op, _, _) => Level(op)
    case Group(_) => 6
  }

  function Wrap(ls: seq<Lexeme>, paren: bool): seq<Lexeme>
  {
    if paren then [OpLex('(')] + ls + [OpLex(')')] else ls
  }

  /** The expression as lexemes: a left operand is parenthesised when it binds
      more loosely than the operator, a right operand when it binds no tighter
      (operators of one level associate to the left), and a group always. */
  function Render(e: Expr): seq<Lexeme>
    decreases e, 1
  {
    match e
    case Lit(t) => [NumLex(t)]
    case Bin(op, l, r) => LeftPart(e) + [OpLex(op)] + RightPart(e)
    case Group(g) => Wrap(Render(g), true)
  }

  /** The lexemes of a binary expression's left operand, parenthesised when needed. */
  function LeftPart(e: Expr): seq<Lexeme>
    requires e.Bin?
    decreases e, 0
  {
    Wrap(Render(e.left), Tightness(e.left) < Level(e.op))
  }

  /** The lexemes of a binary expression's right operand, parenthesised when needed. */
  function RightPart(e: Expr): seq<Lexeme>
    requires e.Bin?
    decreases e, 0
  {
    Wrap(Render(e.right), Tightness(e.right) <= Level(e.op))
  }

  /** The expression as an input line. */
  function Text(e: Expr): string
  {
    Spaced(Render(e))
  }

  /** The expression's value, computed directly: left operand, right operand, operator. */
  function Value(e: Expr): (r: Result<real>)
    ensures r.Err? ==> r.error == DivisionByZero
  {
    match e
    case Lit(t) => Ok(NumberValue(t))
    case Bin(op, l, r) =>
      (match Value(l)
       case Err(err) => Err(err)
       case Ok(a) =>
         match Value(r)
         case Err(err) => Err(err)
         case Ok(b) => Apply(op, a, b))
    case Group(g) => Value(g)
  }

  /** The expression as a tree of the calculator. */
  function ToTree(e: Expr): (t: Tree)
    ensures Complete(t)
  {
    match e
    case Lit(t) => Leaf(NumberValue(t))
    case Bin(op, l, r) => Node(op, Some(ToTree(l)), ToTree(r))
    case Group(g) => ToTree(g)
  }

  /** The operators of `e` still on the converter's stack once its last lexeme
      has been processed: the outermost operator and, when the right operand is
      not parenthesised, that operand's pending operators above it. A group's
      closing parenthesis leaves nothing pending. */
  function Pending(e: Expr): seq<char>
  {
    match e
    case Lit(_) => []
    case Bin(op, _, r) => [op] + (if Tightness(r) <= Level(op) then [] else Pending(r))
    case Group(_) => []
  }

  // ---------------------------------------------------------------------------
  // Lexical facts

  /** Lexemes the scanner can produce whose numbers all parse. */
  predicate Good(ls: seq<Lexeme>)
  {
    forall i :: 0 <= i < |ls| ==> ls[i].Valid() && (ls[i].NumLex? ==> WellFormedNumber(ls[i].text))
  }

  lemma GoodAppend(a: seq<Lexeme>, b: seq<Lexeme>)
    requires Good(a) && Good(b)
    ensures Good(a + b)
  {
    forall i | 0 <= i < |a + b|
      ensures (a + b)[i].Valid() && ((a + b)[i].NumLex? ==> WellFormedNumber((a + b)[i].text))
    {
      if i < |a| {
        assert (a + b)[i] == a[i];
      } else {
        assert (a + b)[i] == b[i - |a|];
      }
    }
  }

  lemma WrapGood(ls: seq<Lexeme>)
    requires Good(ls)
    ensures Good(Wrap(ls, true))
  {
    assert Good([OpLex('(')]) && Good([OpLex(')')]);
    GoodAppend([OpLex('(')], ls);
    GoodAppend([OpLex('(')] + ls, [OpLex(')')]);
  }

  lemma {:induction false} RenderGood(e: Expr)
    requires WellFormed(e)
    ensures Good(Render(e))
  {
    match e
    case Lit(t) =>
      assert forall i :: 0 <= i < |t| ==> IsNumChar(t[i]);
    case Bin(op, l, r) =>
      RenderGood(l);
      RenderGood(r);
      var pl := Tightness(l) < Level(op);
      var pr := Tightness(r) <= Level(op);
      assert Good([OpLex('(')]) && Good([OpLex(')')]) && Good([OpLex(op)]);
      GoodAppend([OpLex('(')], Render(l));
      GoodAppend([OpLex('(')] + Render(l), [OpLex(')')]);
      GoodAppend([OpLex('(')], Render(r));
      GoodAppend([OpLex('(')] + Render(r), [OpLex(')')]);
      GoodAppend(Wrap(Render(l), pl), [OpLex(op)]);
      GoodAppend(Wrap(Render(l), pl) + [OpLex(op)], Wrap(Render(r), pr));
    case Group(g) =>
      RenderGood(g);
      WrapGood(Render(g));
  }

  // ---------------------------------------------------------------------------
  // The converter on rendered expressions

  /** Every entry of `cs` binds at least as tightly as level `p`. */
  predicate BindsAtLeast(cs: seq<char>, p: nat)
  {
    cs == [] || (p <= Level(Top(cs)) && BindsAtLeast(Pop(cs), p))
  }

  lemma {:induction false} BindsPrepend(c: char, cs: seq<char>, p: nat)
    requires p <= Level(c) && BindsAtLeast(cs, p)
    ensures BindsAtLeast([c] + cs, p)
  {
    if cs != [] {
      assert Top([c] + cs) == Top(cs);
      assert Pop([c] + cs) == [c] + Pop(cs);
      BindsPrepend(c, Pop(cs), p);
    }
  }

  lemma {:induction false} BindsWeaker(cs: seq<char>, p: nat, q: nat)
    requires q <= p && BindsAtLeast(cs, p)
    ensures BindsAtLeast(cs, q)
  {
    if cs != [] {
      BindsWeaker(Pop(cs), p, q);
    }
  }

  /** Every pending operator binds at least as tightly as the expression itself,
      and none is a parenthesis. */
  lemma {:induction false} PendingLevels(e: Expr)
    requires WellFormed(e)
    ensures BindsAtLeast(Pending(e), Tightness(e))
    ensures '(' !in Pending(e)
  {
    match e
    case Lit(_) =>
    case Bin(op, l, r) =>
      if Tightness(r) > Level(op) {
        PendingLevels(r);
        BindsWeaker(Pending(r), Tightness(r), Level(op));
        BindsPrepend(op, Pending(r), Level(op));
        assert Pending(e) == [op] + Pending(r);
      } else {
        assert Pending(e) == [op];
        BindsPrepend(op, [], Level(op));
        assert [op] + [] == [op];
      }
    case Group(_) =>
  }

  lemma {:induction false} KeepExact(base: seq<char>, pend: seq<char>, p: nat)
    requires BindsAtLeast(pend, p)
    requires base == [] || Level(Top(base)) < p
    ensures Keep(base + pend, p) == |base|
  {
    if pend == [] {
      assert base + pend == base;
    } else {
      assert Top(base + pend) == Top(pend);
      assert Pop(base + pend) == base + Pop(pend);
      KeepExact(base, Pop(pend), p);
    }
  }

  /** Popping with level `p` removes exactly a top segment that binds at least
      that tightly and stops at an entry that binds less tightly. */
  lemma PopExact(base: seq<char>, pend: seq<char>, out: seq<Token>, b: char, p: nat)
    requires BindsAtLeast(pend, p)
    requires base == [] || Level(Top(base)) < p
    ensures PopWhile(State(base + pend, out, b), p) == State(base, out + Drain(pend), b)
  {
    KeepExact(base, pend, p);
    assert (base + pend)[..|base|] == base;
    assert (base + pend)[|base|..] == pend;
  }

  lemma {:induction false} NearestOpenExact(base: seq<char>, pend: seq<char>)
    requires '(' !in pend
    ensures NearestOpen(base + ['('] + pend) == Some(|base|)
  {
    if pend == [] {
      assert base + ['('] + pend == base + ['('];
    } else {
      assert Top(base + ['('] + pend) == Top(pend);
      assert Pop(base + ['('] + pend) == base + ['('] + Pop(pend);
      NearestOpenExact(base, Pop(pend));
    }
  }

  /** A ')' with a '(' below a segment free of '(' pops exactly that segment. */
  lemma CloseExact(base: seq<char>, pend: seq<char>, out: seq<Token>, b: char)
    requires '(' !in pend
    ensures CloseParen(State(base + ['('] + pend, out, b)) == State(base, out + Drain(pend), b)
  {
    NearestOpenExact(base, pend);
    var stack := base + ['('] + pend;
    assert stack[..|base|] == base;
    assert stack[|base| + 1..] == pend;
  }

  // One lemma per kind of lexeme, each on a plain state, so that later proofs
  // never unfold the converter's step on a composite state.

  lemma StepNumber(st: State, t: NumText)
    ensures Step(st, NumLex(t)) == State(st.stack, st.output + [Num(NumberValue(t))], t[0])
  {
  }

  lemma StepOpenPlain(st: State)
    requires !ImpliesMultiplication(st.before)
    ensures Step(st, OpLex('(')) == State(st.stack + ['('], st.output, '(')
  {
  }

  /** A '(' after a character that implies multiplication, with an empty stack. */
  lemma StepOpenImplied(st: State)
    requires ImpliesMultiplication(st.before) && st.stack == []
    ensures Step(st, OpLex('(')) == State(['*'] + ['('], st.output, '(')
  {
    assert PopWhile(st, Level('*')) == st;
    assert OmitMult(st) == State(['*'], st.output, st.before);
  }

  lemma StepClose(st: State)
    ensures Step(st, OpLex(')')) == CloseParen(st).(before := ')')
  {
  }

  lemma StepPush(st: State, op: char)
    requires IsBinaryOp(op)
    ensures Step(st, OpLex(op)) == PushOperator(st, op).(before := op)
  {
  }

  lemma PushAfterPop(st: State, q: State, op: char)
    requires PopWhile(st, Level(op)) == q
    ensures PushOperator(st, op) == State(q.stack + [op], q.output, q.before)
  {
  }

  /** The lexemes of `e` followed by ')', processed just after a '(' was pushed:
      the '(' is gone again and the output has grown by the post-order traversal. */
  lemma {:induction false} ParenBody(e: Expr, base: seq<char>, out: seq<Token>)
    requires WellFormed(e)
    ensures Run(State(base + ['('], out, '('), Render(e) + [OpLex(')')]) == State(base, out + PostOrder(ToTree(e)), ')')
    decreases e, 4
  {
    var st := State(base + ['('], out, '(');
    var s := Run(st, Render(e));
    assert s.stack == base + ['('] + Pending(e) && s.output + Drain(Pending(e)) == out + PostOrder(ToTree(e)) by {
      assert e.Bin? ==> Level(Top(st.stack)) < Level(e.op) by {
        assert Top(st.stack) == '(';
        if e.Bin? {
          BinaryLevel(e.op);
        }
      }
      RenderRun(e, st);
    }
    CloseAfter(e, base, out, s);
    RunThrough(st, Render(e), [OpLex(')')], s);
  }

  /** The ')' that closes a rendered expression: its pending operators and the
      matching '(' leave the stack. */
  lemma CloseAfter(e: Expr, base: seq<char>, out: seq<Token>, s: State)
    requires WellFormed(e)
    requires s.stack == base + ['('] + Pending(e)
    requires s.output + Drain(Pending(e)) == out + PostOrder(ToTree(e))
    ensures Run(s, [OpLex(')')]) == State(base, out + PostOrder(ToTree(e)), ')')
  {
    assert s == State(base + ['('] + Pending(e), s.output, s.before);
    PendingLevels(e);
    CloseExact(base, Pending(e), s.output, s.before);
    StepClose(s);
    RunOne(s, OpLex(')'));
  }

  /** A parenthesised expression after a character that implies no
      multiplication leaves the stack as it was and appends its traversal. */
  lemma ParenRun(e: Expr, st: State)
    requires WellFormed(e)
    requires !ImpliesMultiplication(st.before)
    ensures Run(st, Wrap(Render(e), true)) == State(st.stack, st.output + PostOrder(ToTree(e)), ')')
    decreases e, 5
  {
    var s1 := State(st.stack + ['('], st.output, '(');
    assert Run(st, [OpLex('(')]) == s1 by {
      StepOpenPlain(st);
      RunOne(st, OpLex('('));
    }
    assert Wrap(Render(e), true) == [OpLex('(')] + (Render(e) + [OpLex(')')]);
    RunThrough(st, [OpLex('(')], Render(e) + [OpLex(')')], s1);
    ParenBody(e, st.stack, st.output);
  }

  /** The shunting-yard invariant on a rendered expression: afterwards the
      stack holds the entry stack plus the pending operators, and popping them
      completes the post-order traversal. */
  lemma {:induction false} RenderRun(e: Expr, st: State)
    requires WellFormed(e)
    requires !ImpliesMultiplication(st.before) || e.Lit?
    requires e.Bin? ==> st.stack == [] || Level(Top(st.stack)) < Level(e.op)
    ensures Run(st, Render(e)).stack == st.stack + Pending(e)
    ensures Run(st, Render(e)).output + Drain(Pending(e)) == st.output + PostOrder(ToTree(e))
    decreases e, 3
  {
    match e
    case Lit(t) =>
      LiteralRun(t, st);
    case Bin(_, _, _) =>
      BinaryRun(e, st);
    case Group(g) =>
      ParenRun(g, st);
      assert Pending(e) == [] && Drain([]) == [];
      assert st.stack + [] == st.stack;
  }

  /** A number lexeme goes straight to the output. */
  lemma LiteralRun(t: NumText, st: State)
    ensures Run(st, Render(Lit(t))).stack == st.stack + Pending(Lit(t))
    ensures Run(st, Render(Lit(t))).output + Drain(Pending(Lit(t))) == st.output + PostOrder(ToTree(Lit(t)))
  {
    var s := Step(st, NumLex(t));
    assert s == State(st.stack, st.output + [Num(NumberValue(t))], t[0]);
    assert Run(st, [NumLex(t)]) == s by {
      RunOne(st, NumLex(t));
    }
    assert Pending(Lit(t)) == [] && Drain([]) == [];
    assert st.stack + [] == st.stack;
  }

  /** The shunting-yard invariant for a binary expression: its left operand
      and operator, then its right operand. */
  lemma {:induction false} BinaryRun(e: Expr, st: State)
    requires e.Bin? && WellFormed(e)
    requires !ImpliesMultiplication(st.before)
    requires st.stack == [] || Level(Top(st.stack)) < Level(e.op)
    ensures Run(st, Render(e)).stack == st.stack + Pending(e)
    ensures Run(st, Render(e)).output + Drain(Pending(e)) == st.output + PostOrder(ToTree(e))
    decreases e, 2
  {
    var s2 := State(st.stack + [e.op], st.output + PostOrder(ToTree(e.left)), e.op);
    LeftOperand(e, st);
    assert Render(e) == (LeftPart(e) + [OpLex(e.op)]) + RightPart(e);
    RunThrough(st, LeftPart(e) + [OpLex(e.op)], RightPart(e), s2);
    RightOperand(e, st.stack, s2.output);
    PostOrderBinary(e);
    Regroup(st.output, PostOrder(ToTree(e.left)), PostOrder(ToTree(e.right)), [Op(e.op)]);
  }

  lemma Regroup<T>(a: seq<T>, b: seq<T>, c: seq<T>, d: seq<T>)
    ensures a + b + c + d == a + (b + c + d)
  {
  }

  lemma PostOrderBinary(e: Expr)
    requires e.Bin?
    ensures PostOrder(ToTree(e)) == PostOrder(ToTree(e.left)) + PostOrder(ToTree(e.right)) + [Op(e.op)]
  {
  }

  /** The right operand of `e`, processed once its operator is on the stack:
      the operator stays pending above the entry stack and, with the right
      operand's own pending operators, completes the traversal of `e`. */
  lemma {:induction false} RightOperand(e: Expr, base: seq<char>, out: seq<Token>)
    requires e.Bin? && WellFormed(e)
    ensures Run(State(base + [e.op], out, e.op), RightPart(e)).stack == base + Pending(e)
    ensures Run(State(base + [e.op], out, e.op), RightPart(e)).output + Drain(Pending(e))
      == out + PostOrder(ToTree(e.right)) + [Op(e.op)]
    decreases e, 1
  {
    var op, r := e.op, e.right;
    var s2 := State(base + [op], out, op);
    var s3 := Run(s2, RightPart(e));
    if Tightness(r) <= Level(op) {
      ParenRun(r, s2);
      assert Pending(e) == [op];
      assert Drain([op]) == [Op(op)];
    } else {
      RenderRun(r, s2);
      assert Pending(e) == [op] + Pending(r);
      DrainAppend([op], Pending(r));
      assert Drain([op]) == [Op(op)];
      Assoc(s3.output, Drain(Pending(r)), [Op(op)]);
      Assoc(base, [op], Pending(r));
    }
  }

  lemma Assoc<T>(a: seq<T>, b: seq<T>, c: seq<T>)
    ensures a + (b + c) == (a + b) + c
  {
  }

  /** The left operand of `e` and its operator: the operator ends up on top of
      the entry stack and the output holds the left operand's traversal. */
  lemma {:induction false} LeftOperand(e: Expr, st: State)
    requires e.Bin? && WellFormed(e)
    requires !ImpliesMultiplication(st.before)
    requires st.stack == [] || Level(Top(st.stack)) < Level(e.op)
    ensures Run(st, LeftPart(e) + [OpLex(e.op)])
      == State(st.stack + [e.op], st.output + PostOrder(ToTree(e.left)), e.op)
    decreases e, 1
  {
    var op, l := e.op, e.left;
    var pend := if Tightness(l) < Level(op) then [] else Pending(l);
    var s1 := Run(st, LeftPart(e));
    assert s1 == State(st.stack + pend, s1.output, s1.before) && s1.output + Drain(pend) == st.output + PostOrder(ToTree(l)) by {
      LeftOperandRun(e, st);
    }
    assert BindsAtLeast(pend, Level(op)) by {
      if pend != [] {
        PendingLevels(l);
        BindsWeaker(Pending(l), Tightness(l), Level(op));
      }
    }
    StepOperator(st.stack, pend, s1.output, s1.before, op);
    assert Run(st, LeftPart(e) + [OpLex(op)]) == Step(s1, OpLex(op)) by {
      RunAppend(st, LeftPart(e), [OpLex(op)]);
      RunOne(s1, OpLex(op));
    }
  }

  /** The lexemes of `e`'s left operand leave its pending operators (none when
      it is parenthesised) above the entry stack. */
  lemma {:induction false} LeftOperandRun(e: Expr, st: State)
    requires e.Bin? && WellFormed(e)
    requires !ImpliesMultiplication(st.before)
    requires st.stack == [] || Level(Top(st.stack)) < Level(e.op)
    ensures Run(st, LeftPart(e)).stack == st.stack + (if Tightness(e.left) < Level(e.op) then [] else Pending(e.left))
    ensures Run(st, LeftPart(e)).output + Drain(if Tightness(e.left) < Level(e.op) then [] else Pending(e.left))
      == st.output + PostOrder(ToTree(e.left))
    decreases e, 0
  {
    if Tightness(e.left) < Level(e.op) {
      ParenRun(e.left, st);
      assert st.stack + [] == st.stack;
    } else {
      RenderRun(e.left, st);
    }
  }

  /** A binary operator arriving above operators that bind at least as
      tightly pops exactly those and sits on top of the rest. */
  lemma StepOperator(base: seq<char>, pend: seq<char>, out: seq<Token>, b: char, op: char)
    requires IsBinaryOp(op)
    requires BindsAtLeast(pend, Level(op))
    requires base == [] || Level(Top(base)) < Level(op)
    ensures Step(State(base + pend, out, b), OpLex(op)) == State(base + [op], out + Drain(pend), op)
  {
    var st := State(base + pend, out, b);
    var q := State(base, out + Drain(pend), b);
    assert PopWhile(st, Level(op)) == q by {
      PopExact(base, pend, out, b, Level(op));
    }
    PushAfterPop(st, q, op);
    StepPush(st, op);
  }

  /** The converter turns a rendered expression into its post-order traversal. */
  lemma ConvertRender(e: Expr)
    requires WellFormed(e)
    ensures Convert(Render(e)) == PostOrder(ToTree(e))
  {
    RenderRun(e, Start);
    var s := Run(Start, Render(e));
    assert s.stack == Pending(e);
    assert s.output + Drain(s.stack) == PostOrder(ToTree(e));
  }

  /** Evaluating the calculator's tree gives the expression's value. */
  lemma {:induction false} EvalToTree(e: Expr)
    ensures Eval(ToTree(e)) == Value(e)
  {
    match e
    case Lit(_) =>
    case Bin(op, l, r) =>
      EvalToTree(l);
      EvalToTree(r);
    case Group(g) =>
      EvalToTree(g);
  }

  /** A line whose lexemes the scanner produces, whose numbers all parse, and
      whose postfix form is the traversal of `e`'s tree evaluates to `e`'s value. */
  lemma PostfixValue(e: Expr, text: string)
    requires Good(Scan(text))
    requires Convert(Scan(text)) == PostOrder(ToTree(e))
    ensures InToPostfix(text) == Ok(PostOrder(ToTree(e)))
    ensures Calculate(text) == Value(e)
  {
    BuildPostOrder(ToTree(e), []);
    assert [] + PostOrder(ToTree(e)) == PostOrder(ToTree(e));
    EvalToTree(e);
  }

  /** Any line the scanner splits into the lexemes of a rendered expression is
      converted to the expression's postfix form and evaluates to its value. */
  lemma CalculateRendered(e: Expr, text: string)
    requires WellFormed(e)
    requires Scan(text) == Render(e)
    ensures InToPostfix(text) == Ok(PostOrder(ToTree(e)))
    ensures Calculate(text) == Value(e)
  {
    RenderGood(e);
    ConvertRender(e);
    PostfixValue(e, text);
  }

  /** End to end: the calculator evaluates every expression written with the
      parentheses precedence requires and any redundant ones, and blanks
      between lexemes, to the expression's value,
      so '*' and '/' bind tighter than '+' and '-' and operators of one level
      associate to the left. */
  lemma CalculateText(e: Expr)
    requires WellFormed(e)
    ensures Calculate(Text(e)) == Value(e)
  {
    RenderGood(e);
    ScanSpaced(Render(e));
    CalculateRendered(e, Text(e));
  }

  /** The same written without any blanks. */
  lemma CalculateCompact(e: Expr)
    requires WellFormed(e)
    ensures Calculate(Concat(Render(e))) == Value(e)
  {
    RenderGood(e);
    RenderSeparated(e);
    ScanConcat(Render(e));
    CalculateRendered(e, Concat(Render(e)));
  }

  lemma {:induction false} RenderSeparated(e: Expr)
    ensures Separated(Render(e))
  {
    match e
    case Lit(_) =>
    case Bin(op, l, r) =>
      RenderSeparated(l);
      RenderSeparated(r);
      WrapSeparated(Render(l), Tightness(l) < Level(op));
      WrapSeparated(Render(r), Tightness(r) <= Level(op));
      SeparatedAppend(LeftPart(e), [OpLex(op)]);
      SeparatedAppend(LeftPart(e) + [OpLex(op)], RightPart(e));
    case Group(g) =>
      RenderSeparated(g);
      WrapSeparated(Render(g), true);
  }

  lemma WrapSeparated(ls: seq<Lexeme>, paren: bool)
    requires Separated(ls)
    ensures Separated(Wrap(ls, paren))
  {
    if paren {
      SeparatedAppend([OpLex('(')], ls);
      SeparatedAppend([OpLex('(')] + ls, [OpLex(')')]);
    }
  }

  /** A '(' arriving with an empty stack just after a character that implies
      multiplication: the parenthesised expression ends up multiplied with
      whatever came before it. */
  lemma ProductRun(e: Expr, st: State)
    requires WellFormed(e)
    requires st.stack == [] && ImpliesMultiplication(st.before)
    ensures Run(st, Wrap(Render(e), true)) == State(['*'], st.output + PostOrder(ToTree(e)), ')')
  {
    var s1 := State(['*'] + ['('], st.output, '(');
    assert Run(st, [OpLex('(')]) == s1 by {
      StepOpenImplied(st);
      RunOne(st, OpLex('('));
    }
    assert Wrap(Render(e), true) == [OpLex('(')] + (Render(e) + [OpLex(')')]);
    RunThrough(st, [OpLex('(')], Render(e) + [OpLex(')')], s1);
    ParenBody(e, ['*'], st.output);
  }

  /** The converter on a line made of a number followed by a parenthesised
      expression and nothing else: the number's first character is a digit or
      a decimal point, so a '*' is inserted before the '('. */
  lemma ConvertImplicitProduct(t: NumText, e: Expr)
    requires WellFormed(e) && WellFormedNumber(t)
    ensures Convert([NumLex(t)] + Wrap(Render(e), true)) == PostOrder(ToTree(Bin('*', Lit(t), e)))
  {
    var s1 := State([], [Num(NumberValue(t))], t[0]);
    assert Run(Start, [NumLex(t)]) == s1 by {
      StepNumber(Start, t);
      RunOne(Start, NumLex(t));
    }
    RunThrough(Start, [NumLex(t)], Wrap(Render(e), true), s1);
    assert IsNumChar(t[0]);
    ProductRun(e, s1);
    assert Drain(['*']) == [Op('*')];
  }

  /** A line made of a number written directly in front of a parenthesised
      expression, with or without blanks in between, evaluates to their
      product. */
  lemma ImplicitProduct(t: NumText, e: Expr, text: string)
    requires WellFormed(e) && WellFormedNumber(t)
    requires Scan(text) == [NumLex(t)] + Wrap(Render(e), true)
    ensures InToPostfix(text) == Ok(PostOrder(ToTree(Bin('*', Lit(t), e))))
    ensures Calculate(text) == Value(Bin('*', Lit(t), e))
  {
    RenderGood(e);
    WrapGood(Render(e));
    assert Good([NumLex(t)]);
    GoodAppend([NumLex(t)], Wrap(Render(e), true));
    ConvertImplicitProduct(t, e);
    PostfixValue(Bin('*', Lit(t), e), text);
  }

  /** The converter on a line made of two parenthesised expressions in a row:
      a '(' right after a ')' inserts a '*'. */
  lemma ConvertParenProduct(a: Expr, b: Expr)
    requires WellFormed(a) && WellFormed(b)
    ensures Convert(Wrap(Render(a), true) + Wrap(Render(b), true)) == PostOrder(ToTree(Bin('*', a, b)))
  {
    var s1 := State([], PostOrder(ToTree(a)), ')');
    assert Run(Start, Wrap(Render(a), true)) == s1 by {
      ParenRun(a, Start);
    }
    RunThrough(Start, Wrap(Render(a), true), Wrap(Render(b), true), s1);
    ProductRun(b, s1);
    assert Drain(['*']) == [Op('*')];
  }

  /** A line made of two parenthesised expressions written next to each other
      evaluates to their product. */
  lemma ParenProduct(a: Expr, b: Expr, text: string)
    requires WellFormed(a) && WellFormed(b)
    requires Scan(text) == Wrap(Render(a), true) + Wrap(Render(b), true)
    ensures InToPostfix(text) == Ok(PostOrder(ToTree(Bin('*', a, b))))
    ensures Calculate(text) == Value(Bin('*', a, b))
  {
    RenderGood(a);
    RenderGood(b);
    WrapGood(Render(a));
    WrapGood(Render(b));
    GoodAppend(Wrap(Render(a), true), Wrap(Render(b), true));
    ConvertParenProduct(a, b);
    PostfixValue(Bin('*', a, b), text);
  }
}
