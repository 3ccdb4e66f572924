/** What the shunting-yard pass guarantees: its operator stack stays ordered by
    binding strength, numbers reach the output unchanged and in order,
    parentheses never reach it when they are balanced, and the remembered
    character is always the first character of the last lexeme. */
module ConverterProperties {
  import opened Base
  import opened Precedence
  import opened Lexer
  import opened Tokens
  import opened Converter

  lemma {:induction false} RunAppend(st: State, a: seq<Lexeme>, b: seq<Lexeme>)
    ensures Run(st, a + b) == Run(Run(st, a), b)
    decreases |a|
  {
    if a == [] {
      assert a + b == b;
    } else {
      assert (a + b)[0] == a[0];
      assert (a + b)[1..] == a[1..] + b;
      RunAppend(Step(st, a[0]), a[1..], b);
    }
  }

  lemma RunOne(st: State, lx: Lexeme)
    ensures Run(st, [lx]) == Step(st, lx)
  {
    assert [lx][1..] == [];
  }

  /** Once the first part of the input is known to lead to `mid`, the rest
      continues from `mid`. */
  lemma RunThrough(st: State, a: seq<Lexeme>, b: seq<Lexeme>, mid: State)
    requires Run(st, a) == mid
    ensures Run(st, a + b) == Run(mid, b)
  {
    RunAppend(st, a, b);
  }

  // ---------------------------------------------------------------------------
  // The stack invariant

  /** Going up the stack, each entry is a '(' or binds strictly tighter than the
      entry below it. */
  predicate Ordered(stack: seq<char>)
  {
    forall i :: 0 < i < |stack| ==> stack[i] == '(' || Level(stack[i - 1]) < Level(stack[i])
  }

  lemma PushKeepsOrdered(st: State, d: char)
    requires Ordered(st.stack)
    ensures Ordered(PushOperator(st, d).stack)
  {
    var r := PushOperator(st, d);
    var below := Pop(r.stack);
    assert r.stack == below + [d];
    assert below == st.stack[..|below|];
    assert below == [] || Level(Top(below)) < Level(d);
  }

  /** Every step of the pass keeps the stack ordered. */
  lemma StepKeepsOrdered(st: State, lx: Lexeme)
    requires Ordered(st.stack)
    ensures Ordered(Step(st, lx).stack)
  {
    match lx
    case NumLex(_) =>
    case OpLex(c) =>
      if c == '(' {
        var s := OmitMult(st);
        if ImpliesMultiplication(st.before) {
          PushKeepsOrdered(st, '*');
        }
        assert Step(st, lx).stack == s.stack + ['('];
      } else if c == ')' {
        var r := CloseParen(st);
        assert r.stack == st.stack[..|r.stack|];
      } else {
        PushKeepsOrdered(st, c);
      }
  }

  /** The whole pass keeps the stack ordered. */
  lemma {:induction false} RunKeepsOrdered(st: State, ls: seq<Lexeme>)
    requires Ordered(st.stack)
    ensures Ordered(Run(st, ls).stack)
    decreases |ls|
  {
    if ls != [] {
      StepKeepsOrdered(st, ls[0]);
      RunKeepsOrdered(Step(st, ls[0]), ls[1..]);
    }
  }

  // ---------------------------------------------------------------------------
  // Numbers

  /** The values of the number lexemes, in order. */
  function NumberValues(ls: seq<Lexeme>): (vs: seq<real>)
    ensures |vs| <= |ls|
  {
    if ls == [] then []
    else match ls[0]
      case NumLex(t) => [NumberValue(t)] + NumberValues(ls[1..])
      case OpLex(_) => NumberValues(ls[1..])
  }

  lemma {:induction false} NoNumsInDrain(cs: seq<char>)
    ensures NumsOf(Drain(cs)) == []
  {
    if cs != [] {
      NoNumsInDrain(Pop(cs));
    }
  }

  lemma StepNumbers(st: State, lx: Lexeme)
    ensures NumsOf(Step(st, lx).output) ==
      NumsOf(st.output) + (if lx.NumLex? then [NumberValue(lx.text)] else [])
  {
    var r := Step(st, lx);
    match lx
    case NumLex(t) =>
      NumsOfAppend(st.output, [Num(NumberValue(t))]);
    case OpLex(c) =>
      var k := |r.stack|;
      if c == '(' {
        if ImpliesMultiplication(st.before) {
          var m := OmitMult(st);
          NumsOfAppend(st.output, Drain(st.stack[|m.stack| - 1..]));
          NoNumsInDrain(st.stack[|m.stack| - 1..]);
        }
      } else if c == ')' {
        var s := CloseParen(st);
        if '(' in st.stack {
          NumsOfAppend(st.output, Drain(st.stack[|s.stack| + 1..]));
          NoNumsInDrain(st.stack[|s.stack| + 1..]);
        } else {
          NumsOfAppend(st.output, Drain(st.stack));
          NoNumsInDrain(st.stack);
        }
      } else {
        var s := PushOperator(st, c);
        NumsOfAppend(st.output, Drain(st.stack[|s.stack| - 1..]));
        NoNumsInDrain(st.stack[|s.stack| - 1..]);
      }
  }

  lemma {:induction false} RunNumbers(st: State, ls: seq<Lexeme>)
    ensures NumsOf(Run(st, ls).output) == NumsOf(st.output) + NumberValues(ls)
    decreases |ls|
  {
    if ls != [] {
      StepNumbers(st, ls[0]);
      RunNumbers(Step(st, ls[0]), ls[1..]);
    }
  }

  /** The numbers of the postfix output are the values of the number lexemes of
      the input, in their original order: the conversion only moves operators. */
  lemma ConvertKeepsNumbers(ls: seq<Lexeme>)
    ensures NumsOf(Convert(ls)) == NumberValues(ls)
  {
    var s := Run(Start, ls);
    RunNumbers(Start, ls);
    NumsOfAppend(s.output, Drain(s.stack));
    NoNumsInDrain(s.stack);
  }

  /** The same, for a whole input line that converts without error. */
  lemma InToPostfixKeepsNumbers(text: string)
    requires InToPostfix(text).Ok?
    ensures NumsOf(InToPostfix(text).value) == NumberValues(Scan(text))
  {
    ConvertKeepsNumbers(Scan(text));
  }

  // ---------------------------------------------------------------------------
  // Parentheses

  /** The number of '(' still open after the lexemes, starting from `d` open
      ones; a ')' with nothing open closes nothing. */
  function Unclosed(ls: seq<Lexeme>, d: nat): nat
  {
    if ls == [] then d else Unclosed(ls[1..], Track(ls[0], d))
  }

  /** The number of open parentheses after one lexeme. */
  function Track(lx: Lexeme, d: nat): nat
  {
    if lx == OpLex('(') then d + 1
    else if lx == OpLex(')') then (if d > 0 then d - 1 else 0)
    else d
  }

  /** Properly nested parentheses, `d` of them open at the start. */
  predicate Balanced(ls: seq<Lexeme>, d: nat)
  {
    if ls == [] then d == 0
    else if ls[0] == OpLex('(') then Balanced(ls[1..], d + 1)
    else if ls[0] == OpLex(')') then d > 0 && Balanced(ls[1..], d - 1)
    else Balanced(ls[1..], d)
  }

  /** In a balanced sequence every '(' is eventually closed. */
  lemma {:induction false} BalancedCloses(ls: seq<Lexeme>, d: nat)
    requires Balanced(ls, d)
    ensures Unclosed(ls, d) == 0
    decreases |ls|
  {
    if ls != [] {
      if ls[0] == OpLex('(') {
        BalancedCloses(ls[1..], d + 1);
      } else if ls[0] == OpLex(')') {
        BalancedCloses(ls[1..], d - 1);
      } else {
        BalancedCloses(ls[1..], d);
      }
    }
  }

  /** The parenthesis bookkeeping of the pass: the output has no parenthesis,
      the stack has no ')', and the stack holds one '(' per open parenthesis. */
  predicate ParenState(st: State, d: nat)
  {
    && Op('(') !in st.output
    && Op(')') !in st.output
    && ')' !in st.stack
    && multiset(st.stack)['('] == d
  }

  lemma DrainHas(cs: seq<char>, c: char)
    ensures Op(c) in Drain(cs) <==> c in cs
  {
    DrainReverses(cs);
    if c in cs {
      var i :| 0 <= i < |cs| && cs[i] == c;
      assert Drain(cs)[|cs| - 1 - i] == Op(c);
    }
  }

  /** Moving a suffix without parentheses from the stack to the output keeps
      the bookkeeping. */
  lemma MoveSuffix(st: State, k: nat, out: seq<Token>, d: nat)
    requires ParenState(st, d)
    requires k <= |st.stack|
    requires '(' !in st.stack[k..]
    requires out == st.output + Drain(st.stack[k..])
    ensures ParenState(State(st.stack[..k], out, st.before), d)
  {
    assert st.stack == st.stack[..k] + st.stack[k..];
    DrainHas(st.stack[k..], '(');
    DrainHas(st.stack[k..], ')');
    assert multiset(st.stack) == multiset(st.stack[..k]) + multiset(st.stack[k..]);
  }

  /** Operators popped for an operator of positive level include no '(',
      whose level is 0. */
  lemma PoppedHasNoOpen(stack: seq<char>, k: nat, p: nat)
    requires 0 < p && k <= |stack|
    requires forall i :: k <= i < |stack| ==> p <= Level(stack[i])
    ensures '(' !in stack[k..]
  {
    forall i | 0 <= i < |stack[k..]|
      ensures stack[k..][i] != '('
    {
      assert stack[k..][i] == stack[k + i];
    }
  }

  lemma OmitMultParens(st: State, d: nat)
    requires ParenState(st, d)
    ensures ParenState(OmitMult(st), d)
  {
    if ImpliesMultiplication(st.before) {
      var m := OmitMult(st);
      var k := |m.stack| - 1;
      PoppedHasNoOpen(st.stack, k, Level('*'));
      MoveSuffix(st, k, m.output, d);
      assert m.stack == st.stack[..k] + ['*'];
    }
  }

  lemma StepOpen(st: State)
    ensures Step(st, OpLex('(')) == State(OmitMult(st).stack + ['('], OmitMult(st).output, '(')
  {
  }

  lemma OpenParens(st: State, d: nat)
    requires ParenState(st, d)
    ensures ParenState(Step(st, OpLex('(')), d + 1)
  {
    var m := OmitMult(st);
    OmitMultParens(st, d);
    StepOpen(st);
    assert multiset(m.stack + ['(']) == multiset(m.stack) + multiset{'('};
  }

  lemma CloseParens(st: State, d: nat)
    requires ParenState(st, d)
    ensures ParenState(Step(st, OpLex(')')), if d > 0 then d - 1 else 0)
  {
    var s := CloseParen(st);
    if '(' in st.stack {
      var k := |s.stack|;
      MoveSuffix(st, k + 1, s.output, d);
      assert st.stack[..k + 1] == s.stack + ['('];
    } else {
      MoveSuffix(st, 0, s.output, d);
    }
  }

  lemma PushParens(st: State, c: char, d: nat)
    requires c == '+' || c == '-' || c == '*' || c == '/'
    requires ParenState(st, d)
    ensures ParenState(Step(st, OpLex(c)), d)
  {
    var s := PushOperator(st, c);
    assert 1 <= Level(c);
    Pushed(st, c, d, s.stack, s.output);
    assert Step(st, OpLex(c)) == State(s.stack, s.output, c);
  }

  /** The stack and output an operator push leaves: the popped part held no
      parenthesis, and the pushed operator is none. */
  lemma Pushed(st: State, c: char, d: nat, stack: seq<char>, out: seq<Token>)
    requires c != '(' && c != ')' && 1 <= Level(c)
    requires ParenState(st, d)
    requires 0 < |stack| <= |st.stack| + 1 && Top(stack) == c
    requires Pop(stack) == st.stack[..|stack| - 1]
    requires out == st.output + Drain(st.stack[|stack| - 1..])
    requires forall i :: |stack| - 1 <= i < |st.stack| ==> Level(c) <= Level(st.stack[i])
    ensures ParenState(State(stack, out, c), d)
  {
    var k := |stack| - 1;
    PoppedHasNoOpen(st.stack, k, Level(c));
    MoveSuffix(st, k, out, d);
    PushOther(State(st.stack[..k], out, st.before), c, c, d);
    assert stack == Pop(stack) + [Top(stack)];
  }

  /** Pushing anything but a parenthesis keeps the count of open parentheses. */
  lemma PushOther(st: State, c: char, b: char, d: nat)
    requires c != '(' && c != ')'
    requires ParenState(st, d)
    ensures ParenState(State(st.stack + [c], st.output, b), d)
  {
    assert multiset(st.stack + [c]) == multiset(st.stack) + multiset{c};
  }

  lemma StepParens(st: State, lx: Lexeme, d: nat)
    requires lx.Valid()
    requires ParenState(st, d)
    ensures ParenState(Step(st, lx), Track(lx, d))
  {
    match lx
    case NumLex(t) =>
    case OpLex(c) =>
      if c == '(' {
        OpenParens(st, d);
      } else if c == ')' {
        CloseParens(st, d);
      } else {
        PushParens(st, c, d);
      }
  }

  lemma {:induction false} RunParens(st: State, ls: seq<Lexeme>, d: nat)
    requires AllValid(ls)
    requires ParenState(st, d)
    ensures ParenState(Run(st, ls), Unclosed(ls, d))
    decreases |ls|
  {
    if ls != [] {
      StepParens(st, ls[0], d);
      RunParens(Step(st, ls[0]), ls[1..], Track(ls[0], d));
    }
  }

  /** No ')' ever reaches the postfix output of scanned lexemes, and a '(' does
      exactly when some '(' is left unclosed. */
  lemma ConvertParens(ls: seq<Lexeme>)
    requires AllValid(ls)
    ensures Op(')') !in Convert(ls)
    ensures Op('(') in Convert(ls) <==> Unclosed(ls, 0) > 0
  {
    var s := Run(Start, ls);
    RunParens(Start, ls, 0);
    DrainHas(s.stack, '(');
    DrainHas(s.stack, ')');
  }

  /** Balanced parentheses never reach the postfix output. */
  lemma BalancedHasNoParens(ls: seq<Lexeme>)
    requires AllValid(ls)
    requires Balanced(ls, 0)
    ensures Op('(') !in Convert(ls) && Op(')') !in Convert(ls)
  {
    BalancedCloses(ls, 0);
    ConvertParens(ls);
  }

  // ---------------------------------------------------------------------------
  // The remembered character

  /** After the pass the remembered character is the first character of the
      last lexeme; nothing else (skipped input in particular) changes it. */
  lemma StepBefore(st: State, lx: Lexeme)
    ensures Step(st, lx).before == lx.First()
  {
    match lx
    case NumLex(t) =>
    case OpLex(c) =>
      if c == '(' {
        StepOpen(st);
      }
  }

  lemma RunRemembersLastLexeme(st: State, ls: seq<Lexeme>)
    ensures Run(st, ls).before == if ls == [] then st.before else ls[|ls| - 1].First()
  {
    if ls != [] {
      var n := |ls|;
      var mid := Run(st, ls[..n - 1]);
      assert ls == ls[..n - 1] + [ls[n - 1]];
      RunThrough(st, ls[..n - 1], [ls[n - 1]], mid);
      RunOne(mid, ls[n - 1]);
      StepBefore(mid, ls[n - 1]);
    }
  }
}
