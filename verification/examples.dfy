/** Worked examples: concrete input lines, their postfix forms and their values. */
module Examples {
  import opened Base
  import opened Precedence
  import opened Lexer
  import opened Tokens
  import opened Converter
  import opened ConverterProperties
  import opened Trees
  import opened Evaluator
  import opened Rendering

  // ---------------------------------------------------------------------------
  // Numbers

  /** A single digit is a number whose value is the digit. */
  lemma Digit(t: NumText)
    requires |t| == 1 && IsDigit(t[0])
    ensures WellFormedNumber(t)
    ensures NumberValue(t) == (t[0] as int - '0' as int) as real
  {
    assert DotIndex(t) == 1 by {
      assert t[1..] == [];
    }
    assert DigitsValue(t) == DigitsValue([]) * 10 + DigitValue(t[0]);
  }

  lemma Ten()
    ensures WellFormedNumber("10") && NumberValue("10") == 10.0
  {
    assert IsDigit("10"[0]);
    assert DotIndex("10") == 2 by {
      assert DotIndex("10"[1..]) == 1 by {
        assert "10"[1..][1..] == [];
      }
    }
    assert Pop("10") == "1" && Pop("1") == [];
    assert DigitsValue("10") == 10;
  }

  lemma Digits()
    ensures WellFormedNumber("1") && NumberValue("1") == 1.0
    ensures WellFormedNumber("2") && NumberValue("2") == 2.0
    ensures WellFormedNumber("3") && NumberValue("3") == 3.0
    ensures WellFormedNumber("4") && NumberValue("4") == 4.0
    ensures WellFormedNumber("8") && NumberValue("8") == 8.0
  {
    Digit("1");
    Digit("2");
    Digit("3");
    Digit("4");
    Digit("8");
  }

  lemma LitFacts(t: NumText)
    ensures Render(Lit(t)) == [NumLex(t)]
    ensures PostOrder(ToTree(Lit(t))) == [Num(NumberValue(t))]
    ensures Value(Lit(t)) == Ok(NumberValue(t))
  {
  }

  lemma BinFacts(op: char, l: Expr, r: Expr)
    requires Value(l).Ok? && Value(r).Ok?
    ensures Render(Bin(op, l, r))
      == Wrap(Render(l), Tightness(l) < Level(op)) + [OpLex(op)] + Wrap(Render(r), Tightness(r) <= Level(op))
    ensures PostOrder(ToTree(Bin(op, l, r))) == PostOrder(ToTree(l)) + PostOrder(ToTree(r)) + [Op(op)]
    ensures Value(Bin(op, l, r)) == Apply(op, Value(l).value, Value(r).value)
  {
  }

  /** A sum of two numbers, used by several examples. */
  lemma SumFacts(x: NumText, y: NumText)
    requires WellFormedNumber(x) && WellFormedNumber(y)
    ensures WellFormed(Bin('+', Lit(x), Lit(y)))
    ensures Render(Bin('+', Lit(x), Lit(y))) == [NumLex(x), OpLex('+'), NumLex(y)]
    ensures PostOrder(ToTree(Bin('+', Lit(x), Lit(y)))) == [Num(NumberValue(x)), Num(NumberValue(y)), Op('+')]
    ensures Value(Bin('+', Lit(x), Lit(y))) == Ok(NumberValue(x) + NumberValue(y))
  {
    LitFacts(x);
    LitFacts(y);
    BinFacts('+', Lit(x), Lit(y));
  }

  // ---------------------------------------------------------------------------
  // Scanning, one piece at a time

  lemma ScanDigitThen(d: char, rest: string)
    requires IsDigit(d) && (rest == [] || !IsNumChar(rest[0]))
    ensures Scan([d] + rest) == [NumLex([d])] + Scan(rest)
  {
    ScanNumberThen([d], rest);
  }

  lemma ScanDigitOperator(d: char, op: char, rest: string)
    requires IsDigit(d) && IsOpChar(op)
    ensures Scan([d, op] + rest) == [NumLex([d]), OpLex(op)] + Scan(rest)
  {
    ScanOperatorThen(op, rest);
    ScanDigitThen(d, [op] + rest);
    assert [d, op] + rest == [d] + ([op] + rest);
  }

  /** A parenthesised digit-operator-digit group. */
  lemma ScanGroup(u: char, op: char, v: char, rest: string)
    requires IsDigit(u) && IsOpChar(op) && IsDigit(v)
    ensures Scan(['(', u, op, v, ')'] + rest)
      == Wrap([NumLex([u]), OpLex(op), NumLex([v])], true) + Scan(rest)
  {
    ScanDigitOperator(v, ')', rest);
    ScanDigitOperator(u, op, [v, ')'] + rest);
    ScanOperatorThen('(', [u, op] + ([v, ')'] + rest));
    Regroup5('(', u, op, v, ')', rest);
    var tail := Scan(rest);
    Regroup5(OpLex('('), NumLex([u]), OpLex(op), NumLex([v]), OpLex(')'), tail);
  }

  lemma Regroup5<T>(a: T, b: T, c: T, d: T, e: T, rest: seq<T>)
    ensures [a] + ([b, c] + ([d, e] + rest)) == [a, b, c, d, e] + rest
  {
  }

  // ---------------------------------------------------------------------------
  // "3+4*2": '*' binds tighter than '+'

  lemma PrecedenceFacts(x: NumText, y: NumText, z: NumText)
    requires WellFormedNumber(x) && NumberValue(x) == 3.0
    requires WellFormedNumber(y) && NumberValue(y) == 4.0
    requires WellFormedNumber(z) && NumberValue(z) == 2.0
    ensures WellFormed(Bin('+', Lit(x), Bin('*', Lit(y), Lit(z))))
    ensures Render(Bin('+', Lit(x), Bin('*', Lit(y), Lit(z))))
      == [NumLex(x), OpLex('+'), NumLex(y), OpLex('*'), NumLex(z)]
    ensures PostOrder(ToTree(Bin('+', Lit(x), Bin('*', Lit(y), Lit(z)))))
      == [Num(3.0), Num(4.0), Num(2.0), Op('*'), Op('+')]
    ensures Value(Bin('+', Lit(x), Bin('*', Lit(y), Lit(z)))) == Ok(11.0)
  {
    LitFacts(x);
    LitFacts(y);
    LitFacts(z);
    BinFacts('*', Lit(y), Lit(z));
    BinFacts('+', Lit(x), Bin('*', Lit(y), Lit(z)));
  }

  lemma PrecedenceLine(x: NumText, y: NumText, z: NumText, text: string)
    requires WellFormedNumber(x) && NumberValue(x) == 3.0
    requires WellFormedNumber(y) && NumberValue(y) == 4.0
    requires WellFormedNumber(z) && NumberValue(z) == 2.0
    requires Scan(text) == [NumLex(x), OpLex('+'), NumLex(y), OpLex('*'), NumLex(z)]
    ensures InToPostfix(text) == Ok([Num(3.0), Num(4.0), Num(2.0), Op('*'), Op('+')])
    ensures Calculate(text) == Ok(11.0)
  {
    PrecedenceFacts(x, y, z);
    CalculateRendered(Bin('+', Lit(x), Bin('*', Lit(y), Lit(z))), text);
  }

  lemma ScanPrecedence(a: char, b: char, c: char)
    requires IsDigit(a) && IsDigit(b) && IsDigit(c)
    ensures Scan([a, '+', b, '*', c]) == [NumLex([a]), OpLex('+'), NumLex([b]), OpLex('*'), NumLex([c])]
  {
    assert [a, '+'] + ([b, '*'] + ([c] + [])) == [a, '+', b, '*', c];
    assert [NumLex([a]), OpLex('+')] + ([NumLex([b]), OpLex('*')] + ([NumLex([c])] + []))
      == [NumLex([a]), OpLex('+'), NumLex([b]), OpLex('*'), NumLex([c])];
    ScanDigitThen(c, []);
    ScanDigitOperator(b, '*', [c] + []);
    ScanDigitOperator(a, '+', [b, '*'] + ([c] + []));
  }

  lemma PrecedenceExample()
    ensures InToPostfix("3+4*2") == Ok([Num(3.0), Num(4.0), Num(2.0), Op('*'), Op('+')])
    ensures Calculate("3+4*2") == Ok(11.0)
  {
    Digits();
    ScanPrecedence('3', '4', '2');
    PrecedenceLine("3", "4", "2", "3+4*2");
  }

  // ---------------------------------------------------------------------------
  // "10/2-3": '/' first, then '-'

  lemma LeftToRightFacts(x: NumText, y: NumText, z: NumText)
    requires WellFormedNumber(x) && NumberValue(x) == 10.0
    requires WellFormedNumber(y) && NumberValue(y) == 2.0
    requires WellFormedNumber(z) && NumberValue(z) == 3.0
    ensures WellFormed(Bin('-', Bin('/', Lit(x), Lit(y)), Lit(z)))
    ensures Render(Bin('-', Bin('/', Lit(x), Lit(y)), Lit(z)))
      == [NumLex(x), OpLex('/'), NumLex(y), OpLex('-'), NumLex(z)]
    ensures PostOrder(ToTree(Bin('-', Bin('/', Lit(x), Lit(y)), Lit(z))))
      == [Num(10.0), Num(2.0), Op('/'), Num(3.0), Op('-')]
    ensures Value(Bin('-', Bin('/', Lit(x), Lit(y)), Lit(z))) == Ok(2.0)
  {
    LitFacts(x);
    LitFacts(y);
    LitFacts(z);
    BinFacts('/', Lit(x), Lit(y));
    BinFacts('-', Bin('/', Lit(x), Lit(y)), Lit(z));
  }

  lemma LeftToRightLine(x: NumText, y: NumText, z: NumText, text: string)
    requires WellFormedNumber(x) && NumberValue(x) == 10.0
    requires WellFormedNumber(y) && NumberValue(y) == 2.0
    requires WellFormedNumber(z) && NumberValue(z) == 3.0
    requires Scan(text) == [NumLex(x), OpLex('/'), NumLex(y), OpLex('-'), NumLex(z)]
    ensures InToPostfix(text) == Ok([Num(10.0), Num(2.0), Op('/'), Num(3.0), Op('-')])
    ensures Calculate(text) == Ok(2.0)
  {
    LeftToRightFacts(x, y, z);
    CalculateRendered(Bin('-', Bin('/', Lit(x), Lit(y)), Lit(z)), text);
  }

  lemma ScanLeftToRight(a: char, b: char, c: char, d: char)
    requires IsDigit(a) && IsDigit(b) && IsDigit(c) && IsDigit(d)
    ensures Scan([a, b, '/', c, '-', d]) == [NumLex([a, b]), OpLex('/'), NumLex([c]), OpLex('-'), NumLex([d])]
  {
    assert [a, b] + (['/'] + ([c, '-'] + ([d] + []))) == [a, b, '/', c, '-', d];
    assert [NumLex([a, b])] + ([OpLex('/')] + ([NumLex([c]), OpLex('-')] + ([NumLex([d])] + [])))
      == [NumLex([a, b]), OpLex('/'), NumLex([c]), OpLex('-'), NumLex([d])];
    ScanDigitThen(d, []);
    ScanDigitOperator(c, '-', [d] + []);
    ScanOperatorThen('/', [c, '-'] + ([d] + []));
    ScanNumberThen([a, b], ['/'] + ([c, '-'] + ([d] + [])));
  }

  lemma LeftToRightExample()
    ensures InToPostfix("10/2-3") == Ok([Num(10.0), Num(2.0), Op('/'), Num(3.0), Op('-')])
    ensures Calculate("10/2-3") == Ok(2.0)
  {
    Digits();
    Ten();
    ScanLeftToRight('1', '0', '2', '3');
    LeftToRightLine("10", "2", "3", "10/2-3");
  }

  // ---------------------------------------------------------------------------
  // "(3+4)*2": parentheses first

  lemma ParenthesesFacts(x: NumText, y: NumText, z: NumText)
    requires WellFormedNumber(x) && NumberValue(x) == 3.0
    requires WellFormedNumber(y) && NumberValue(y) == 4.0
    requires WellFormedNumber(z) && NumberValue(z) == 2.0
    ensures WellFormed(Bin('*', Bin('+', Lit(x), Lit(y)), Lit(z)))
    ensures Render(Bin('*', Bin('+', Lit(x), Lit(y)), Lit(z)))
      == [OpLex('('), NumLex(x), OpLex('+'), NumLex(y), OpLex(')'), OpLex('*'), NumLex(z)]
    ensures PostOrder(ToTree(Bin('*', Bin('+', Lit(x), Lit(y)), Lit(z))))
      == [Num(3.0), Num(4.0), Op('+'), Num(2.0), Op('*')]
    ensures Value(Bin('*', Bin('+', Lit(x), Lit(y)), Lit(z))) == Ok(14.0)
  {
    SumFacts(x, y);
    LitFacts(z);
    BinFacts('*', Bin('+', Lit(x), Lit(y)), Lit(z));
  }

  lemma ParenthesesLine(x: NumText, y: NumText, z: NumText, text: string)
    requires WellFormedNumber(x) && NumberValue(x) == 3.0
    requires WellFormedNumber(y) && NumberValue(y) == 4.0
    requires WellFormedNumber(z) && NumberValue(z) == 2.0
    requires Scan(text) == [OpLex('('), NumLex(x), OpLex('+'), NumLex(y), OpLex(')'), OpLex('*'), NumLex(z)]
    ensures InToPostfix(text) == Ok([Num(3.0), Num(4.0), Op('+'), Num(2.0), Op('*')])
    ensures Calculate(text) == Ok(14.0)
  {
    ParenthesesFacts(x, y, z);
    CalculateRendered(Bin('*', Bin('+', Lit(x), Lit(y)), Lit(z)), text);
  }

  /** A parenthesised sum followed by an operator and a digit. */
  lemma ScanParentheses(a: char, b: char, op: char, c: char)
    requires IsDigit(a) && IsDigit(b) && IsOpChar(op) && IsDigit(c)
    ensures Scan(['(', a, '+', b, ')', op, c])
      == [OpLex('('), NumLex([a]), OpLex('+'), NumLex([b]), OpLex(')'), OpLex(op), NumLex([c])]
  {
    assert ['(', a, '+', b, ')'] + ([op] + ([c] + [])) == ['(', a, '+', b, ')', op, c];
    assert Wrap([NumLex([a]), OpLex('+'), NumLex([b])], true) + ([OpLex(op)] + ([NumLex([c])] + []))
      == [OpLex('('), NumLex([a]), OpLex('+'), NumLex([b]), OpLex(')'), OpLex(op), NumLex([c])];
    ScanDigitThen(c, []);
    ScanOperatorThen(op, [c] + []);
    ScanGroup(a, '+', b, [op] + ([c] + []));
  }

  lemma ParenthesesExample()
    ensures InToPostfix("(3+4)*2") == Ok([Num(3.0), Num(4.0), Op('+'), Num(2.0), Op('*')])
    ensures Calculate("(3+4)*2") == Ok(14.0)
  {
    Digits();
    ScanParentheses('3', '4', '*', '2');
    ParenthesesLine("3", "4", "2", "(3+4)*2");
  }

  // ---------------------------------------------------------------------------
  // "(1+2)+3": parentheses that precedence does not need

  lemma RedundantFacts(x: NumText, y: NumText, z: NumText)
    requires WellFormedNumber(x) && NumberValue(x) == 1.0
    requires WellFormedNumber(y) && NumberValue(y) == 2.0
    requires WellFormedNumber(z) && NumberValue(z) == 3.0
    ensures WellFormed(Bin('+', Group(Bin('+', Lit(x), Lit(y))), Lit(z)))
    ensures Render(Bin('+', Group(Bin('+', Lit(x), Lit(y))), Lit(z)))
      == [OpLex('('), NumLex(x), OpLex('+'), NumLex(y), OpLex(')'), OpLex('+'), NumLex(z)]
    ensures PostOrder(ToTree(Bin('+', Group(Bin('+', Lit(x), Lit(y))), Lit(z))))
      == [Num(1.0), Num(2.0), Op('+'), Num(3.0), Op('+')]
    ensures Value(Bin('+', Group(Bin('+', Lit(x), Lit(y))), Lit(z))) == Ok(6.0)
  {
    SumFacts(x, y);
    LitFacts(z);
    BinFacts('+', Group(Bin('+', Lit(x), Lit(y))), Lit(z));
  }

  lemma RedundantLine(x: NumText, y: NumText, z: NumText, text: string)
    requires WellFormedNumber(x) && NumberValue(x) == 1.0
    requires WellFormedNumber(y) && NumberValue(y) == 2.0
    requires WellFormedNumber(z) && NumberValue(z) == 3.0
    requires Scan(text) == [OpLex('('), NumLex(x), OpLex('+'), NumLex(y), OpLex(')'), OpLex('+'), NumLex(z)]
    ensures InToPostfix(text) == Ok([Num(1.0), Num(2.0), Op('+'), Num(3.0), Op('+')])
    ensures Calculate(text) == Ok(6.0)
  {
    RedundantFacts(x, y, z);
    CalculateRendered(Bin('+', Group(Bin('+', Lit(x), Lit(y))), Lit(z)), text);
  }

  lemma RedundantExample()
    ensures InToPostfix("(1+2)+3") == Ok([Num(1.0), Num(2.0), Op('+'), Num(3.0), Op('+')])
    ensures Calculate("(1+2)+3") == Ok(6.0)
  {
    Digits();
    ScanParentheses('1', '2', '+', '3');
    RedundantLine("1", "2", "3", "(1+2)+3");
  }

  // ---------------------------------------------------------------------------
  // "2(3+4)": a number before '(' multiplies

  lemma NumberParenLine(w: NumText, x: NumText, y: NumText, text: string)
    requires WellFormedNumber(w) && NumberValue(w) == 2.0
    requires WellFormedNumber(x) && NumberValue(x) == 3.0
    requires WellFormedNumber(y) && NumberValue(y) == 4.0
    requires Scan(text) == [NumLex(w)] + Wrap([NumLex(x), OpLex('+'), NumLex(y)], true)
    ensures InToPostfix(text) == Ok([Num(2.0), Num(3.0), Num(4.0), Op('+'), Op('*')])
    ensures Calculate(text) == Ok(14.0)
  {
    var e := Bin('*', Lit(w), Bin('+', Lit(x), Lit(y)));
    assert WellFormed(Bin('+', Lit(x), Lit(y)))
      && PostOrder(ToTree(e)) == [Num(2.0), Num(3.0), Num(4.0), Op('+'), Op('*')]
      && Value(e) == Ok(14.0)
    by {
      SumFacts(x, y);
      LitFacts(w);
      BinFacts('*', Lit(w), Bin('+', Lit(x), Lit(y)));
    }
    assert Render(Bin('+', Lit(x), Lit(y))) == [NumLex(x), OpLex('+'), NumLex(y)] by {
      SumFacts(x, y);
    }
    ImplicitProduct(w, Bin('+', Lit(x), Lit(y)), text);
  }

  lemma ScanNumberParen(a: char, b: char, c: char)
    requires IsDigit(a) && IsDigit(b) && IsDigit(c)
    ensures Scan([a, '(', b, '+', c, ')']) == [NumLex([a])] + Wrap([NumLex([b]), OpLex('+'), NumLex([c])], true)
  {
    assert [a] + (['(', b, '+', c, ')'] + []) == [a, '(', b, '+', c, ')'];
    var w := Wrap([NumLex([b]), OpLex('+'), NumLex([c])], true);
    assert [NumLex([a])] + (w + []) == [NumLex([a])] + w;
    ScanGroup(b, '+', c, []);
    ScanDigitThen(a, ['(', b, '+', c, ')'] + []);
  }

  lemma NumberParenExample()
    ensures InToPostfix("2(3+4)") == Ok([Num(2.0), Num(3.0), Num(4.0), Op('+'), Op('*')])
    ensures Calculate("2(3+4)") == Ok(14.0)
  {
    Digits();
    ScanNumberParen('2', '3', '4');
    NumberParenLine("2", "3", "4", "2(3+4)");
  }

  // ---------------------------------------------------------------------------
  // "(1+2)(3+4)": ')' before '(' multiplies

  lemma ParenParenLine(u: NumText, v: NumText, x: NumText, y: NumText, text: string)
    requires WellFormedNumber(u) && NumberValue(u) == 1.0
    requires WellFormedNumber(v) && NumberValue(v) == 2.0
    requires WellFormedNumber(x) && NumberValue(x) == 3.0
    requires WellFormedNumber(y) && NumberValue(y) == 4.0
    requires Scan(text) == Wrap([NumLex(u), OpLex('+'), NumLex(v)], true) + Wrap([NumLex(x), OpLex('+'), NumLex(y)], true)
    ensures InToPostfix(text) == Ok([Num(1.0), Num(2.0), Op('+'), Num(3.0), Num(4.0), Op('+'), Op('*')])
    ensures Calculate(text) == Ok(21.0)
  {
    var a, b := Bin('+', Lit(u), Lit(v)), Bin('+', Lit(x), Lit(y));
    assert PostOrder(ToTree(Bin('*', a, b))) == [Num(1.0), Num(2.0), Op('+'), Num(3.0), Num(4.0), Op('+'), Op('*')]
      && Value(Bin('*', a, b)) == Ok(21.0)
    by {
      SumFacts(u, v);
      SumFacts(x, y);
      BinFacts('*', a, b);
    }
    assert WellFormed(a) && Render(a) == [NumLex(u), OpLex('+'), NumLex(v)] by {
      SumFacts(u, v);
    }
    assert WellFormed(b) && Render(b) == [NumLex(x), OpLex('+'), NumLex(y)] by {
      SumFacts(x, y);
    }
    ParenProduct(a, b, text);
  }

  lemma ScanParenParen(a: char, b: char, c: char, d: char)
    requires IsDigit(a) && IsDigit(b) && IsDigit(c) && IsDigit(d)
    ensures Scan(['(', a, '+', b, ')', '(', c, '+', d, ')'])
      == Wrap([NumLex([a]), OpLex('+'), NumLex([b])], true) + Wrap([NumLex([c]), OpLex('+'), NumLex([d])], true)
  {
    assert ['(', a, '+', b, ')'] + (['(', c, '+', d, ')'] + []) == ['(', a, '+', b, ')', '(', c, '+', d, ')'];
    var w := Wrap([NumLex([c]), OpLex('+'), NumLex([d])], true);
    assert w + [] == w;
    ScanGroup(c, '+', d, []);
    ScanGroup(a, '+', b, ['(', c, '+', d, ')'] + []);
  }

  lemma ParenParenExample()
    ensures InToPostfix("(1+2)(3+4)")
      == Ok([Num(1.0), Num(2.0), Op('+'), Num(3.0), Num(4.0), Op('+'), Op('*')])
    ensures Calculate("(1+2)(3+4)") == Ok(21.0)
  {
    Digits();
    ScanParenParen('1', '2', '3', '4');
    ParenParenLine("1", "2", "3", "4", "(1+2)(3+4)");
  }

  // ---------------------------------------------------------------------------
  // "2 (3)": a blank between the number and '(' changes nothing

  lemma BlankParenLine(x: NumText, y: NumText, text: string)
    requires WellFormedNumber(x) && NumberValue(x) == 2.0
    requires WellFormedNumber(y) && NumberValue(y) == 3.0
    requires Scan(text) == [NumLex(x)] + Wrap([NumLex(y)], true)
    ensures InToPostfix(text) == Ok([Num(2.0), Num(3.0), Op('*')])
    ensures Calculate(text) == Ok(6.0)
  {
    assert PostOrder(ToTree(Bin('*', Lit(x), Lit(y)))) == [Num(2.0), Num(3.0), Op('*')]
      && Value(Bin('*', Lit(x), Lit(y))) == Ok(6.0)
    by {
      LitFacts(x);
      LitFacts(y);
      BinFacts('*', Lit(x), Lit(y));
    }
    assert Render(Lit(y)) == [NumLex(y)];
    ImplicitProduct(x, Lit(y), text);
  }

  lemma ScanBlankParen(a: char, b: char)
    requires IsDigit(a) && IsDigit(b)
    ensures Scan([a, ' ', '(', b, ')']) == [NumLex([a])] + Wrap([NumLex([b])], true)
  {
    assert [a] + ([' '] + (['('] + ([b, ')'] + ([] + [])))) == [a, ' ', '(', b, ')'];
    assert [NumLex([a])] + ([OpLex('(')] + ([NumLex([b]), OpLex(')')] + ([] + [])))
      == [NumLex([a])] + Wrap([NumLex([b])], true);
    ScanOperatorThen(')', []);
    ScanDigitOperator(b, ')', [] + []);
    ScanOperatorThen('(', [b, ')'] + ([] + []));
    ScanSkip(' ', ['('] + ([b, ')'] + ([] + [])));
    ScanDigitThen(a, [' '] + (['('] + ([b, ')'] + ([] + []))));
  }

  lemma BlankParenExample()
    ensures InToPostfix("2 (3)") == Ok([Num(2.0), Num(3.0), Op('*')])
    ensures Calculate("2 (3)") == Ok(6.0)
  {
    Digits();
    ScanBlankParen('2', '3');
    BlankParenLine("2", "3", "2 (3)");
  }

  // ---------------------------------------------------------------------------
  // "2 3": two numbers side by side are not multiplied; the last one is the result

  lemma TwoNumbersLine(x: NumText, y: NumText, text: string)
    requires WellFormedNumber(x) && WellFormedNumber(y)
    requires Scan(text) == [NumLex(x), NumLex(y)]
    ensures InToPostfix(text) == Ok([Num(NumberValue(x)), Num(NumberValue(y))])
    ensures Calculate(text) == Ok(NumberValue(y))
  {
    var ls := [NumLex(x), NumLex(y)];
    var ps := [Num(NumberValue(x)), Num(NumberValue(y))];
    assert Convert(ls) == ps by {
      var s1 := State([], [Num(NumberValue(x))], x[0]);
      var s2 := State([], ps, y[0]);
      assert Run(Start, [NumLex(x)]) == s1 by {
        StepNumber(Start, x);
        RunOne(Start, NumLex(x));
      }
      assert Run(s1, [NumLex(y)]) == s2 by {
        StepNumber(s1, y);
        RunOne(s1, NumLex(y));
      }
      assert ls == [NumLex(x)] + [NumLex(y)];
      RunThrough(Start, [NumLex(x)], [NumLex(y)], s1);
    }
    assert FirstBadNumber(ls) == None;
    assert InToPostfix(text) == Ok(ps);
    assert Build(ps) == Some((Leaf(NumberValue(y)), [Num(NumberValue(x))])) by {
      assert Top(ps) == Num(NumberValue(y)) && Pop(ps) == [Num(NumberValue(x))];
    }
  }

  lemma ScanTwoNumbers(a: char, b: char)
    requires IsDigit(a) && IsDigit(b)
    ensures Scan([a, ' ', b]) == [NumLex([a]), NumLex([b])]
  {
    assert [a] + ([' '] + ([b] + [])) == [a, ' ', b];
    ScanDigitThen(b, []);
    ScanSkip(' ', [b] + []);
    ScanDigitThen(a, [' '] + ([b] + []));
  }

  lemma TwoNumbersExample()
    ensures InToPostfix("2 3") == Ok([Num(2.0), Num(3.0)])
    ensures Calculate("2 3") == Ok(3.0)
  {
    Digits();
    ScanTwoNumbers('2', '3');
    TwoNumbersLine("2", "3", "2 3");
  }

  // ---------------------------------------------------------------------------
  // "8/(4-4)": division by zero

  lemma DivideByZeroLine(x: NumText, y: NumText, text: string)
    requires WellFormedNumber(x) && NumberValue(x) == 8.0
    requires WellFormedNumber(y) && NumberValue(y) == 4.0
    requires Scan(text) == [NumLex(x), OpLex('/')] + Wrap([NumLex(y), OpLex('-'), NumLex(y)], true)
    ensures Calculate(text) == Err(DivisionByZero)
  {
    var d := Bin('-', Lit(y), Lit(y));
    var e := Bin('/', Lit(x), d);
    assert WellFormed(d) && Render(d) == [NumLex(y), OpLex('-'), NumLex(y)] && Value(d) == Ok(0.0) by {
      LitFacts(y);
      BinFacts('-', Lit(y), Lit(y));
    }
    assert WellFormed(e) by {
      assert WellFormed(Lit(x));
    }
    assert Value(e) == Err(DivisionByZero) by {
      LitFacts(x);
      BinFacts('/', Lit(x), d);
    }
    assert Render(e) == [NumLex(x), OpLex('/')] + Wrap([NumLex(y), OpLex('-'), NumLex(y)], true) by {
      LitFacts(x);
      BinFacts('/', Lit(x), d);
    }
    CalculateRendered(e, text);
  }

  lemma ScanDivideByZero(a: char, b: char, c: char)
    requires IsDigit(a) && IsDigit(b) && IsDigit(c)
    ensures Scan([a, '/', '(', b, '-', c, ')'])
      == [NumLex([a]), OpLex('/')] + Wrap([NumLex([b]), OpLex('-'), NumLex([c])], true)
  {
    assert [a, '/'] + (['(', b, '-', c, ')'] + []) == [a, '/', '(', b, '-', c, ')'];
    var w := Wrap([NumLex([b]), OpLex('-'), NumLex([c])], true);
    assert w + [] == w;
    ScanGroup(b, '-', c, []);
    ScanDigitOperator(a, '/', ['(', b, '-', c, ')'] + []);
  }

  lemma DivideByZeroExample()
    ensures Calculate("8/(4-4)") == Err(DivisionByZero)
  {
    Digits();
    ScanDivideByZero('8', '4', '4');
    DivideByZeroLine("8", "4", "8/(4-4)");
  }

  // ---------------------------------------------------------------------------
  // "1..2": a run of number characters that is not a number

  lemma BadNumberExample()
    ensures InToPostfix("1..2") == Err(BadNumber("1..2"))
    ensures Calculate("1..2") == Err(BadNumber("1..2"))
  {
    assert Scan("1..2") == [NumLex("1..2")] by {
      ScanNumberThen("1..2", "");
      assert "1..2" + "" == "1..2";
    }
    assert !WellFormedNumber("1..2") by {
      assert "1..2"[1] == '.' && "1..2"[2] == '.';
    }
  }
}
