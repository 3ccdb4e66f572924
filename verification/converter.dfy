/** The infix-to-postfix converter: a shunting-yard pass over the lexemes with
    an operator stack, which also inserts a '*' before a '(' that directly
    follows an operand. */
module Converter {
  import opened Base
  import opened Precedence
  import opened Lexer
  import opened Tokens

  /** The converter's state between two lexemes: the operator stack (top at the
      end), the postfix output so far, and the first character of the previous
      lexeme. */
  datatype State = State(stack: seq<char>, output: seq<Token>, before: char)

  /** Before the first lexeme: empty stack and output, and a blank as the
      previous character. */
  const Start: State := State([], [], ' ')

  /** The operator tokens obtained by popping all of `cs` off the top, one by one. */
  function Drain(cs: seq<char>): (ts: seq<Token>)
    ensures |ts| == |cs|
  {
    if cs == [] then [] else [Op(Top(cs))] + Drain(Pop(cs))
  }

  /** Popping everything emits the stack in reverse: the top first. */
  lemma {:induction false} DrainReverses(cs: seq<char>)
    ensures forall i :: 0 <= i < |cs| ==> Drain(cs)[i] == Op(cs[|cs| - 1 - i])
  {
    if cs != [] {
      DrainReverses(Pop(cs));
    }
  }

  lemma DrainAppend(a: seq<char>, b: seq<char>)
    ensures Drain(a + b) == Drain(b) + Drain(a)
  {
    DrainReverses(a + b);
    DrainReverses(a);
    DrainReverses(b);
  }

  /** How many stack entries stay when popping from the top while the top binds
      at least as tightly as level `p`: every entry above the returned height
      binds that tightly, and the one just below it (if any) does not. */
  function Keep(stack: seq<char>, p: nat): (k: nat)
    ensures k <= |stack|
    ensures forall i :: k <= i < |stack| ==> p <= Level(stack[i])
    ensures k == 0 || Level(stack[k - 1]) < p
  {
    if stack == [] || Level(Top(stack)) < p then |stack| else Keep(Pop(stack), p)
  }

  /** Moves operators from the top of the stack to the output while the top
      binds at least as tightly as level `p`. */
  function PopWhile(st: State, p: nat): (r: State)
    ensures r.before == st.before
    ensures |r.stack| <= |st.stack| && r.stack == st.stack[..|r.stack|]
    ensures r.output == st.output + Drain(st.stack[|r.stack|..])
    ensures forall i :: |r.stack| <= i < |st.stack| ==> p <= Level(st.stack[i])
    ensures r.stack == [] || Level(Top(r.stack)) < p
  {
    var k := Keep(st.stack, p);
    State(st.stack[..k], st.output + Drain(st.stack[k..]), st.before)
  }

  /** Pushes operator `d` after popping everything that binds at least as tightly. */
  function PushOperator(st: State, d: char): (r: State)
    ensures r.before == st.before
    ensures 0 < |r.stack| <= |st.stack| + 1 && Top(r.stack) == d
    ensures Pop(r.stack) == st.stack[..|r.stack| - 1]
    ensures r.output == st.output + Drain(st.stack[|r.stack| - 1..])
    ensures forall i :: |r.stack| - 1 <= i < |st.stack| ==> Level(d) <= Level(st.stack[i])
    ensures |r.stack| == 1 || Level(r.stack[|r.stack| - 2]) < Level(d)
  {
    var s := PopWhile(st, Level(d));
    var stack := s.stack + [d];
    assert Pop(stack) == s.stack;
    assert |stack| == 1 || stack[|stack| - 2] == Top(s.stack);
    s.(stack := stack)
  }

  /** Inserts an implicit '*' when the previous lexeme began with a character
      after which a '(' means multiplication; otherwise changes nothing. */
  function OmitMult(st: State): (r: State)
    ensures !ImpliesMultiplication(st.before) ==> r == st
    ensures ImpliesMultiplication(st.before) ==>
      && 0 < |r.stack| <= |st.stack| + 1
      && Top(r.stack) == '*'
      && Pop(r.stack) == st.stack[..|r.stack| - 1]
      && r.output == st.output + Drain(st.stack[|r.stack| - 1..])
      && (forall i :: |r.stack| - 1 <= i < |st.stack| ==> Level('*') <= Level(st.stack[i]))
      && (|r.stack| == 1 || Level(r.stack[|r.stack| - 2]) < Level('*'))
      && r.before == st.before
  {
    if ImpliesMultiplication(st.before) then PushOperator(st, '*') else st
  }

  /** Position of the nearest '(' below the top of the stack, if any. */
  function NearestOpen(stack: seq<char>): (r: Option<nat>)
    ensures r.None? ==> '(' !in stack
    ensures r.Some? ==> r.value < |stack| && stack[r.value] == '(' && '(' !in stack[r.value + 1..]
  {
    if stack == [] then None
    else if Top(stack) == '(' then Some(|stack| - 1)
    else
      var r := NearestOpen(Pop(stack));
      assert stack == Pop(stack) + [Top(stack)];
      if r.Some? then
        assert stack[r.value + 1..] == Pop(stack)[r.value + 1..] + [Top(stack)];
        r
      else
        r
  }

  /** Handles ')': pops operators to the output down to the nearest '(' and
      discards that '('; with no '(' on the stack it empties the stack. */
  function CloseParen(st: State): (r: State)
    ensures r.before == st.before
    ensures |r.stack| <= |st.stack| && r.stack == st.stack[..|r.stack|]
    ensures '(' in st.stack ==>
      && |r.stack| < |st.stack|
      && st.stack[|r.stack|] == '('
      && '(' !in st.stack[|r.stack| + 1..]
      && r.output == st.output + Drain(st.stack[|r.stack| + 1..])
    ensures '(' !in st.stack ==> r.stack == [] && r.output == st.output + Drain(st.stack)
  {
    match NearestOpen(st.stack)
    case None => State([], st.output + Drain(st.stack), st.before)
    case Some(k) => State(st.stack[..k], st.output + Drain(st.stack[k + 1..]), st.before)
  }

  /** One lexeme of the shunting-yard pass. */
  function Step(st: State, lx: Lexeme): State
  {
    match lx
    case NumLex(t) => st.(output := st.output + [Num(NumberValue(t))], before := lx.First())
    case OpLex(c) =>
      if c == '(' then
        var s := OmitMult(st);
        s.(stack := s.stack + ['('], before := c)
      else if c == ')' then
        CloseParen(st).(before := c)
      else
        PushOperator(st, c).(before := c)
  }

  /** The pass over a whole lexeme sequence. */
  function Run(st: State, ls: seq<Lexeme>): State
    decreases |ls|
  {
    if ls == [] then st else Run(Step(st, ls[0]), ls[1..])
  }

  /** The postfix form of a lexeme sequence: the output of the pass followed by
      whatever is left on the stack, popped from the top. */
  function Convert(ls: seq<Lexeme>): seq<Token>
  {
    var s := Run(Start, ls);
    s.output + Drain(s.stack)
  }

  /** The first number lexeme that does not parse, if any. */
  function FirstBadNumber(ls: seq<Lexeme>): (r: Option<string>)
    ensures r.None? <==> forall i :: 0 <= i < |ls| && ls[i].NumLex? ==> WellFormedNumber(ls[i].text)
    ensures r.Some? ==> exists i :: (0 <= i < |ls| && BadAt(ls, i) && r.value == ls[i].text
      && forall j :: 0 <= j < i && ls[j].NumLex? ==> WellFormedNumber(ls[j].text))
  {
    if ls == [] then None
    else if ls[0].NumLex? && !WellFormedNumber(ls[0].text) then
      assert BadAt(ls, 0);
      Some(ls[0].text)
    else
      var r := FirstBadNumber(ls[1..]);
      assert forall i :: 1 <= i < |ls| ==> ls[i] == ls[1..][i - 1];
      if r.Some? then
        var i :| 0 <= i < |ls[1..]| && BadAt(ls[1..], i) && r.value == ls[1..][i].text
          && forall j :: 0 <= j < i && ls[1..][j].NumLex? ==> WellFormedNumber(ls[1..][j].text);
        assert BadAt(ls, i + 1);
        r
      else
        r
  }

  /** The lexeme at position `i` is a number lexeme that does not parse. */
  predicate BadAt(ls: seq<Lexeme>, i: nat)
    requires i < |ls|
  {
    ls[i].NumLex? && !WellFormedNumber(ls[i].text)
  }

  /** Converts an input line to postfix; a malformed number lexeme anywhere in
      the line aborts the conversion. */
  function InToPostfix(text: string): (r: Result<seq<Token>>)
    ensures r.Err? <==> exists i :: 0 <= i < |Scan(text)| && Scan(text)[i].NumLex? && !WellFormedNumber(Scan(text)[i].text)
    ensures r.Err? ==> r.error.BadNumber?
  {
    var ls := Scan(text);
    match FirstBadNumber(ls)
    case Some(t) => Err(BadNumber(t))
    case None => Ok(Convert(ls))
  }
}
