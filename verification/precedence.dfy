/** The operator table of the calculator: binding strength of every symbol,
    arity, and the characters after which a '(' implies a multiplication. */
module Precedence {

  /** Binding strength of an operator symbol; higher binds tighter. Digits,
      parentheses and every symbol not in the table have level 0. */
  function Level(op: char): (p: nat)
    ensures p <= 5
  {
    match op
    case '+' | '-' | '~' => 1
    case '*' | '/' | '%' => 2
    case '^' => 3
    case '!' => 4
    case 'r' | 'R' | 'a' | 's' | 'c' | 't' | 'l' | 'L' => 5
    case _ => 0
  }

  /** No operator is treated as unary: every operator node takes two operands. */
  predicate IsUnary(op: char)
  {
    false
  }

  /** The previous lexeme's first character allows an implicit '*' before a '('
      when it is an ASCII digit, a closing parenthesis, '!', 'x' or a decimal point. */
  predicate ImpliesMultiplication(before: char)
  {
    ('0' <= before <= '9') || before == ')' || before == '!' || before == 'x' || before == '.'
  }

  /** The levels of the symbols the scanner can produce: '+' and '-' bind
      loosest, '*' and '/' tighter, parentheses and number characters not at all. */
  lemma ScannedLevels()
    ensures Level('+') == 1 && Level('-') == 1
    ensures Level('*') == 2 && Level('/') == 2
    ensures Level('(') == 0 && Level(')') == 0 && Level('.') == 0
    ensures forall c :: '0' <= c <= '9' ==> Level(c) == 0
  {
    forall c | '0' <= c <= '9'
      ensures Level(c) == 0
    {
    }
  }
}
