# RsCC calculator core in Dafny

RsCC is a small command-line calculator. It reads one line of arithmetic, for
example `2(3+4)/7`, and prints its value. The core is one pipeline in
`src/main.rs`:

1. **Scanner.** The line becomes a list of lexemes. A maximal run of digits and
   decimal points is one number. Each of `+ - * / ( )` is one operator. Every
   other character is skipped.
2. **Converter (`in2postfix`).** A shunting-yard pass turns the lexemes into
   postfix tokens. It keeps an operator stack, ordered by the precedence table
   `get_precedence`. It also remembers `before`, the first character of the
   previous lexeme. When `before` is a digit, `)`, `!`, `x` or `.`, a `(`
   gets an implicit `*` in front of it (`omit_mult`).
3. **Tree builder (`build_operation_tree`).** It builds an expression tree
   from the tail of the postfix sequence, right operand first.
4. **Evaluator (`calc_tree`).** It reduces the tree in post-order.

The model follows that structure, one module per stage:

- `Base`: the optional, error and result types, and stack helpers.
- `Precedence`: the level table, the (always false) unary test, and the
  characters that imply a multiplication.
- `Lexer`: the hand-written maximal-munch scanner and number parsing.
- `Tokens`: the postfix tokens.
- `Converter`: the shunting-yard pass. It is a fold over the lexemes with state
  (stack, output, before).
- `ConverterProperties`: the pass's invariants.
  - The stack stays ordered.
  - The numbers keep their order.
  - No parenthesis leaks into the output.
  - The remembered character is the first character of the last lexeme.
- `Trees`: the tree and the builder.
- `Evaluator`: tree evaluation, a reference operand-stack evaluation of
  postfix, and the whole pipeline `Calculate`.
- `Rendering`: arithmetic expressions written out with the parentheses that
  precedence requires plus any redundant ones the writer adds. It holds the end-to-end theorem: the calculator returns the
  value of every such line. So `*` and `/` bind tighter than `+` and `-`, and
  operators of one level associate to the left. It also covers implicit
  multiplication on whole lines made of a number or a parenthesised
  expression followed by a parenthesised expression. Implicit products inside
  a larger expression, such as `1+2(3)` or `2(3)(4)`, are not covered; see
  "Left out".
- `Examples`: concrete lines, with their postfix forms and values.

The implicit-multiplication check is easily read as looking at the character
right before the `(` in the line. The code does something different: `before`
is set once per matched lexeme, to that lexeme's first character
(src/main.rs:86). Skipped characters such as blanks never change it.
So `2 (3)` is a product, and for `1.5(2)` the character looked at is `1`. The
model follows the code; `Examples.BlankParenExample` shows the difference.

Numbers are mathematical reals. The scanner's work, done in the source by a
regular expression, is written as a recursive function. The source panics or
prints an IEEE infinity in some situations. The model names each of them
instead, with an `Error` value:

- `BadNumber`: a number lexeme that does not parse.
- `MissingOperand`: the postfix sequence ran out while a tree was being built.
- `DivisionByZero`: a division by zero.

## Model

| member | source | states |
|---|---|---|
| Precedence.Level | src/main.rs:34-43 | the level of every character is at most 5 |
| Precedence.ScannedLevels | src/main.rs:34-43 | '+' and '-' have level 1; '*' and '/' have level 2; '(', ')', '.' and every digit have level 0 |
| Lexer.Scan | src/main.rs:57-58 | every lexeme the scanner returns is valid: a non-empty run of number characters, or one operator character |
| Lexer.NumRun | src/main.rs:57 | a number lexeme is the longest prefix of number characters: the character after it, if any, is not one |
| Lexer.ScanKeepsCharacters | src/main.rs:57-58 | the lexemes spell out exactly the number and operator characters of the line, in order; only other characters are dropped |
| Lexer.ScanNumberThen | src/main.rs:57 | a run of number characters followed by a character that cannot extend it is scanned as one number lexeme |
| Lexer.ScanSpaced | src/main.rs:57-58 | valid lexemes written out with a blank after each scan back to the same lexemes |
| Lexer.ScanConcat | src/main.rs:57-58 | valid lexemes written out with no blanks scan back to the same lexemes when no two numbers are adjacent |
| Lexer.ParseNumber | src/main.rs:64 | a number lexeme parses exactly when it has a digit and at most one decimal point; the value is then the number it denotes, and otherwise the error names the lexeme |
| Lexer.ParseDecimal | src/main.rs:64 | the decimal text of every natural number parses back to that number |
| Tokens.NumsOfAppend | src/main.rs:4-8 | the numbers of two concatenated token sequences are the numbers of each, in order |
| Converter.Drain | src/main.rs:88 | emptying the stack at the end emits one operator token per stack entry |
| Converter.DrainReverses | src/main.rs:88 | the stack is emptied from the top: the i-th token emitted is the i-th entry counted from the top |
| Converter.DrainAppend | src/main.rs:88 | emptying a stack made of a lower and an upper part emits the upper part first |
| Converter.Keep | src/main.rs:79-81 | popping while the top binds at least as tightly as the incoming level removes exactly such entries, and stops at an entry that binds less tightly or at the bottom |
| Converter.PopWhile | src/main.rs:79-81 | the popped entries go to the output from the top down; the rest of the stack is unchanged; the new top binds less tightly than the level |
| Converter.PushOperator | src/main.rs:78-83 | after pushing an operator it is on top; every entry it displaced binds at least as tightly and moved to the output; popping stopped at the bottom or at an entry binding more loosely (a '(' included); nothing below changed |
| Converter.OmitMult | src/main.rs:45-52 | when the previous character is not a digit, ')', '!', 'x' or '.', the state is unchanged; otherwise exactly one '*' is pushed; the operators it displaced bind at least as tightly as '*' and moved from the top of the stack to the end of the output, and popping stopped at the bottom or at an entry binding more loosely; nothing else changes |
| Converter.NearestOpen | src/main.rs:73 | finds the nearest '(' below the top, with no '(' above it, or reports that the stack has none |
| Converter.CloseParen | src/main.rs:72-77 | ')' pops every operator above the nearest '(' to the output and discards that '('; without a '(' it empties the stack into the output |
| Converter.FirstBadNumber | src/main.rs:63-64 | reports no lexeme exactly when every number lexeme parses; otherwise reports the text of the first number lexeme that does not parse |
| Converter.InToPostfix | src/main.rs:54-89 | conversion fails exactly when some number lexeme of the line does not parse, and then only with that error |
| ConverterProperties.RunAppend | src/main.rs:62-87 | the pass over two lexeme sequences is the pass over the second started where the first ended |
| ConverterProperties.StepKeepsOrdered | src/main.rs:68-83 | each lexeme keeps the stack ordered: going up, every entry is '(' or binds strictly tighter than the one below |
| ConverterProperties.RunKeepsOrdered | src/main.rs:62-87 | the whole pass keeps the stack ordered |
| ConverterProperties.StepNumbers | src/main.rs:63-64 | a number lexeme appends its value to the output, and no other lexeme adds a number |
| ConverterProperties.RunNumbers | src/main.rs:62-87 | the numbers of the output are the values of the number lexemes, in input order |
| ConverterProperties.ConvertKeepsNumbers | src/main.rs:63-64 | the numbers of the postfix sequence are exactly the number lexemes' values, in input order |
| ConverterProperties.InToPostfixKeepsNumbers | src/main.rs:54-89 | the same, for a whole input line that converts |
| ConverterProperties.BalancedCloses | src/main.rs:68-77 | in a balanced lexeme sequence every '(' is closed again |
| ConverterProperties.OpenParens | src/main.rs:68-71 | '(' puts one more '(' on the stack and none in the output |
| ConverterProperties.CloseParens | src/main.rs:72-77 | ')' removes one '(' from the stack, if there is one, and puts no parenthesis in the output |
| ConverterProperties.PushParens | src/main.rs:78-83 | a binary operator moves no parenthesis to the output and keeps the count of '(' on the stack |
| ConverterProperties.StepParens | src/main.rs:63-86 | each lexeme keeps the parenthesis bookkeeping: no parenthesis in the output, no ')' on the stack, one '(' per open parenthesis |
| ConverterProperties.RunParens | src/main.rs:62-87 | the whole pass keeps that bookkeeping |
| ConverterProperties.ConvertParens | src/main.rs:54-89 | ')' never reaches the postfix sequence, and a '(' does exactly when some '(' is left unclosed |
| ConverterProperties.BalancedHasNoParens | src/main.rs:68-77 | with balanced parentheses no parenthesis token reaches the postfix sequence |
| ConverterProperties.RunRemembersLastLexeme | src/main.rs:60 | after the pass the remembered character is the first character of the last lexeme, or the initial blank when there was none; skipped characters never change it |
| Trees.Build | src/main.rs:91-103 | a built tree has both operands at every operator node, and the tokens it took are exactly its post-order traversal, taken from the tail |
| Trees.BuildPostOrder | src/main.rs:91-103 | the builder inverts the traversal: from any prefix followed by a tree's traversal it takes back exactly that tree and leaves exactly the prefix |
| Trees.PostOrderArity | src/main.rs:91-103 | the tokens the builder takes for one tree hold exactly one more number than operators |
| Evaluator.Apply | src/main.rs:114-122 | an operator application fails only for '/' with a zero right operand, and then with DivisionByZero |
| Evaluator.Eval | src/main.rs:105-122 | tree evaluation can only fail by a division by zero |
| Evaluator.RunStack | src/main.rs:105-122 | the reference operand-stack evaluation fails only by a missing operand or a division by zero |
| Evaluator.RunStackPostOrder | src/main.rs:105-122 | the operand-stack evaluation of a tree's traversal pushes exactly the tree's value, or fails as the tree's evaluation does |
| Evaluator.BuildThenEval | src/main.rs:91-122 | building then evaluating agrees with the operand-stack evaluation: the tokens in front of the tree are reduced first, then the tree's value is pushed |
| Evaluator.BuildThenEvalWhole | src/main.rs:91-122 | on a postfix sequence that is exactly one expression, building then evaluating gives the operand-stack value |
| Rendering.RenderRun | src/main.rs:62-83 | the shunting-yard invariant on a rendered expression: the stack grows by the expression's pending operators, and popping them completes its post-order traversal |
| Rendering.ConvertRender | src/main.rs:54-89 | the converter turns every expression, written with the required and any redundant parentheses, into the post-order traversal of its tree |
| Rendering.EvalToTree | src/main.rs:105-122 | evaluating the calculator's tree of an expression gives the expression's value |
| Rendering.CalculateRendered | src/main.rs:22-26 | any line that scans to the lexemes of such an expression converts to its postfix form and evaluates to its value |
| Rendering.CalculateText | src/main.rs:22-26 | the calculator evaluates every expression written with the required and any redundant parentheses, blanks between lexemes, to its value |
| Rendering.CalculateCompact | src/main.rs:22-26 | the same, written with no blanks |
| Rendering.ConvertImplicitProduct | src/main.rs:45-52 | the lexemes of a line made of a number followed by a parenthesised expression convert to the traversal of their product |
| Rendering.ImplicitProduct | src/main.rs:68-70 | a line made of a number followed by a parenthesised expression, with or without blanks in between, evaluates to their product |
| Rendering.ConvertParenProduct | src/main.rs:45-52 | the lexemes of a line made of two parenthesised expressions in a row convert to the traversal of their product |
| Rendering.ParenProduct | src/main.rs:68-70 | a line made of two parenthesised expressions written next to each other evaluates to their product |
| Examples.PrecedenceExample | src/main.rs:78-83 | "3+4*2" converts to 3 4 2 * + and evaluates to 11 |
| Examples.LeftToRightExample | src/main.rs:78-83 | "10/2-3" converts to 10 2 / 3 - and evaluates to 2 |
| Examples.ParenthesesExample | src/main.rs:68-77 | "(3+4)*2" converts to 3 4 + 2 * and evaluates to 14 |
| Examples.RedundantExample | src/main.rs:68-77 | "(1+2)+3", with parentheses precedence does not need, converts to 1 2 + 3 + and evaluates to 6 |
| Examples.NumberParenExample | src/main.rs:68-70 | "2(3+4)" gets an implicit '*': 2 3 4 + *, value 14 |
| Examples.ParenParenExample | src/main.rs:68-70 | "(1+2)(3+4)" gets an implicit '*': 1 2 + 3 4 + *, value 21 |
| Examples.BlankParenExample | src/main.rs:86 | "2 (3)" still gets the implicit '*', because the blank is not a lexeme: 2 3 *, value 6 |
| Examples.TwoNumbersExample | src/main.rs:91-94 | "2 3" converts to two adjacent numbers with no operator; the builder takes only the last one, so the value is 3 |
| Examples.DivideByZeroExample | src/main.rs:120 | "8/(4-4)" is a division by zero |
| Examples.BadNumberExample | src/main.rs:64 | "1..2" is a single number lexeme that does not parse |

## Left out

- `main` (src/main.rs:17-30): reading stdin and printing are left out. `Evaluator.Calculate` composes the stages exactly as `main` does.
- The `regex` crate is not part of this model. Its effect on this pattern is written out as the maximal-munch `Lexer.Scan`.
- Lexer.ParseNumber: Rust's `f64` parsing and its rounding are not modelled. A lexeme's value is the exact decimal it denotes. The lexemes that fail to parse are the same as in the source: no digit, or more than one decimal point.
- Converter.InToPostfix: the source panics at the first malformed number while converting. The model checks all number lexemes before converting and returns `BadNumber` with the first one. The observable outcome is the same, because a panic discards everything.
- Evaluator.Apply: IEEE-754 division by zero (an infinity or NaN) is reported as `DivisionByZero`, and rounding is not modelled.
- Evaluator.Calculate: the source panics on an `unwrap` of a valueless node. That happens when the postfix sequence is empty or runs out while a tree is built. The model reports `MissingOperand` instead.
- Evaluator.Calculate: tokens in front of the tree the builder takes are ignored, as in the source; `Examples.TwoNumbersExample` shows it.
- Unary operators: `is_unary` is always false, so the symbols reserved for unary operators (`~ ! ^ % r R a s c t l L`) get no evaluation semantics. The scanner never produces them. They stay in `Precedence.Level`. The tree keeps an optional left operand, as the source's node does.
- Evaluator.RunStack: the reference operand-stack evaluator treats every operator as binary, like the builder.
- Rendering.CalculateText: the expressions it covers have no implicit products. A parenthesis written directly after a number or a ')' inside a larger expression (`1+2(3)`, `2(3)+1`, `2(3)(4)`) gets the inserted '*' with its ordinary precedence, so `8/2(2+2)` means `(8/2)*(2+2)`. Only the whole-line forms in `Rendering.ImplicitProduct` and `Rendering.ParenProduct` are proved. Covering the general case would need an implicit-product expression form with its own run lemma.
- Evaluator.Eval: the source evaluates the right subtree before the left. The model does too. The only possible error is a division by zero, so the order is not observable.
