/** The scanner: splits the input line into number lexemes (maximal runs of
    digits and decimal points) and single-character operator lexemes, skipping
    every other character; and the parsing of a number lexeme into its value. */
module Lexer {
  import opened Base

  predicate IsDigit(c: char)
  {
    '0' <= c <= '9'
  }

  /** Characters that make up a number lexeme. */
  predicate IsNumChar(c: char)
  {
    IsDigit(c) || c == '.'
  }

  /** Characters that form an operator lexeme on their own. */
  predicate IsOpChar(c: char)
  {
    c == '+' || c == '-' || c == '*' || c == '/' || c == '(' || c == ')'
  }

  /** The text of a number lexeme is never empty. */
  type NumText = s: string | |s| > 0 witness "0"

  datatype Lexeme = NumLex(text: NumText) | OpLex(symbol: char)
  {
    /** The first character of the lexeme, which the converter remembers. */
    function First(): char
    {
      match this
      case NumLex(t) => t[0]
      case OpLex(c) => c
    }

    /** The characters of the input the lexeme was made from. */
    function Chars(): string
    {
      match this
      case NumLex(t) => t
      case OpLex(c) => [c]
    }

    /** A lexeme the scanner can produce. */
    predicate Valid()
    {
      match this
      case NumLex(t) => forall i :: 0 <= i < |t| ==> IsNumChar(t[i])
      case OpLex(c) => IsOpChar(c)
    }
  }

  predicate AllValid(ls: seq<Lexeme>)
  {
    forall i :: 0 <= i < |ls| ==> ls[i].Valid()
  }

  /** Length of the longest prefix of `s` made of number characters. */
  function NumRun(s: string): (n: nat)
    ensures n <= |s|
    ensures forall i :: 0 <= i < n ==> IsNumChar(s[i])
    ensures n == |s| || !IsNumChar(s[n])
  {
    if s == [] || !IsNumChar(s[0]) then 0 else 1 + NumRun(s[1..])
  }

  /** Maximal-munch scanning, left to right: a run of number characters becomes
      one number lexeme, an operator character becomes one operator lexeme, and
      any other character is dropped. */
  function Scan(s: string): (ls: seq<Lexeme>)
    ensures AllValid(ls)
    decreases |s|
  {
    if s == [] then []
    else if IsNumChar(s[0]) then
      var n := NumRun(s);
      [NumLex(s[..n])] + Scan(s[n..])
    else if IsOpChar(s[0]) then [OpLex(s[0])] + Scan(s[1..])
    else Scan(s[1..])
  }

  /** The characters the scanner keeps, in order. */
  function Kept(s: string): (k: string)
    ensures |k| <= |s|
  {
    if s == [] then []
    else if IsNumChar(s[0]) || IsOpChar(s[0]) then [s[0]] + Kept(s[1..])
    else Kept(s[1..])
  }

  /** The characters the lexemes were made from, concatenated. */
  function Concat(ls: seq<Lexeme>): string
  {
    if ls == [] then [] else ls[0].Chars() + Concat(ls[1..])
  }

  /** The lexemes written back as text, each followed by one space. */
  function Spaced(ls: seq<Lexeme>): string
  {
    if ls == [] then [] else ls[0].Chars() + " " + Spaced(ls[1..])
  }

  lemma {:induction false} KeptAppend(a: string, b: string)
    ensures Kept(a + b) == Kept(a) + Kept(b)
  {
    if a == [] {
      assert a + b == b;
    } else {
      assert (a + b)[1..] == a[1..] + b;
      KeptAppend(a[1..], b);
    }
  }

  lemma {:induction false} KeptRun(s: string)
    requires forall i :: 0 <= i < |s| ==> IsNumChar(s[i])
    ensures Kept(s) == s
  {
    if s != [] {
      KeptRun(s[1..]);
    }
  }

  /** Scanning loses nothing but the skipped characters: the lexemes spell out
      exactly the number and operator characters of the input, in order. */
  lemma {:induction false} ScanKeepsCharacters(s: string)
    ensures Concat(Scan(s)) == Kept(s)
    decreases |s|
  {
    if s == [] {
    } else if IsNumChar(s[0]) {
      var n := NumRun(s);
      assert s == s[..n] + s[n..];
      KeptAppend(s[..n], s[n..]);
      KeptRun(s[..n]);
      ScanKeepsCharacters(s[n..]);
    } else if IsOpChar(s[0]) {
      ScanKeepsCharacters(s[1..]);
    } else {
      ScanKeepsCharacters(s[1..]);
    }
  }

  lemma {:induction false} NumRunOfRun(t: string, rest: string)
    requires forall i :: 0 <= i < |t| ==> IsNumChar(t[i])
    requires rest == [] || !IsNumChar(rest[0])
    ensures NumRun(t + rest) == |t|
  {
    if t != [] {
      assert (t + rest)[1..] == t[1..] + rest;
      NumRunOfRun(t[1..], rest);
    }
  }

  /** Writing valid lexemes back as text separated by spaces and scanning that
      text again gives the same lexemes: the space ends each number run and is
      itself skipped. */
  lemma {:induction false} ScanSpaced(ls: seq<Lexeme>)
    requires AllValid(ls)
    ensures Scan(Spaced(ls)) == ls
  {
    if ls != [] {
      var rest := Spaced(ls[1..]);
      assert Spaced(ls) == ls[0].Chars() + (" " + rest);
      assert AllValid(ls[1..]) by {
        assert forall i :: 0 <= i < |ls[1..]| ==> ls[1..][i] == ls[i + 1];
      }
      ScanSpaced(ls[1..]);
      assert Scan(" " + rest) == Scan(rest) by {
        assert (" " + rest)[1..] == rest;
      }
      assert ls[0].Valid();
      match ls[0]
      case NumLex(t) =>
        ScanNumberThen(t, " " + rest);
      case OpLex(c) =>
        ScanOperatorThen(c, " " + rest);
    }
  }

  /** No number lexeme directly follows another: written without blanks, the
      two would run together into one number. */
  predicate Separated(ls: seq<Lexeme>)
  {
    forall i :: 0 <= i < |ls| - 1 ==> !(ls[i].NumLex? && ls[i + 1].NumLex?)
  }

  lemma SeparatedAppend(a: seq<Lexeme>, b: seq<Lexeme>)
    requires Separated(a) && Separated(b)
    requires a == [] || b == [] || a[|a| - 1].OpLex? || b[0].OpLex?
    ensures Separated(a + b)
  {
    forall i | 0 <= i < |a + b| - 1
      ensures !((a + b)[i].NumLex? && (a + b)[i + 1].NumLex?)
    {
      if i < |a| - 1 {
        assert (a + b)[i] == a[i] && (a + b)[i + 1] == a[i + 1];
      } else if i == |a| - 1 {
        assert (a + b)[i] == a[i] && (a + b)[i + 1] == b[0];
      } else {
        assert (a + b)[i] == b[i - |a|] && (a + b)[i + 1] == b[i - |a| + 1];
      }
    }
  }

  lemma ConcatStart(ls: seq<Lexeme>)
    requires ls != []
    ensures |Concat(ls)| > 0 && Concat(ls)[0] == ls[0].First()
  {
    assert Concat(ls) == ls[0].Chars() + Concat(ls[1..]);
  }

  /** A number run followed by a character that cannot continue it. */
  lemma ScanNumberThen(t: NumText, rest: string)
    requires forall i :: 0 <= i < |t| ==> IsNumChar(t[i])
    requires rest == [] || !IsNumChar(rest[0])
    ensures Scan(t + rest) == [NumLex(t)] + Scan(rest)
  {
    NumRunOfRun(t, rest);
    assert (t + rest)[..|t|] == t;
    assert (t + rest)[|t|..] == rest;
  }

  lemma ScanOperatorThen(c: char, rest: string)
    requires IsOpChar(c)
    ensures Scan([c] + rest) == [OpLex(c)] + Scan(rest)
  {
    assert ([c] + rest)[1..] == rest;
  }

  /** Any character that is neither part of a number nor an operator is skipped. */
  lemma ScanSkip(c: char, rest: string)
    requires !IsNumChar(c) && !IsOpChar(c)
    ensures Scan([c] + rest) == Scan(rest)
  {
    assert ([c] + rest)[1..] == rest;
  }

  /** Writing valid lexemes back as text with nothing in between and scanning
      that text again gives the same lexemes, provided no two numbers touch:
      an operator character ends each number run. */
  lemma {:induction false} ScanConcat(ls: seq<Lexeme>)
    requires AllValid(ls) && Separated(ls)
    ensures Scan(Concat(ls)) == ls
  {
    if ls != [] {
      var rest := Concat(ls[1..]);
      assert Concat(ls) == ls[0].Chars() + rest;
      assert AllValid(ls[1..]) && Separated(ls[1..]) by {
        assert forall i :: 0 <= i < |ls[1..]| ==> ls[1..][i] == ls[i + 1];
      }
      ScanConcat(ls[1..]);
      assert ls[0].Valid();
      match ls[0]
      case NumLex(t) =>
        if ls[1..] != [] {
          ConcatStart(ls[1..]);
          assert ls[1].Valid() && ls[1].OpLex?;
        }
        ScanNumberThen(t, rest);
      case OpLex(c) =>
        ScanOperatorThen(c, rest);
    }
  }

  // ---------------------------------------------------------------------------
  // Number lexemes

  function DigitValue(c: char): (d: nat)
    ensures d < 10
  {
    if IsDigit(c) then c as int - '0' as int else 0
  }

  /** The value of a string of decimal digits, most significant first. */
  function DigitsValue(ds: string): nat
  {
    if ds == [] then 0 else DigitsValue(Pop(ds)) * 10 + DigitValue(Top(ds))
  }

  function Pow10(k: nat): (p: nat)
    ensures p > 0
  {
    if k == 0 then 1 else 10 * Pow10(k - 1)
  }

  /** Position of the first decimal point, or the length when there is none. */
  function DotIndex(t: string): (i: nat)
    ensures i <= |t|
    ensures i < |t| ==> t[i] == '.'
    ensures forall j :: 0 <= j < i ==> t[j] != '.'
  {
    if t == [] || t[0] == '.' then 0 else 1 + DotIndex(t[1..])
  }

  predicate HasDigit(t: string)
  {
    exists i :: 0 <= i < |t| && IsDigit(t[i])
  }

  /** A run of digits and decimal points that parses as a number: at least one
      digit and at most one decimal point ("7", "7.", ".5", "3.25"; not ".", "1.2.3"). */
  predicate WellFormedNumber(t: string)
  {
    && (forall i :: 0 <= i < |t| ==> IsNumChar(t[i]))
    && HasDigit(t)
    && (forall i, j :: 0 <= i < j < |t| ==> !(t[i] == '.' && t[j] == '.'))
  }

  /** The value of a number lexeme: the digits before the decimal point plus
      the digits after it scaled by the matching power of ten. */
  function NumberValue(t: string): real
  {
    var i := DotIndex(t);
    if i == |t| then DigitsValue(t) as real
    else DigitsValue(t[..i]) as real + DigitsValue(t[i + 1..]) as real / Pow10(|t| - i - 1) as real
  }

  /** Parsing of a number lexeme; a lexeme that is not a number is an error. */
  function ParseNumber(t: string): (r: Result<real>)
    ensures r.Ok? <==> WellFormedNumber(t)
    ensures r.Ok? ==> r.value == NumberValue(t)
    ensures r.Err? ==> r.error == BadNumber(t)
  {
    var i := DotIndex(t);
    var oneDot := i == |t| || DotIndex(t[i + 1..]) == |t| - i - 1;
    if (forall k :: 0 <= k < |t| ==> IsNumChar(t[k])) && HasDigit(t) && oneDot then
      Ok(NumberValue(t))
    else
      Err(BadNumber(t))
  }

  /** The digit character for a value below ten. */
  function DigitChar(d: nat): (c: char)
    requires d < 10
    ensures IsDigit(c) && DigitValue(c) == d
  {
    ('0' as int + d) as char
  }

  /** The decimal text of a natural number, without leading zeros. */
  function Decimal(n: nat): (t: NumText)
    decreases n
  {
    if n < 10 then [DigitChar(n)] else Decimal(n / 10) + [DigitChar(n % 10)]
  }

  lemma {:induction false} DecimalDigits(n: nat)
    ensures forall i :: 0 <= i < |Decimal(n)| ==> IsDigit(Decimal(n)[i])
    ensures DigitsValue(Decimal(n)) == n
    decreases n
  {
    if n >= 10 {
      DecimalDigits(n / 10);
      var t := Decimal(n);
      assert Pop(t) == Decimal(n / 10) && Top(t) == DigitChar(n % 10);
    }
  }

  /** Parsing inverts writing in decimal: the text of every natural number is
      a well-formed number lexeme whose value is that number. */
  lemma ParseDecimal(n: nat)
    ensures WellFormedNumber(Decimal(n))
    ensures ParseNumber(Decimal(n)) == Ok(n as real)
  {
    var t := Decimal(n);
    DecimalDigits(n);
    assert IsDigit(t[0]);
    assert DotIndex(t) == |t|;
  }
}
