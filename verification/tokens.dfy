/** Tokens of the postfix sequence: numbers and operator symbols. */
module Tokens {

  datatype Token = Num(value: real) | Op(symbol: char)

  /** The numbers of a token sequence, in order. */
  function NumsOf(ts: seq<Token>): (ns: seq<real>)
    ensures |ns| <= |ts|
  {
    if ts == [] then []
    else match ts[0]
      case Num(v) => [v] + NumsOf(ts[1..])
      case Op(_) => NumsOf(ts[1..])
  }

  lemma {:induction false} NumsOfAppend(a: seq<Token>, b: seq<Token>)
    ensures NumsOf(a + b) == NumsOf(a) + NumsOf(b)
  {
    if a == [] {
      assert a + b == b;
    } else {
      assert (a + b)[1..] == a[1..] + b;
      NumsOfAppend(a[1..], b);
    }
  }
}
