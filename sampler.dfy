/**
 * The answer sampler: `''.join([random.choice(symbols) for j in range(length)])`
 * in create-challenge.py.  The process-wide random source becomes an injected
 * stream of draws; `random.choice` on draw number `pos` picks the symbol at
 * index `draws(pos) % |symbols|`.  No claim is made about the distribution.
 */
module Sampler {

  /** Draw number i of the random source. */
  type Draws = nat -> nat

  /** The number of iterations of `range(n)`: none when n is zero or negative. */
  function RangeLength(n: int): nat {
    if n <= 0 then 0 else n
  }

  /** `random.choice(symbols)`, made on draw number `pos`. */
  function Choice(symbols: string, draws: Draws, pos: nat): (c: char)
    requires |symbols| > 0
    ensures c in symbols
  {
    symbols[draws(pos) % |symbols|]
  }

  /** An answer can be drawn unless a choice would have to be made from no symbols. */
  predicate CanSample(symbols: string, length: int) {
    |symbols| > 0 || length <= 0
  }

  /** The answer made of the choices on draws pos, pos + 1, ... */
  function Answer(symbols: string, length: int, draws: Draws, pos: nat): (a: string)
    requires CanSample(symbols, length)
    ensures |a| == RangeLength(length)
    ensures forall i :: 0 <= i < |a| ==> a[i] in symbols
  {
    var a := seq(RangeLength(length), i requires 0 <= i < RangeLength(length) => Choice(symbols, draws, pos + i));
    assert forall i :: 0 <= i < |a| ==> a[i] == Choice(symbols, draws, pos + i);
    a
  }

  /** A well-formed answer: `length` characters (none if negative), each one a symbol. */
  predicate IsAnswer(a: string, symbols: string, length: int) {
    |a| == RangeLength(length) && forall i :: 0 <= i < |a| ==> a[i] in symbols
  }

  /** The list comprehension, one `random.choice` per position.  Returns the next unused draw. */
  method SampleAnswer(symbols: string, length: int, draws: Draws, pos: nat) returns (answer: string, next: nat)
    requires CanSample(symbols, length)
    ensures answer == Answer(symbols, length, draws, pos)
    ensures IsAnswer(answer, symbols, length)
    ensures next == pos + RangeLength(length)
  {
    var n := RangeLength(length);
    answer, next := "", pos;
    for j := 0 to n
      invariant |answer| == j && next == pos + j
      invariant forall i :: 0 <= i < j ==> answer[i] == Choice(symbols, draws, pos + i)
    {
      answer := answer + [Choice(symbols, draws, next)];
      next := next + 1;
    }
  }
}
