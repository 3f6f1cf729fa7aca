/**
 * The wrap-around step used by the product gallery and the home-page
 * carousel: `(i + 1) % n` forward and `(i - 1 + n) % n` back, with
 * JavaScript's `%`, so a count of zero gives `NaN`.
 */
module Cyclic {
  import opened Js

  /** `(i + 1) % n` */
  function Next(i: int, n: int): Number
  {
    Remainder(i + 1, n)
  }

  /** `(i - 1 + n) % n` */
  function Prev(i: int, n: int): Number
  {
    Remainder(i - 1 + n, n)
  }

  /** The steps applied to an index that may already be `NaN`: arithmetic on `NaN` stays `NaN`. */
  function NextOf(x: Number, n: int): Number
  {
    match x
    case NaN => NaN
    case Finite(i) => Next(i, n)
  }

  function PrevOf(x: Number, n: int): Number
  {
    match x
    case NaN => NaN
    case Finite(i) => Prev(i, n)
  }

  predicate InRange(x: Number, n: int)
  {
    x.Finite? && 0 <= x.n < n
  }

  /** From any non-negative index, both steps land in `[0, n)` when `n > 0`. */
  lemma StepsStayInRange(i: int, n: int)
    requires n > 0 && i >= 0
    ensures InRange(Next(i, n), n) && Next(i, n).n == (i + 1) % n
    ensures InRange(Prev(i, n), n) && Prev(i, n).n == (i - 1 + n) % n
  {
  }

  /** With nothing to cycle through, both steps produce `NaN`, and `NaN` is never left again. */
  lemma ZeroCountGivesNaN(x: Number)
    ensures NextOf(x, 0).NaN? && PrevOf(x, 0).NaN?
    ensures forall n :: NextOf(NaN, n).NaN? && PrevOf(NaN, n).NaN?
  {
  }

  /** `a % n` for `0 <= a < 2n`: `a` below `n`, `a - n` from `n` on. */
  lemma SmallRemainder(a: int, n: int)
    requires 0 <= a < 2 * n
    ensures Remainder(a, n) == Finite(if a < n then a else a - n)
  {
    assert Rem(a, n) == a % n;
  }

  /** A step back undoes a step forward on an index in range. */
  lemma PrevUndoesNext(i: int, n: int)
    requires 0 <= i < n
    ensures PrevOf(Next(i, n), n) == Finite(i)
  {
    SmallRemainder(i + 1, n);
    SmallRemainder(if i + 1 == n then n - 1 else i + n, n);
  }

  /** A step forward undoes a step back on an index in range. */
  lemma NextUndoesPrev(i: int, n: int)
    requires 0 <= i < n
    ensures NextOf(Prev(i, n), n) == Finite(i)
  {
    SmallRemainder(i - 1 + n, n);
    SmallRemainder(if i == 0 then n else i, n);
  }
}
