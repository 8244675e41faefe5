/**
 * The testimonial carousel's index arithmetic: "next" (the button and the
 * autoplay tick), "previous" and a click on one of the dots, each setting
 * the current index and the slide direction.
 */
module Carousel {

  /**
   * The JavaScript number the current index holds: an integer, or NaN once a
   * remainder by an empty list's length 0 has been taken.
   */
  datatype Index = At(i: int) | NaN

  /** JavaScript's `a % n`: NaN for `n == 0`, otherwise the remainder truncated toward zero. */
  function JsRem(a: int, n: nat): (r: Index)
    ensures n == 0 <==> r.NaN?
    ensures n > 0 && a >= 0 ==> r == At(a % n)
    ensures n > 0 && a < 0 ==> r == At(-((-a) % n))
    ensures r.At? ==> 0 - n < r.i < n
  {
    if n == 0 then NaN else if a >= 0 then At(a % n) else At(-((-a) % n))
  }

  /** `(prevIndex + 1) % testimonials.length`. */
  function NextIndex(idx: Index, n: nat): (r: Index)
    ensures idx.At? && n > 0 && 0 <= idx.i < n ==> r.At? && 0 <= r.i < n
    ensures idx.At? && n > 0 && 0 <= idx.i < n ==> r.i == if idx.i + 1 < n then idx.i + 1 else 0
    ensures n == 0 || idx.NaN? ==> r.NaN?
  {
    match idx
    case NaN => NaN
    case At(i) => JsRem(i + 1, n)
  }

  /** `(prevIndex - 1 + testimonials.length) % testimonials.length`. */
  function PrevIndex(idx: Index, n: nat): (r: Index)
    ensures idx.At? && n > 0 && 0 <= idx.i < n ==> r.At? && 0 <= r.i < n
    ensures idx.At? && n > 0 && 0 <= idx.i < n ==> r.i == if idx.i > 0 then idx.i - 1 else n - 1
    ensures n == 0 || idx.NaN? ==> r.NaN?
  {
    match idx
    case NaN => NaN
    case At(i) => JsRem(i - 1 + n, n)
  }

  /** "Previous" undoes "next", and "next" undoes "previous", on every index of a non-empty list. */
  lemma PrevNextInverse(i: int, n: nat)
    requires 0 <= i < n
    ensures PrevIndex(NextIndex(At(i), n), n) == At(i)
    ensures NextIndex(PrevIndex(At(i), n), n) == At(i)
  {
  }

  /** The index after `k` presses of "next" (or autoplay ticks). */
  function NextTimes(idx: Index, n: nat, k: nat): Index
  {
    if k == 0 then idx else NextIndex(NextTimes(idx, n, k - 1), n)
  }

  /** `k <= n` presses of "next" from `i` land `k` places further on, wrapping around once. */
  lemma {:induction false} NextTimesWrap(i: int, n: nat, k: nat)
    requires 0 <= i < n && k <= n
    ensures NextTimes(At(i), n, k) == At(if i + k < n then i + k else i + k - n)
  {
    if k > 0 {
      NextTimesWrap(i, n, k - 1);
    }
  }

  /** `n` presses of "next" on a list of `n` testimonials come back to the start. */
  lemma FullCycle(i: int, n: nat)
    requires 0 <= i < n
    ensures NextTimes(At(i), n, n) == At(i)
  {
    NextTimesWrap(i, n, n);
  }

  /** A dot click's direction: 1 when the dot lies after the current index, otherwise -1. */
  function DotDirection(dot: int, current: Index): (d: int)
    ensures d == 1 || d == -1
    ensures d == 1 <==> current.At? && dot > current.i
  {
    if current.At? && dot > current.i then 1 else -1
  }

  /** The carousel's state over `count` testimonials. */
  class Carousel {
    const count: nat
    var currentIndex: Index
    var direction: int

    /** The index shows one of the testimonials. */
    predicate Valid()
      reads this
    {
      currentIndex.At? && 0 <= currentIndex.i < count
    }

    /** The first testimonial, with no direction yet. */
    constructor(count: nat)
      ensures this.count == count && currentIndex == At(0) && direction == 0
      ensures count > 0 ==> Valid()
    {
      this.count := count;
      currentIndex := At(0);
      direction := 0;
    }

    /** `handleNext`, and likewise the autoplay tick: forward with wrap-around, direction 1. */
    method HandleNext()
      modifies this
      ensures currentIndex == NextIndex(old(currentIndex), count) && direction == 1
      ensures old(Valid()) ==> Valid()
    {
      direction := 1;
      currentIndex := NextIndex(currentIndex, count);
    }

    /** `handlePrev`: backward with wrap-around, direction -1. */
    method HandlePrev()
      modifies this
      ensures currentIndex == PrevIndex(old(currentIndex), count) && direction == -1
      ensures old(Valid()) ==> Valid()
    {
      direction := -1;
      currentIndex := PrevIndex(currentIndex, count);
    }

    /** A click on dot `dot`: jump to it, direction by comparison with the old index. */
    method ClickDot(dot: nat)
      requires dot < count
      modifies this
      ensures currentIndex == At(dot) && direction == DotDirection(dot, old(currentIndex))
      ensures Valid()
    {
      direction := DotDirection(dot, currentIndex);
      currentIndex := At(dot);
    }
  }
}
