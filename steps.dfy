/**
 * The bounded step counter shared by the three quote wizards: "next" moves
 * forward only below the last step, "previous" moves back only above step 1.
 */
module Steps {

  /** `if (step < last) setStep(step + 1)`. */
  function Next(step: int, last: int): (r: int)
    ensures 1 <= step <= last ==> 1 <= r <= last
    ensures r == step || (step < last && r == step + 1)
    ensures r == step <==> step >= last
  {
    if step < last then step + 1 else step
  }

  /** `if (step > 1) setStep(step - 1)`. */
  function Prev(step: int): (r: int)
    ensures 1 <= step ==> 1 <= r <= step
    ensures r == step || (step > 1 && r == step - 1)
    ensures r == step <==> step <= 1
  {
    if step > 1 then step - 1 else step
  }

  /** Going forward from a step below the last and then back returns to it. */
  lemma PrevAfterNext(step: int, last: int)
    requires 1 <= step < last
    ensures Prev(Next(step, last)) == step
  {
  }

  /** Going back from a step above the first and then forward returns to it. */
  lemma NextAfterPrev(step: int, last: int)
    requires 1 < step <= last
    ensures Next(Prev(step), last) == step
  {
  }

  /** `last - 1` presses of "next" from step 1 reach the last step, and further presses stay there. */
  lemma {:induction false} NextReachesLast(step: int, last: int, presses: nat)
    requires 1 <= step <= last
    ensures NextTimes(step, last, presses) == if step + presses <= last then step + presses else last
  {
    if presses > 0 {
      NextReachesLast(step, last, presses - 1);
    }
  }

  /** The step after `presses` presses of "next". */
  function NextTimes(step: int, last: int, presses: nat): int
  {
    if presses == 0 then step else Next(NextTimes(step, last, presses - 1), last)
  }
}
