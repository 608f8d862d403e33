/**
 * Index arithmetic of the slideshow engine: the timer step of `advanceLiveSlide`
 * (src/control/control.js:1256-1277) and the wraparound of the manual prev/next buttons
 * (845-917).
 */
module Playback {
  import opened Wrappers

  /** A position of a queue of `len` entries: inside the queue, or 0 when it is empty. */
  predicate InQueue(index: int, len: nat) {
    0 <= index && (index < len || index == 0)
  }

  /**
   * One tick of the slideshow timer: the next index, wrapping to the first entry when the
   * show loops, or None when a show that does not loop runs past its last entry (its
   * natural end).
   */
  function Advance(index: int, len: nat, loop: bool): (r: Option<int>)
    ensures r.None? <==> !loop && index + 1 >= len
    ensures InQueue(index, len) && r.Some? ==> InQueue(r.value, len)
    ensures r.Some? && r.value != 0 ==> r.value == index + 1
  {
    if index + 1 < len then Some(index + 1)
    else if loop then Some(0)
    else None
  }

  /** `k` ticks in a row; None once the show has ended. */
  function AdvanceN(index: int, len: nat, loop: bool, k: nat): Option<int>
    decreases k
  {
    if k == 0 then Some(index)
    else match Advance(index, len, loop)
      case None => None
      case Some(j) => AdvanceN(j, len, loop, k - 1)
  }

  /** The next button: one step forward, from the last entry back to the first. */
  function WrapNext(index: int, len: nat): (r: int)
    ensures InQueue(index, len) ==> InQueue(r, len)
    ensures 0 <= index < len ==> r == (index + 1) % len
  {
    if index + 1 >= len then 0 else index + 1
  }

  /**
   * The prev button: one step back, from the first entry to the last. On an empty queue
   * the index stays 0 (the source writes `length - 1` there, see WrapPrevAsWritten).
   */
  function WrapPrev(index: int, len: nat): (r: int)
    ensures InQueue(index, len) ==> InQueue(r, len)
    ensures len > 0 && 0 <= index <= len ==> r == (index + len - 1) % len
  {
    if index - 1 < 0 then (if len - 1 > 0 then len - 1 else 0) else index - 1
  }

  /** The prev button exactly as the source writes it: `index--; if (index < 0) index = length - 1`. */
  function WrapPrevAsWritten(index: int, len: nat): (r: int)
    ensures len > 0 && InQueue(index, len) ==> r == WrapPrev(index, len)
    ensures len == 0 && index <= 0 ==> r == -1
  {
    if index - 1 < 0 then len - 1 else index - 1
  }

  /** Prev undoes next and next undoes prev, on every position of a non-empty queue. */
  lemma WrapInverse(index: int, len: nat)
    requires 0 <= index < len
    ensures WrapPrev(WrapNext(index, len), len) == index
    ensures WrapNext(WrapPrev(index, len), len) == index
  {
  }

  /** The next button moves exactly as one tick of a looping show does. */
  lemma NextIsLoopingTick(index: int, len: nat)
    requires 0 <= index
    ensures Advance(index, len, true) == Some(WrapNext(index, len))
  {
  }

  /** Before the last entry, ticks walk the queue one entry at a time, looping or not. */
  lemma {:induction false} AdvanceWithinQueue(index: int, len: nat, loop: bool, k: nat)
    requires 0 <= index && index + k < len
    ensures AdvanceN(index, len, loop, k) == Some(index + k)
    decreases k
  {
    if k > 0 {
      AdvanceWithinQueue(index + 1, len, loop, k - 1);
    }
  }

  /** Ticks compose: `a` ticks and then `b` ticks are `a + b` ticks. */
  lemma {:induction false} AdvanceCompose(index: int, len: nat, loop: bool, a: nat, b: nat, j: int)
    requires AdvanceN(index, len, loop, a) == Some(j)
    ensures AdvanceN(index, len, loop, a + b) == AdvanceN(j, len, loop, b)
    decreases a
  {
    if a > 0 {
      var next := Advance(index, len, loop);
      AdvanceCompose(next.value, len, loop, a - 1, b, j);
    }
  }

  /** A looping show is back on the entry it started from after one tick per entry. */
  lemma {:induction false} LoopingShowCycles(index: int, len: nat)
    requires 0 <= index < len
    ensures AdvanceN(index, len, true, len) == Some(index)
  {
    var toLast := len - 1 - index;
    AdvanceWithinQueue(index, len, true, toLast);
    AdvanceCompose(len - 1, len, true, 1, index, 0);
    AdvanceWithinQueue(0, len, true, index);
    AdvanceCompose(index, len, true, toLast, index + 1, len - 1);
  }

  /**
   * A show that does not loop, started on its first entry, shows every entry once and
   * ends on the tick after the last one.
   */
  lemma {:induction false} NonLoopingShowEnds(len: nat)
    requires len > 0
    ensures AdvanceN(0, len, false, len - 1) == Some(len - 1)
    ensures AdvanceN(0, len, false, len) == None
  {
    AdvanceWithinQueue(0, len, false, len - 1);
    AdvanceCompose(0, len, false, len - 1, 1, len - 1);
  }
}
