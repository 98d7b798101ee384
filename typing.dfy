/**
 * The typing effect of app.js (setupTypingAnimation): the text of `.typing-text` is read,
 * the element is cleared, and a self-rescheduling timer appends one character at a time.
 *
 * Time is a logical clock in milliseconds from the call of setupTypingAnimation, and the model
 * assumes every timer runs at exactly its due time. The first step runs at 2200; each step that types a character schedules the next 50 later; the step
 * that finds nothing left to type schedules the cursor removal 1000 later and stops. So step j
 * runs at 2200 + 50 * j for j = 0 .. |text|, and steps 0 .. |text| - 1 type text[j].
 */
module Typing {

  const START_DELAY := 2200
  const CHAR_INTERVAL := 50
  const CURSOR_DELAY := 1000

  function Min(a: int, b: int): int {
    if a <= b then a else b
  }

  /** The time of step j. */
  function StepTime(j: int): int {
    START_DELAY + CHAR_INTERVAL * j
  }

  /** How many characters of a text of length n have been typed by time `now`. */
  function TypedBy(n: nat, now: int): nat {
    if now < START_DELAY then 0 else Min(n, (now - START_DELAY) / CHAR_INTERVAL + 1)
  }

  /** When the cursor-removal timer fires: 1000 after the final step. */
  function CursorOffAt(n: nat): int {
    StepTime(n) + CURSOR_DELAY
  }

  /** Steps 0 .. k - 1 have run by `now` and step k has not: then k characters are typed. */
  lemma TypedByBetween(n: nat, now: int, k: nat)
    requires k <= n
    requires k == 0 || StepTime(k - 1) <= now
    requires now < StepTime(k)
    ensures TypedBy(n, now) == k
  {
  }

  /** Once the step at index n - 1 has run, the whole text is typed. */
  lemma TypedByAll(n: nat, now: int)
    requires n > 0 && StepTime(n - 1) <= now
    ensures TypedBy(n, now) == n
  {
  }

  /** After steps 0 .. k (that is, at the time of step k), min(k + 1, n) characters are typed. */
  lemma TypedAtStep(n: nat, k: nat)
    ensures TypedBy(n, StepTime(k)) == Min(k + 1, n)
  {
  }

  /** The typed text only grows as time passes. */
  lemma TypedByMonotone(n: nat, a: int, b: int)
    requires a <= b
    ensures TypedBy(n, a) <= TypedBy(n, b)
  {
  }

  /** The `.typing-text` element with the typeWriter closure's state and the pending timers. */
  class Typewriter {
    /** The element's original text, captured before it is cleared. */
    const text: string
    /** typingText.textContent. */
    var content: string
    /** The closure's `index`. */
    var index: nat
    /** A typeWriter timer is pending, due at StepTime(index). */
    var typing: bool
    /** The cursor (border-right) is still shown. */
    var cursorShown: bool
    /** The logical clock: every timer due at or before it has run. */
    var clock: int

    ghost predicate Valid()
      reads this
    {
      index <= |text| && content == text[..index] && clock >= 0 &&
      index == TypedBy(|text|, clock) &&
      typing == (clock < StepTime(|text|)) &&
      cursorShown == (clock < CursorOffAt(|text|))
    }

    /** setupTypingAnimation at time 0: capture the text, clear the element, schedule the first step at 2200. */
    constructor (text: string)
      ensures Valid() && this.text == text && clock == 0 && content == ""
    {
      this.text := text;
      content := "";
      index := 0;
      typing := true;
      cursorShown := true;
      clock := 0;
    }

    /**
     * The event loop runs every timer due up to `now`. Afterwards the content is the first
     * TypedBy(|text|, now) characters of the text, the typeWriter timer is still pending exactly
     * until the final step at StepTime(|text|), and the cursor is gone from CursorOffAt(|text|) on.
     */
    method AdvanceTo(now: int)
      requires Valid() && clock <= now
      modifies this
      ensures Valid() && clock == now
      ensures content == text[..TypedBy(|text|, now)]
      ensures typing <==> now < StepTime(|text|)
      ensures cursorShown <==> now < CursorOffAt(|text|)
    {
      if index > 0 {
        assert StepTime(index - 1) <= clock by {
          assert (clock - START_DELAY) / CHAR_INTERVAL + 1 >= index;
        }
      }
      while typing && StepTime(index) <= now
        invariant index <= |text| && content == text[..index]
        invariant typing ==> index == 0 || StepTime(index - 1) <= now
        invariant typing ==> index == TypedBy(|text|, clock) || StepTime(index - 1) <= now
        invariant !typing ==> index == |text| && StepTime(|text|) <= now
        invariant old(typing) || !typing
        invariant cursorShown == old(cursorShown) && clock == old(clock)
        decreases |text| - index + (if typing then 1 else 0)
      {
        // typeWriter, run by its timer
        if index < |text| {
          content := content + [text[index]];
          index := index + 1;
          // setTimeout(typeWriter, 50)
        } else {
          // setTimeout(removeCursor, 1000)
          typing := false;
        }
      }
      if typing {
        assert now < StepTime(index);
        TypedByBetween(|text|, now, index);
        assert now < StepTime(|text|);
      } else if |text| > 0 {
        TypedByAll(|text|, now);
      }
      if !typing && cursorShown && CursorOffAt(|text|) <= now {
        cursorShown := false;
      }
      clock := now;
    }
  }

  /**
   * Reading the element at nondecreasing times: each reading is the first TypedBy(|text|, t)
   * characters of the text, and each is a prefix of the next.
   */
  method TypingTimeline(text: string, times: seq<int>) returns (readings: seq<string>)
    requires forall i :: 0 <= i < |times| ==> times[i] >= 0
    requires forall i :: 0 < i < |times| ==> times[i - 1] <= times[i]
    ensures |readings| == |times|
    ensures forall i :: 0 <= i < |times| ==> readings[i] == text[..TypedBy(|text|, times[i])]
    ensures forall i :: 0 < i < |times| ==> readings[i - 1] <= readings[i]
  {
    var w := new Typewriter(text);
    readings := [];
    var i := 0;
    while i < |times|
      invariant 0 <= i <= |times|
      invariant w.Valid() && w.text == text
      invariant w.clock == if i == 0 then 0 else times[i - 1]
      invariant |readings| == i
      invariant forall k :: 0 <= k < i ==> readings[k] == text[..TypedBy(|text|, times[k])]
      invariant forall k :: 0 < k < i ==> readings[k - 1] <= readings[k]
    {
      w.AdvanceTo(times[i]);
      if i > 0 {
        TypedByMonotone(|text|, times[i - 1], times[i]);
      }
      readings := readings + [w.content];
      i := i + 1;
    }
  }
}
