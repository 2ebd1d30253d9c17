/**
 * What the two verification screens (screens/EmailVerificationScreen.js and
 * screens/PasswordResetVerificationScreen.js) share: a code of six one-character
 * slots, the focus moves between the slots, the test that the joined code is
 * complete, and the resend countdown driven by a one-second interval.
 */
module CodeEntry {
  import opened Common

  const CodeLength := 6
  const ResendSeconds := 60
  const Backspace := "Backspace"

  /** The reply to a request: an exception (including a body that is not JSON), or `ok`. */
  datatype Reply = Threw | Replied(ok: bool)

  /** The code as first shown: six empty slots. */
  function EmptyCode(): (code: seq<string>)
    ensures |code| == CodeLength && forall i :: 0 <= i < |code| ==> code[i] == ""
  {
    ["", "", "", "", "", ""]
  }

  /** The test of the verify handlers: `code.join('').length === 6`. */
  predicate IsFullCode(code: seq<string>) {
    Utf16Length(Concat(code)) == CodeLength
  }

  /** Each input holds at most one UTF-16 code unit (`maxLength={1}`). */
  predicate SlotsWithinMax(code: seq<string>) {
    forall i :: 0 <= i < |code| ==> Utf16Length(code[i]) <= 1
  }

  lemma {:induction false} SumOfShortSlots(code: seq<string>)
    requires SlotsWithinMax(code)
    ensures SumUtf16(code) <= |code|
    ensures SumUtf16(code) == |code| <==> forall i :: 0 <= i < |code| ==> code[i] != ""
  {
    if code != [] {
      SumOfShortSlots(code[1..]);
      if forall i :: 0 <= i < |code| ==> code[i] != "" {
        assert forall i :: 0 <= i < |code[1..]| ==> code[1..][i] == code[i + 1];
      } else {
        var i :| 0 <= i < |code| && code[i] == "";
        if i > 0 {
          assert code[1..][i - 1] == "";
        }
      }
    }
  }

  /** With one character at most per slot, the code is complete exactly when no slot of the
      six is empty. */
  lemma FullCodeIffAllFilled(code: seq<string>)
    requires |code| == CodeLength && SlotsWithinMax(code)
    ensures IsFullCode(code) <==> forall i :: 0 <= i < |code| ==> code[i] != ""
  {
    Utf16LengthConcat(code);
    SumOfShortSlots(code);
  }

  /** The focus move of `handleCodeChange`: to the next slot after a non-empty text, except
      from the last slot. */
  function NextFocus(text: string, index: nat): (r: Option<nat>)
    ensures r.Some? <==> text != "" && index < CodeLength - 1
    ensures r.Some? ==> r.value == index + 1 && r.value < CodeLength
  {
    if text != "" && index < CodeLength - 1 then Some(index + 1) else None
  }

  /** The focus move of `handleKeyPress`: back one slot on Backspace in an empty slot, except
      from the first slot. */
  function PrevFocus(key: string, code: seq<string>, index: nat): (r: Option<nat>)
    requires index < |code|
    ensures r.Some? <==> key == Backspace && code[index] == "" && index > 0
    ensures r.Some? ==> r.value + 1 == index
  {
    if key == Backspace && code[index] == "" && index > 0 then Some(index - 1) else None
  }

  /** The resend countdown: seconds left and whether the resend button is disabled. */
  datatype Countdown = Countdown(timer: int, resendDisabled: bool)

  /** The timer effect. Both screens re-enable the button at 0; the reset screen's bare
      `else` also does so below 0 (`reenableBelowZero`). */
  function Settle(c: Countdown, reenableBelowZero: bool): (r: Countdown)
    ensures c.timer > 0 ==> r == c
    ensures c.timer == 0 ==> r == Countdown(0, false)
    ensures c.timer < 0 ==> r == if reenableBelowZero then c.(resendDisabled := false) else c
  {
    if c.timer > 0 then c
    else if c.timer == 0 || reenableBelowZero then c.(resendDisabled := false)
    else c
  }

  /** One firing of the interval, which exists only while the timer is above 0, followed by the
      effect the new timer value triggers. */
  function Tick(c: Countdown, reenableBelowZero: bool): Countdown
    requires c.timer > 0
  {
    Settle(c.(timer := c.timer - 1), reenableBelowZero)
  }

  /** `n` successive firings. */
  function Ticks(c: Countdown, n: nat, reenableBelowZero: bool): Countdown
    requires n <= c.timer
    decreases n
  {
    if n == 0 then c else Ticks(Tick(c, reenableBelowZero), n - 1, reenableBelowZero)
  }

  /** The countdown takes one second off per firing, keeps the button as it was until the
      last firing, and re-enables it when it reaches 0. */
  lemma {:induction false} CountdownRuns(c: Countdown, n: nat, reenableBelowZero: bool)
    requires n <= c.timer
    ensures Ticks(c, n, reenableBelowZero).timer == c.timer - n
    ensures n < c.timer ==> Ticks(c, n, reenableBelowZero).resendDisabled == c.resendDisabled
    ensures 0 < n == c.timer ==> !Ticks(c, n, reenableBelowZero).resendDisabled
    decreases n
  {
    if n > 0 {
      CountdownRuns(Tick(c, reenableBelowZero), n - 1, reenableBelowZero);
    }
  }

  /** On every timer value the countdown can reach (never below 0) the two effects agree. */
  lemma SettleAgrees(c: Countdown)
    requires c.timer >= 0
    ensures Settle(c, false) == Settle(c, true)
  {
  }
}
