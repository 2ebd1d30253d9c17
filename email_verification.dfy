/**
 * The e-mail verification screen (screens/EmailVerificationScreen.js): the
 * six-slot code, the verification request with a JSON body, and the resend
 * request, which on success disables the resend button for a 60-second
 * countdown. Server replies are parameters; each interval firing is a call of
 * `TimerTick`.
 */
module EmailVerification {
  import opened Common
  import Json
  import opened CodeEntry

  const EmailKey := "email"
  const CodeKey := "verification_code"
  const ResendPath := "/account/resend_verification_code/"

  /** The object `verifyCode` stringifies. */
  function VerifyPayload(email: string, code: seq<string>): Json.Profile {
    [(EmailKey, email), (CodeKey, Concat(code))]
  }

  /** The server parsing the body reads back the e-mail and the joined code. */
  lemma VerifyPayloadRead(email: string, code: seq<string>)
    ensures Json.Parse(Json.Stringify(VerifyPayload(email, code))).Some?
    ensures var read := Json.Parse(Json.Stringify(VerifyPayload(email, code))).value;
      Json.Get(read, EmailKey) == Some(email) && Json.Get(read, CodeKey) == Some(Concat(code))
  {
    var p := VerifyPayload(email, code);
    Json.ParseStringify(p);
    assert p[1..] == [(CodeKey, Concat(code))];
    assert p[1..][1..] == [];
    assert |EmailKey| != |CodeKey|;
  }

  /** The countdown after `resendCode`: a success disables the button and starts at 60; a
      failure or an exception changes neither. */
  function AfterResend(c: Countdown, reply: Reply): (r: Countdown)
    ensures reply == Replied(true) ==> r == Countdown(ResendSeconds, true)
    ensures reply != Replied(true) ==> r == c
  {
    if reply == Replied(true) then Countdown(ResendSeconds, true) else c
  }

  /** After a successful resend the button stays disabled for 59 firings of the interval and
      is enabled again by the 60th. */
  lemma ResendThenCountdown(c: Countdown)
    ensures var r := AfterResend(c, Replied(true));
      (forall n :: 0 <= n < ResendSeconds ==> Ticks(r, n, false).resendDisabled)
      && Ticks(r, ResendSeconds, false) == Countdown(0, false)
  {
    var r := AfterResend(c, Replied(true));
    forall n | 0 <= n < ResendSeconds ensures Ticks(r, n, false).resendDisabled {
      CountdownRuns(r, n, false);
    }
    CountdownRuns(r, ResendSeconds, false);
  }

  class EmailVerificationScreen {
    const email: string
    const username: string
    var code: seq<string>
    var timer: int
    var resendDisabled: bool

    function State(): Countdown
      reads this
    {
      Countdown(timer, resendDisabled)
    }

    /** Six slots, and a timer that never runs below 0. */
    predicate Valid()
      reads this
    {
      |code| == CodeLength && timer >= 0
    }

    constructor (email: string, username: string)
      ensures Valid() && this.email == email && this.username == username
      ensures code == EmptyCode() && State() == Countdown(0, false)
    {
      this.email := email;
      this.username := username;
      code := EmptyCode();
      timer := 0;
      resendDisabled := false;
    }

    /** `handleCodeChange`: only the slot changes; `focus` is the slot focused next, if any. */
    method HandleCodeChange(text: string, index: nat) returns (focus: Option<nat>)
      requires Valid() && index < CodeLength
      modifies this
      ensures Valid() && code == old(code)[index := text] && State() == old(State())
      ensures focus == NextFocus(text, index)
    {
      code := code[index := text];
      focus := None;
      if text != "" && index < 5 {
        focus := Some(index + 1);
      }
    }

    method HandleKeyPress(key: string, index: nat) returns (focus: Option<nat>)
      requires Valid() && index < CodeLength
      ensures focus == PrevFocus(key, code, index)
    {
      focus := None;
      if key == Backspace && code[index] == "" && index > 0 {
        focus := Some(index - 1);
      }
    }

    /** `verifyCode`: `request` is the body posted, if any, and `toLogin` whether the success
        alert leads to the login screen. */
    method VerifyCode(reply: Reply) returns (request: Option<string>, toLogin: bool)
      requires Valid()
      ensures request.Some? <==> IsFullCode(code)
      ensures request.Some? ==> request.value == Json.Stringify(VerifyPayload(email, code))
      ensures toLogin <==> request.Some? && reply == Replied(true)
    {
      var entered := Concat(code);
      if Utf16Length(entered) != 6 {
        return None, false;
      }
      request := Some(Json.Stringify([(EmailKey, email), (CodeKey, entered)]));
      toLogin := reply.Replied? && reply.ok;
    }

    /** `resendCode`; `request` is the path fetched. */
    method ResendCode(reply: Reply) returns (request: string)
      requires Valid()
      modifies this
      ensures Valid() && code == old(code)
      ensures State() == AfterResend(old(State()), reply)
      ensures request == ResendPath + username
    {
      request := ResendPath + username;
      if reply.Replied? && reply.ok {
        resendDisabled := true;
        timer := 60;
      }
    }

    /** One firing of the interval, then the effect of the new timer value. */
    method TimerTick()
      requires Valid() && timer > 0
      modifies this
      ensures Valid() && code == old(code)
      ensures State() == Tick(old(State()), false)
    {
      timer := timer - 1;
      if timer == 0 {
        resendDisabled := false;
      }
    }
  }
}
