/**
 * The password-reset verification screen
 * (screens/PasswordResetVerificationScreen.js): the six-slot code, the
 * form-encoded verification request, and the resend request, which disables the
 * resend button for a 60-second countdown before it is sent and re-enables it
 * only when the request throws. Server replies are parameters; each interval
 * firing is a call of `TimerTick`.
 */
module PasswordResetVerification {
  import opened Common
  import FormEncoding
  import opened CodeEntry

  const EmailField := "username_email"
  const CodeField := "verification_code"

  /** `username_email=<enc email>&verification_code=<enc code>` */
  function VerifyBody(email: string, code: string): string {
    EmailField + "=" + FormEncoding.EncodeUriComponent(email) + "&" + CodeField + "=" + FormEncoding.EncodeUriComponent(code)
  }

  /** `username_email=<enc email>` */
  function ResendBody(email: string): string {
    EmailField + "=" + FormEncoding.EncodeUriComponent(email)
  }

  /** The receiver finds the e-mail and the code, in that order, and nothing else. */
  lemma VerifyBodyFields(email: string, code: string)
    ensures FormEncoding.ParseForm(VerifyBody(email, code))
      == Some([(EmailField, FormEncoding.EncodeUriComponent(email)), (CodeField, FormEncoding.EncodeUriComponent(code))])
  {
    FormEncoding.TwoFieldBody(EmailField, email, CodeField, code);
  }

  /** The receiver finds the e-mail as the only field. */
  lemma ResendBodyFields(email: string)
    ensures FormEncoding.ParseForm(ResendBody(email)) == Some([(EmailField, FormEncoding.EncodeUriComponent(email))])
  {
    FormEncoding.OneFieldBody(EmailField, email);
  }

  /** The countdown after `handleResendCode`: 60 seconds in every case, the button disabled
      unless the request threw. */
  function AfterResend(c: Countdown, reply: Reply): (r: Countdown)
    ensures r.timer == ResendSeconds
    ensures r.resendDisabled <==> reply.Replied?
  {
    Countdown(ResendSeconds, !reply.Threw?)
  }

  /** Whatever the reply, the button is enabled once the interval has fired 60 times; after a
      reply (even a failure) it stays disabled until then. */
  lemma ResendThenCountdown(c: Countdown, reply: Reply)
    ensures Ticks(AfterResend(c, reply), ResendSeconds, true) == Countdown(0, false)
    ensures reply.Replied? ==> forall n :: 0 <= n < ResendSeconds ==> Ticks(AfterResend(c, reply), n, true).resendDisabled
  {
    var r := AfterResend(c, reply);
    CountdownRuns(r, ResendSeconds, true);
    forall n | 0 <= n < ResendSeconds ensures reply.Replied? ==> Ticks(r, n, true).resendDisabled {
      CountdownRuns(r, n, true);
    }
  }

  class PasswordResetVerificationScreen {
    const email: string
    var code: seq<string>
    var timer: int
    var resendDisabled: bool

    function State(): Countdown
      reads this
    {
      Countdown(timer, resendDisabled)
    }

    /** Six slots, and a timer that never runs below 0. */
    predicate Valid()
      reads this
    {
      |code| == CodeLength && timer >= 0
    }

    constructor (email: string)
      ensures Valid() && this.email == email
      ensures code == EmptyCode() && State() == Countdown(0, false)
    {
      this.email := email;
      code := EmptyCode();
      timer := 0;
      resendDisabled := false;
    }

    /** `handleCodeChange`: only the slot changes; `focus` is the slot focused next, if any. */
    method HandleCodeChange(text: string, index: nat) returns (focus: Option<nat>)
      requires Valid() && index < CodeLength
      modifies this
      ensures Valid() && code == old(code)[index := text] && State() == old(State())
      ensures focus == NextFocus(text, index)
    {
      code := code[index := text];
      focus := None;
      if text != "" && index < 5 {
        focus := Some(index + 1);
      }
    }

    method HandleKeyPress(key: string, index: nat) returns (focus: Option<nat>)
      requires Valid() && index < CodeLength
      ensures focus == PrevFocus(key, code, index)
    {
      focus := None;
      if key == Backspace && code[index] == "" && index > 0 {
        focus := Some(index - 1);
      }
    }

    /** `handleVerifyCode`: `request` is the body posted, if any, and `next` the e-mail and code
        handed to the new-password screen, if the reply leads there. */
    method HandleVerifyCode(reply: Reply) returns (request: Option<string>, next: Option<(string, string)>)
      requires Valid()
      ensures request.Some? <==> IsFullCode(code)
      ensures request.Some? ==> request.value == VerifyBody(email, Concat(code))
      ensures next.Some? <==> request.Some? && reply == Replied(true)
      ensures next.Some? ==> next.value == (email, Concat(code))
    {
      var verificationCode := Concat(code);
      if Utf16Length(verificationCode) != 6 {
        return None, None;
      }
      request := Some(VerifyBody(email, verificationCode));
      next := None;
      if reply.Replied? && reply.ok {
        next := Some((email, verificationCode));
      }
    }

    /** `handleResendCode`; `request` is the body posted. */
    method HandleResendCode(reply: Reply) returns (request: string)
      requires Valid()
      modifies this
      ensures Valid() && code == old(code)
      ensures State() == AfterResend(old(State()), reply)
      ensures request == ResendBody(email)
    {
      resendDisabled := true;
      timer := 60;
      request := ResendBody(email);
      if reply.Threw? {
        resendDisabled := false;
      }
    }

    /** One firing of the interval, then the effect of the new timer value. */
    method TimerTick()
      requires Valid() && timer > 0
      modifies this
      ensures Valid() && code == old(code)
      ensures State() == Tick(old(State()), true)
    {
      timer := timer - 1;
      if timer <= 0 {
        resendDisabled := false;
      }
    }
  }
}
