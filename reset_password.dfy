/**
 * The new-password screen (screens/ResetPasswordScreen.js): the password and
 * its confirmation are checked, length first, before a form-encoded request
 * carries the e-mail and the new password. The server reply is a parameter.
 */
module ResetPassword {
  import opened Common
  import FormEncoding

  /** The fewest UTF-16 code units a new password may have. */
  const MinLength := 6

  /** What `handleResetPassword` does before any request: reject, or send the body. */
  datatype ResetCheck = TooShort | Mismatch | Send(body: string)

  /** The reply: an exception (including a body that is not JSON), or the `ok` flag. */
  datatype ResetReply = ResetThrew | ResetReplied(ok: bool)

  const EmailField := "username"
  const PasswordField := "new_password"

  /** `username=<enc email>&new_password=<enc password>` */
  function ResetBody(email: string, password: string): string {
    EmailField + "=" + FormEncoding.EncodeUriComponent(email) + "&" + PasswordField + "=" + FormEncoding.EncodeUriComponent(password)
  }

  /** The receiver finds exactly the two fields, e-mail first, with the encoded values. */
  lemma ResetBodyFields(email: string, password: string)
    ensures FormEncoding.ParseForm(ResetBody(email, password))
      == Some([(EmailField, FormEncoding.EncodeUriComponent(email)), (PasswordField, FormEncoding.EncodeUriComponent(password))])
  {
    FormEncoding.TwoFieldBody(EmailField, email, PasswordField, password);
  }

  /** The checks in order: the length check wins over the match check. */
  function CheckReset(email: string, password: string, confirmPassword: string): (r: ResetCheck)
    ensures r.TooShort? <==> Utf16Length(password) < MinLength
    ensures r.Mismatch? <==> Utf16Length(password) >= MinLength && password != confirmPassword
    ensures r.Send? ==> r.body == ResetBody(email, password)
  {
    if Utf16Length(password) < MinLength then TooShort
    else if password != confirmPassword then Mismatch
    else Send(ResetBody(email, password))
  }

  class ResetPasswordScreen {
    const email: string
    var password: string
    var confirmPassword: string
    var loading: bool

    constructor (email: string)
      ensures this.email == email && password == "" && confirmPassword == "" && !loading
    {
      this.email := email;
      password := "";
      confirmPassword := "";
      loading := false;
    }

    method SetPassword(text: string)
      modifies this
      ensures password == text && confirmPassword == old(confirmPassword) && loading == old(loading)
    {
      password := text;
    }

    method SetConfirmPassword(text: string)
      modifies this
      ensures confirmPassword == text && password == old(password) && loading == old(loading)
    {
      confirmPassword := text;
    }

    /** `handleResetPassword`: `request` is the body posted, if any, and `toLogin` whether the
        navigation is reset to the login screen. A rejected password leaves `loading` alone;
        once a request is made `loading` ends false whatever the reply. */
    method HandleResetPassword(reply: ResetReply) returns (request: Option<string>, toLogin: bool)
      modifies this
      ensures request.Some? <==> CheckReset(email, password, confirmPassword).Send?
      ensures request.Some? ==> request.value == ResetBody(email, password)
      ensures request.Some? ==> !loading
      ensures request.None? ==> loading == old(loading)
      ensures toLogin <==> request.Some? && reply == ResetReplied(true)
      ensures password == old(password) && confirmPassword == old(confirmPassword)
    {
      toLogin := false;
      if Utf16Length(password) < MinLength {
        return None, false;
      }
      if password != confirmPassword {
        return None, false;
      }
      loading := true;
      request := Some(ResetBody(email, password));
      match reply {
        case ResetThrew =>
          loading := false;
        case ResetReplied(ok) =>
          loading := false;
          toLogin := ok;
      }
    }
  }
}
