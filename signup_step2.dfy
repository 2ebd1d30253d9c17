/**
 * The second sign-up step (screens/SignupScreen2.js): the account fields are
 * added to the names, date of birth and role carried over from step one, then
 * checked in a fixed order (missing fields, e-mail shape, password match) before
 * an `application/x-www-form-urlencoded` body is posted. The gender is read
 * from the step-one form, which this step's own form does not copy.
 */
module SignupStep2 {
  import opened Common
  import FormEncoding
  import SignupStep1

  const Username := "username"
  const Email := "email"
  const Password := "password"
  const ConfirmPassword := "confirmPassword"

  /** The labels of the missing-field message, in the order they are checked. */
  const Labels := ["Username", "Email", "Password", "Confirm Password", "Gender"]

  /** The names of the posted fields, in body order. */
  const BodyNames := ["f_name", "l_name", "date_of_birth", "email", "gender", "password", "username", "user_type"]

  /** The form as first shown: four fields copied from step one, four new empty ones. */
  function InitialForm(step1: map<string, string>): (f: map<string, string>)
    ensures forall k :: k in [SignupStep1.FirstName, SignupStep1.LastName, SignupStep1.DateOfBirth, SignupStep1.UserRole] ==>
      Lookup(f, k) == Lookup(step1, k)
    ensures forall k :: k in [Username, Email, Password, ConfirmPassword] ==> Lookup(f, k) == Some("")
    ensures SignupStep1.Gender !in f
  {
    var copied := map k | k in step1 && k in {SignupStep1.FirstName, SignupStep1.LastName, SignupStep1.DateOfBirth, SignupStep1.UserRole} :: step1[k];
    copied[Username := ""][Email := ""][Password := ""][ConfirmPassword := ""]
  }

  /** Each label of the missing-field message with the value it stands for, in check order. */
  function Checks(form: map<string, string>, gender: Option<string>): seq<(string, Option<string>)> {
    [("Username", Lookup(form, Username)), ("Email", Lookup(form, Email)), ("Password", Lookup(form, Password)),
     ("Confirm Password", Lookup(form, ConfirmPassword)), ("Gender", gender)]
  }

  /** The successive `if (!value) missingFields.push(label)` statements, from `acc` on. */
  function PushMissing(acc: seq<string>, checks: seq<(string, Option<string>)>): (r: seq<string>)
    ensures |r| <= |acc| + |checks|
    decreases |checks|
  {
    if checks == [] then acc
    else PushMissing(if !Truthy(checks[0].1) then acc + [checks[0].0] else acc, checks[1..])
  }

  /** The missing-field list of `validateAndSubmit`. */
  function MissingFields(form: map<string, string>, gender: Option<string>): seq<string> {
    PushMissing([], Checks(form, gender))
  }

  predicate IsEmptyCheck(check: (string, Option<string>)) {
    !Truthy(check.1)
  }

  function LabelsOf(checks: seq<(string, Option<string>)>): (r: seq<string>)
    ensures |r| == |checks| && forall i :: 0 <= i < |checks| ==> r[i] == checks[i].0
  {
    if checks == [] then [] else [checks[0].0] + LabelsOf(checks[1..])
  }

  lemma {:induction false} LabelsOfAppend(a: seq<(string, Option<string>)>, b: seq<(string, Option<string>)>)
    ensures LabelsOf(a + b) == LabelsOf(a) + LabelsOf(b)
  {
  }

  /** The pushes append the labels of the empty checks, in check order. */
  lemma {:induction false} PushMissingIsFilter(acc: seq<string>, checks: seq<(string, Option<string>)>)
    ensures PushMissing(acc, checks) == acc + LabelsOf(Filter(checks, IsEmptyCheck))
    decreases |checks|
  {
    if checks != [] {
      var c := checks[0];
      var head := if IsEmptyCheck(c) then [c] else [];
      var rest := Filter(checks[1..], IsEmptyCheck);
      assert Filter(checks, IsEmptyCheck) == head + rest;
      var acc' := if !Truthy(c.1) then acc + [c.0] else acc;
      assert acc' == acc + LabelsOf(head);
      PushMissingIsFilter(acc', checks[1..]);
      LabelsOfAppend(head, rest);
    }
  }

  /** The list names exactly the labels of the empty values, in check order, so it is empty
      exactly when all five values are present and non-empty. */
  lemma MissingFieldsExact(form: map<string, string>, gender: Option<string>)
    ensures MissingFields(form, gender) == LabelsOf(Filter(Checks(form, gender), IsEmptyCheck))
    ensures MissingFields(form, gender) == [] <==>
      Truthy(Lookup(form, Username)) && Truthy(Lookup(form, Email)) && Truthy(Lookup(form, Password))
      && Truthy(Lookup(form, ConfirmPassword)) && Truthy(gender)
  {
    var cs := Checks(form, gender);
    PushMissingIsFilter([], cs);
    var kept := Filter(cs, IsEmptyCheck);
    if kept == [] {
      forall i | 0 <= i < |cs| ensures !IsEmptyCheck(cs[i]) {
        assert cs[i] in cs;
      }
      assert !IsEmptyCheck(cs[0]) && !IsEmptyCheck(cs[1]) && !IsEmptyCheck(cs[2]) && !IsEmptyCheck(cs[3]) && !IsEmptyCheck(cs[4]);
    } else {
      assert kept[0] in kept;
    }
  }

  /** `/^[^\s@]+@[^\s@]+\.[^\s@]+$/`: one `@` with text before it, no whitespace or other `@`
      anywhere, and a dot after the `@` with text on both sides of it. */
  ghost predicate MatchesEmailPattern(s: string) {
    exists i, j :: 0 < i && i + 1 < j < |s| - 1 && s[i] == '@' && s[j] == '.'
      && (forall k :: 0 <= k < |s| && k != i ==> s[k] != '@' && !IsJsSpace(s[k]))
  }

  /** The e-mail test as computed: split at the first `@`, then inspect both sides. */
  predicate IsValidEmail(s: string) {
    match IndexOf(s, '@')
    case None => false
    case Some(i) =>
      var domain := s[i + 1..];
      0 < i && '@' !in domain && (forall k :: 0 <= k < |s| ==> !IsJsSpace(s[k]))
      && exists j :: 0 < j < |domain| - 1 && domain[j] == '.'
  }

  lemma EmailCheckMatchesPattern(s: string)
    ensures IsValidEmail(s) <==> MatchesEmailPattern(s)
  {
    if IsValidEmail(s) {
      var i := IndexOf(s, '@').value;
      var domain := s[i + 1..];
      var j :| 0 < j < |domain| - 1 && domain[j] == '.';
      forall k | 0 <= k < |s| && k != i ensures s[k] != '@' && !IsJsSpace(s[k]) {
        if k < i {
          assert s[k] == s[..i][k];
        } else {
          assert s[k] == domain[k - i - 1];
        }
      }
      assert s[i + 1 + j] == '.';
    }
    if MatchesEmailPattern(s) {
      var i, j :| 0 < i && i + 1 < j < |s| - 1 && s[i] == '@' && s[j] == '.'
        && (forall k :: 0 <= k < |s| && k != i ==> s[k] != '@' && !IsJsSpace(s[k]));
      assert '@' in s;
      var a := IndexOf(s, '@').value;
      assert a == i;
      var domain := s[i + 1..];
      assert domain[j - i - 1] == '.';
      assert '@' !in domain by {
        forall m | 0 <= m < |domain| ensures domain[m] != '@' {
          assert domain[m] == s[i + 1 + m];
        }
      }
    }
  }

  /** The text a form field contributes to the body. */
  function FieldText(form: map<string, string>, key: string): string {
    JsText(Lookup(form, key))
  }

  /** The eight values of the body, in body order, before encoding. */
  function BodyValues(form: map<string, string>, gender: Option<string>): seq<string> {
    [FieldText(form, SignupStep1.FirstName), FieldText(form, SignupStep1.LastName), FieldText(form, SignupStep1.DateOfBirth),
     FieldText(form, Email), JsText(gender), FieldText(form, Password), FieldText(form, Username),
     FieldText(form, SignupStep1.UserRole)]
  }

  /** `f_name=...&l_name=...&...&user_type=...`, each value URI-encoded. */
  function SignupBody(form: map<string, string>, gender: Option<string>): string {
    FormEncoding.FormBody(FormEncoding.EncodeFields(BodyNames, BodyValues(form, gender)))
  }

  /** The server splitting the body finds the eight fields, in order, with the encoded values. */
  lemma SignupBodyFields(form: map<string, string>, gender: Option<string>)
    ensures FormEncoding.ParseForm(SignupBody(form, gender))
      == Some(FormEncoding.EncodeFields(BodyNames, BodyValues(form, gender)))
  {
    FormEncoding.EncodedFieldsWellFormed(BodyNames, BodyValues(form, gender));
    FormEncoding.ParseFormBody(FormEncoding.EncodeFields(BodyNames, BodyValues(form, gender)));
  }

  /** What `validateAndSubmit` does before any request: reject with the first failing check,
      or send the body. */
  datatype Validation = MissingFieldsError(labels: seq<string>) | InvalidEmail | PasswordsDiffer | Send(body: string)

  function Validate(form: map<string, string>, gender: Option<string>): (r: Validation)
    ensures r.MissingFieldsError? <==> MissingFields(form, gender) != []
    ensures r.MissingFieldsError? ==> r.labels == MissingFields(form, gender)
    ensures r.InvalidEmail? <==> MissingFields(form, gender) == [] && !IsValidEmail(FieldText(form, Email))
    ensures r.PasswordsDiffer? <==>
      MissingFields(form, gender) == [] && IsValidEmail(FieldText(form, Email)) && Lookup(form, Password) != Lookup(form, ConfirmPassword)
    ensures r.Send? ==> r.body == SignupBody(form, gender)
  {
    var missing := MissingFields(form, gender);
    if missing != [] then MissingFieldsError(missing)
    else if !IsValidEmail(FieldText(form, Email)) then InvalidEmail
    else if Lookup(form, Password) != Lookup(form, ConfirmPassword) then PasswordsDiffer
    else Send(SignupBody(form, gender))
  }

  /** A sent body always carries a pattern-conforming e-mail and equal passwords. */
  lemma SentFormIsValid(form: map<string, string>, gender: Option<string>)
    requires Validate(form, gender).Send?
    ensures MatchesEmailPattern(FieldText(form, Email))
    ensures Lookup(form, Password) == Lookup(form, ConfirmPassword) && Truthy(Lookup(form, Password))
    ensures Truthy(Lookup(form, Username)) && Truthy(gender)
  {
    EmailCheckMatchesPattern(FieldText(form, Email));
    MissingFieldsExact(form, gender);
  }

  /** The reply to the sign-up request: an exception, or the `ok` flag and whether the text
      of the reply parses as JSON. */
  datatype SignupReply = SignupThrew | SignupReplied(ok: bool, parses: bool)

  class SignupStep2Screen {
    const step1: map<string, string>
    var form: map<string, string>

    constructor (step1: map<string, string>)
      ensures this.step1 == step1 && form == InitialForm(step1)
    {
      this.step1 := step1;
      form := InitialForm(step1);
    }

    method HandleInputChange(field: string, value: string)
      modifies this
      ensures form == old(form)[field := value]
    {
      form := form[field := value];
    }

    /** `validateAndSubmit`: `request` is the body posted, if any; `verify` is the e-mail and
        username handed to the e-mail verification screen, if the reply leads there. */
    method ValidateAndSubmit(reply: SignupReply) returns (request: Option<string>, verify: Option<(Option<string>, Option<string>)>)
      ensures request.Some? <==> Validate(form, Lookup(step1, SignupStep1.Gender)).Send?
      ensures request.Some? ==> request.value == SignupBody(form, Lookup(step1, SignupStep1.Gender))
      ensures verify.Some? <==> request.Some? && reply.SignupReplied? && reply.ok && reply.parses
      ensures verify.Some? ==> verify.value == (Lookup(form, Email), Lookup(form, Username))
    {
      var gender := Lookup(step1, SignupStep1.Gender);
      var missing := MissingFields(form, gender);
      if |missing| > 0 {
        return None, None;
      }
      if !IsValidEmail(FieldText(form, Email)) {
        return None, None;
      }
      if Lookup(form, Password) != Lookup(form, ConfirmPassword) {
        return None, None;
      }
      request := Some(SignupBody(form, gender));
      verify := None;
      if reply.SignupReplied? && reply.ok && reply.parses {
        verify := Some((Lookup(form, Email), Lookup(form, Username)));
      }
    }
  }
}
