/**
 * The first sign-up step (screens/SignupScreen.js): a form of first name, last
 * name, gender, date of birth and role; a date picker whose confirmed date is
 * written into the form as text; and the check that lets the user continue.
 * Dates are instants (milliseconds); `format` is the `YYYY-MM-DD` rendering.
 */
module SignupStep1 {
  import opened Common

  const FirstName := "firstName"
  const LastName := "lastName"
  const Gender := "gender"
  const DateOfBirth := "dateOfBirth"
  const UserRole := "userRole"
  const DefaultRole := "User"

  /** `route.params?.userRole || 'User'` */
  function RoleOf(param: Option<string>): (r: string)
    ensures Truthy(param) ==> r == param.value
    ensures !Truthy(param) ==> r == DefaultRole
    ensures r != ""
  {
    if Truthy(param) then param.value else DefaultRole
  }

  /** The form as first shown: every field empty except the role. */
  function InitialForm(role: string): (f: map<string, string>)
    ensures f.Keys == {FirstName, LastName, Gender, DateOfBirth, UserRole}
    ensures f[UserRole] == role
    ensures forall k :: k in f && k != UserRole ==> f[k] == ""
  {
    map[FirstName := "", LastName := "", Gender := "", DateOfBirth := "", UserRole := role]
  }

  /** The test of `handleNext`: the four personal fields are all non-empty. */
  predicate CanProceed(form: map<string, string>) {
    Truthy(Lookup(form, FirstName)) && Truthy(Lookup(form, LastName))
    && Truthy(Lookup(form, Gender)) && Truthy(Lookup(form, DateOfBirth))
  }

  /** The form as first shown never lets the user continue, and filling in the four personal
      fields with non-empty text always does, whatever the role. */
  lemma CanProceedAfterFilling(role: string, first: string, last: string, gender: string, dob: string)
    ensures !CanProceed(InitialForm(role))
    ensures first != "" && last != "" && gender != "" && dob != "" ==>
      CanProceed(InitialForm(role)[FirstName := first][LastName := last][Gender := gender][DateOfBirth := dob])
  {
  }

  class SignupStep1Screen {
    var form: map<string, string>
    var tempDate: int
    var showDateModal: bool

    /** The screen as mounted, with the role passed by the route (if any) and the current time. */
    constructor (roleParam: Option<string>, now: int)
      ensures form == InitialForm(RoleOf(roleParam)) && tempDate == now && !showDateModal
    {
      form := InitialForm(RoleOf(roleParam));
      tempDate := now;
      showDateModal := false;
    }

    method HandleInputChange(field: string, value: string)
      modifies this
      ensures form == old(form)[field := value]
      ensures tempDate == old(tempDate) && showDateModal == old(showDateModal)
    {
      form := form[field := value];
    }

    /** A picker change without a date is ignored. */
    method HandleDateChange(date: Option<int>)
      modifies this
      ensures tempDate == if date.Some? then date.value else old(tempDate)
      ensures form == old(form) && showDateModal == old(showDateModal)
    {
      if date.Some? {
        tempDate := date.value;
      }
    }

    /** Writes the chosen date into the form and closes the picker. */
    method HandleDateConfirm(format: int -> string)
      modifies this
      ensures form == old(form)[DateOfBirth := format(tempDate)]
      ensures !showDateModal && tempDate == old(tempDate)
    {
      HandleInputChange(DateOfBirth, format(tempDate));
      showDateModal := false;
    }

    /** `handleNext`: the form handed to the next step, or nothing when a field is empty. */
    method HandleNext() returns (next: Option<map<string, string>>)
      ensures next.Some? <==> CanProceed(form)
      ensures next.Some? ==> next.value == form
    {
      if !Truthy(Lookup(form, FirstName)) || !Truthy(Lookup(form, LastName))
         || !Truthy(Lookup(form, Gender)) || !Truthy(Lookup(form, DateOfBirth)) {
        return None;
      }
      return Some(form);
    }
  }
}
