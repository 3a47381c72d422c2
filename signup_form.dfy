/**
 * The sign-up form: six text fields and the role, the live password
 * checklist, and the submit that calls `signUp` only once the password
 * rules and the confirmation pass.
 */
module SignupForm {
  import opened Wrappers
  import opened PasswordRules

  /** The ids of the form's inputs. */
  datatype FieldId = FirstName | LastName | City | Email | Password | ConfirmPassword

  datatype FormData = FormData(
    firstName: string, lastName: string, city: string, email: string,
    password: string, confirmPassword: string, role: string)

  /** What `signUp` receives: the form without `confirmPassword`. */
  datatype SignupData = SignupData(
    firstName: string, lastName: string, city: string, email: string, password: string, role: string)

  function Get(d: FormData, f: FieldId): string
  {
    match f
    case FirstName => d.firstName
    case LastName => d.lastName
    case City => d.city
    case Email => d.email
    case Password => d.password
    case ConfirmPassword => d.confirmPassword
  }

  /** `{...prev, [id]: value}`: the named field takes the value and every
   *  other field, the role included, keeps its own. */
  function SetField(d: FormData, f: FieldId, value: string): (r: FormData)
    ensures forall g :: Get(r, g) == if g == f then value else Get(d, g)
    ensures r.role == d.role
  {
    match f
    case FirstName => d.(firstName := value)
    case LastName => d.(lastName := value)
    case City => d.(city := value)
    case Email => d.(email := value)
    case Password => d.(password := value)
    case ConfirmPassword => d.(confirmPassword := value)
  }

  /** `const { confirmPassword, ...signupData } = formData`. */
  function WithoutConfirmation(d: FormData): (r: SignupData)
    ensures r.password == d.password && r.email == d.email && r.role == d.role
  {
    SignupData(d.firstName, d.lastName, d.city, d.email, d.password, d.role)
  }

  /** Two forms that differ only in the confirmation send the same data. */
  lemma ConfirmationNotSent(d: FormData, value: string)
    ensures WithoutConfirmation(SetField(d, ConfirmPassword, value)) == WithoutConfirmation(d)
  {
  }

  const SignupFallback := "Failed to sign up"

  class SignupPage {
    var formData: FormData
    var error: string
    var isLoading: bool
    var isSignupComplete: bool

    constructor()
      ensures formData == FormData("", "", "", "", "", "", "user")
      ensures error == "" && !isLoading && !isSignupComplete
    {
      formData := FormData("", "", "", "", "", "", "user");
      error := "";
      isLoading := false;
      isSignupComplete := false;
    }

    /** The checklist under the password field. */
    function Checklist(): Requirements
      reads this
    {
      ValidatePassword(formData.password)
    }

    /** `handleChange`. */
    method Change(f: FieldId, value: string)
      modifies this
      ensures formData == SetField(old(formData), f, value)
      ensures error == old(error) && isLoading == old(isLoading) && isSignupComplete == old(isSignupComplete)
    {
      formData := SetField(formData, f, value);
    }

    /** The "User" and "Coach" buttons. */
    method SetRole(coach: bool)
      modifies this
      ensures formData == old(formData).(role := if coach then "coach" else "user")
      ensures error == old(error) && isLoading == old(isLoading) && isSignupComplete == old(isSignupComplete)
    {
      formData := formData.(role := if coach then "coach" else "user");
    }

    /** `handleSubmit`, with `outcome` what `signUp` does. A failed check
     *  sets its message and calls nothing; otherwise `signUp` gets the
     *  form without the confirmation, success completes the sign-up and
     *  a failure stores its message; the loading flag ends false. */
    method Submit(outcome: Outcome) returns (calls: seq<SignupData>)
      modifies this
      ensures SubmitError(old(formData).password, old(formData).confirmPassword).Some? ==>
        calls == [] && error == SubmitError(old(formData).password, old(formData).confirmPassword).value &&
        isLoading == old(isLoading) && isSignupComplete == old(isSignupComplete)
      ensures SubmitError(old(formData).password, old(formData).confirmPassword).None? ==>
        calls == [WithoutConfirmation(old(formData))] && !isLoading &&
        (outcome.Succeeded? ==> isSignupComplete && error == "") &&
        (outcome.Failed? ==> error == FailureMessage(outcome.message, SignupFallback) && isSignupComplete == old(isSignupComplete))
      ensures formData == old(formData)
    {
      error := "";
      calls := [];
      var check := SubmitError(formData.password, formData.confirmPassword);
      if check.Some? {
        error := check.value;
        return;
      }
      isLoading := true;
      calls := [WithoutConfirmation(formData)];
      if outcome.Succeeded? {
        isSignupComplete := true;
      } else {
        error := FailureMessage(outcome.message, SignupFallback);
      }
      isLoading := false;
    }
  }
}
