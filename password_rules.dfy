/**
 * The password rules shared, as identical copies, by the sign-up form and
 * the password-reset form: four character-class flags, their conjunction,
 * the order in which a submit checks them against the confirmation, and
 * the message an auth call's failure leaves.
 */
module PasswordRules {
  import opened Wrappers
  import opened Strings

  /** The characters of `/[!@#$%^&*()_+\-=\[\]{};':"\\|,.<>\/?]/`. */
  const SpecialChars: string := "!@#$%^&*()_+-=[]{};':\"\\|,.<>/?"

  predicate IsSpecial(c: char)
  {
    c in SpecialChars
  }

  /** `regex.test(password)` for a one-character class. */
  function HasCharIn(password: string, inClass: char -> bool): (r: bool)
    ensures r <==> exists i :: 0 <= i < |password| && inClass(password[i])
  {
    if |password| == 0 then false
    else if inClass(password[0]) then true
    else
      assert forall i :: 1 <= i < |password| ==> password[i] == password[1..][i - 1];
      HasCharIn(password[1..], inClass)
  }

  datatype Requirements = Requirements(hasUpperCase: bool, hasLowerCase: bool, hasNumber: bool, hasSpecialChar: bool)

  /** `validatePassword(password)`: each flag holds iff some character of
   *  the password lies in its class. */
  function ValidatePassword(password: string): (r: Requirements)
    ensures r.hasUpperCase <==> exists i :: 0 <= i < |password| && IsUpper(password[i])
    ensures r.hasLowerCase <==> exists i :: 0 <= i < |password| && IsLower(password[i])
    ensures r.hasNumber <==> exists i :: 0 <= i < |password| && IsDigit(password[i])
    ensures r.hasSpecialChar <==> exists i :: 0 <= i < |password| && IsSpecial(password[i])
  {
    Requirements(
      HasCharIn(password, IsUpper),
      HasCharIn(password, IsLower),
      HasCharIn(password, IsDigit),
      HasCharIn(password, IsSpecial))
  }

  /** `isPasswordValid(requirements)`. */
  predicate IsPasswordValid(r: Requirements)
  {
    r.hasUpperCase && r.hasLowerCase && r.hasNumber && r.hasSpecialChar
  }

  /** The special class leaves out the space, `~` and the backtick, and
   *  holds no letter or digit. */
  lemma SpecialClass(c: char)
    ensures c == ' ' || c == '~' || c == '`' ==> !IsSpecial(c)
    ensures IsUpper(c) || IsLower(c) || IsDigit(c) ==> !IsSpecial(c)
  {
  }

  /** The validator checks no length: a four-character password passes
   *  (the eight-character minimum is only the input's `minLength`). */
  lemma ShortPasswordPasses()
    ensures IsPasswordValid(ValidatePassword("Aa1!"))
  {
    var p := "Aa1!";
    assert IsUpper(p[0]) && IsLower(p[1]) && IsDigit(p[2]) && IsSpecial(p[3]);
  }

  /** Adding characters never loses a flag. */
  lemma ValidExtends(password: string, more: string)
    requires IsPasswordValid(ValidatePassword(password))
    ensures IsPasswordValid(ValidatePassword(password + more))
  {
    var r := ValidatePassword(password);
    var q := password + more;
    assert forall i :: 0 <= i < |password| ==> q[i] == password[i];
  }

  const RequirementsMessage := "Password does not meet all requirements"
  const MismatchMessage := "Passwords do not match"

  /** The two checks a submit makes before calling the service, in their
   *  order: the requirements, then the confirmation. None: both pass. A
   *  password that fails both checks is reported for its requirements. */
  function SubmitError(password: string, confirmPassword: string): (r: Option<string>)
    ensures r.None? <==> IsPasswordValid(ValidatePassword(password)) && password == confirmPassword
    ensures !IsPasswordValid(ValidatePassword(password)) ==> r == Some(RequirementsMessage)
    ensures IsPasswordValid(ValidatePassword(password)) && password != confirmPassword ==> r == Some(MismatchMessage)
  {
    if !IsPasswordValid(ValidatePassword(password)) then Some(RequirementsMessage)
    else if password != confirmPassword then Some(MismatchMessage)
    else None
  }

  /** How an auth call ended: resolved, or threw with `err.message`. */
  datatype Outcome = Succeeded | Failed(message: Option<string>)

  /** `err.message || fallback`. */
  function FailureMessage(message: Option<string>, fallback: string): (r: string)
    ensures Truthy(message) ==> r == message.value
    ensures !Truthy(message) ==> r == fallback
  {
    if Truthy(message) then message.value else fallback
  }
}
