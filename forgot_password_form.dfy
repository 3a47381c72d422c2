/**
 * The password-reset form: a first step that sends a code to the email, a
 * second step that takes the code and the new password, the 45-second
 * cooldown on resending, and the checks a reset makes before it calls the
 * service.
 */
module ForgotPasswordForm {
  import opened Wrappers
  import opened Strings
  import opened PasswordRules

  /** Seconds before a code may be sent again. */
  const Cooldown: nat := 45

  const SendFallback := "Failed to send reset code"
  const ResendFallback := "Failed to resend reset code"
  const ResetFallback := "Failed to reset password"

  /** A call the form makes to the auth service. */
  datatype Call = ForgotPassword(email: string) | ConfirmForgotPassword(email: string, code: string, newPassword: string)

  function Max(a: int, b: int): int { if a >= b then a else b }

  /** The cooldown after `k` ticks of the one-second interval, which runs
   *  only while the cooldown is positive. */
  function TickN(cooldown: int, k: nat): int
  {
    if k == 0 || cooldown <= 0 then cooldown else TickN(cooldown - 1, k - 1)
  }

  /** The ticks count the cooldown down to zero and stop there. */
  lemma {:induction false} TickNValue(cooldown: nat, k: nat)
    ensures TickN(cooldown, k) == Max(0, cooldown - k)
    decreases k
  {
    if k != 0 && cooldown != 0 {
      TickNValue(cooldown - 1, k - 1);
    }
  }

  /** After a code is sent, resending opens exactly once 45 ticks passed. */
  lemma ResendOpensAfterCooldown(k: nat)
    ensures TickN(Cooldown, k) <= 0 <==> k >= Cooldown
  {
    TickNValue(Cooldown, k);
  }

  /** The resend button's text. */
  function ResendLabel(cooldown: int): (r: string)
    ensures cooldown <= 0 <==> r == "Resend code"
    ensures cooldown > 0 ==> r == "Resend code (" + IntToString(cooldown) + "s)"
  {
    if cooldown > 0 then "Resend code (" + IntToString(cooldown) + "s)" else "Resend code"
  }

  /** The reset button's `disabled`. */
  predicate ResetDisabled(isLoading: bool, newPassword: string, confirmPassword: string)
  {
    isLoading || !IsPasswordValid(ValidatePassword(newPassword)) || newPassword != confirmPassword
  }

  /** An enabled reset button leads to a submit whose checks pass, and every
   *  submit whose checks pass had it enabled unless a call was running. */
  lemma ResetButtonMatchesChecks(isLoading: bool, newPassword: string, confirmPassword: string)
    ensures !ResetDisabled(isLoading, newPassword, confirmPassword) ==> SubmitError(newPassword, confirmPassword).None?
    ensures SubmitError(newPassword, confirmPassword).None? && !isLoading ==> !ResetDisabled(isLoading, newPassword, confirmPassword)
  {
  }

  class ResetForm {
    var email: string
    var code: string
    var newPassword: string
    var confirmPassword: string
    var error: string
    var isLoading: bool
    var isCodeSent: bool
    var isResetSuccessful: bool
    var cooldownTime: int

    /** The cooldown is never below zero. */
    predicate Valid()
      reads this
    {
      cooldownTime >= 0
    }

    constructor()
      ensures Valid()
      ensures email == "" && code == "" && newPassword == "" && confirmPassword == "" && error == ""
      ensures !isLoading && !isCodeSent && !isResetSuccessful && cooldownTime == 0
    {
      email, code, newPassword, confirmPassword, error := "", "", "", "", "";
      isLoading, isCodeSent, isResetSuccessful := false, false, false;
      cooldownTime := 0;
    }

    /** The resend button's `disabled`. */
    predicate ResendDisabled()
      reads this
    {
      cooldownTime > 0 || isLoading
    }

    /** The inputs' `onChange`: the email, the code, the new password and
     *  the confirmation, in that order. */
    method SetInputs(email: string, code: string, newPassword: string, confirmPassword: string)
      modifies this
      ensures this.email == email && this.code == code
      ensures this.newPassword == newPassword && this.confirmPassword == confirmPassword
      ensures error == old(error) && isLoading == old(isLoading) && isCodeSent == old(isCodeSent)
      ensures isResetSuccessful == old(isResetSuccessful) && cooldownTime == old(cooldownTime)
    {
      this.email, this.code, this.newPassword, this.confirmPassword := email, code, newPassword, confirmPassword;
    }

    /** One second of the cooldown interval, which runs only while the
     *  cooldown is positive. */
    method Tick()
      requires Valid()
      modifies this
      ensures Valid()
      ensures cooldownTime == TickN(old(cooldownTime), 1)
      ensures old(cooldownTime) > 0 ==> cooldownTime == old(cooldownTime) - 1
      ensures email == old(email) && code == old(code) && newPassword == old(newPassword)
      ensures confirmPassword == old(confirmPassword) && error == old(error) && isLoading == old(isLoading)
      ensures isCodeSent == old(isCodeSent) && isResetSuccessful == old(isResetSuccessful)
    {
      if cooldownTime > 0 {
        cooldownTime := cooldownTime - 1;
      }
    }

    /** `handleSendCode`, with `outcome` what `forgotPassword` does: on
     *  success the second step opens with the full cooldown, on failure the
     *  message stays and the step does not change. */
    method SendCode(outcome: Outcome) returns (calls: seq<Call>)
      requires Valid()
      modifies this
      ensures Valid()
      ensures calls == [ForgotPassword(old(email))] && !isLoading
      ensures outcome.Succeeded? ==> isCodeSent && cooldownTime == Cooldown && error == ""
      ensures outcome.Failed? ==>
        isCodeSent == old(isCodeSent) && cooldownTime == old(cooldownTime) &&
        error == FailureMessage(outcome.message, SendFallback)
      ensures email == old(email) && code == old(code) && newPassword == old(newPassword)
      ensures confirmPassword == old(confirmPassword) && isResetSuccessful == old(isResetSuccessful)
    {
      error := "";
      isLoading := true;
      calls := [ForgotPassword(email)];
      if outcome.Succeeded? {
        isCodeSent := true;
        cooldownTime := Cooldown;
      } else {
        error := FailureMessage(outcome.message, SendFallback);
      }
      isLoading := false;
    }

    /** `handleResendCode`: ignored while the cooldown runs; otherwise the
     *  code is sent again and success restarts the cooldown. */
    method ResendCode(outcome: Outcome) returns (calls: seq<Call>)
      requires Valid()
      modifies this
      ensures Valid()
      ensures old(cooldownTime) > 0 ==> calls == [] && unchanged(this)
      ensures old(cooldownTime) <= 0 ==>
        calls == [ForgotPassword(old(email))] && !isLoading &&
        (outcome.Succeeded? ==> cooldownTime == Cooldown && error == "") &&
        (outcome.Failed? ==> cooldownTime == old(cooldownTime) && error == FailureMessage(outcome.message, ResendFallback))
      ensures email == old(email) && code == old(code) && newPassword == old(newPassword)
      ensures confirmPassword == old(confirmPassword) && isCodeSent == old(isCodeSent)
      ensures isResetSuccessful == old(isResetSuccessful)
    {
      calls := [];
      if cooldownTime > 0 {
        return;
      }
      error := "";
      isLoading := true;
      calls := [ForgotPassword(email)];
      if outcome.Succeeded? {
        cooldownTime := Cooldown;
      } else {
        error := FailureMessage(outcome.message, ResendFallback);
      }
      isLoading := false;
    }

    /** `handleResetPassword`, with `outcome` what `confirmForgotPassword`
     *  does: a failed check sets its message and calls nothing; otherwise
     *  the email, code and new password are sent, and success ends the
     *  flow. */
    method ResetPassword(outcome: Outcome) returns (calls: seq<Call>)
      requires Valid()
      modifies this
      ensures Valid()
      ensures SubmitError(old(newPassword), old(confirmPassword)).Some? ==>
        calls == [] && error == SubmitError(old(newPassword), old(confirmPassword)).value &&
        isLoading == old(isLoading) && isResetSuccessful == old(isResetSuccessful)
      ensures SubmitError(old(newPassword), old(confirmPassword)).None? ==>
        calls == [ConfirmForgotPassword(old(email), old(code), old(newPassword))] && !isLoading &&
        (outcome.Succeeded? ==> isResetSuccessful && error == "") &&
        (outcome.Failed? ==> isResetSuccessful == old(isResetSuccessful) && error == FailureMessage(outcome.message, ResetFallback))
      ensures email == old(email) && code == old(code) && newPassword == old(newPassword)
      ensures confirmPassword == old(confirmPassword) && isCodeSent == old(isCodeSent) && cooldownTime == old(cooldownTime)
    {
      error := "";
      calls := [];
      var check := SubmitError(newPassword, confirmPassword);
      if check.Some? {
        error := check.value;
        return;
      }
      isLoading := true;
      calls := [ConfirmForgotPassword(email, code, newPassword)];
      if outcome.Succeeded? {
        isResetSuccessful := true;
      } else {
        error := FailureMessage(outcome.message, ResetFallback);
      }
      isLoading := false;
    }

    /** The "Back" button: the first step again, everything else kept. */
    method BackToSend()
      modifies this
      ensures !isCodeSent
      ensures email == old(email) && code == old(code) && newPassword == old(newPassword)
      ensures confirmPassword == old(confirmPassword) && error == old(error) && isLoading == old(isLoading)
      ensures isResetSuccessful == old(isResetSuccessful) && cooldownTime == old(cooldownTime)
    {
      isCodeSent := false;
    }
  }
}
