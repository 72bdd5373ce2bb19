/** The reset-password form: the token from the link, the checks before sending, and the outcome. */
module ResetPassword {
  import opened Wrappers
  import opened JsStrings

  const MISSING_LINK := "Missing reset link. Use the link from your email or request a new one."
  const MISMATCH := "Passwords do not match."
  const TOO_SHORT := "Password must be at least 8 characters."
  const RESET_FAILED := "Reset failed. The link may have expired. Request a new one."
  const GENERIC_ERROR := "Something went wrong. Please try again."
  const MIN_PASSWORD_LENGTH := 8

  /** The parsed answer: its `ok` flag and `error`. */
  datatype ResetBody = ResetBody(ok: bool, error: Option<string>)

  /** The answer: the status and the parsed body, or a thrown request or body. */
  datatype ResetOutcome = Answered(ok: bool, body: ResetBody) | Threw

  /** The first check that fails, in the order the form checks them, if any. */
  function Validate(newPassword: string, confirmPassword: string): (r: Option<string>)
    ensures newPassword != confirmPassword ==> r == Some(MISMATCH)
    ensures newPassword == confirmPassword && Utf16Length(newPassword) < MIN_PASSWORD_LENGTH ==> r == Some(TOO_SHORT)
    ensures r.None? <==> newPassword == confirmPassword && Utf16Length(newPassword) >= MIN_PASSWORD_LENGTH
  {
    if newPassword != confirmPassword then Some(MISMATCH)
    else if Utf16Length(newPassword) < MIN_PASSWORD_LENGTH then Some(TOO_SHORT)
    else None
  }

  /** A mismatch is reported even when the passwords are also too short. */
  lemma MismatchReportedFirst(newPassword: string, confirmPassword: string)
    requires newPassword != confirmPassword && Utf16Length(newPassword) < MIN_PASSWORD_LENGTH
    ensures Validate(newPassword, confirmPassword) == Some(MISMATCH)
  {
  }

  /** Four characters outside the Basic Multilingual Plane are eight UTF-16 units: long enough. */
  lemma FourAstralCharactersAccepted()
    ensures Validate("\U{1F600}\U{1F600}\U{1F600}\U{1F600}", "\U{1F600}\U{1F600}\U{1F600}\U{1F600}").None?
  {
    var e := "\U{1F600}";
    Utf16LengthAppend(e + e, e + e);
    assert "\U{1F600}\U{1F600}\U{1F600}\U{1F600}" == (e + e) + (e + e);
    Utf16LengthAppend(e, e);
  }

  /** The request carries the token and the new password. */
  datatype ResetRequest = ResetRequest(token: string, newPassword: string)

  class ResetPasswordForm {
    /** `searchParams.get('token') || ''`. */
    const token: string
    var newPassword: string
    var confirmPassword: string
    var submitting: bool
    var error: string
    var success: bool

    constructor(tokenParam: Option<string>)
      ensures token == OrElse(tokenParam, "")
      ensures newPassword == "" && confirmPassword == "" && !submitting && error == "" && !success
    {
      token := OrElse(tokenParam, "");
      newPassword := "";
      confirmPassword := "";
      submitting := false;
      error := "";
      success := false;
    }

    /** The effect on the token: a missing token sets the missing-link error. */
    method TokenChecked()
      modifies this
      ensures token == "" ==> error == MISSING_LINK
      ensures token != "" ==> error == old(error)
      ensures submitting == old(submitting) && success == old(success)
    {
      if token == "" {
        error := MISSING_LINK;
      }
    }

    /** The form is rendered only with a token and before success. */
    predicate ShowsForm()
      reads this
    {
      !success && token != ""
    }

    /**
     * handleSubmit: the checks run before anything is sent; success needs an OK status and `ok`
     * in the body and schedules the redirect to '/sign-in'.
     */
    method Submit(outcome: ResetOutcome) returns (sent: Option<ResetRequest>, redirectTo: Option<string>)
      modifies this
      ensures Validate(old(newPassword), old(confirmPassword)).Some? ==>
        sent.None? && redirectTo.None? && error == Validate(old(newPassword), old(confirmPassword)).value
        && submitting == old(submitting) && success == old(success)
      ensures Validate(old(newPassword), old(confirmPassword)).None? ==>
        sent == Some(ResetRequest(token, newPassword)) && !submitting
      ensures Validate(old(newPassword), old(confirmPassword)).None? && outcome.Answered? && outcome.ok && outcome.body.ok ==>
        success && redirectTo == Some("/sign-in") && error == ""
      ensures Validate(old(newPassword), old(confirmPassword)).None? && outcome.Answered? && !(outcome.ok && outcome.body.ok) ==>
        redirectTo.None? && error == OrElse(outcome.body.error, RESET_FAILED) && success == old(success)
      ensures Validate(old(newPassword), old(confirmPassword)).None? && outcome.Threw? ==>
        redirectTo.None? && error == GENERIC_ERROR && success == old(success)
      ensures newPassword == old(newPassword) && confirmPassword == old(confirmPassword)
    {
      sent := None;
      redirectTo := None;
      error := "";
      var problem := Validate(newPassword, confirmPassword);
      if problem.Some? {
        error := problem.value;
        return;
      }
      submitting := true;
      sent := Some(ResetRequest(token, newPassword));
      match outcome {
        case Threw =>
          error := GENERIC_ERROR;
        case Answered(ok, body) =>
          if ok && body.ok {
            success := true;
            redirectTo := Some("/sign-in");
          } else {
            error := OrElse(body.error, RESET_FAILED);
          }
      }
      submitting := false;
    }
  }
}
