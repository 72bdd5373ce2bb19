/** The forgot-password form: the normalised email it sends and how it reports the answer. */
module ForgotPassword {
  import opened Wrappers
  import opened JsStrings

  const SENT_MESSAGE := "If an account exists with that email, we've sent a reset link."
  const GENERIC_ERROR := "Something went wrong. Please try again."

  /** The parsed answer: `ok`, `message` and `error`. */
  datatype ForgotBody = ForgotBody(ok: bool, message: Option<string>, error: Option<string>)

  /** The answer: the status and the parsed body, or a thrown request or body. */
  datatype ForgotOutcome = Answered(ok: bool, body: ForgotBody) | Threw

  /** `email.trim().toLowerCase()`. */
  function NormalizedEmail(email: string): (r: string)
    ensures r == Lower(Trim(email))
    ensures r == [] <==> IsBlank(email)
    ensures forall i :: 0 <= i < |r| ==> !IsUpperAscii(r[i])
  {
    Lower(Trim(email))
  }

  /** Normalising twice is normalising once. */
  lemma NormalizedEmailIdempotent(email: string)
    ensures NormalizedEmail(NormalizedEmail(email)) == NormalizedEmail(email)
  {
    var t := Trim(email);
    var r := Lower(t);
    if r != [] {
      assert r[0] == LowerChar(t[0]) && r[|r| - 1] == LowerChar(t[|t| - 1]);
      TrimOfTrimmed(r);
    } else {
      assert IsBlank(r);
    }
  }

  class ForgotPasswordForm {
    var email: string
    var submitting: bool
    var message: string
    var error: string

    constructor()
      ensures email == "" && !submitting && message == "" && error == ""
    {
      email := "";
      submitting := false;
      message := "";
      error := "";
    }

    /**
     * handleSubmit: message and error are cleared, the normalised email is sent; success needs
     * an OK status and `ok` in the body, and then clears the email field.
     */
    method Submit(outcome: ForgotOutcome) returns (sent: string)
      modifies this
      ensures sent == NormalizedEmail(old(email))
      ensures !submitting
      ensures outcome.Answered? && outcome.ok && outcome.body.ok ==>
        message == OrElse(outcome.body.message, SENT_MESSAGE) && error == "" && email == ""
      ensures outcome.Answered? && !(outcome.ok && outcome.body.ok) ==>
        error == OrElse(outcome.body.error, GENERIC_ERROR) && message == "" && email == old(email)
      ensures outcome.Threw? ==> error == GENERIC_ERROR && message == "" && email == old(email)
    {
      error := "";
      message := "";
      submitting := true;
      sent := NormalizedEmail(email);
      match outcome {
        case Threw =>
          error := GENERIC_ERROR;
        case Answered(ok, body) =>
          if ok && body.ok {
            message := OrElse(body.message, SENT_MESSAGE);
            email := "";
          } else {
            error := OrElse(body.error, GENERIC_ERROR);
          }
      }
      submitting := false;
    }
  }
}
