/** The register page: the length check, the call into the auth provider, and the redirect. */
module RegisterPage {
  import opened Wrappers
  import opened JsStrings
  import Auth

  const TOO_SHORT := "Password must be at least 8 characters"
  const MIN_PASSWORD_LENGTH := 8

  /** With a user and no error the page sends the visitor to '/' and renders nothing. */
  function RegisterRedirect(user: Option<Auth.User>, error: string): (r: Option<string>)
    ensures r.Some? <==> user.Some? && error == ""
    ensures r.Some? ==> r.value == "/"
  {
    if user.Some? && error == "" then Some("/") else None
  }

  class RegisterForm {
    var email: string
    var password: string
    var displayName: string
    var error: string
    var submitting: bool

    constructor()
      ensures email == "" && password == "" && displayName == "" && error == "" && !submitting
    {
      email := "";
      password := "";
      displayName := "";
      error := "";
      submitting := false;
    }

    /**
     * handleSubmit: a short password stops it before register is called; otherwise register runs
     * with an empty display name passed as undefined, and its error is shown as it is.
     */
    method Submit(auth: Auth.AuthProvider, outcome: Auth.Outcome) returns (called: Option<Auth.RegisterPayload>)
      modifies this, auth
      ensures Utf16Length(old(password)) < MIN_PASSWORD_LENGTH ==>
        called.None? && error == TOO_SHORT && submitting == old(submitting)
        && auth.user == old(auth.user) && auth.sessionEntry == old(auth.sessionEntry)
      ensures Utf16Length(old(password)) >= MIN_PASSWORD_LENGTH ==>
        called == Some(Auth.RegisterRequest(email, password, if displayName == "" then None else Some(displayName)))
        && !submitting
        && var reply := Auth.SignInReply(outcome, "Registration failed");
          (reply.Failed? && reply.error != "" ==> error == reply.error)
          && (!(reply.Failed? && reply.error != "") ==> error == "")
          && (reply.Done? ==> auth.user == outcome.response.body.value.user)
          && (!reply.Done? ==> auth.user == old(auth.user))
          && (reply.Done? ==> auth.HasSession() == auth.hasWindow)
          && (!reply.Done? ==> auth.sessionEntry == old(auth.sessionEntry))
      ensures email == old(email) && password == old(password) && displayName == old(displayName)
      ensures auth.loading == old(auth.loading)
    {
      error := "";
      if Utf16Length(password) < MIN_PASSWORD_LENGTH {
        error := TOO_SHORT;
        return None;
      }
      submitting := true;
      called := Some(Auth.RegisterRequest(email, password, if displayName == "" then None else Some(displayName)));
      var reply := auth.Register(outcome);
      if reply.Failed? && reply.error != "" {
        error := reply.error;
      }
      submitting := false;
    }
  }
}
