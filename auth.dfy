/**
 * The signed-in user as the auth provider keeps it: `user`, `loading` and the sessionStorage
 * marker, driven by the answers of `/me`, login, register, logout and profile updates. Every
 * network answer is an outcome passed in; sessionStorage is one optional entry.
 */
module Auth {
  import opened Wrappers

  /** The user record the backend returns (the admin page also reads its `is_admin`). */
  datatype User = User(id: int, email: string, displayName: Option<string>, isAdmin: bool)

  /** A parsed JSON answer of the auth endpoints: its `user` and `error` members. */
  datatype Body = Body(user: Option<User>, error: Option<string>)

  /** An HTTP answer; `body` is None when `res.json()` throws. */
  datatype Response = Response(ok: bool, body: Option<Body>)

  /** A request either gets an answer or the fetch itself throws. */
  datatype Outcome = Answered(response: Response) | Threw

  /** What the promise of login, register and updateProfile settles to. */
  datatype Reply =
    | Done                    // resolves to {}
    | Failed(error: string)   // resolves to { error }
    | Rejected                // the promise rejects

  const SESSION_MARKER := "1"
  const GENERIC_ERROR := "Something went wrong. Please try again."

  /** The answer of `/me`: a parsed body (its user, if any), an unparseable body, or a thrown request. */
  datatype MeOutcome = MeAnswered(user: Option<User>) | MeUnparseable | MeThrew

  /**
   * The reply of login and register: a thrown request or an unparseable body gives the generic
   * message, a non-OK answer the server's error or `fallback`, an OK answer success.
   */
  function SignInReply(outcome: Outcome, fallback: string): (r: Reply)
    ensures r.Done? <==> outcome.Answered? && outcome.response.ok && outcome.response.body.Some?
    ensures !r.Rejected?
    ensures (outcome.Threw? || outcome.response.body.None?) ==> r == Failed(GENERIC_ERROR)
    ensures outcome.Answered? && !outcome.response.ok && outcome.response.body.Some? ==>
      r == Failed(OrElse(outcome.response.body.value.error, fallback))
  {
    match outcome
    case Threw => Failed(GENERIC_ERROR)
    case Answered(Response(ok, body)) =>
      if body.None? then Failed(GENERIC_ERROR)
      else if !ok then Failed(OrElse(body.value.error, fallback))
      else Done
  }

  /**
   * The reply of updateProfile, which catches nothing: a thrown request or an unparseable body
   * rejects, a non-OK answer gives the server's error or 'Update failed'.
   */
  function UpdateReply(outcome: Outcome): (r: Reply)
    ensures r.Rejected? <==> outcome.Threw? || outcome.response.body.None?
    ensures r.Done? <==> outcome.Answered? && outcome.response.ok && outcome.response.body.Some?
    ensures r.Failed? ==> r.error == OrElse(outcome.response.body.value.error, "Update failed")
  {
    match outcome
    case Threw => Rejected
    case Answered(Response(ok, body)) =>
      if body.None? then Rejected
      else if !ok then Failed(OrElse(body.value.error, "Update failed"))
      else Done
  }

  /** The request body of register: an empty or missing display name is sent as undefined. */
  datatype RegisterPayload = RegisterPayload(email: string, password: string, displayName: Option<string>)

  function RegisterRequest(email: string, password: string, displayName: Option<string>): (r: RegisterPayload)
    ensures r.email == email && r.password == password
    ensures r.displayName.Some? <==> Truthy(displayName)
    ensures r.displayName.Some? ==> r.displayName == displayName
  {
    RegisterPayload(email, password, if Truthy(displayName) then displayName else None)
  }

  class AuthProvider {
    /** Whether there is a window (false while rendering on the server). */
    const hasWindow: bool
    var user: Option<User>
    var loading: bool
    /** The sessionStorage entry under the session key. */
    var sessionEntry: Option<string>

    constructor(hasWindow: bool, sessionEntry: Option<string>)
      ensures this.hasWindow == hasWindow && this.sessionEntry == sessionEntry
      ensures user == None && loading
    {
      this.hasWindow := hasWindow;
      this.sessionEntry := sessionEntry;
      user := None;
      loading := true;
    }

    /** hasSessionStorageSession: a window and a non-empty entry. */
    predicate HasSession()
      reads this
    {
      hasWindow && Truthy(sessionEntry)
    }

    method SetSessionMarker()
      modifies this
      ensures sessionEntry == (if hasWindow then Some(SESSION_MARKER) else old(sessionEntry))
      ensures HasSession() <==> hasWindow
      ensures user == old(user) && loading == old(loading)
    {
      if hasWindow {
        sessionEntry := Some(SESSION_MARKER);
      }
    }

    method ClearSessionMarker()
      modifies this
      ensures sessionEntry == (if hasWindow then None else old(sessionEntry))
      ensures !HasSession()
      ensures user == old(user) && loading == old(loading)
    {
      if hasWindow {
        sessionEntry := None;
      }
    }

    /**
     * refetch: `/me` decides the user; a returned user sets the marker, no user clears it and
     * posts a logout, an unparseable body or a thrown request clears both without a logout.
     */
    method Refetch(outcome: MeOutcome) returns (loggedOut: bool)
      modifies this
      ensures !loading
      ensures user == (if outcome.MeAnswered? then outcome.user else None)
      ensures HasSession() <==> hasWindow && user.Some?
      ensures loggedOut <==> outcome == MeAnswered(None)
    {
      loggedOut := false;
      match outcome {
        case MeUnparseable =>
          user := None;
          ClearSessionMarker();
        case MeThrew =>
          user := None;
          ClearSessionMarker();
        case MeAnswered(next) =>
          user := next;
          if next.Some? {
            SetSessionMarker();
          } else {
            ClearSessionMarker();
            loggedOut := true;
          }
      }
      loading := false;
    }

    /** login and register: on success the answer's user is taken and the marker set; otherwise nothing changes. */
    method SignIn(outcome: Outcome, fallback: string) returns (r: Reply)
      modifies this
      ensures r == SignInReply(outcome, fallback)
      ensures r.Done? ==> user == outcome.response.body.value.user && HasSession() == hasWindow
      ensures !r.Done? ==> user == old(user) && sessionEntry == old(sessionEntry)
      ensures loading == old(loading)
    {
      r := SignInReply(outcome, fallback);
      if r.Done? {
        user := outcome.response.body.value.user;
        SetSessionMarker();
      }
    }

    method Login(outcome: Outcome) returns (r: Reply)
      modifies this
      ensures r == SignInReply(outcome, "Login failed")
      ensures r.Done? ==> user == outcome.response.body.value.user && HasSession() == hasWindow
      ensures !r.Done? ==> user == old(user) && sessionEntry == old(sessionEntry)
      ensures loading == old(loading)
    {
      r := SignIn(outcome, "Login failed");
    }

    method Register(outcome: Outcome) returns (r: Reply)
      modifies this
      ensures r == SignInReply(outcome, "Registration failed")
      ensures r.Done? ==> user == outcome.response.body.value.user && HasSession() == hasWindow
      ensures !r.Done? ==> user == old(user) && sessionEntry == old(sessionEntry)
      ensures loading == old(loading)
    {
      r := SignIn(outcome, "Registration failed");
    }

    /**
     * logout: the marker goes before the request; the user becomes null only once the logout
     * request resolves (`posted`), a rejected request leaves it.
     */
    method Logout(posted: bool)
      modifies this
      ensures !HasSession()
      ensures user == (if posted then None else old(user))
      ensures loading == old(loading)
    {
      ClearSessionMarker();
      if posted {
        user := None;
      }
    }

    /** updateProfile: only an OK answer carrying a user replaces the user; the marker is never touched. */
    method UpdateProfile(outcome: Outcome) returns (r: Reply)
      modifies this
      ensures r == UpdateReply(outcome)
      ensures user == (if r.Done? && outcome.response.body.value.user.Some? then outcome.response.body.value.user else old(user))
      ensures sessionEntry == old(sessionEntry) && loading == old(loading)
    {
      r := UpdateReply(outcome);
      if r.Done? && outcome.response.body.value.user.Some? {
        user := outcome.response.body.value.user;
      }
    }
  }

  /** Login and register differ only in the fallback message of a non-OK answer. */
  lemma LoginRegisterAgree(outcome: Outcome)
    requires !(outcome.Answered? && !outcome.response.ok && outcome.response.body.Some?)
    ensures SignInReply(outcome, "Login failed") == SignInReply(outcome, "Registration failed")
  {
  }

  /** A failed login never reports an empty message. */
  lemma SignInErrorNonEmpty(outcome: Outcome, fallback: string)
    requires fallback != ""
    ensures SignInReply(outcome, fallback).Failed? ==> SignInReply(outcome, fallback).error != ""
  {
  }
}
