/**
 * The session guard of the note page: the access token kept in two browser
 * storage scopes (durable `localStorage`, tab-scoped `sessionStorage`), the
 * choice between the login screen and the workspace, the login/register form,
 * the change-password form and the wrapper through which authenticated
 * requests go. The network is an oracle: each operation that issues a request
 * is handed the reply it will get.
 */
module Session {
  import opened Wrappers
  import opened Text

  /** Which top-level screen is showing: the login screen or the application container. */
  datatype View = LoginScreen | Workspace

  /** What `fetch` settles with: a response carrying a status code, or a rejection carrying an error message. */
  datatype Reply = Status(code: int) | NetworkFailure(message: string)

  /** What `apiFetch` hands its caller: the response status, or an exception with its message. */
  datatype Outcome = Returned(status: int) | Raised(message: string)

  /**
   * What the login or register endpoint answers: success (with the access
   * token, used by login only), an error response whose `detail` may be
   * missing (written ""), or a rejected `fetch`.
   */
  datatype AuthReply = Accepted(accessToken: string) | Refused(detail: string) | Unreachable(message: string)

  /** The request a form submission issues, if any. */
  datatype Request = NoRequest | RegisterRequest(email: string, password: string) | LoginRequest(username: string, password: string)

  /** Everything the guard reads or writes, as one value. */
  datatype GuardState = GuardState(
    localToken: Option<string>,    // localStorage "access_token"
    sessionToken: Option<string>,  // sessionStorage "access_token"
    view: View,
    registerMode: bool,            // isRegisterMode
    toast: string,                 // the last toast shown
    loginError: Option<string>,    // the login form's error line, None while hidden
    userInput: string,             // the note editor
    outputBlank: bool)             // the output pane shows its "Ready for refinement" placeholder

  const SessionExpired := "Session expired. Please login again."
  const PleaseLogin := "Please login to continue"
  const LoggedOut := "Logged out successfully"
  const Unauthorized := "Unauthorized"
  const MissingCredentials := "Please enter email and password"
  const MissingConfirmation := "Please confirm your password"
  const Mismatch := "Passwords do not match"
  const AccountCreated := "Account created. Please login."
  const RegistrationFailed := "Registration failed"
  const InvalidCredentials := "Invalid credentials"
  const FillPasswordFields := "Please fill all password fields"
  const NewPasswordsDiffer := "New passwords do not match"
  const PasswordUpdated := "Password updated successfully"
  const IncorrectPassword := "Incorrect current password"

  /** The headers every JSON request of the page sets itself. */
  const JsonHeaders: map<string, string> := map["Content-Type" := "application/json"]

  /** `response.ok`. */
  predicate IsOk(code: int) {
    200 <= code <= 299
  }

  /** No token in either scope and the login screen showing. */
  predicate SignedOut(st: GuardState) {
    st.localToken.None? && st.sessionToken.None? && st.view == LoginScreen
  }

  /**
   * The token `apiFetch` and `validateSession` read: `localStorage` first, then
   * `sessionStorage`; an empty string counts as no token, as it does for `||`.
   */
  function StoredToken(local: Option<string>, session: Option<string>): (t: Option<string>)
    ensures t.Some? ==> t.value != "" && (t == local || t == session)
    ensures local.Some? && local.value != "" ==> t == local
    ensures t.None? <==> (local.None? || local.value == "") && (session.None? || session.value == "")
  {
    if local.Some? && local.value != "" then local
    else if session.Some? && session.value != "" then session
    else None
  }

  /**
   * The headers `apiFetch` sends: the caller's own, plus a bearer credential
   * when there is a token (overriding any Authorization the caller gave).
   */
  function WithBearer(headers: map<string, string>, token: Option<string>): (sent: map<string, string>)
    ensures token.None? ==> sent == headers
    ensures token.Some? ==> sent.Keys == headers.Keys + {"Authorization"} && sent["Authorization"] == "Bearer " + token.value
    ensures forall k :: k in headers && k != "Authorization" ==> k in sent && sent[k] == headers[k]
  {
    if token.Some? then headers["Authorization" := "Bearer " + token.value] else headers
  }

  /**
   * The state `forceLogout(message)` leaves behind, whatever the state before:
   * both scopes emptied, the login screen shown, the editor and output cleared
   * and `message` toasted; the form mode and its error line are untouched.
   */
  function AfterForceLogout(st: GuardState, message: string): (r: GuardState)
    ensures SignedOut(r) && r.toast == message
    ensures r.userInput == "" && r.outputBlank
    ensures r.registerMode == st.registerMode && r.loginError == st.loginError
  {
    st.(localToken := None, sessionToken := None, view := LoginScreen, userInput := "", outputBlank := true, toast := message)
  }

  /**
   * Why the login/register form refuses to send, given its trimmed fields:
   * None when it will send.
   */
  function SubmitError(email: string, password: string, confirm: string, registerMode: bool): (e: Option<string>)
    ensures e.None? <==> email != "" && password != "" && (registerMode ==> confirm != "" && confirm == password)
    ensures e == Some(MissingCredentials) <==> email == "" || password == ""
    ensures e == Some(MissingConfirmation) <==> email != "" && password != "" && registerMode && confirm == ""
    ensures e == Some(Mismatch) <==> email != "" && password != "" && registerMode && confirm != "" && confirm != password
  {
    if email == "" || password == "" then Some(MissingCredentials)
    else if registerMode && confirm == "" then Some(MissingConfirmation)
    else if registerMode && password != confirm then Some(Mismatch)
    else None
  }

  /** The error line for a failed login or registration: the server's detail, else `fallback`; or the rejection's message. */
  function FailureText(reply: AuthReply, fallback: string): (r: string)
    ensures reply.Refused? ==> r == reply.detail || (reply.detail == "" && r == fallback)
    ensures reply.Refused? && fallback != "" ==> r != ""
    ensures reply.Unreachable? ==> r == reply.message
  {
    match reply
    case Refused(detail) => if detail != "" then detail else fallback
    case Unreachable(message) => message
    case Accepted(_) => fallback
  }

  /** The state after the register request is answered: nothing is stored; success returns the form to login mode. */
  function AfterRegister(st: GuardState, reply: AuthReply): (r: GuardState)
    ensures r.localToken == st.localToken && r.sessionToken == st.sessionToken && r.view == st.view
    ensures reply.Accepted? ==> !r.registerMode && r.toast == AccountCreated && r.loginError == st.loginError
    ensures !reply.Accepted? ==> r.registerMode == st.registerMode && r.toast == st.toast
    ensures reply.Refused? ==> r.loginError == Some(if reply.detail == "" then RegistrationFailed else reply.detail)
    ensures reply.Unreachable? ==> r.loginError == Some(reply.message)
  {
    if reply.Accepted? then st.(toast := AccountCreated, registerMode := false)
    else st.(loginError := Some(FailureText(reply, RegistrationFailed)))
  }

  /**
   * The state after the login request is answered: on success the token goes
   * to `localStorage` exactly when "remember me" is ticked, otherwise to
   * `sessionStorage`, the other scope is left as it was, and the workspace is
   * shown; on failure nothing is stored and the error line says why.
   */
  function AfterLogin(st: GuardState, rememberMe: bool, reply: AuthReply): (r: GuardState)
    ensures reply.Accepted? ==> r.view == Workspace
    ensures reply.Accepted? && rememberMe ==> r.localToken == Some(reply.accessToken) && r.sessionToken == st.sessionToken
    ensures reply.Accepted? && !rememberMe ==> r.sessionToken == Some(reply.accessToken) && r.localToken == st.localToken
    ensures reply.Refused? ==> r == st.(loginError := Some(if reply.detail == "" then InvalidCredentials else reply.detail))
    ensures reply.Unreachable? ==> r == st.(loginError := Some(reply.message))
    ensures r.registerMode == st.registerMode && r.userInput == st.userInput && r.toast == st.toast
  {
    match reply
    case Accepted(token) =>
      if rememberMe then st.(localToken := Some(token), view := Workspace)
      else st.(sessionToken := Some(token), view := Workspace)
    case _ => st.(loginError := Some(FailureText(reply, InvalidCredentials)))
  }

  /** Why the change-password form refuses to send, given its trimmed fields: None when it will send. */
  function PasswordChangeError(current: string, newPassword: string, confirm: string): (e: Option<string>)
    ensures e.None? <==> current != "" && newPassword != "" && confirm != "" && newPassword == confirm
    ensures e == Some(FillPasswordFields) <==> current == "" || newPassword == "" || confirm == ""
    ensures e == Some(NewPasswordsDiffer) <==> current != "" && newPassword != "" && confirm != "" && newPassword != confirm
  {
    if current == "" || newPassword == "" || confirm == "" then Some(FillPasswordFields)
    else if newPassword != confirm then Some(NewPasswordsDiffer)
    else None
  }

  /** The toast the change-password handler ends with once `apiFetch` has answered. */
  function PasswordChangeToast(outcome: Outcome): (t: string)
    ensures outcome.Returned? ==> (t == PasswordUpdated <==> IsOk(outcome.status))
    ensures outcome.Returned? && !IsOk(outcome.status) ==> t == IncorrectPassword
    ensures outcome.Raised? ==> t == outcome.message
  {
    match outcome
    case Returned(code) => if IsOk(code) then PasswordUpdated else IncorrectPassword
    case Raised(message) => message
  }

  /**
   * The state once the change-password request is answered: a 401 signs the
   * user out (the handler then toasts the "Unauthorized" it caught over
   * `forceLogout`'s own message); any other answer only changes the toast.
   */
  function AfterPasswordAnswer(st: GuardState, reply: Reply): (r: GuardState)
    ensures reply == Status(401) ==>
      SignedOut(r) && r.toast == Unauthorized && r.userInput == "" && r.registerMode == st.registerMode
    ensures reply != Status(401) ==>
      r == st.(toast := PasswordChangeToast(if reply.Status? then Returned(reply.code) else Raised(reply.message)))
    ensures reply.Status? && IsOk(reply.code) ==> r.toast == PasswordUpdated
  {
    if reply == Status(401) then AfterForceLogout(st, SessionExpired).(toast := Unauthorized)
    else st.(toast := PasswordChangeToast(if reply.Status? then Returned(reply.code) else Raised(reply.message)))
  }

  class Guard {
    var localToken: Option<string>
    var sessionToken: Option<string>
    var view: View
    var registerMode: bool
    var toast: string
    var loginError: Option<string>
    var userInput: string
    var outputBlank: bool

    /** The guard's fields as one value. */
    function State(): GuardState
      reads this
    {
      GuardState(localToken, sessionToken, view, registerMode, toast, loginError, userInput, outputBlank)
    }

    /** A freshly loaded page: whatever the two storage scopes held from earlier visits, the login form in login mode. */
    constructor (local: Option<string>, session: Option<string>, initialView: View)
      ensures State() == GuardState(local, session, initialView, false, "", None, "", true)
    {
      localToken, sessionToken, view := local, session, initialView;
      registerMode, toast, loginError := false, "", None;
      userInput, outputBlank := "", true;
    }

    /** `forceLogout(message)`: remove the token from both scopes and return to the login screen. */
    method ForceLogout(message: string)
      modifies this
      ensures State() == AfterForceLogout(old(State()), message)
    {
      localToken := None;
      sessionToken := None;
      view := LoginScreen;
      userInput := "";
      outputBlank := true;
      toast := message;
    }

    /**
     * `apiFetch`: send a request with the caller's `headers` plus the bearer
     * token, and let `reply` be what the network answers. A 401 forces a
     * logout and raises instead of returning; every other status is returned
     * unchanged and touches nothing; a network failure propagates.
     */
    method ApiFetch(headers: map<string, string>, reply: Reply) returns (sent: map<string, string>, outcome: Outcome)
      modifies this
      ensures sent == WithBearer(headers, StoredToken(old(localToken), old(sessionToken)))
      ensures reply == Status(401) ==> outcome == Raised(Unauthorized) && State() == AfterForceLogout(old(State()), SessionExpired)
      ensures reply.Status? && reply.code != 401 ==> outcome == Returned(reply.code) && State() == old(State())
      ensures reply.NetworkFailure? ==> outcome == Raised(reply.message) && State() == old(State())
    {
      var token := StoredToken(localToken, sessionToken);
      sent := WithBearer(headers, token);
      match reply
      case NetworkFailure(message) =>
        outcome := Raised(message);
      case Status(code) =>
        if code == 401 {
          ForceLogout(SessionExpired);
          outcome := Raised(Unauthorized);
          return;
        }
        outcome := Returned(code);
    }

    /**
     * `validateSession`, run on page load. With no token it logs out with a
     * prompt and sends nothing; otherwise it probes `/generate` and only an OK
     * answer reveals the workspace: a non-OK status, a 401 or a network
     * failure all end in a logout.
     */
    method ValidateSession(probe: Reply) returns (sent: Option<map<string, string>>)
      modifies this
      ensures StoredToken(old(localToken), old(sessionToken)).None? ==>
        sent == None && State() == AfterForceLogout(old(State()), PleaseLogin)
      ensures StoredToken(old(localToken), old(sessionToken)).Some? ==>
        sent == Some(WithBearer(JsonHeaders, StoredToken(old(localToken), old(sessionToken))))
      ensures StoredToken(old(localToken), old(sessionToken)).Some? && probe.Status? && IsOk(probe.code) ==>
        State() == old(State()).(view := Workspace)
      ensures StoredToken(old(localToken), old(sessionToken)).Some? && !(probe.Status? && IsOk(probe.code)) ==>
        State() == AfterForceLogout(old(State()), SessionExpired)
    {
      var token := StoredToken(localToken, sessionToken);
      if token.None? {
        ForceLogout(PleaseLogin);
        return None;
      }
      var headers, outcome := ApiFetch(JsonHeaders, probe);
      sent := Some(headers);
      if outcome.Raised? || !IsOk(outcome.status) {
        ForceLogout(SessionExpired);
      } else {
        view := Workspace;
      }
    }

    /** The link under the form: switch between login and register mode and hide the error line. */
    method ToggleAuthMode()
      modifies this
      ensures State() == old(State()).(registerMode := !old(registerMode), loginError := None)
    {
      registerMode := !registerMode;
      loginError := None;
    }

    /** The logout button: exactly `forceLogout("Logged out successfully")`. */
    method Logout()
      modifies this
      ensures State() == AfterForceLogout(old(State()), LoggedOut)
    {
      ForceLogout(LoggedOut);
    }

    /**
     * The login/register button. The fields are trimmed and checked first; a
     * refused form shows its error and sends nothing. Otherwise register mode
     * sends a registration and login mode a login, and `reply` is the answer.
     */
    method Submit(emailField: string, passwordField: string, confirmField: string, rememberMe: bool, reply: AuthReply)
      returns (sent: Request)
      modifies this
      ensures SubmitError(Trim(emailField), Trim(passwordField), Trim(confirmField), old(registerMode)).Some? ==>
        sent == NoRequest
        && State() == old(State()).(loginError := SubmitError(Trim(emailField), Trim(passwordField), Trim(confirmField), old(registerMode)))
      ensures SubmitError(Trim(emailField), Trim(passwordField), Trim(confirmField), old(registerMode)).None? && old(registerMode) ==>
        sent == RegisterRequest(Trim(emailField), Trim(passwordField)) && State() == AfterRegister(old(State()), reply)
      ensures SubmitError(Trim(emailField), Trim(passwordField), Trim(confirmField), old(registerMode)).None? && !old(registerMode) ==>
        sent == LoginRequest(Trim(emailField), Trim(passwordField)) && State() == AfterLogin(old(State()), rememberMe, reply)
    {
      sent := SubmitTrimmed(Trim(emailField), Trim(passwordField), Trim(confirmField), rememberMe, reply);
    }

    /**
     * The login/register handler on the already trimmed fields (trimming has
     * no effect beyond its result, so the confirmation is trimmed up front
     * rather than only in register mode).
     */
    method SubmitTrimmed(email: string, password: string, confirm: string, rememberMe: bool, reply: AuthReply)
      returns (sent: Request)
      modifies this
      ensures SubmitError(email, password, confirm, old(registerMode)).Some? ==>
        sent == NoRequest && State() == old(State()).(loginError := SubmitError(email, password, confirm, old(registerMode)))
      ensures SubmitError(email, password, confirm, old(registerMode)).None? && old(registerMode) ==>
        sent == RegisterRequest(email, password) && State() == AfterRegister(old(State()), reply)
      ensures SubmitError(email, password, confirm, old(registerMode)).None? && !old(registerMode) ==>
        sent == LoginRequest(email, password) && State() == AfterLogin(old(State()), rememberMe, reply)
    {
      var err := SubmitError(email, password, confirm, registerMode);
      if err.Some? {
        loginError := err;
        return NoRequest;
      }
      if registerMode {
        sent := RegisterRequest(email, password);
        AnswerRegister(reply);
      } else {
        sent := LoginRequest(email, password);
        AnswerLogin(rememberMe, reply);
      }
    }

    /** The register branch once the request is answered. */
    method AnswerRegister(reply: AuthReply)
      modifies this
      ensures State() == AfterRegister(old(State()), reply)
    {
      if reply.Accepted? {
        toast := AccountCreated;
        registerMode := false;
      } else {
        loginError := Some(FailureText(reply, RegistrationFailed));
      }
    }

    /** The login branch once the request is answered. */
    method AnswerLogin(rememberMe: bool, reply: AuthReply)
      modifies this
      ensures State() == AfterLogin(old(State()), rememberMe, reply)
    {
      match reply
      case Accepted(token) =>
        if rememberMe {
          localToken := Some(token);
        } else {
          sessionToken := Some(token);
        }
        view := Workspace;
      case _ =>
        loginError := Some(FailureText(reply, InvalidCredentials));
    }

    /**
     * The change-password button: the trimmed fields are checked first;
     * otherwise the request goes through `apiFetch` (with no headers of its
     * own) and the outcome is toasted. Only an OK answer clears the three
     * fields, reported as `cleared`.
     */
    method ChangePassword(currentField: string, newField: string, confirmField: string, reply: Reply)
      returns (sent: Option<map<string, string>>, cleared: bool)
      modifies this
      ensures PasswordChangeError(Trim(currentField), Trim(newField), Trim(confirmField)).Some? ==>
        sent == None && !cleared
        && State() == old(State()).(toast := PasswordChangeError(Trim(currentField), Trim(newField), Trim(confirmField)).value)
      ensures PasswordChangeError(Trim(currentField), Trim(newField), Trim(confirmField)).None? ==>
        sent == Some(WithBearer(map[], StoredToken(old(localToken), old(sessionToken))))
        && cleared == (reply.Status? && IsOk(reply.code))
      ensures PasswordChangeError(Trim(currentField), Trim(newField), Trim(confirmField)).None? ==>
        State() == AfterPasswordAnswer(old(State()), reply)
    {
      sent, cleared := SubmitPasswordChange(Trim(currentField), Trim(newField), Trim(confirmField), reply);
    }

    /** The change-password handler on the already trimmed fields. */
    method SubmitPasswordChange(current: string, newPassword: string, confirm: string, reply: Reply)
      returns (sent: Option<map<string, string>>, cleared: bool)
      modifies this
      ensures PasswordChangeError(current, newPassword, confirm).Some? ==>
        sent == None && !cleared && State() == old(State()).(toast := PasswordChangeError(current, newPassword, confirm).value)
      ensures PasswordChangeError(current, newPassword, confirm).None? ==>
        sent == Some(WithBearer(map[], StoredToken(old(localToken), old(sessionToken))))
        && cleared == (reply.Status? && IsOk(reply.code))
        && State() == AfterPasswordAnswer(old(State()), reply)
    {
      var err := PasswordChangeError(current, newPassword, confirm);
      if err.Some? {
        toast := err.value;
        return None, false;
      }
      var headers;
      headers, cleared := SendPasswordChange(reply);
      sent := Some(headers);
    }

    /** The change-password request once the form is accepted: sent through `apiFetch`, its outcome toasted. */
    method SendPasswordChange(reply: Reply) returns (sent: map<string, string>, cleared: bool)
      modifies this
      ensures sent == WithBearer(map[], StoredToken(old(localToken), old(sessionToken)))
      ensures cleared == (reply.Status? && IsOk(reply.code))
      ensures State() == AfterPasswordAnswer(old(State()), reply)
    {
      var outcome;
      sent, outcome := ApiFetch(map[], reply);
      toast := PasswordChangeToast(outcome);
      cleared := outcome.Returned? && IsOk(outcome.status);
    }
  }

  /** Logging out and then reloading the page always lands on the login screen, without any request. */
  method LogoutThenReload(g: Guard, probe: Reply) returns (sent: Option<map<string, string>>)
    modifies g
    ensures sent == None && SignedOut(g.State()) && g.toast == PleaseLogin
  {
    g.Logout();
    sent := g.ValidateSession(probe);
  }
}
