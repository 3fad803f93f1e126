/**
 * The session store and the screen it selects (frontend/src/app.jsx,
 * `AuthProvider`, `App`, and the submit handlers of `LoginPage` and
 * `RegisterPage`).  The session lives in memory only.
 */
module Session {
  import opened Wrappers
  import ApiClient

  /** The user record the backend returns. */
  datatype User = User(id: string, username: string, email: string, isAdmin: bool)

  /** The token pair the backend issues; only `access` is kept. */
  datatype Tokens = Tokens(access: string, refresh: string)

  /** What `api.login` or `api.register` yields: a user and tokens, or an error message. */
  datatype AuthReply = Authenticated(user: User, tokens: Tokens) | Rejected(message: string)

  datatype AuthView = LoginView | RegisterView
  datatype Screen = DashboardScreen | LoginScreen | RegisterScreen

  /** The `user` and `token` state cells of `AuthProvider`. */
  class AuthProvider {
    var user: Option<User>
    var token: Option<string>

    constructor ()
      ensures user == None && token == None
    {
      user := None;
      token := None;
    }

    /** `login(userData, tokenData)`: replaces whatever session there was. */
    method Login(userData: User, tokenData: Tokens)
      modifies this
      ensures token == Some(tokenData.access) && user == Some(userData)
    {
      token := Some(tokenData.access);
      user := Some(userData);
    }

    /** `logout()`: a reset of the client state, with no request to the backend. */
    method Logout()
      modifies this
      ensures token == None && user == None
    {
      token := None;
      user := None;
    }
  }

  /** What `App` renders: the dashboard exactly when a user is signed in. */
  function ScreenFor(user: Option<User>, authView: AuthView): (s: Screen)
    ensures s == DashboardScreen <==> user.Some?
    ensures user.None? ==> (s == LoginScreen <==> authView == LoginView)
    ensures user.None? ==> (s == RegisterScreen <==> authView == RegisterView)
  {
    if user.Some? then DashboardScreen
    else if authView.LoginView? then LoginScreen
    else RegisterScreen
  }

  /**
   * `LoginPage.handleSubmit` (and `RegisterPage.handleSubmit` with its own
   * fallback): on success the session receives the reply's user and access
   * token; on failure the session is left alone and the page shows the error.
   */
  method Submit(session: AuthProvider, reply: AuthReply, fallback: string) returns (error: string)
    modifies session
    ensures reply.Authenticated? ==>
              session.user == Some(reply.user) && session.token == Some(reply.tokens.access) && error == ""
    ensures reply.Rejected? ==>
              session.user == old(session.user) && session.token == old(session.token)
              && error == ApiClient.OrElse(reply.message, fallback)
  {
    error := "";
    match reply
    case Authenticated(user, tokens) =>
      session.Login(user, tokens);
    case Rejected(message) =>
      error := ApiClient.OrElse(message, fallback);
  }

  /**
   * The login scenario: a wrong password gets 401 with "Invalid credentials";
   * the page shows that text and the login screen stays.
   */
  method RejectedLoginScenario() returns (error: string, screen: Screen)
    ensures error == "Invalid credentials" && screen == LoginScreen
  {
    var session := new AuthProvider();
    var message := ApiClient.FailureMessage(Some("Invalid credentials"), ApiClient.LoginFailed);
    error := Submit(session, Rejected(message), ApiClient.LoginFailed);
    screen := ScreenFor(session.user, LoginView);
  }

  /**
   * A refused registration: `api.register` throws the error body as JSON
   * text, which is never empty, so the page shows that text and stays on the
   * register screen; the "Registration failed" fallback is not reached.
   */
  method RejectedRegistrationScenario(errorJson: string) returns (error: string, screen: Screen)
    requires errorJson != ""
    ensures error == errorJson && screen == RegisterScreen
  {
    var session := new AuthProvider();
    error := Submit(session, Rejected(errorJson), ApiClient.RegistrationFailed);
    screen := ScreenFor(session.user, RegisterView);
  }

  /** Signing in shows the dashboard, signing out shows the login screen again. */
  method SignInOutScenario(u: User, t: Tokens) returns (afterLogin: Screen, afterLogout: Screen)
    ensures afterLogin == DashboardScreen && afterLogout == LoginScreen
  {
    var session := new AuthProvider();
    session.Login(u, t);
    afterLogin := ScreenFor(session.user, LoginView);
    session.Logout();
    afterLogout := ScreenFor(session.user, LoginView);
  }
}
