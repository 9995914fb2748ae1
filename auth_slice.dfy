/**
 * The client's authentication state (`auth` slice): the signed-in user and
 * token, the authenticated, loading and login-or-register flags, and the
 * last error.
 *
 * The values read from browser storage at start-up are parameters of the
 * constructor; the writes to storage are not modelled.
 */
module AuthSlice {
  import opened Wrappers

  datatype User = User(username: string)

  /** The API's answer to a login or register request. */
  datatype ApiResult = Succeeded(user: User, token: string) | Failed(message: Option<string>)

  /** How a login or register request settles. */
  datatype Settled = Fulfilled(user: User, token: string) | Rejected(message: string)

  /**
   * `login` and `register`: the API's user and token, or its error message;
   * `fallback` ("Login failed" or "Registration failed") when the message is
   * absent or empty.
   */
  function Authenticate(result: ApiResult, fallback: string): (r: Settled)
    ensures result.Succeeded? <==> r.Fulfilled?
    ensures r.Fulfilled? ==> r.user == result.user && r.token == result.token
    ensures result.Failed? && (result.message.None? || result.message == Some("")) ==> r == Rejected(fallback)
    ensures result.Failed? && result.message.Some? && result.message.value != "" ==> r == Rejected(result.message.value)
  {
    match result
    case Succeeded(user, token) => Fulfilled(user, token)
    case Failed(message) => Rejected(if message.Some? && message.value != "" then message.value else fallback)
  }

  /** The fallback messages of the `login` and `register` thunks, passed to `Authenticate`. */
  const LoginFallback := "Login failed"
  const RegisterFallback := "Registration failed"

  /** `!!token && !!user`: both stored values present, the token non-empty. */
  predicate StoredSession(token: Option<string>, user: Option<User>) {
    token.Some? && token.value != "" && user.Some?
  }

  class State {
    var user: Option<User>
    var token: Option<string>
    var isAuthenticated: bool
    var isLoading: bool
    var error: Option<string>
    var isLoginMode: bool

    /** The initial state from the stored token and user: authenticated exactly when both are there. */
    constructor(storedToken: Option<string>, storedUser: Option<User>)
      ensures user == storedUser && token == storedToken
      ensures isAuthenticated <==> StoredSession(storedToken, storedUser)
      ensures !isLoading && error == None && isLoginMode
    {
      user := storedUser;
      token := storedToken;
      isAuthenticated := StoredSession(storedToken, storedUser);
      isLoading := false;
      error := None;
      isLoginMode := true;
    }

    method Logout()
      modifies this
      ensures user == None && token == None && !isAuthenticated
      ensures isLoginMode == old(isLoginMode) && isLoading == old(isLoading) && error == old(error)
    {
      user := None;
      token := None;
      isAuthenticated := false;
    }

    method ToggleAuthMode()
      modifies this
      ensures isLoginMode == !old(isLoginMode) && error == None
      ensures user == old(user) && token == old(token) && isAuthenticated == old(isAuthenticated)
      ensures isLoading == old(isLoading)
    {
      isLoginMode := !isLoginMode;
      error := None;
    }

    /** `pending` of login and of register. */
    method AuthPending()
      modifies this
      ensures isLoading && error == None
      ensures user == old(user) && token == old(token) && isAuthenticated == old(isAuthenticated)
      ensures isLoginMode == old(isLoginMode)
    {
      isLoading := true;
      error := None;
    }

    /** `fulfilled` of login and of register. */
    method AuthFulfilled(payloadUser: User, payloadToken: string)
      modifies this
      ensures !isLoading && isAuthenticated && user == Some(payloadUser) && token == Some(payloadToken)
      ensures error == old(error) && isLoginMode == old(isLoginMode)
    {
      isLoading := false;
      isAuthenticated := true;
      user := Some(payloadUser);
      token := Some(payloadToken);
    }

    /** `rejected` of login and of register. */
    method AuthRejected(payload: string)
      modifies this
      ensures !isLoading && error == Some(payload)
      ensures user == old(user) && token == old(token) && isAuthenticated == old(isAuthenticated)
      ensures isLoginMode == old(isLoginMode)
    {
      isLoading := false;
      error := Some(payload);
    }

    /** Settling a login or register request: the reducer case for its outcome. */
    method Settle(outcome: Settled)
      modifies this
      ensures outcome.Fulfilled? ==> isAuthenticated && user == Some(outcome.user) && token == Some(outcome.token)
                                     && error == old(error)
      ensures outcome.Rejected? ==> error == Some(outcome.message) && isAuthenticated == old(isAuthenticated)
                                    && user == old(user) && token == old(token)
      ensures !isLoading && isLoginMode == old(isLoginMode)
    {
      match outcome
      case Fulfilled(u, t) => AuthFulfilled(u, t);
      case Rejected(message) => AuthRejected(message);
    }
  }

  /** Toggling the mode twice restores it, and leaves no error. */
  method ToggleTwice(s: State)
    modifies s
    ensures s.isLoginMode == old(s.isLoginMode) && s.error == None
    ensures s.user == old(s.user) && s.token == old(s.token) && s.isAuthenticated == old(s.isAuthenticated)
  {
    s.ToggleAuthMode();
    s.ToggleAuthMode();
  }
}
