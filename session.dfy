/**
 * The session record of the session store and its transitions, as values.
 * The store's actions are specified by these functions; the lemmas here are
 * what the actions promise about the record.
 */
module Session {
  import opened Wrappers
  import opened JsValues

  datatype SessionState = SessionState(
    token: Option<string>,
    isAuthenticated: bool,
    isLoading: bool,
    user: JsValue)

  /** The record the store starts with: no token, not authenticated,
      loading, no user. */
  const Initial: SessionState := SessionState(None, false, true, Null)

  /** The token as a JavaScript value (`string | null`). */
  function TokenValue(token: Option<string>): (v: JsValue)
    ensures token.None? <==> v == Null
    ensures token.Some? ==> v == Str(token.value)
  {
    match token
    case None => Null
    case Some(t) => Str(t)
  }

  /** What every settled record satisfies: being authenticated or holding a
      user needs a token, a non-empty token means authenticated, and the user
      is either null or a truthy value. The empty token is the one case where
      a token is present and the record may be signed out. */
  ghost predicate Consistent(s: SessionState)
  {
    && (s.isAuthenticated ==> s.token.Some?)
    && (s.token.Some? && s.token.value != "" ==> s.isAuthenticated)
    && (s.user != Null ==> s.token.Some?)
    && (s.user == Null || Truthy(s.user))
  }

  /** login(token, user). `persisted` says whether the credential writes
      succeeded: only then does the record take the token and the user
      (`user || null`); on a failed write the error is swallowed. Either way
      loading ends. */
  function Login(s: SessionState, token: string, user: JsValue, persisted: bool): (r: SessionState)
    ensures !r.isLoading
    ensures persisted ==> r.isAuthenticated && r.token == Some(token)
    ensures persisted && Truthy(user) ==> r.user == user
    ensures persisted && !Truthy(user) ==> r.user == Null
    ensures !persisted ==> r.isAuthenticated == s.isAuthenticated && r.token == s.token && r.user == s.user
    ensures Consistent(s) ==> Consistent(r)
  {
    var next := if persisted then s.(isAuthenticated := true, token := Some(token), user := Or(user, Null)) else s;
    next.(isLoading := false)
  }

  /** logout(): from any record, back to signed out and not loading. */
  function Logout(s: SessionState): (r: SessionState)
    ensures !r.isAuthenticated && r.token == None && r.user == Null && !r.isLoading
    ensures Consistent(r)
  {
    SessionState(None, false, false, Null)
  }

  /** checkAuthState(): authenticated exactly when the in-memory token is
      truthy, so an empty token counts as signed out; loading ends and the
      token and user stay. */
  function CheckAuthState(s: SessionState): (r: SessionState)
    ensures r.isAuthenticated <==> s.token.Some? && s.token.value != ""
    ensures !r.isLoading && r.token == s.token && r.user == s.user
    ensures Consistent(s) ==> Consistent(r)
  {
    var authenticated := Truthy(TokenValue(s.token));
    s.(isAuthenticated := authenticated, isLoading := false)
  }

  /** setLoading(loading): changes the loading flag and nothing else. */
  function SetLoading(s: SessionState, loading: bool): (r: SessionState)
    ensures r.isLoading == loading
    ensures r.token == s.token && r.isAuthenticated == s.isAuthenticated && r.user == s.user
    ensures Consistent(s) ==> Consistent(r)
  {
    s.(isLoading := loading)
  }

  /** The actions that change the record. setAuthToken, clearAuthToken and
      cancelPendingRequests leave it as it is. */
  datatype Action =
    | LoginAction(token: string, user: JsValue, persisted: bool)
    | LogoutAction
    | CheckAuthStateAction
    | SetLoadingAction(loading: bool)

  function Step(s: SessionState, a: Action): SessionState
  {
    match a
    case LoginAction(t, u, p) => Login(s, t, u, p)
    case LogoutAction => Logout(s)
    case CheckAuthStateAction => CheckAuthState(s)
    case SetLoadingAction(b) => SetLoading(s, b)
  }

  /** The record after the actions, in order. */
  function Run(s: SessionState, actions: seq<Action>): SessionState
    decreases |actions|
  {
    if actions == [] then s else Run(Step(s, actions[0]), actions[1..])
  }

  lemma InitialIsConsistent()
    ensures Consistent(Initial)
    ensures Initial.token == None && !Initial.isAuthenticated && Initial.isLoading && Initial.user == Null
  {
  }

  /** Every action keeps the record consistent. */
  lemma StepKeepsConsistent(s: SessionState, a: Action)
    requires Consistent(s)
    ensures Consistent(Step(s, a))
  {
  }

  /** Every record the store can reach from its initial record is consistent. */
  lemma {:induction false} RunKeepsConsistent(s: SessionState, actions: seq<Action>)
    requires Consistent(s)
    ensures Consistent(Run(s, actions))
    decreases |actions|
  {
    if actions != [] {
      StepKeepsConsistent(s, actions[0]);
      RunKeepsConsistent(Step(s, actions[0]), actions[1..]);
    }
  }

  lemma ReachableIsConsistent(actions: seq<Action>)
    ensures Consistent(Run(Initial, actions))
  {
    RunKeepsConsistent(Initial, actions);
  }

  /** A second logout changes nothing, and logout forgets everything about
      the record it started from. */
  lemma LogoutIdempotent(s: SessionState, s': SessionState)
    ensures Logout(Logout(s)) == Logout(s)
    ensures Logout(s) == Logout(s')
  {
  }

  /** Checking the state right after a logout finds the same signed-out record. */
  lemma CheckAfterLogout(s: SessionState)
    ensures CheckAuthState(Logout(s)) == Logout(s)
  {
  }

  /** Checking twice is checking once. */
  lemma CheckAuthStateIdempotent(s: SessionState)
    ensures CheckAuthState(CheckAuthState(s)) == CheckAuthState(s)
  {
  }

  /** login and checkAuthState disagree on the empty token: login marks the
      record authenticated with the token "", and a later check, which tests
      truthiness, marks it signed out again. For any other token the check
      confirms the login. */
  lemma CheckAfterLogin(s: SessionState, token: string, user: JsValue)
    ensures CheckAuthState(Login(s, token, user, true)).isAuthenticated <==> token != ""
    ensures CheckAuthState(Login(s, token, user, true)).token == Some(token)
    ensures Login(s, "", user, true).isAuthenticated
  {
  }

  /** A failed login after a successful one leaves the first login's
      credentials in place. */
  lemma FailedLoginKeepsSession(s: SessionState, t: string, u: JsValue, t': string, u': JsValue)
    ensures Login(Login(s, t, u, true), t', u', false) == Login(s, t, u, true)
  {
  }
}
