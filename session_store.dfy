/**
 * The session store: one process-wide object holding the session record and
 * the actions that change it, the credential store and the HTTP client's
 * default headers and request registry.
 */
module SessionStore {
  import opened Wrappers
  import opened JsValues
  import opened SecureStore
  import opened HttpClient
  import Storage
  import Session

  /** The credential store keys. */
  const AuthTokenKey: string := "AuthToken"
  const UserKey: string := "User"

  const AuthorizationHeader: string := "Authorization"

  /** The value of the authorization header for a token. */
  function AuthorizationValue(token: string): (v: string)
    ensures |v| == |token| + 6 && v[..6] == "Token " && v[6..] == token
  {
    "Token " + token
  }

  class Store {
    /** The shared HTTP client; null only in the defensive case the actions guard against. */
    const api: Client?
    /** The encrypted credential store. */
    const secure: CredentialStore
    /** JSON.stringify, which saveASData and login use to serialise values. */
    const encode: JsValue -> string

    var token: Option<string>
    var isAuthenticated: bool
    var isLoading: bool
    var user: JsValue

    /** The record as a value. */
    function State(): (s: Session.SessionState)
      reads this
      ensures s.token == token && s.isAuthenticated == isAuthenticated
      ensures s.isLoading == isLoading && s.user == user
    {
      Session.SessionState(token, isAuthenticated, isLoading, user)
    }

    ghost predicate Valid()
      reads this, api
    {
      Session.Consistent(State()) && (api != null ==> api.Valid())
    }

    /** The store as created: the initial record, bound to the client. */
    constructor (api: Client?, secure: CredentialStore, encode: JsValue -> string)
      requires api != null ==> api.Valid()
      ensures Valid()
      ensures State() == Session.Initial
      ensures this.api == api && this.secure == secure && this.encode == encode
    {
      this.api := api;
      this.secure := secure;
      this.encode := encode;
      token := None;
      isAuthenticated := false;
      isLoading := true;
      user := Null;
    }

    /** setAuthToken(token): with a client, the serialised token is written
        (best effort, the write is not awaited) and the authorization header
        is set whatever the write did; the record is not touched. Without a
        client nothing changes. */
    method SetAuthToken(token: string)
      requires Valid()
      modifies secure, api
      ensures Valid()
      ensures State() == old(State())
      ensures api == null ==> secure.items == old(secure.items)
      ensures api != null ==>
        && api.headers == old(api.headers)[AuthorizationHeader := AuthorizationValue(token)]
        && (secure.items == old(secure.items)[AuthTokenKey := encode(Str(token))] || secure.items == old(secure.items))
        && api.controllers == old(api.controllers) && api.aborted == old(api.aborted)
    {
      if api == null {
        return;
      }
      var _ := Storage.SaveASData(secure, AuthTokenKey, Str(token), encode);
      api.headers := api.headers[AuthorizationHeader := AuthorizationValue(token)];
    }

    /** clearAuthToken(): with a client, the stored token is deleted and then
        the authorization header is removed. When the delete fails the action
        rejects (`ok` is false) before the header is touched. Without a client
        nothing changes. */
    method ClearAuthToken() returns (ok: bool)
      requires Valid()
      modifies secure, api
      ensures Valid()
      ensures State() == old(State())
      ensures api == null ==> ok && secure.items == old(secure.items)
      ensures api != null && ok ==>
        && secure.items == old(secure.items) - {AuthTokenKey}
        && api.headers == old(api.headers) - {AuthorizationHeader}
      ensures api != null && !ok ==>
        secure.items == old(secure.items) && api.headers == old(api.headers)
      ensures api != null ==> api.controllers == old(api.controllers) && api.aborted == old(api.aborted)
    {
      if api == null {
        return true;
      }
      ok := Storage.DeleteASData(secure, AuthTokenKey);
      if !ok {
        return;
      }
      api.headers := api.headers - {AuthorizationHeader};
    }

    /** cancelPendingRequests(): with a client, every registered request is
        aborted exactly once and the registry is emptied. */
    method CancelPendingRequests()
      requires Valid()
      modifies api
      ensures Valid()
      ensures State() == old(State())
      ensures api != null ==>
        && api.controllers == map[]
        && old(api.aborted) <= api.aborted
        && multiset(api.aborted) == multiset(old(api.aborted)) + multiset(old(api.controllers).Values)
        && (forall k :: k in old(api.controllers) ==> multiset(api.aborted)[old(api.controllers)[k]] == 1)
        && api.headers == old(api.headers)
    {
      if api == null {
        return;
      }
      api.CancelAll();
    }

    /** login(token, user): the token is written as it is, then the
        serialised user when the user is truthy. When both writes succeed the
        record takes the token and user; when one fails the record keeps its
        credentials. Loading ends in every case. */
    method Login(token: string, user: JsValue)
      requires Valid()
      modifies this, secure
      ensures Valid()
      ensures
        || (&& State() == Session.Login(old(State()), token, user, true)
            && secure.items == (if Truthy(user)
                                then old(secure.items)[AuthTokenKey := token][UserKey := encode(user)]
                                else old(secure.items)[AuthTokenKey := token]))
        || (&& State() == Session.Login(old(State()), token, user, false)
            && (|| secure.items == old(secure.items)
                || (Truthy(user) && secure.items == old(secure.items)[AuthTokenKey := token])))
    {
      var ok := secure.SetItem(AuthTokenKey, token);
      if ok && Truthy(user) {
        ok := secure.SetItem(UserKey, encode(user));
      }
      if ok {
        this.isAuthenticated, this.token, this.user := true, Some(token), Or(user, Null);
      }
      isLoading := false;
    }

    /** logout(): the record is signed out; the credential store, the headers
        and the registry are not touched. */
    method Logout()
      requires Valid()
      modifies this
      ensures Valid()
      ensures State() == Session.Logout(old(State()))
      ensures secure.items == old(secure.items)
      ensures api != null ==> api.headers == old(api.headers) && api.controllers == old(api.controllers)
    {
      isAuthenticated, token, user, isLoading := false, None, Null, false;
    }

    /** checkAuthState(): authenticated exactly when the in-memory token is
        truthy; loading ends. */
    method CheckAuthState()
      requires Valid()
      modifies this
      ensures Valid()
      ensures State() == Session.CheckAuthState(old(State()))
      ensures secure.items == old(secure.items)
    {
      if Truthy(Session.TokenValue(token)) {
        isAuthenticated, isLoading := true, false;
      } else {
        isAuthenticated, isLoading := false, false;
      }
    }

    /** setLoading(loading) */
    method SetLoading(loading: bool)
      requires Valid()
      modifies this
      ensures Valid()
      ensures State() == Session.SetLoading(old(State()), loading)
    {
      isLoading := loading;
    }
  }

  /** Two requests in flight are both aborted by a cancel-all, and a request
      dispatched afterwards gets a handle that has not been aborted. */
  method CancelThenDispatch(session: Store) returns (a: AbortHandle, b: AbortHandle, c: AbortHandle)
    requires session.Valid() && session.api != null
    modifies session.api
    ensures a != b
    ensures multiset(session.api.aborted)[a] == 1 && multiset(session.api.aborted)[b] == 1
    ensures c !in session.api.aborted && session.api.controllers == map["/baz" := c]
  {
    var api := session.api;
    a := api.OnRequest(Some("/foo"));
    assert api.controllers["/foo"] == a;
    b := api.OnRequest(Some("/bar"));
    assert api.controllers["/foo"] == a && api.controllers["/bar"] == b;
    session.CancelPendingRequests();
    c := api.OnRequest(Some("/baz"));
  }
}
