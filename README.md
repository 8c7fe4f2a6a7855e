# Session store and navigation guard of a React Native app shell

This project models, in Dafny, the authentication core of a mobile app
shell built with zustand, axios, expo-secure-store and expo-router.

* **Session store** (`src/stores/session.store.ts`):
  * One process-wide record holds the bearer token, the authenticated and
    loading flags and the user payload.
  * The store has seven actions. Four of them change the record: `login`,
    `logout`, `checkAuthState` and `setLoading`.
  * `login` also writes the encrypted credential store. The other three
    actions, `setAuthToken`, `clearAuthToken` and `cancelPendingRequests`,
    leave the record alone. They work on the credential store, the default
    headers of the shared axios client and the request registry.
  * The client's request and response hooks keep a registry of abort
    handles, keyed by request URL. `cancelPendingRequests` aborts every
    handle in it and then empties it.
* **Navigation guard** (`src/app/_layout.tsx`): the root layout shows a
  loading screen while the session loads. Once it has settled, the layout
  redirects signed-in users away from the `(auth)` group and signed-out
  users to `/(auth)/login`.

Layout:

| file | module | what |
|---|---|---|
| `wrappers.dfy` | `Wrappers` | `Option` |
| `js_values.dfy` | `JsValues` | untyped JavaScript values and truthiness (`if (user)`, `user or null`, `if (state.token)`) |
| `secure_store.dfy` | `SecureStore` | the credential store; each write or delete may fail, leaving it unchanged |
| `storage.dfy` | `Storage` | `saveASData` / `deleteASData` |
| `http_client.dfy` | `HttpClient` | the axios instance: default headers, the `abortControllers` registry, the request and response hooks |
| `session.dfy` | `Session` | the session record as a value, its transitions and the lemmas about them |
| `session_store.dfy` | `SessionStore` | the store as a class whose methods update its fields in place |
| `root_layout.dfy` | `RootLayout` | the redirect rule and the loading gate |

The store is the class `SessionStore.Store`. Each of its actions is
specified by a transition function of `Session`. The lemmas in `Session`
prove that every reachable record is consistent:
* authenticated implies a token is present;
* a non-empty token implies authenticated. The empty token is the only case
  that breaks `isAuthenticated == (token is present)`: after `login("")`
  and a `checkAuthState`, the token `""` is held while signed out;
* a user implies a token is present;
* the user is null or truthy.

Modelling decisions:
* **Failing writes.** A credential-store write that can fail has a
  nondeterministic outcome. `login` swallows its failure. `clearAuthToken`
  rejects when the delete fails, before the header is removed.
* **Serialiser.** `JSON.stringify` is the uninterpreted parameter `encode`.
  `login` writes the raw token under `AuthToken`. `setAuthToken` writes
  `encode(Str(token))` under the same key, through `saveASData`. The
  contracts keep both forms visible.
* **Registry keys.** Two requests to the same URL share a registry key. The
  second overwrites the first's handle, and `OnRequest` states that the
  replaced handle can then no longer be cancelled.
* **No header from login.** `login` never sets the `Authorization` header:
  `SessionStore.Store.Login` may modify only the record and the credential
  store. Requests carry the token only after a separate `setAuthToken`.
* **Empty token.** `login("")` marks the record authenticated, and a later
  `checkAuthState` marks it signed out again (`Session.CheckAfterLogin`).
  `isAuthenticated` therefore implies that a token is present, not that a
  non-empty token is present.

## Model

| member | source | states |
|---|---|---|
| `JsValues.Truthy` | src/stores/session.store.ts:106-134 | JavaScript ToBoolean: a value is falsy exactly when it is `undefined`, `null`, `false`, `0` or `""` (the tests at lines 106, 112 and 134) |
| `JsValues.Or` | src/stores/session.store.ts:112 | JavaScript `a or b` is `a` when `a` is truthy, otherwise `b`; the result is truthy iff either operand is |
| `SecureStore.CredentialStore.SetItem` | src/stores/session.store.ts:104-107 | a successful write makes the key hold exactly the value; a failed one changes nothing |
| `SecureStore.CredentialStore.DeleteItem` | src/utils/storage.ts:14 | a successful delete removes exactly that key; a failed one changes nothing |
| `Storage.SaveASData` | src/utils/storage.ts:3-6 | the key holds the serialised data after a successful write, and nothing changes after a failed one |
| `Storage.DeleteASData` | src/utils/storage.ts:13-15 | the key is removed on success, and nothing changes on failure |
| `HttpClient.UrlValue` | src/stores/session.store.ts:35 | a missing URL is `undefined`; a present one is that string |
| `HttpClient.RequestKey` | src/stores/session.store.ts:35-46 | the key is JavaScript `config.url or ''` applied to the URL as a JavaScript value, so a missing URL and an empty URL both give `''` |
| `HttpClient.Client.constructor` | src/stores/session.store.ts:25-30 | the client starts with the configured JSON content type as its only default header and an empty registry |
| `HttpClient.Client.OnRequest` | src/stores/session.store.ts:32-37 | a fresh, never-aborted handle is registered under the request key, overwriting the old entry; an overwritten handle leaves the registry |
| `HttpClient.Client.OnResponse` | src/stores/session.store.ts:40-60 | on success and on error, the request key is removed and nothing else changes |
| `HttpClient.Client.CancelAll` | src/stores/session.store.ts:97-98 | every handle registered beforehand is aborted exactly once, no other handle is aborted, the registry ends empty and the headers are kept |
| `Session.TokenValue` | src/stores/session.store.ts:134 | `state.token` as a string-or-null value: null exactly when there is no token, otherwise that string |
| `Session.Login` | src/stores/session.store.ts:101-118 | when the writes succeed: authenticated, the given token, the user if truthy else null. When a write fails: credentials kept. Loading ends either way; consistency is preserved |
| `Session.Logout` | src/stores/session.store.ts:121-128 | from any record: not authenticated, no token, no user, not loading |
| `Session.CheckAuthState` | src/stores/session.store.ts:130-138 | authenticated iff the token is non-null and non-empty; loading ends; token and user kept; consistency preserved |
| `Session.SetLoading` | src/stores/session.store.ts:145-147 | only the loading flag changes; consistency preserved |
| `Session.InitialIsConsistent` | src/stores/session.store.ts:64-68 | the initial record has no token, is not authenticated, is loading, has no user, and is consistent |
| `Session.StepKeepsConsistent` | src/stores/session.store.ts:101-147 | every action that changes the record keeps it consistent, including that a non-empty token means authenticated |
| `Session.RunKeepsConsistent` | src/stores/session.store.ts:62-147 | any sequence of actions keeps a consistent record consistent (authenticated implies a token, a non-empty token implies authenticated, a user implies a token) |
| `Session.ReachableIsConsistent` | src/stores/session.store.ts:62-147 | every record reachable from the initial record is consistent: authenticated implies a token, and a non-empty token implies authenticated |
| `Session.LogoutIdempotent` | src/stores/session.store.ts:121-128 | logging out twice equals logging out once; the result does not depend on the prior record |
| `Session.CheckAfterLogout` | src/stores/session.store.ts:121-138 | a check right after a logout leaves the signed-out record as it is |
| `Session.CheckAuthStateIdempotent` | src/stores/session.store.ts:130-138 | checking twice equals checking once |
| `Session.CheckAfterLogin` | src/stores/session.store.ts:101-138 | after a successful login, a check confirms authentication iff the token is non-empty; `login("")` itself authenticates |
| `Session.FailedLoginKeepsSession` | src/stores/session.store.ts:101-118 | a failed login after a successful one leaves the first login's record, except that loading has ended |
| `SessionStore.AuthorizationValue` | src/stores/session.store.ts:78 | the header value is `Token ` followed by the token |
| `SessionStore.Store.constructor` | src/stores/session.store.ts:62-68 | the store starts in the initial record, bound to the client |
| `SessionStore.Store.SetAuthToken` | src/stores/session.store.ts:71-79 | with a client: the header becomes `Token <t>`, the store holds `encode(t)` or is unchanged, record and registry unchanged. Without a client: nothing changes |
| `SessionStore.Store.ClearAuthToken` | src/stores/session.store.ts:81-89 | with a client: on success the stored token and the header are removed and nothing else changes; on failure it rejects with nothing changed. Without a client: nothing changes |
| `SessionStore.Store.CancelPendingRequests` | src/stores/session.store.ts:91-99 | with a client: every registered handle is aborted once and the registry ends empty. Without a client: nothing changes. The record is unchanged either way |
| `SessionStore.Store.Login` | src/stores/session.store.ts:101-119 | success: the record is `Session.Login(.., true)`, the store holds the raw token, and the encoded user only when the user is truthy. Failure: the record is `Session.Login(.., false)`, the store is unchanged or holds only the token |
| `SessionStore.Store.Logout` | src/stores/session.store.ts:121-128 | the record becomes `Session.Logout`; credential store, headers and registry untouched |
| `SessionStore.Store.CheckAuthState` | src/stores/session.store.ts:130-138 | the record becomes `Session.CheckAuthState` of the old record |
| `SessionStore.Store.SetLoading` | src/stores/session.store.ts:145-147 | the record becomes `Session.SetLoading` of the old record; consistency kept |
| `SessionStore.CancelThenDispatch` | src/stores/session.store.ts:32-99 | returns the three handles: the `/foo` and `/bar` handles differ and are each aborted exactly once by a cancel-all; the later `/baz` handle was never aborted and is the registry's only entry |
| `RootLayout.InAuthGroup` | src/app/_layout.tsx:18 | `segments[0] === '(auth)'`: true exactly when the segments start with `(auth)`, so empty segments give false |
| `RootLayout.SegmentsOf` | src/app/_layout.tsx:22-25 | an assumption about expo-router: after `router.replace('/(app)/')` it reports the segments `["(app)"]`, and after `router.replace('/(auth)/login')` the segments `["(auth)", "login"]`; never empty |
| `RootLayout.Path` | src/app/_layout.tsx:22-25 | each redirect path starts with `/` and its target's group segment |
| `RootLayout.View` | src/app/_layout.tsx:29-39 | the loading screen is rendered iff loading; otherwise the `(auth)` and `(app)` stack |
| `RootLayout.Redirect` | src/app/_layout.tsx:15-27 | no redirect while loading. Otherwise: to `/(app)/` iff authenticated inside `(auth)`, to `/(auth)/login` iff signed out outside it, and none otherwise |
| `RootLayout.LoadingGate` | src/app/_layout.tsx:16-32 | while loading, the loading screen is shown and no redirect is issued |
| `RootLayout.RedirectIsStable` | src/app/_layout.tsx:20-25 | with the same auth flag, the guard evaluated on a redirect target's segments issues no further redirect |
| `RootLayout.RedirectCrossesGroups` | src/app/_layout.tsx:18-26 | a redirect always moves the user to the other side of the `(auth)` group |

## Left out

- zustand's `create`/`set`/`get`: `set` is a field update, and the store is one object.
- React rendering and hooks, and expo-router internals: `router.replace` is the returned `Redirect` value. The segments are a parameter.
- The mount-time `checkAuthState()` call in the root layout (src/app/_layout.tsx:11-13) is not modelled as an effect. The action itself is modelled.
- HTTP transport: the base URL from the environment, the HTTP verbs, and `AbortController` signal propagation are not modelled.
- The response error hook's `isCancel` / `AbortError` / missing-response classification is not modelled. Every branch only logs and re-rejects, so only the registry deletion is kept.
- Aborting is recorded in a ghost log of abort calls. The handles' `signal.aborted` flags are not modelled as separate state.
- The forEach order of `cancelPendingRequests` (insertion order) is not modelled. The loop takes the keys in an unspecified order.
- axios's own built-in default headers are not modelled. The `headers` map holds only the headers the source configures or sets.
- Encryption in the credential store is not modelled. Storage I/O is a nondeterministic success or failure that leaves the store unchanged on failure.
- `JSON.stringify` is the uninterpreted parameter `encode`. A throw from it inside `login` behaves like a failed second write, and the model's failure branch covers that.
- `getASData` (src/utils/storage.ts:8-11) is not modelled because no core code calls it. Nothing in the core restores a persisted token into memory, so a restart round trip is not modelled either.
- The `StorageKeys` constants module is not part of this model. The keys are the strings `"AuthToken"` and `"User"`; only their difference matters.
- `checkAuthState`'s catch branch (src/stores/session.store.ts:139-142) is not modelled. Only a throwing `get`/`set` of the library reaches it.
- Concurrency: every action is atomic and sequential. Interleaving of concurrent `login`/`logout` calls across their awaits is not modelled.
- Logging (`console.*`) is not modelled.
- JavaScript numbers are integers here, so there is no NaN and no -0. Objects are opaque references, which are always truthy.
