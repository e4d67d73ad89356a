# react-auth session store and CSRF cookie reader, in Dafny

This project models the logic of `frontend/src/store/authStore.js`, which has two parts:

- **`getCSRFToken`** reads the CSRF cookie. It splits `document.cookie` on `;` and trims each piece. It takes the first piece that starts with `csrftoken=` and returns the URL-decoded rest of that piece. If no piece matches, it throws `Missing CSRF cookie.`
- **`useAuthStore`** is the session store. It holds `user` (a profile or `null`) and `isAuthenticated`, and starts as `(null, false)`. Three operations overwrite those fields depending on what their network calls return:
  - `login`;
  - `logout`;
  - `fetchUser`, which `login` also starts after a successful login.

Modules:

- `Outcomes` (outcomes.dfy): `Option`, the exceptions, and the `Outcome` of a step (it returns a value or throws).
- `Json` (json.dfy): the values `response.json()` can produce, property access (`data.success`, which throws on `null`) and JavaScript truthiness.
- `Text` (text.dfy): the string operations the cookie reader uses. These are `split` with a one-character separator, `trim` (ECMAScript whitespace and line terminators) and `substring` (arguments are clamped and swapped).
- `CsrfCookie` (csrf_cookie.dfy): `GetCsrfToken` is a loop with `break`, written like the source. It is proved equal to the specification function `CsrfToken`. Lemmas about `CsrfToken` then cover:
  - the first match wins;
  - non-matching pieces are skipped;
  - look-alike names never match;
  - an empty value is not an error.
- `AuthStore` (auth_store.dfy): the class `Store`, whose fields are `user` and `isAuthenticated`.
  - Its methods `Login`, `Logout` and `FetchUser` take the network as input. That input is the outcome of each `setCsrfToken` call and a transport `fetch` from requests to responses (or exceptions).
  - Each method returns the requests it sent, so the `X-CSRFToken` header of each request can be stated.
  - `Valid()` is the invariant "a non-null `user` implies `isAuthenticated`". The constructor sets up the initial state and establishes it. Every operation preserves it, and `FetchUser` re-establishes it from any state.

Behaviour of the code worth noting:

- A transport error, a JSON error or a `null` body in `login` propagates and leaves the state unchanged. It is not fail-closed, because `login` has no `try`.
- `login` never looks at `response.ok`. Only the body's `success` member decides the outcome, and its truthiness is what counts.
- A `logout` response that is not ok changes nothing and does not throw. Only an exception from the token request or from `fetch` is rethrown.
- The store's operations do not read the cookie. Their token is the `csrftoken` member of the `set-csrf-token` response, obtained again before every request. So a missing cookie does not make them throw. `getCSRFToken` is used only by the registration page.
- The `fetchUser` that a successful `login` starts without awaiting it is modelled as a step that runs right after `login`'s own update. `LoginStep` is that own update, and `Login` is `LoginStep` followed by `FetchUser` with its own token outcome (`userToken`). After `LoginStep` accepts a login, the store is authenticated while `user` is still whatever it was, possibly `null`. So "authenticated implies a user" does not hold there (scenario `LoginThenFailedFollowUp`).

## Model

| member | source | states |
|---|---|---|
| Text.Split | frontend/src/store/authStore.js:93 | `split(';')` always yields at least one piece, and no piece contains the separator |
| Text.JoinSplit | frontend/src/store/authStore.js:93 | joining the pieces with the separator gives back the cookie string |
| Text.SplitJoin | frontend/src/store/authStore.js:93 | splitting the join of separator-free pieces gives back those pieces (inverse direction) |
| Text.SplitAtFirstSeparator | frontend/src/store/authStore.js:93 | splitting `a;b` with no `;` in `a` gives `a` followed by the pieces of `b` |
| Text.SplitWithoutSeparator | frontend/src/store/authStore.js:93 | a string without `;` is one piece |
| Json.Member | frontend/src/store/authStore.js:32-38 | `data.success` throws a TypeError exactly when `data` is `null`; it is the member when `data` is an object holding that key, and `undefined` otherwise |
| Json.Truthy | frontend/src/store/authStore.js:32 | the truthiness of `data.success` that `if (data.success)` tests |
| Json.FalsyValues | frontend/src/store/authStore.js:32 | the falsy values are exactly `undefined`, `null`, `false`, `0` and `""`; empty arrays and objects are truthy |
| Text.Trim | frontend/src/store/authStore.js:95 | `c.trim()` is no longer than `c`, and is empty or neither starts nor ends with whitespace |
| Text.TrimStartSpec | frontend/src/store/authStore.js:95 | the leading part removed is all whitespace, the rest is a suffix of the input, and it does not start with whitespace |
| Text.TrimEndSpec | frontend/src/store/authStore.js:95 | the trailing part removed is all whitespace, the rest is a prefix of the input, and it does not end with whitespace |
| Text.TrimSpec | frontend/src/store/authStore.js:95 | `trim()` returns a slice of its input that neither starts nor ends with whitespace, and only whitespace was cut on either side |
| Text.TrimPadded | frontend/src/store/authStore.js:95 | trimming a core padded with whitespace on both sides gives back the core |
| Text.SubstringPrefixTest | frontend/src/store/authStore.js:96 | `c.substring(0, p.length) === p` holds exactly when `c` starts with `p`, also for a `c` shorter than `p` |
| Text.SubstringAfterPrefix | frontend/src/store/authStore.js:97 | after a prefix `p`, `c.substring(p.length)` is the rest of `c` |
| CsrfCookie.Matches | frontend/src/store/authStore.js:95-96 | a piece carries the token when its trimmed text starts with `csrftoken=` (the `substring(0, 10)` test, by SubstringPrefixTest) |
| CsrfCookie.RawValue | frontend/src/store/authStore.js:95-97 | the still-encoded value of a matching piece is what follows `csrftoken=` in the trimmed piece |
| CsrfCookie.Decoded | frontend/src/store/authStore.js:97 | `decodeURIComponent` throws a URI error exactly when the decoder fails, and otherwise returns the decoded text |
| Text.Substring | frontend/src/store/authStore.js:96-97 | `s.substring(a, b)` is the slice between the two arguments in either order once they lie within `s`, the whole of `s` when they span it, and never longer than `s` |
| CsrfCookie.FirstMatch | frontend/src/store/authStore.js:94-99 | the index found holds a matching piece and no earlier piece matches; no index is found only when no piece matches |
| CsrfCookie.CsrfToken | frontend/src/store/authStore.js:92-105 | the reader throws MissingCsrfCookie exactly when no trimmed piece starts with `csrftoken=`, also for an empty cookie string |
| CsrfCookie.GetCsrfToken | frontend/src/store/authStore.js:89-106 | the loop with `break` returns what CsrfToken specifies: the decoded value of the first matching piece, a URI error if decoding throws, and MissingCsrfCookie otherwise |
| CsrfCookie.FirstMatchAt | frontend/src/store/authStore.js:94-99 | a matching piece with no matching piece before it is the one the scan stops at |
| CsrfCookie.FirstMatchingPieceWins | frontend/src/store/authStore.js:94-99 | the value comes from the first matching piece, whatever the later pieces are |
| CsrfCookie.LaterPiecesIgnored | frontend/src/store/authStore.js:96-98 | after a matching piece, anything that follows `;` does not change the result |
| CsrfCookie.NonMatchingPieceSkipped | frontend/src/store/authStore.js:94-96 | a non-matching first piece is skipped: the result is that of the rest of the cookie string |
| CsrfCookie.SinglePiece | frontend/src/store/authStore.js:92-105 | a cookie string of one piece yields that piece's decoded value if it matches, and MissingCsrfCookie otherwise |
| CsrfCookie.PaddedPieceMatches | frontend/src/store/authStore.js:95-97 | whitespace around `csrftoken=v` is ignored, and the value is `v` |
| CsrfCookie.OtherNamesNeverMatch | frontend/src/store/authStore.js:90-96 | a trimmed piece `name=value` whose name is not `csrftoken` never matches (e.g. `xcsrftoken`, `csrftoken2`), because the whole prefix including `=` is compared from index 0 |
| CsrfCookie.EmptyValueIsNotMissing | frontend/src/store/authStore.js:96-105 | `csrftoken=` with an empty value yields the decoded empty string and never MissingCsrfCookie |
| CsrfCookie.EmptyValueYieldsEmptyString | frontend/src/store/authStore.js:96-105 | with a decoder that maps `""` to itself, the cookie `csrftoken=` yields exactly `""` |
| AuthStore.RequestFor | frontend/src/store/authStore.js:22-69 | every request carries the acquired token as `X-CSRFToken`, and only the login request has a body |
| AuthStore.SentCarriesAcquiredToken | frontend/src/store/authStore.js:21-26 | no request goes out when acquiring the token threw; otherwise exactly one request goes out, carrying that token |
| AuthStore.Exchange | frontend/src/store/authStore.js:21-22 | acquiring the token and then calling `fetch` rethrows the token exception, and otherwise is `fetch` applied to the one request sent; the same step opens logout (43-44) and fetchUser (62-63) |
| AuthStore.LoginReply | frontend/src/store/authStore.js:21-38 | login rethrows the exception of the token request, of `fetch` or of `response.json()`, whichever fails first; when all three succeed its result is the body's `success` member; and whenever it returns, that is how it got its result |
| AuthStore.LoginReplyIgnoresOk | frontend/src/store/authStore.js:22-38 | two login responses with the same body give the same result whether they are ok or not |
| AuthStore.FetchedProfile | frontend/src/store/authStore.js:62-72 | fetchUser obtains a profile exactly when the token was acquired, the request returned an ok response and its body parsed; the profile is that body |
| AuthStore.LogoutAccepted | frontend/src/store/authStore.js:43-51 | the `response.ok` test of logout, reached only after the token was acquired and `fetch` returned |
| AuthStore.LogoutAcceptedOnlyOnOk | frontend/src/store/authStore.js:43-53 | logout clears the session exactly when the token was acquired and the logout request returned an ok response |
| AuthStore.Consistent | frontend/src/store/authStore.js:8-9 | the session invariant: a non-null `user` is held only together with `isAuthenticated`, as in the initial state |
| AuthStore.AfterFetchUser | frontend/src/store/authStore.js:60-80 | fetchUser's resulting state always satisfies the invariant, and it is authenticated exactly when a profile was fetched |
| AuthStore.FetchUserAuthenticatesOnlyOnSuccess | frontend/src/store/authStore.js:60-80 | fetchUser ends authenticated exactly when the token was acquired, the request returned an ok response and its body parsed; `user` is then that body |
| AuthStore.Store.constructor | frontend/src/store/authStore.js:8-9 | the store starts as `(null, false)`, which satisfies the invariant |
| AuthStore.Store.Valid | frontend/src/store/authStore.js:8-9 | the store's fields satisfy Consistent; the constructor establishes it, every operation preserves it and FetchUser re-establishes it from any state |
| AuthStore.Store.FetchUser | frontend/src/store/authStore.js:60-80 | never throws; sends one user request with the acquired token, or none; an ok response with a body sets `(body, true)`; every failure sets `(null, false)`; the invariant holds afterwards from any state |
| AuthStore.Store.LoginStep | frontend/src/store/authStore.js:20-38 | returns the body's `success` member and the one login request sent; an exception leaves the state unchanged; a falsy `success` sets `(null, false)`; a truthy one sets only `isAuthenticated`, keeping `user`, and asks for the follow-up; the invariant is preserved |
| AuthStore.Store.Login | frontend/src/store/authStore.js:20-39 | as LoginStep, and on a truthy `success` the follow-up fetchUser runs, its request follows the login request and its outcome decides the final state; the invariant is preserved |
| AuthStore.Store.Logout | frontend/src/store/authStore.js:41-58 | an ok response sets `(null, false)`; a response that is not ok changes nothing and returns normally; a token or transport exception changes nothing and is rethrown; the invariant is preserved |

## Left out

- `setCsrfToken` (frontend/src/store/authStore.js:11-18) is modelled only by its outcome: a token string, or an exception. The model does not separate a non-2xx token response from a success. It also does not model a body without `csrftoken`, which would send the header `undefined`.
- `decodeURIComponent` is the parameter `decode`, which returns None where the real function throws a URIError. Percent-decoding itself is not modelled.
- `fetch`, `response.json()`, the URLs and `JSON.stringify` are replaced by the transport parameter and by the `Request`/`Response` values. `credentials: 'include'`, which every request sets, is not recorded.
- Json.Member reads only the own members of an object. Built-in properties of strings, arrays and prototypes are not modelled, because the store reads only `success`.
- JSON numbers are `real`, so NaN and infinities are not represented. They do not affect truthiness for the bodies the server sends.
- `console.error` logging has no effect on state and is left out.
- zustand's `create`/`persist` and the `auth-storage` copy in `localStorage` (frontend/src/store/authStore.js:82-85) are left out. That is a library plus browser storage whose format is not visible. A rehydrated state is taken to be one the operations produced.
- Strings are sequences of Unicode scalar values, while JavaScript strings are sequences of UTF-16 code units, so `.length` and `substring` indices differ on characters outside the Basic Multilingual Plane. This does not affect the reader: it compares only the ASCII prefix `csrftoken=`, splits on `;`, trims characters of the Basic Multilingual Plane, and cuts the value at the end of that ASCII prefix.
- Concurrency is left out: overlapping calls, and the real interleaving of the un-awaited `fetchUser` started by `login`. The model runs that `fetchUser` right after `login`'s own update.
- The pages (`Home.jsx`, `Register.jsx`, `App.jsx`), the Django API (`sim/api.py`), `sim/schemas.py` and `core/urls.py` are outside the core and are not part of this model.
