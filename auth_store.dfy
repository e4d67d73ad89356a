/** The session store `useAuthStore`: two shared fields, `user` and
    `isAuthenticated`, overwritten by `login`, `logout` and `fetchUser`
    according to what their network calls bring back.

    The network is an input. Each operation receives the outcome of its
    `setCsrfToken` call (the token or the exception it threw) and a transport
    `fetch` saying what each request brings back; it returns the requests it
    sent, in order, so that their `X-CSRFToken` headers can be stated. */
module AuthStore {
  import opened Outcomes
  import Json

  // ------------------------------------------------------------- requests

  datatype Endpoint = LoginEndpoint | LogoutEndpoint | UserEndpoint
  datatype HttpMethod = Get | Post
  datatype Credentials = Credentials(email: string, password: string)

  /** A request as the store sends it. Every one is sent with
      `credentials: 'include'`, so that option is not recorded. */
  datatype Request = Request(
    verb: HttpMethod,
    endpoint: Endpoint,
    jsonContentType: bool,       // carries `Content-Type: application/json`
    csrfToken: string,           // the `X-CSRFToken` header
    body: Option<Credentials>)   // `JSON.stringify({ email, password })`

  /** A response: whether it is `ok` (2xx), and what `response.json()` yields or throws. */
  datatype Response = Response(ok: bool, json: Outcome<Json.Value>)

  /** What `fetch` does with each request: returns a response or throws. */
  type Transport = Request -> Outcome<Response>

  /** The three protected calls of the store. */
  datatype Call = LoginCall(email: string, password: string) | LogoutCall | UserCall

  /** The request a call sends once it holds the token `token`. */
  function RequestFor(call: Call, token: string): (q: Request)
    ensures q.csrfToken == token
    ensures q.body.Some? <==> call.LoginCall?
  {
    match call
    case LoginCall(email, password) => Request(Post, LoginEndpoint, true, token, Some(Credentials(email, password)))
    case LogoutCall => Request(Post, LogoutEndpoint, false, token, None)
    case UserCall => Request(Get, UserEndpoint, true, token, None)
  }

  /** The requests a call sends: none when acquiring the token threw, the one
      carrying the acquired token otherwise. */
  function Sent(token: Outcome<string>, call: Call): seq<Request>
  {
    match token
    case Threw(_) => []
    case Done(t) => [RequestFor(call, t)]
  }

  /** Acquire the token, then send the call's request: the response, or the
      exception of whichever step threw first. */
  function Exchange(token: Outcome<string>, call: Call, fetch: Transport): (r: Outcome<Response>)
    ensures token.Threw? ==> r == Threw(token.error)
    ensures token.Done? ==> |Sent(token, call)| == 1 && r == fetch(Sent(token, call)[0])
  {
    match token
    case Threw(e) => Threw(e)
    case Done(t) => fetch(RequestFor(call, t))
  }

  /** A request is sent only after the token was acquired, and it carries
      exactly that token in its `X-CSRFToken` header. */
  lemma SentCarriesAcquiredToken(token: Outcome<string>, call: Call)
    ensures |Sent(token, call)| <= 1
    ensures token.Threw? <==> Sent(token, call) == []
    ensures forall q :: q in Sent(token, call) ==> token.Done? && q.csrfToken == token.value
  {
  }

  // ----------------------------------------------------- network outcomes

  /** What `login` returns: the `success` member of the response body, or the
      exception of the token request, of `fetch`, of `response.json()`, or of
      reading `success` from a `null` body. `response.ok` is not consulted. */
  function LoginReply(email: string, password: string, token: Outcome<string>, fetch: Transport): (r: Outcome<Option<Json.Value>>)
    ensures token.Threw? ==> r == Threw(token.error)
    ensures token.Done? && fetch(RequestFor(LoginCall(email, password), token.value)).Threw? ==>
              r == Threw(fetch(RequestFor(LoginCall(email, password), token.value)).error)
    ensures token.Done? && fetch(RequestFor(LoginCall(email, password), token.value)).Done? &&
            fetch(RequestFor(LoginCall(email, password), token.value)).value.json.Threw? ==>
              r == Threw(fetch(RequestFor(LoginCall(email, password), token.value)).value.json.error)
    ensures token.Done? && fetch(RequestFor(LoginCall(email, password), token.value)).Done? &&
            fetch(RequestFor(LoginCall(email, password), token.value)).value.json.Done? ==>
              r == Json.Member(fetch(RequestFor(LoginCall(email, password), token.value)).value.json.value, "success")
    ensures r.Done? ==>
              token.Done? &&
              fetch(RequestFor(LoginCall(email, password), token.value)).Done? &&
              fetch(RequestFor(LoginCall(email, password), token.value)).value.json.Done? &&
              r == Json.Member(fetch(RequestFor(LoginCall(email, password), token.value)).value.json.value, "success")
  {
    match Exchange(token, LoginCall(email, password), fetch)
    case Threw(e) => Threw(e)
    case Done(response) =>
      match response.json
      case Threw(e) => Threw(e)
      case Done(data) => Json.Member(data, "success")
  }

  /** `login` does not consult `response.ok`: two responses with the same body
      give the same result, whether they are ok or not. */
  lemma LoginReplyIgnoresOk(email: string, password: string, t: string, body: Outcome<Json.Value>, f: Transport, g: Transport)
    requires f(RequestFor(LoginCall(email, password), t)) == Done(Response(true, body))
    requires g(RequestFor(LoginCall(email, password), t)) == Done(Response(false, body))
    ensures LoginReply(email, password, Done(t), f) == LoginReply(email, password, Done(t), g)
  {
  }

  /** The profile `fetchUser` obtains: the body of an ok response, or None when
      any step threw or the response was not ok. */
  function FetchedProfile(token: Outcome<string>, fetch: Transport): (p: Option<Json.Value>)
    ensures p.Some? <==>
              token.Done? &&
              fetch(RequestFor(UserCall, token.value)).Done? &&
              fetch(RequestFor(UserCall, token.value)).value.ok &&
              fetch(RequestFor(UserCall, token.value)).value.json.Done?
    ensures p.Some? ==> p.value == fetch(RequestFor(UserCall, token.value)).value.json.value
  {
    match Exchange(token, UserCall, fetch)
    case Threw(_) => None
    case Done(response) =>
      if !response.ok then None
      else
        match response.json
        case Threw(_) => None
        case Done(data) => Some(data)
  }

  /** The server accepted the logout: the request went out and its response is ok. */
  predicate LogoutAccepted(token: Outcome<string>, fetch: Transport)
  {
    var x := Exchange(token, LogoutCall, fetch);
    x.Done? && x.value.ok
  }

  /** The logout is accepted exactly when the token was acquired and the logout
      request returned an ok response. */
  lemma LogoutAcceptedOnlyOnOk(token: Outcome<string>, fetch: Transport)
    ensures LogoutAccepted(token, fetch) <==>
              token.Done? &&
              fetch(RequestFor(LogoutCall, token.value)).Done? &&
              fetch(RequestFor(LogoutCall, token.value)).value.ok
  {
  }

  // -------------------------------------------------------------- session

  /** The shared state; `Json.Null` in `user` is JavaScript's `null`. */
  datatype Session = Session(user: Json.Value, isAuthenticated: bool)

  /** The state the store is created with. */
  const Initial := Session(Json.Null, false)

  const SignedOut := Session(Json.Null, false)

  /** A user is only ever held together with the authenticated flag. */
  predicate Consistent(s: Session)
  {
    s.user != Json.Null ==> s.isAuthenticated
  }

  /** The state `fetchUser` leaves behind: the fetched profile and authenticated,
      or signed out whenever anything went wrong (fail-closed). */
  function AfterFetchUser(token: Outcome<string>, fetch: Transport): (s: Session)
    ensures Consistent(s)
    ensures s.isAuthenticated <==> FetchedProfile(token, fetch).Some?
  {
    match FetchedProfile(token, fetch)
    case Some(profile) => Session(profile, true)
    case None => SignedOut
  }

  /** fetchUser ends authenticated exactly when the token was acquired, the
      request returned an ok response and its body parsed; the user is then
      that body. */
  lemma FetchUserAuthenticatesOnlyOnSuccess(token: Outcome<string>, fetch: Transport)
    ensures AfterFetchUser(token, fetch).isAuthenticated <==>
              token.Done? &&
              fetch(RequestFor(UserCall, token.value)).Done? &&
              fetch(RequestFor(UserCall, token.value)).value.ok &&
              fetch(RequestFor(UserCall, token.value)).value.json.Done?
    ensures AfterFetchUser(token, fetch).isAuthenticated ==>
              AfterFetchUser(token, fetch).user == fetch(RequestFor(UserCall, token.value)).value.json.value
  {
  }

  // ---------------------------------------------------------------- store

  class Store {
    var user: Json.Value
    var isAuthenticated: bool

    function State(): Session
      reads this
    {
      Session(user, isAuthenticated)
    }

    predicate Valid()
      reads this
    {
      Consistent(State())
    }

    constructor ()
      ensures State() == Initial && Valid()
    {
      user := Json.Null;
      isAuthenticated := false;
    }

    /** `fetchUser`: never throws; whatever fails, the store ends signed out. */
    method FetchUser(token: Outcome<string>, fetch: Transport) returns (sent: seq<Request>)
      modifies this
      ensures sent == Sent(token, UserCall)
      ensures State() == AfterFetchUser(token, fetch)
      ensures Valid()
    {
      sent := [];
      if token.Threw? {
        // caught: the token request failed
        user, isAuthenticated := Json.Null, false;
        return;
      }
      var request := RequestFor(UserCall, token.value);
      sent := [request];
      var response := fetch(request);
      if response.Threw? {
        user, isAuthenticated := Json.Null, false;
        return;
      }
      if response.value.ok {
        var data := response.value.json;
        if data.Threw? {
          user, isAuthenticated := Json.Null, false;
          return;
        }
        user, isAuthenticated := data.value, true;
      } else {
        user, isAuthenticated := Json.Null, false;
      }
    }

    /** `login` up to the point where it starts `fetchUser`: it acquires a
        token, posts the credentials and reads `success` from the body. An
        exception anywhere propagates and leaves the state as it was. A truthy
        `success` sets only `isAuthenticated`, keeping `user`, and asks for the
        follow-up `fetchUser` (`followUp`); any other `success` signs the store
        out. The result is the `success` member itself. */
    method LoginStep(email: string, password: string, token: Outcome<string>, fetch: Transport)
      returns (r: Outcome<Option<Json.Value>>, sent: seq<Request>, followUp: bool)
      modifies this
      ensures r == LoginReply(email, password, token, fetch)
      ensures sent == Sent(token, LoginCall(email, password))
      ensures followUp <==> r.Done? && Json.Truthy(r.value)
      ensures r.Threw? ==> State() == old(State())
      ensures r.Done? && !Json.Truthy(r.value) ==> State() == SignedOut
      ensures followUp ==> State() == Session(old(user), true)
      ensures old(Valid()) ==> Valid()
    {
      sent, followUp := [], false;
      if token.Threw? {
        r := Threw(token.error);
        return;
      }
      var request := RequestFor(LoginCall(email, password), token.value);
      sent := [request];
      var response := fetch(request);
      if response.Threw? {
        r := Threw(response.error);
        return;
      }
      var data := response.value.json;
      if data.Threw? {
        r := Threw(data.error);
        return;
      }
      r := Json.Member(data.value, "success");
      if r.Threw? {
        return;
      }
      if Json.Truthy(r.value) {
        isAuthenticated := true;
        followUp := true;
      } else {
        user, isAuthenticated := Json.Null, false;
      }
    }

    /** `login`: LoginStep, then, on a truthy `success`, the follow-up
        `fetchUser` with its own token outcome `userToken`, whose request comes
        after the login request. */
    method Login(email: string, password: string, token: Outcome<string>, userToken: Outcome<string>, fetch: Transport)
      returns (r: Outcome<Option<Json.Value>>, sent: seq<Request>)
      modifies this
      ensures r == LoginReply(email, password, token, fetch)
      ensures r.Threw? ==>
                sent == Sent(token, LoginCall(email, password)) && State() == old(State())
      ensures r.Done? && !Json.Truthy(r.value) ==>
                sent == Sent(token, LoginCall(email, password)) && State() == SignedOut
      ensures r.Done? && Json.Truthy(r.value) ==>
                sent == Sent(token, LoginCall(email, password)) + Sent(userToken, UserCall) &&
                State() == AfterFetchUser(userToken, fetch)
      ensures old(Valid()) ==> Valid()
    {
      var followUp;
      r, sent, followUp := LoginStep(email, password, token, fetch);
      if followUp {
        var more := FetchUser(userToken, fetch);
        sent := sent + more;
      }
    }

    /** `logout`. An ok response signs the store out; a response that is not ok
        changes nothing and returns normally; an exception of the token request
        or of `fetch` changes nothing and is rethrown. */
    method Logout(token: Outcome<string>, fetch: Transport) returns (r: Outcome<()>, sent: seq<Request>)
      modifies this
      ensures sent == Sent(token, LogoutCall)
      ensures r == match Exchange(token, LogoutCall, fetch)
                   case Threw(e) => Threw(e)
                   case Done(_) => Done(())
      ensures State() == if LogoutAccepted(token, fetch) then SignedOut else old(State())
      ensures old(Valid()) ==> Valid()
    {
      sent := [];
      if token.Threw? {
        // logged and rethrown
        r := Threw(token.error);
        return;
      }
      var request := RequestFor(LogoutCall, token.value);
      sent := [request];
      var response := fetch(request);
      if response.Threw? {
        r := Threw(response.error);
        return;
      }
      if response.value.ok {
        user, isAuthenticated := Json.Null, false;
      }
      r := Done(());
    }
  }

  // ------------------------------------------------------------ scenarios

  /** The server issues `abc123` and accepts the login; the follow-up
      `fetchUser` cannot get a token. The login request carries `abc123`, and
      between login's own update and the follow-up the store is authenticated
      without a user, so authenticated does not imply a user. */
  method LoginThenFailedFollowUp()
  {
    var store := new Store();
    var accepted := Json.Object(map["success" := Json.Bool(true)]);
    var fetch: Transport := (q: Request) => Done(Response(true, Done(accepted)));
    var r, sent, followUp := store.LoginStep("a@b.com", "pw", Done("abc123"), fetch);
    assert r == Done(Some(Json.Bool(true)));
    assert sent == [Request(Post, LoginEndpoint, true, "abc123", Some(Credentials("a@b.com", "pw")))];
    assert followUp && store.State() == Session(Json.Null, true);
    var more := store.FetchUser(Threw(Rejected("offline")), fetch);
    assert more == [] && store.State() == SignedOut;
  }

  /** A login whose follow-up `fetchUser` succeeds ends with that profile. */
  method LoginThenProfile()
  {
    var store := new Store();
    var profile := Json.Object(map["username" := Json.Str("a@b.com")]);
    var fetch: Transport := (q: Request) =>
      if q.endpoint == LoginEndpoint then Done(Response(true, Done(Json.Object(map["success" := Json.Bool(true)]))))
      else Done(Response(true, Done(profile)));
    var r, sent := store.Login("a@b.com", "pw", Done("abc123"), Done("def456"), fetch);
    assert |sent| == 2 && sent[0].csrfToken == "abc123" && sent[1].csrfToken == "def456";
    assert store.State() == Session(profile, true);
  }

  /** A logout the server refuses (not ok) leaves the session and does not throw. */
  method RefusedLogout()
  {
    var store := new Store();
    var profile := Json.Object(map["username" := Json.Str("a@b.com")]);
    var fetch: Transport := (q: Request) =>
      if q.endpoint == UserEndpoint then Done(Response(true, Done(profile)))
      else Done(Response(false, Threw(Rejected("no body"))));
    var _ := store.FetchUser(Done("t"), fetch);
    var r, sent := store.Logout(Done("t"), fetch);
    assert r == Done(());
    assert store.State() == Session(profile, true);
  }
}
