/**
 * The request pipeline of HomeboxAPI as functions over a state value:
 * `login` (credentials, token caching and cleaning), `get_headers`, and
 * `request` with its single token refresh after a 401.
 *
 * The server is a script: the answers it gives to the next messages, in
 * order. Every message the client sends takes the next answer; when the
 * script is exhausted the message fails at the transport level.
 */
module Dispatch {
  import opened PyValues
  import opened PyText

  /** The five HTTP methods `request` maps to a `requests` function. */
  datatype Verb = GET | POST | PUT | PATCH | DELETE

  /** The server's answer to one message, or a failure to get one. */
  datatype Outcome = Status(code: int, body: Json) | TransportError

  /** One HTTP message; `auth` is the Authorization header, absent on the login call. */
  datatype Message = Message(verb: Verb, url: string, auth: Option<string>, body: Json)

  /**
   * The client's state: the configured base URL, what the credential
   * store yields, the cached token (`_TOKEN`), the answers still scripted,
   * the messages sent so far and how many times `login` went past its
   * cache check to look up credentials.
   */
  datatype ApiState = ApiState(
    baseUrl: string,
    credentials: Option<(string, string)>,
    token: Option<string>,
    script: seq<Outcome>,
    sent: seq<Message>,
    logins: nat)

  /** A result together with the state it leaves behind. */
  datatype Step<T> = Step(result: Result<T>, state: ApiState)

  function Drop<T>(xs: seq<T>, n: nat): (r: seq<T>)
    ensures n <= |xs| ==> r == xs[n..]
    ensures n >= |xs| ==> r == []
  {
    if n <= |xs| then xs[n..] else []
  }

  /**
   * `t` follows `s` after some messages: configuration unchanged, the
   * message log extended, one scripted answer used per new message, and
   * no login attempt forgotten.
   */
  predicate Advances(s: ApiState, t: ApiState)
  {
    && t.baseUrl == s.baseUrl
    && s.logins <= t.logins
    && t.credentials == s.credentials
    && s.sent <= t.sent
    && t.script == Drop(s.script, |t.sent| - |s.sent|)
  }

  lemma DropDrop<T>(xs: seq<T>, a: nat, b: nat)
    ensures Drop(Drop(xs, a), b) == Drop(xs, a + b)
  {
    if a + b <= |xs| {
      assert xs[a..][b..] == xs[a + b..];
    }
  }

  lemma AdvancesTransitive(s: ApiState, t: ApiState, u: ApiState)
    requires Advances(s, t) && Advances(t, u)
    ensures Advances(s, u)
  {
    assert s.sent == u.sent[..|s.sent|] by {
      assert t.sent == u.sent[..|t.sent|];
      assert s.sent == t.sent[..|s.sent|];
      assert u.sent[..|t.sent|][..|s.sent|] == u.sent[..|s.sent|];
    }
    DropDrop(s.script, |t.sent| - |s.sent|, |u.sent| - |t.sent|);
  }

  /** The answer the next message will get. */
  function Next(s: ApiState): Outcome
  {
    if s.script == [] then TransportError else s.script[0]
  }

  /** Send one message: it takes the next scripted answer and is logged. */
  function Exchange(s: ApiState, m: Message): (r: (Outcome, ApiState))
    ensures r.0 == Next(s)
    ensures r.1 == s.(script := Drop(s.script, 1), sent := s.sent + [m])
    ensures Advances(s, r.1)
  {
    if s.script == [] then (TransportError, s.(sent := s.sent + [m]))
    else (s.script[0], s.(script := s.script[1..], sent := s.sent + [m]))
  }

  /** The number of messages that carry an Authorization header, that is, that are not login calls. */
  function ApiSends(ms: seq<Message>): (n: nat)
    ensures n <= |ms|
  {
    if ms == [] then 0
    else ApiSends(ms[..|ms| - 1]) + (if ms[|ms| - 1].auth.Some? then 1 else 0)
  }

  lemma ApiSendsAppend(ms: seq<Message>, m: Message)
    ensures ApiSends(ms + [m]) == ApiSends(ms) + (if m.auth.Some? then 1 else 0)
  {
    assert (ms + [m])[..|ms|] == ms;
  }

  /** `raise_for_status` raises HTTPError for these status codes. */
  predicate IsHttpError(code: int)
  {
    400 <= code < 600
  }

  /** The value `request` returns for a response that `raise_for_status` let through. */
  function Answer(code: int, body: Json): (r: Json)
    requires !IsHttpError(code)
  {
    if code == 200 || code == 201 then body
    else if code == 204 then JBool(true)
    else JNull
  }

  /** The value `request` returns for an outcome it does not retry: None for every failure. */
  function Classify(o: Outcome): (r: Json)
  {
    if o.TransportError? || IsHttpError(o.code) then JNull else Answer(o.code, o.body)
  }

  /** The Python result of a request is None exactly on a failure or an unexpected success code. */
  lemma ClassifyIsNoneOnFailure(o: Outcome)
    ensures o.TransportError? ==> Classify(o) == JNull
    ensures o.Status? && IsHttpError(o.code) ==> Classify(o) == JNull
    ensures o.Status? && (o.code == 200 || o.code == 201) ==> Classify(o) == o.body
    ensures o.Status? && o.code == 204 ==> Classify(o) == JBool(true)
    ensures o.Status? && !IsHttpError(o.code) && o.code !in {200, 201, 204} ==> Classify(o) == JNull
  {
  }

  // ---------------- login ----------------

  /** `if cls._TOKEN:` — only a non-empty token counts as cached. */
  predicate Cached(token: Option<string>)
  {
    token.Some? && token.value != ""
  }

  /** `if not username or not password` fails; an absent pair fails too. */
  predicate HasCredentials(s: ApiState)
  {
    s.credentials.Some? && s.credentials.value.0 != "" && s.credentials.value.1 != ""
  }

  predicate IsLoginError(e: Exc)
  {
    e == CredentialsUnavailable || e == LoginUnreachable || e == NoTokenInResponse || e == LoginUnexpected
  }

  const Scheme: string := "Bearer "

  /** `token.replace("Bearer ", "").strip()`. */
  function CleanToken(raw: string): (r: string)
    ensures r == [] || (!IsSpace(r[0]) && !IsSpace(r[|r| - 1]))
  {
    Strip(RemoveAll(raw, Scheme))
  }

  /** A token the cleaning leaves alone: no surrounding whitespace, no "Bearer " inside. */
  predicate IsCleanToken(t: string)
  {
    && (t == [] || (!IsSpace(t[0]) && !IsSpace(t[|t| - 1])))
    && !Contains(t, Scheme)
  }

  /** Cleaning removes the scheme prefix a server may send and leaves a clean token unchanged. */
  lemma CleanTokenStripsScheme(t: string)
    requires IsCleanToken(t)
    ensures CleanToken(Scheme + t) == t
    ensures CleanToken(t) == t
  {
    RemoveAllPrefix(Scheme, t);
    RemoveAllAbsent(t, Scheme);
    StripUnpadded(t);
  }

  /**
   * Cleaning removes the scheme and any whitespace padding around a clean
   * token, provided the scheme does not occur again in the rest: with a
   * token ending in `Bearer` followed by a space, that occurrence would be
   * removed too.
   */
  lemma CleanTokenOfPaddedScheme(w1: string, t: string, w2: string)
    requires forall i :: 0 <= i < |w1| ==> IsSpace(w1[i])
    requires forall i :: 0 <= i < |w2| ==> IsSpace(w2[i])
    requires t == [] || (!IsSpace(t[0]) && !IsSpace(t[|t| - 1]))
    requires !Contains(t + w2, Scheme)
    ensures CleanToken(w1 + Scheme + t + w2) == t
  {
    assert forall i :: 0 <= i < |w1| ==> w1[i] != Scheme[0] by {
      assert !IsSpace(Scheme[0]);
    }
    RemoveAllOnce(w1, Scheme, t, w2);
    StripPadded(w1, t, w2);
  }

  /**
   * One pass of `replace` can leave the scheme behind: removing the
   * occurrence inside `BeBearer arer x` joins its two halves into a new
   * one, so cleaning is not idempotent.
   */
  lemma CleaningCanLeaveScheme(raw: string, x: string)
    requires x == "x" && raw == "BeBearer arer " + x
    ensures CleanToken(raw) == Scheme + x
    ensures CleanToken(CleanToken(raw)) == x
  {
    assert !IsSpace(x[0]);
    assert CleanToken(raw) == Scheme + x by {
      ReplaceCanLeaveScheme(raw, x);
      StripUnpadded(Scheme + x);
    }
    assert CleanToken(Scheme + x) == x by {
      RemoveAllPrefix(Scheme, x);
      RemoveAllShort(x, Scheme);
      StripUnpadded(x);
    }
  }

  /** The `replace` step of the example above. */
  lemma ReplaceCanLeaveScheme(raw: string, x: string)
    requires x == "x" && raw == "BeBearer arer " + x
    ensures RemoveAll(raw, Scheme) == Scheme + x
  {
    var tail := "arer " + x;
    NotPrefixAt(raw, Scheme, 2);
    RemoveAllSkip(raw, Scheme);
    NotPrefixAt(raw[1..], Scheme, 0);
    RemoveAllSkip(raw[1..], Scheme);
    assert raw[1..][1..] == Scheme + tail;
    RemoveAllPrefix(Scheme, tail);
    RemoveAllShort(tail, Scheme);
    assert [raw[0]] + ([raw[1]] + tail) == Scheme + x;
  }

  /** The POST `login` sends: the credentials with `stayLoggedIn` set, and no Authorization header. */
  function LoginMessage(baseUrl: string, username: string, password: string): Message
  {
    Message(POST, baseUrl + "/users/login", None,
      JObj(map["username" := JStr(username), "password" := JStr(password), "stayLoggedIn" := JBool(true)]))
  }

  /** A 200 login answer carrying the token `raw`. */
  function TokenAnswer(raw: string): Outcome
  {
    Status(200, JObj(map["token" := JStr(raw)]))
  }

  /** The token field of a 200 login response, when the body is a dict. */
  function TokenField(o: Outcome): Json
    requires o.Status? && o.body.JObj?
  {
    Get(o.body.fields, "token", JNull)
  }

  /**
   * `login`: the cached token when there is one; otherwise one POST with
   * the stored credentials, and on a 200 answer with a string token the
   * cleaned token is cached and returned. Any other 2xx/3xx answer
   * returns None and caches nothing.
   */
  function LoginSpec(s: ApiState): (r: Step<Option<string>>)
    ensures Advances(s, r.state)
    ensures Cached(s.token) ==> r == Step(Ok(s.token), s)
    ensures !Cached(s.token) ==> r.state.logins == s.logins + 1
    ensures !Cached(s.token) ==>
      r.state.sent == s.sent + (if HasCredentials(s) then [LoginMessage(s.baseUrl, s.credentials.value.0, s.credentials.value.1)] else [])
    ensures r.result.Err? ==> IsLoginError(r.result.error) && r.state.token == s.token
    ensures r.result.Ok? ==> r.state.token == if r.result.value.Some? then r.result.value else s.token
  {
    if Cached(s.token) then Step(Ok(s.token), s)
    else
      var s0 := s.(logins := s.logins + 1);
      if !HasCredentials(s) then Step(Err(CredentialsUnavailable), s0)
      else
        var (username, password) := s.credentials.value;
        var (outcome, s1) := Exchange(s0, LoginMessage(s.baseUrl, username, password));
        match outcome
        case TransportError => Step(Err(LoginUnreachable), s1)
        case Status(code, body) =>
          if IsHttpError(code) then Step(Err(LoginUnreachable), s1)
          else if code != 200 then Step(Ok(None), s1)
          else if !body.JObj? then Step(Err(LoginUnexpected), s1)
          else
            var token := Get(body.fields, "token", JNull);
            if !Truthy(token) then Step(Err(NoTokenInResponse), s1)
            else if !token.JStr? then Step(Err(LoginUnexpected), s1)
            else
              var t := CleanToken(token.s);
              Step(Ok(Some(t)), s1.(token := Some(t)))
  }

  /**
   * How `login` turns the answer to its POST into a result: missing
   * credentials, transport failures and HTTP errors, a 200 without a
   * usable token, any other success code, and a token that is cleaned.
   */
  lemma LoginOutcomes(s: ApiState)
    requires !Cached(s.token)
    ensures var r := LoginSpec(s);
      (r.result == Err(CredentialsUnavailable) <==> !HasCredentials(s))
    ensures var r := LoginSpec(s); HasCredentials(s) ==>
      (r.result == Err(LoginUnreachable) <==> Next(s).TransportError? || IsHttpError(Next(s).code))
    ensures var r := LoginSpec(s); HasCredentials(s) ==>
      (r.result == Ok(None) <==> Next(s).Status? && !IsHttpError(Next(s).code) && Next(s).code != 200)
    ensures var r := LoginSpec(s); HasCredentials(s) ==>
      (r.result == Err(NoTokenInResponse) <==>
         Next(s).Status? && Next(s).code == 200 && Next(s).body.JObj? && !Truthy(TokenField(Next(s))))
    ensures var r := LoginSpec(s); HasCredentials(s) ==>
      (r.result == Err(LoginUnexpected) <==>
         && Next(s).Status? && Next(s).code == 200
         && (!Next(s).body.JObj? || (Truthy(TokenField(Next(s))) && !TokenField(Next(s)).JStr?)))
    ensures var r := LoginSpec(s); r.result.Ok? && r.result.value.Some? ==>
      && Next(s).Status? && Next(s).code == 200 && Next(s).body.JObj? && TokenField(Next(s)).JStr?
      && r.result.value.value == CleanToken(TokenField(Next(s)).s)
  {
  }

  /** The state after a login POST whose answer yielded `token`. */
  function LoggedIn(s: ApiState, token: string): ApiState
    requires HasCredentials(s)
  {
    s.(token := Some(token), script := Drop(s.script, 1), logins := s.logins + 1,
       sent := s.sent + [LoginMessage(s.baseUrl, s.credentials.value.0, s.credentials.value.1)])
  }

  /** A 200 answer carrying a non-empty string token caches the cleaned token and returns it. */
  lemma LoginCachesCleanToken(s: ApiState, raw: string)
    requires !Cached(s.token) && HasCredentials(s)
    requires raw != "" && Next(s) == TokenAnswer(raw)
    ensures LoginSpec(s) == Step(Ok(Some(CleanToken(raw))), LoggedIn(s, CleanToken(raw)))
  {
  }

  // ---------------- get_headers ----------------

  /** The Authorization header value: `f"Bearer {cls._TOKEN}"`. */
  function Bearer(token: Option<string>): string
  {
    Scheme + (if token.Some? then token.value else "None")
  }

  /**
   * `get_headers`: log in unless a token is cached, store what `login`
   * returned (None included) and build the Authorization header from it.
   */
  function GetHeadersSpec(s: ApiState): (r: Step<string>)
    ensures Advances(s, r.state) && |r.state.sent| <= |s.sent| + 1
    ensures ApiSends(r.state.sent) == ApiSends(s.sent)
    ensures Cached(s.token) ==> r == Step(Ok(Bearer(s.token)), s)
    ensures !Cached(s.token) ==> r.state.logins == s.logins + 1
    ensures r.result.Ok? ==> r.result.value == Bearer(r.state.token)
    ensures r.result.Err? ==> IsLoginError(r.result.error) && r.state.token == s.token
    ensures !Cached(s.token) ==> r.state.sent == LoginSpec(s).state.sent
    ensures !Cached(s.token) && r.result.Ok? ==> LoginSpec(s).result == Ok(r.state.token)
  {
    if Cached(s.token) then Step(Ok(Bearer(s.token)), s)
    else
      var l := LoginSpec(s);
      assert ApiSends(l.state.sent) == ApiSends(s.sent) by {
        if HasCredentials(s) {
          ApiSendsAppend(s.sent, LoginMessage(s.baseUrl, s.credentials.value.0, s.credentials.value.1));
        } else {
          assert l.state.sent == s.sent;
        }
      }
      match l.result
      case Err(e) => Step(Err(e), l.state)
      case Ok(token) => Step(Ok(Bearer(token)), l.state.(token := token))
  }

  /** After a successful login the header carries the new token. */
  lemma HeadersAfterLogin(s: ApiState, raw: string)
    requires !Cached(s.token) && HasCredentials(s)
    requires raw != "" && Next(s) == TokenAnswer(raw)
    ensures GetHeadersSpec(s) == Step(Ok(Bearer(Some(CleanToken(raw)))), LoggedIn(s, CleanToken(raw)))
  {
    LoginCachesCleanToken(s, raw);
  }

  /**
   * A login answered with a success code other than 200 returns None,
   * which `get_headers` stores: the header then reads "Bearer None".
   */
  lemma OtherSuccessGivesBearerNone(s: ApiState, code: int, body: Json)
    requires !Cached(s.token) && HasCredentials(s)
    requires Next(s) == Status(code, body) && !IsHttpError(code) && code != 200
    ensures GetHeadersSpec(s).result == Ok("Bearer None")
    ensures GetHeadersSpec(s).state.token == None
  {
    LoginOutcomes(s);
    assert Scheme + "None" == "Bearer None";
  }

  // ---------------- request ----------------

  function VerbName(v: Verb): string
  {
    match v
    case GET => "GET"
    case POST => "POST"
    case PUT => "PUT"
    case PATCH => "PATCH"
    case DELETE => "DELETE"
  }

  /** The lookup of an (upper-cased) method name in the table of `requests` functions. */
  function ParseVerb(name: string): (r: Option<Verb>)
    ensures r.Some? ==> VerbName(r.value) == name
  {
    if name == "GET" then Some(GET)
    else if name == "POST" then Some(POST)
    else if name == "PUT" then Some(PUT)
    else if name == "PATCH" then Some(PATCH)
    else if name == "DELETE" then Some(DELETE)
    else None
  }

  /** Every verb's name is found again, whatever the case it is written in. */
  lemma ParseVerbName(v: Verb)
    ensures ParseVerb(VerbName(v)) == Some(v)
    ensures ParseVerb(Upper(VerbName(v))) == Some(v)
  {
    var n := VerbName(v);
    assert forall i :: 0 <= i < |n| ==> !('a' <= n[i] <= 'z');
    assert Upper(n) == n;
  }

  lemma LowerCaseVerbsAccepted()
    ensures ParseVerb(Upper("delete")) == Some(DELETE)
    ensures ParseVerb(Upper("Put")) == Some(PUT)
    ensures ParseVerb(Upper("trace")) == None
  {
    assert Upper("delete") == "DELETE";
    assert Upper("Put") == "PUT";
    assert Upper("trace")[0] == 'T';
  }

  /**
   * The single retry after a 401: drop the token, get fresh headers (a
   * login failure propagates to the caller) and send once more; every
   * failure of that second attempt, a 401 included, yields None.
   */
  function RetrySpec(s: ApiState, verb: Verb, url: string, body: Json): (r: Step<Json>)
    ensures Advances(s, r.state) && |r.state.sent| <= |s.sent| + 2
    ensures ApiSends(r.state.sent) <= ApiSends(s.sent) + 1
    ensures r.state.logins == s.logins + 1
    ensures r.result.Err? ==> IsLoginError(r.result.error)
    ensures r.result.Ok? ==>
      var h := GetHeadersSpec(s.(token := None));
      && h.result.Ok?
      && r.state.sent == h.state.sent + [Message(verb, url, Some(h.result.value), body)]
      && r.result.value == Classify(Next(h.state))
  {
    var h := GetHeadersSpec(s.(token := None));
    match h.result
    case Err(e) => Step(Err(e), h.state)
    case Ok(auth) =>
      var m := Message(verb, url, Some(auth), body);
      var (outcome, s1) := Exchange(h.state, m);
      ApiSendsAppend(h.state.sent, m);
      AdvancesTransitive(s, h.state, s1);
      Step(Ok(Classify(outcome)), s1)
  }

  /**
   * The attempt `request` makes once it has headers and a method: one
   * message to `url`; a 401 hands over to the single retry, every other
   * answer is classified.
   */
  function AttemptSpec(s: ApiState, verb: Verb, url: string, auth: string, body: Json): (r: Step<Json>)
    ensures Advances(s, r.state) && |r.state.sent| <= |s.sent| + 3
    ensures ApiSends(r.state.sent) <= ApiSends(s.sent) + 2
    ensures r.state.logins <= s.logins + 1
    ensures r.result.Err? ==> IsLoginError(r.result.error)
  {
    var m := Message(verb, url, Some(auth), body);
    var (outcome, s1) := Exchange(s, m);
    ApiSendsAppend(s.sent, m);
    if outcome.Status? && outcome.code == 401 then
      var r := RetrySpec(s1.(token := None), verb, url, body);
      AdvancesTransitive(s, s1, r.state);
      r
    else Step(Ok(Classify(outcome)), s1)
  }

  /**
   * `request(method, endpoint, json)`: headers first (which may log in),
   * then the method lookup, then one message to `base_url/endpoint`. A 401
   * triggers one retry with a fresh login; every other failure yields None.
   */
  function RequestSpec(s: ApiState, httpMethod: string, endpoint: string, body: Json): (r: Step<Json>)
    ensures Advances(s, r.state) && |r.state.sent| <= |s.sent| + 4
    ensures ApiSends(r.state.sent) <= ApiSends(s.sent) + 2
    ensures r.state.logins <= s.logins + 2
    ensures r.result.Err? ==>
      IsLoginError(r.result.error) || (ParseVerb(Upper(httpMethod)).None? && r.result.error == UnsupportedMethod(httpMethod))
    ensures ParseVerb(Upper(httpMethod)).None? ==> r.result.Err? && ApiSends(r.state.sent) == ApiSends(s.sent)
  {
    var h := GetHeadersSpec(s);
    match h.result
    case Err(e) => Step(Err(e), h.state)
    case Ok(auth) =>
      match ParseVerb(Upper(httpMethod))
      case None => Step(Err(UnsupportedMethod(httpMethod)), h.state)
      case Some(verb) =>
        var r := AttemptSpec(h.state, verb, s.baseUrl + "/" + endpoint, auth, body);
        AdvancesTransitive(s, h.state, r.state);
        r
  }

  /** Once the headers are in hand and the method is known, `request` is its attempt. */
  lemma RequestAttempts(s: ApiState, httpMethod: string, verb: Verb, endpoint: string, body: Json)
    requires GetHeadersSpec(s).result.Ok?
    requires ParseVerb(Upper(httpMethod)) == Some(verb)
    ensures RequestSpec(s, httpMethod, endpoint, body)
      == AttemptSpec(GetHeadersSpec(s).state, verb, s.baseUrl + "/" + endpoint, GetHeadersSpec(s).result.value, body)
  {
  }

  /** With a cached token `request` makes its attempt with that token and without logging in. */
  lemma CachedRequest(s: ApiState, httpMethod: string, verb: Verb, endpoint: string, body: Json)
    requires Cached(s.token)
    requires ParseVerb(Upper(httpMethod)) == Some(verb)
    ensures RequestSpec(s, httpMethod, endpoint, body) == AttemptSpec(s, verb, s.baseUrl + "/" + endpoint, Bearer(s.token), body)
  {
    RequestAttempts(s, httpMethod, verb, endpoint, body);
  }

  /** Without a token, a successful login comes first and the attempt carries the new token. */
  lemma RequestAfterLogin(s: ApiState, httpMethod: string, verb: Verb, endpoint: string, body: Json, raw: string)
    requires ParseVerb(Upper(httpMethod)) == Some(verb)
    requires !Cached(s.token) && HasCredentials(s)
    requires raw != "" && Next(s) == TokenAnswer(raw)
    ensures RequestSpec(s, httpMethod, endpoint, body)
      == AttemptSpec(LoggedIn(s, CleanToken(raw)), verb, s.baseUrl + "/" + endpoint, Bearer(Some(CleanToken(raw))), body)
  {
    HeadersAfterLogin(s, raw);
    RequestAttempts(s, httpMethod, verb, endpoint, body);
  }

  /** An attempt answered with anything but 401 is that answer, classified, after one message. */
  lemma AttemptAnswered(s: ApiState, verb: Verb, url: string, auth: string, body: Json)
    requires !(Next(s).Status? && Next(s).code == 401)
    ensures AttemptSpec(s, verb, url, auth, body)
      == Step(Ok(Classify(Next(s))), s.(script := Drop(s.script, 1), sent := s.sent + [Message(verb, url, Some(auth), body)]))
  {
  }

  /** An attempt answered with 401 forgets the token and hands over to the retry. */
  lemma AttemptUnauthorized(s: ApiState, verb: Verb, url: string, auth: string, body: Json, stale: Json)
    requires |s.script| >= 1 && s.script[0] == Status(401, stale)
    ensures AttemptSpec(s, verb, url, auth, body)
      == RetrySpec(s.(script := s.script[1..], sent := s.sent + [Message(verb, url, Some(auth), body)], token := None), verb, url, body)
  {
  }

  /** Once fresh headers are in hand, the retry sends once and classifies the answer, whatever it is. */
  lemma RetrySends(s: ApiState, verb: Verb, url: string, body: Json, auth: string, t: ApiState)
    requires GetHeadersSpec(s.(token := None)) == Step(Ok(auth), t)
    ensures RetrySpec(s, verb, url, body)
      == Step(Ok(Classify(Next(t))), t.(script := Drop(t.script, 1), sent := t.sent + [Message(verb, url, Some(auth), body)]))
  {
  }

  /** Logging in and then sending `m` consumes two answers and logs the login POST and `m`. */
  lemma LoginThenSend(s: ApiState, token: string, m: Message)
    requires HasCredentials(s) && |s.script| >= 2
    ensures var t := LoggedIn(s, token);
      t.(script := Drop(t.script, 1), sent := t.sent + [m])
        == s.(token := Some(token), logins := s.logins + 1, script := s.script[2..],
              sent := s.sent + [LoginMessage(s.baseUrl, s.credentials.value.0, s.credentials.value.1), m])
  {
    var t := LoggedIn(s, token);
    assert t.script[1..] == s.script[2..];
    assert t.sent + [m] == s.sent + [LoginMessage(s.baseUrl, s.credentials.value.0, s.credentials.value.1), m];
  }

  /**
   * With a cached token no login happens before the first attempt: an
   * unsupported method sends nothing, and an answer other than 401 is
   * the result, after exactly one message carrying the cached token.
   */
  lemma RequestWithCachedToken(s: ApiState, httpMethod: string, endpoint: string, body: Json)
    requires Cached(s.token)
    ensures ParseVerb(Upper(httpMethod)).None? ==>
      RequestSpec(s, httpMethod, endpoint, body) == Step(Err(UnsupportedMethod(httpMethod)), s)
    ensures ParseVerb(Upper(httpMethod)).Some? && !(Next(s).Status? && Next(s).code == 401) ==>
      RequestSpec(s, httpMethod, endpoint, body)
        == Step(Ok(Classify(Next(s))), s.(script := Drop(s.script, 1), sent := s.sent + [
             Message(ParseVerb(Upper(httpMethod)).value, s.baseUrl + "/" + endpoint, Some(Bearer(s.token)), body)]))
  {
    var verb := ParseVerb(Upper(httpMethod));
    if verb.None? {
      assert GetHeadersSpec(s) == Step(Ok(Bearer(s.token)), s);
    } else if !(Next(s).Status? && Next(s).code == 401) {
      CachedRequest(s, httpMethod, verb.value, endpoint, body);
      AttemptAnswered(s, verb.value, s.baseUrl + "/" + endpoint, Bearer(s.token), body);
    }
  }

  /**
   * The method is looked up only after the headers: without a cached
   * token an unsupported method is rejected after the login POST, and the
   * new token stays cached.
   */
  lemma UnsupportedMethodAfterLogin(s: ApiState, httpMethod: string, endpoint: string, body: Json, raw: string)
    requires ParseVerb(Upper(httpMethod)).None?
    requires !Cached(s.token) && HasCredentials(s)
    requires raw != "" && Next(s) == TokenAnswer(raw)
    ensures RequestSpec(s, httpMethod, endpoint, body) == Step(Err(UnsupportedMethod(httpMethod)), LoggedIn(s, CleanToken(raw)))
  {
    HeadersAfterLogin(s, raw);
  }

  // ---------------- scenarios ----------------

  /**
   * The retry after a 401 when the login succeeds: one login call, then
   * the same message again with the new token; its answer, whatever it
   * is, is classified without a further retry.
   */
  lemma RetryLogsInAndResends(s: ApiState, verb: Verb, url: string, body: Json, raw: string)
    requires s.token.None? && HasCredentials(s)
    requires raw != ""
    requires |s.script| >= 2 && s.script[0] == TokenAnswer(raw)
    ensures RetrySpec(s, verb, url, body)
      == Step(Ok(Classify(s.script[1])),
              s.(token := Some(CleanToken(raw)), logins := s.logins + 1, script := s.script[2..], sent := s.sent + [
                   LoginMessage(s.baseUrl, s.credentials.value.0, s.credentials.value.1),
                   Message(verb, url, Some(Bearer(Some(CleanToken(raw)))), body)]))
  {
    var s0 := s.(token := None);
    var t := LoggedIn(s0, CleanToken(raw));
    var m := Message(verb, url, Some(Bearer(Some(CleanToken(raw)))), body);
    HeadersAfterLogin(s0, raw);
    RetrySends(s, verb, url, body, Bearer(Some(CleanToken(raw))), t);
    assert Next(t) == s.script[1];
    LoginThenSend(s0, CleanToken(raw), m);
  }


  /** The message `request` sends first when a token is cached. */
  function FirstAttempt(s: ApiState, verb: Verb, endpoint: string, body: Json): Message
  {
    Message(verb, s.baseUrl + "/" + endpoint, Some(Bearer(s.token)), body)
  }

  /** A 401 to the first attempt hands the request over to the retry, which starts without a token. */
  lemma UnauthorizedGoesToRetry(s: ApiState, httpMethod: string, verb: Verb, endpoint: string, body: Json, stale: Json)
    requires ParseVerb(Upper(httpMethod)) == Some(verb)
    requires Cached(s.token)
    requires |s.script| >= 1 && s.script[0] == Status(401, stale)
    ensures RequestSpec(s, httpMethod, endpoint, body)
      == RetrySpec(s.(script := s.script[1..], sent := s.sent + [FirstAttempt(s, verb, endpoint, body)], token := None),
                   verb, s.baseUrl + "/" + endpoint, body)
  {
    CachedRequest(s, httpMethod, verb, endpoint, body);
    AttemptUnauthorized(s, verb, s.baseUrl + "/" + endpoint, Bearer(s.token), body, stale);
  }

  /**
   * An expired token: the first attempt gets 401, the client logs in
   * again, caches the new token and repeats the request with it; the
   * answer to the repeat is the result, without a further retry.
   */
  lemma RefreshAfterUnauthorized(s: ApiState, httpMethod: string, verb: Verb, endpoint: string, body: Json, raw: string, stale: Json)
    requires ParseVerb(Upper(httpMethod)) == Some(verb)
    requires Cached(s.token) && HasCredentials(s)
    requires raw != ""
    requires |s.script| >= 3 && s.script[0] == Status(401, stale) && s.script[1] == TokenAnswer(raw)
    ensures RequestSpec(s, httpMethod, endpoint, body)
      == Step(Ok(Classify(s.script[2])),
              s.(token := Some(CleanToken(raw)), logins := s.logins + 1, script := s.script[3..], sent := s.sent + [
                   FirstAttempt(s, verb, endpoint, body),
                   LoginMessage(s.baseUrl, s.credentials.value.0, s.credentials.value.1),
                   Message(verb, s.baseUrl + "/" + endpoint, Some(Bearer(Some(CleanToken(raw)))), body)]))
  {
    var url := s.baseUrl + "/" + endpoint;
    var first := FirstAttempt(s, verb, endpoint, body);
    var s1 := s.(script := s.script[1..], sent := s.sent + [first], token := None);
    UnauthorizedGoesToRetry(s, httpMethod, verb, endpoint, body, stale);
    RetryLogsInAndResends(s1, verb, url, body, raw);
    var login := LoginMessage(s.baseUrl, s.credentials.value.0, s.credentials.value.1);
    var again := Message(verb, url, Some(Bearer(Some(CleanToken(raw)))), body);
    RetryAfterFirst(s, CleanToken(raw), first, login, again);
  }

  /** The state after a refused first attempt and a retry, as one update of the state before. */
  lemma RetryAfterFirst(s: ApiState, token: string, first: Message, login: Message, again: Message)
    requires |s.script| >= 3
    ensures var s1 := s.(script := s.script[1..], sent := s.sent + [first], token := None);
      && s1.script[1] == s.script[2]
      && s1.(token := Some(token), logins := s1.logins + 1, script := s1.script[2..], sent := s1.sent + [login, again])
         == s.(token := Some(token), logins := s.logins + 1, script := s.script[3..], sent := s.sent + [first, login, again])
  {
    assert s.script[1..][2..] == s.script[3..];
    assert s.sent + [first] + [login, again] == s.sent + [first, login, again];
  }

  /** A second 401 after the refresh is not retried again: the request yields None after three messages. */
  lemma NoSecondRefresh(s: ApiState, httpMethod: string, verb: Verb, endpoint: string, body: Json, raw: string, stale: Json, again: Json)
    requires ParseVerb(Upper(httpMethod)) == Some(verb)
    requires Cached(s.token) && HasCredentials(s)
    requires raw != ""
    requires |s.script| >= 3 && s.script[0] == Status(401, stale) && s.script[1] == TokenAnswer(raw) && s.script[2] == Status(401, again)
    ensures RequestSpec(s, httpMethod, endpoint, body).result == Ok(JNull)
    ensures |RequestSpec(s, httpMethod, endpoint, body).state.sent| == |s.sent| + 3
  {
    RefreshAfterUnauthorized(s, httpMethod, verb, endpoint, body, raw, stale);
  }

  /** A login failure during the refresh is raised to the caller, not turned into None. */
  lemma RefreshLoginFailurePropagates(s: ApiState, httpMethod: string, verb: Verb, endpoint: string, body: Json, stale: Json)
    requires ParseVerb(Upper(httpMethod)) == Some(verb)
    requires Cached(s.token) && HasCredentials(s)
    requires |s.script| >= 2 && s.script[0] == Status(401, stale)
    requires s.script[1].TransportError? || IsHttpError(s.script[1].code)
    ensures RequestSpec(s, httpMethod, endpoint, body).result == Err(LoginUnreachable)
    ensures RequestSpec(s, httpMethod, endpoint, body).state.token == None
  {
    var s1 := s.(script := s.script[1..], sent := s.sent + [FirstAttempt(s, verb, endpoint, body)], token := None);
    UnauthorizedGoesToRetry(s, httpMethod, verb, endpoint, body, stale);
    assert Next(s1) == s.script[1];
    LoginOutcomes(s1);
    assert s1.(token := None) == s1;
  }

  /** Without a cached token, the first request logs in and then sends with the new token. */
  lemma FirstRequestLogsIn(s: ApiState, httpMethod: string, verb: Verb, endpoint: string, body: Json, raw: string)
    requires ParseVerb(Upper(httpMethod)) == Some(verb)
    requires s.token.None? && HasCredentials(s)
    requires raw != ""
    requires |s.script| >= 2 && s.script[0] == TokenAnswer(raw) && !(s.script[1].Status? && s.script[1].code == 401)
    ensures RequestSpec(s, httpMethod, endpoint, body)
      == Step(Ok(Classify(s.script[1])),
              s.(token := Some(CleanToken(raw)), logins := s.logins + 1, script := s.script[2..], sent := s.sent + [
                   LoginMessage(s.baseUrl, s.credentials.value.0, s.credentials.value.1),
                   Message(verb, s.baseUrl + "/" + endpoint, Some(Bearer(Some(CleanToken(raw)))), body)]))
  {
    var t := LoggedIn(s, CleanToken(raw));
    var m := Message(verb, s.baseUrl + "/" + endpoint, Some(Bearer(Some(CleanToken(raw)))), body);
    RequestAfterLogin(s, httpMethod, verb, endpoint, body, raw);
    assert Next(t) == s.script[1];
    AttemptAnswered(t, verb, s.baseUrl + "/" + endpoint, Bearer(Some(CleanToken(raw))), body);
    LoginThenSend(s, CleanToken(raw), m);
  }

  // ---------------- a caller's sequence of requests ----------------

  /** One call `request(method, endpoint, json)` a caller makes. */
  datatype Call = Call(httpMethod: string, endpoint: string, body: Json)

  /** A script without a 401 answer: a cached token is never refreshed. */
  predicate NoUnauthorized(script: seq<Outcome>)
  {
    forall i :: 0 <= i < |script| ==> !(script[i].Status? && script[i].code == 401)
  }

  /** Requests made one after the other; the first exception ends the sequence. */
  function RequestsSpec(s: ApiState, calls: seq<Call>): (r: Step<seq<Json>>)
    ensures Advances(s, r.state)
    ensures r.result.Ok? ==> |r.result.value| == |calls|
    decreases |calls|
  {
    if calls == [] then Step(Ok([]), s)
    else
      var q := RequestSpec(s, calls[0].httpMethod, calls[0].endpoint, calls[0].body);
      match q.result
      case Err(e) => Step(Err(e), q.state)
      case Ok(v) =>
        var rest := RequestsSpec(q.state, calls[1..]);
        AdvancesTransitive(s, q.state, rest.state);
        match rest.result
        case Err(e) => Step(Err(e), rest.state)
        case Ok(vs) => Step(Ok([v] + vs), rest.state)
  }

  /** With a cached token and no 401 ahead, one request is one message with that token, and no 401 remains ahead. */
  lemma CachedCall(s: ApiState, call: Call)
    requires Cached(s.token) && NoUnauthorized(s.script)
    requires ParseVerb(Upper(call.httpMethod)).Some?
    ensures var m := Message(ParseVerb(Upper(call.httpMethod)).value, s.baseUrl + "/" + call.endpoint, Some(Bearer(s.token)), call.body);
      && RequestSpec(s, call.httpMethod, call.endpoint, call.body) == Step(Ok(Classify(Next(s))), s.(script := Drop(s.script, 1), sent := s.sent + [m]))
      && NoUnauthorized(Drop(s.script, 1))
  {
    assert !(Next(s).Status? && Next(s).code == 401) by {
      if s.script != [] { assert s.script[0] == Next(s); }
    }
    RequestWithCachedToken(s, call.httpMethod, call.endpoint, call.body);
    var rest := Drop(s.script, 1);
    forall i | 0 <= i < |rest| ensures !(rest[i].Status? && rest[i].code == 401) {
      assert rest[i] == s.script[i + 1];
    }
  }

  /**
   * A cached token is reused: with no 401 ahead, every request succeeds
   * with one message carrying that token, and no login happens.
   */
  lemma {:induction false} CachedTokenReused(s: ApiState, calls: seq<Call>)
    requires Cached(s.token) && NoUnauthorized(s.script)
    requires forall i :: 0 <= i < |calls| ==> ParseVerb(Upper(calls[i].httpMethod)).Some?
    ensures var r := RequestsSpec(s, calls);
      && r.result.Ok?
      && r.state.token == s.token && r.state.logins == s.logins
      && |r.state.sent| == |s.sent| + |calls|
      && forall i :: |s.sent| <= i < |r.state.sent| ==> r.state.sent[i].auth == Some(Bearer(s.token))
    decreases |calls|
  {
    if calls != [] {
      var m := Message(ParseVerb(Upper(calls[0].httpMethod)).value, s.baseUrl + "/" + calls[0].endpoint, Some(Bearer(s.token)), calls[0].body);
      var t := s.(script := Drop(s.script, 1), sent := s.sent + [m]);
      CachedFirstCall(s, calls);
      CachedTokenReused(t, calls[1..]);
      SentAfter(s.sent, m, RequestsSpec(t, calls[1..]).state.sent, Bearer(s.token));
    }
  }

  /** With a cached token, the first of several requests is one message with it, and the rest follow from there. */
  lemma CachedFirstCall(s: ApiState, calls: seq<Call>)
    requires Cached(s.token) && NoUnauthorized(s.script)
    requires calls != [] && ParseVerb(Upper(calls[0].httpMethod)).Some?
    ensures var m := Message(ParseVerb(Upper(calls[0].httpMethod)).value, s.baseUrl + "/" + calls[0].endpoint, Some(Bearer(s.token)), calls[0].body);
      var t := s.(script := Drop(s.script, 1), sent := s.sent + [m]);
      && NoUnauthorized(t.script)
      && RequestsSpec(s, calls).state == RequestsSpec(t, calls[1..]).state
      && (RequestsSpec(s, calls).result.Ok? <==> RequestsSpec(t, calls[1..]).result.Ok?)
  {
    CachedCall(s, calls[0]);
  }

  /** Messages logged after `m` keep `m` at its place in the log. */
  lemma SentAfter(before: seq<Message>, m: Message, after: seq<Message>, auth: string)
    requires before + [m] <= after && m.auth == Some(auth)
    requires forall i :: |before| + 1 <= i < |after| ==> after[i].auth == Some(auth)
    ensures forall i :: |before| <= i < |after| ==> after[i].auth == Some(auth)
  {
    assert after[|before|] == (before + [m])[|before|];
  }

  /**
   * Token reuse across calls: a client without a token whose login
   * succeeds logs in once for the first request and never again while
   * no 401 comes back.
   */
  lemma OneLoginForManyRequests(s: ApiState, calls: seq<Call>, raw: string)
    requires s.token.None? && HasCredentials(s)
    requires raw != "" && CleanToken(raw) != ""
    requires |s.script| >= 2 && s.script[0] == TokenAnswer(raw) && NoUnauthorized(s.script[1..])
    requires calls != [] && forall i :: 0 <= i < |calls| ==> ParseVerb(Upper(calls[i].httpMethod)).Some?
    ensures var r := RequestsSpec(s, calls);
      && r.result.Ok?
      && r.state.logins == s.logins + 1
      && r.state.token == Some(CleanToken(raw))
  {
    var verb := ParseVerb(Upper(calls[0].httpMethod)).value;
    assert !(s.script[1].Status? && s.script[1].code == 401) by {
      assert s.script[1] == s.script[1..][0];
    }
    FirstRequestLogsIn(s, calls[0].httpMethod, verb, calls[0].endpoint, calls[0].body, raw);
    var t := RequestSpec(s, calls[0].httpMethod, calls[0].endpoint, calls[0].body).state;
    assert t.script == s.script[2..] == s.script[1..][1..];
    assert NoUnauthorized(t.script) by {
      forall i | 0 <= i < |t.script| ensures !(t.script[i].Status? && t.script[i].code == 401) {
        assert t.script[i] == s.script[1..][i + 1];
      }
    }
    CachedTokenReused(t, calls[1..]);
  }
}
