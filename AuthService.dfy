/**
  * The authentication requests: the password-grant login (section 4.3.2 of
  * RFC 6749) and the profile fetch with a bearer token (section 2.1 of
  * RFC 6750). How each reply is turned into a value or an error.
  */
module AuthService {
  import opened Wrappers
  import opened Strings
  import opened Http
  import opened UriEncoding

  const BaseUrl := "https://apepdcl-alfred.pathsetter.ai/api"
  const LoginUrl := BaseUrl + "/auth/login"
  const MeUrl := BaseUrl + "/auth/me"

  /** The login reply. */
  datatype AuthTokens = AuthTokens(accessToken: string, tokenType: string)

  /** The profile `/auth/me` returns. */
  datatype AuthUser = AuthUser(
    id: string, name: string, email: string, role: string, roleId: string,
    isActive: bool, organizationId: string, isRegulator: bool, orgLegalName: string)

  /** The rejection messages of this service's request wrapper. */
  function TransportMessage(cause: Transport): string {
    match cause
    case NetworkFailure => "Network request failed"
    case TimedOut => "Request timed out"
  }

  const GrantPrefix := "grant_type=password&username="
  const EmptyClientTail := "&scope=&client_id=&client_secret="

  /** The form-encoded login body: the password grant first, the three empty client parameters last. */
  function LoginBody(email: string, password: string): (body: string)
    ensures |body| >= |GrantPrefix| + |EmptyClientTail|
    ensures body[..|GrantPrefix|] == GrantPrefix && body[|body| - |EmptyClientTail|..] == EmptyClientTail
  {
    "grant_type=password" +
    "&username=" + EncodeURIComponent(email) +
    "&password=" + EncodeURIComponent(password) +
    "&scope=&client_id=&client_secret="
  }

  /** The parameters the login body is meant to carry, in order. */
  function LoginParameters(email: string, password: string): seq<(string, string)> {
    [("grant_type", "password"), ("username", email), ("password", password),
     ("scope", ""), ("client_id", ""), ("client_secret", "")]
  }

  const LoginHeaders: seq<(string, string)> := [("Content-Type", "application/x-www-form-urlencoded")]

  /** The headers of the profile request: the token goes out as given, even when empty. */
  function MeHeaders(token: string): (headers: seq<(string, string)>)
    ensures |headers| == 2 && headers[0].0 == "Authorization" && headers[1] == ("Accept", "application/json")
    ensures |headers[0].1| == 7 + |token| && headers[0].1[..7] == "Bearer " && headers[0].1[7..] == token
  {
    [("Authorization", "Bearer " + token), ("Accept", "application/json")]
  }

  /** One `name=value` pair of a form body, both decoded; `None` when there is no `=` or a part does not decode. */
  function ParsePair(part: string): Option<(string, string)> {
    match IndexOf(part, "=")
    case None => None
    case Some(i) =>
      match (FormDecode(part[..i]), FormDecode(part[i + 1..]))
      case (Some(name), Some(value)) => Some((name, value))
      case _ => None
  }

  function ParsePairs(parts: seq<string>): Option<seq<(string, string)>>
    decreases |parts|
  {
    if parts == [] then Some([])
    else match (ParsePair(parts[0]), ParsePairs(parts[1..]))
      case (Some(p), Some(rest)) => Some([p] + rest)
      case _ => None
  }

  /** How a server reads an `application/x-www-form-urlencoded` body. */
  function ParseForm(body: string): Option<seq<(string, string)>> {
    ParsePairs(Split(body, '&'))
  }

  /** One pair of a form body: name and value, each percent-encoded. */
  function EncodePair(name: string, value: string): string {
    EncodeURIComponent(name) + "=" + EncodeURIComponent(value)
  }

  /** An encoded pair parses back to the pair. */
  lemma EncodePairParses(name: string, value: string)
    ensures ParsePair(EncodePair(name, value)) == Some((name, value))
  {
    var n, v := EncodeURIComponent(name), EncodeURIComponent(value);
    var part := EncodePair(name, value);
    EncodedHasNoDelimiters(name);
    FormDecodeEncoded(name);
    FormDecodeEncoded(value);
    IndexAfterPrefix(n, '=', v);
    assert part[..|n|] == n && part[|n| + 1..] == v;
  }

  /** Parts that each parse to the corresponding pair parse, together, to the pairs. */
  lemma {:induction false} ParsePairsAll(parts: seq<string>, pairs: seq<(string, string)>)
    requires |parts| == |pairs|
    requires forall k :: 0 <= k < |parts| ==> ParsePair(parts[k]) == Some(pairs[k])
    ensures ParsePairs(parts) == Some(pairs)
    decreases |parts|
  {
    if parts != [] {
      ParsePairsAll(parts[1..], pairs[1..]);
      assert [pairs[0]] + pairs[1..] == pairs;
    }
  }

  /** A string of characters `encodeURIComponent` keeps is its own encoding. */
  lemma {:induction false} EncodeUnreserved(s: string)
    requires forall i :: 0 <= i < |s| ==> IsUnreserved(s[i])
    ensures EncodeURIComponent(s) == s
    decreases |s|
  {
    if s != [] {
      EncodeUnreserved(s[1..]);
      assert [s[0]] + s[1..] == s;
    }
  }

  /** Joining a part in front of at least one more puts the separator between them. */
  lemma JoinCons(q: string, rest: seq<string>, sep: char)
    requires |rest| >= 1
    ensures Join([q] + rest, sep) == q + [sep] + Join(rest, sep)
  {
    assert ([q] + rest)[1..] == rest;
  }

  lemma JoinTwo(q4: string, q5: string)
    ensures Join([q4, q5], '&') == q4 + "&" + q5
  {
    JoinCons(q4, [q5], '&');
    assert [q4] + [q5] == [q4, q5];
  }

  lemma JoinThree(q3: string, q4: string, q5: string)
    ensures Join([q3, q4, q5], '&') == q3 + "&" + q4 + "&" + q5
  {
    JoinTwo(q4, q5);
    JoinCons(q3, [q4, q5], '&');
    assert [q3] + [q4, q5] == [q3, q4, q5];
  }

  lemma JoinFour(q2: string, q3: string, q4: string, q5: string)
    ensures Join([q2, q3, q4, q5], '&') == q2 + "&" + q3 + "&" + q4 + "&" + q5
  {
    JoinThree(q3, q4, q5);
    JoinCons(q2, [q3, q4, q5], '&');
    assert [q2] + [q3, q4, q5] == [q2, q3, q4, q5];
  }

  lemma JoinFive(q1: string, q2: string, q3: string, q4: string, q5: string)
    ensures Join([q1, q2, q3, q4, q5], '&') == q1 + "&" + q2 + "&" + q3 + "&" + q4 + "&" + q5
  {
    JoinFour(q2, q3, q4, q5);
    JoinCons(q1, [q2, q3, q4, q5], '&');
    assert [q1] + [q2, q3, q4, q5] == [q1, q2, q3, q4, q5];
  }

  /** Six parts joined with `&`. */
  lemma JoinSix(q0: string, q1: string, q2: string, q3: string, q4: string, q5: string)
    ensures Join([q0, q1, q2, q3, q4, q5], '&') == q0 + "&" + q1 + "&" + q2 + "&" + q3 + "&" + q4 + "&" + q5
  {
    JoinFive(q1, q2, q3, q4, q5);
    JoinCons(q0, [q1, q2, q3, q4, q5], '&');
    assert [q0] + [q1, q2, q3, q4, q5] == [q0, q1, q2, q3, q4, q5];
  }

  /** Regrouping the login body's concatenation around its `&` separators. */
  lemma Regroup(a: string, b: string, e: string, c: string, p: string, d: string,
                u: string, w: string, q3: string, q4: string, q5: string)
    requires b == "&" + u && c == "&" + w && d == "&" + q3 + "&" + q4 + "&" + q5
    ensures a + b + e + c + p + d == a + "&" + (u + e) + "&" + (w + p) + "&" + q3 + "&" + q4 + "&" + q5
  {
  }

  /** The login body's text regrouped around its five `&` separators. */
  lemma LoginTextRegrouped(e: string, p: string)
    ensures "grant_type=password" + "&username=" + e + "&password=" + p + "&scope=&client_id=&client_secret="
         == "grant_type=password" + "&" + ("username=" + e) + "&" + ("password=" + p) + "&" + "scope=" + "&" + "client_id=" + "&" + "client_secret="
  {
    assert "&username=" == "&" + "username=";
    assert "&password=" == "&" + "password=";
    assert "&scope=&client_id=&client_secret=" == "&" + "scope=" + "&" + "client_id=" + "&" + "client_secret=";
    Regroup("grant_type=password", "&username=", e, "&password=", p, "&scope=&client_id=&client_secret=",
            "username=", "password=", "scope=", "client_id=", "client_secret=");
  }

  /** The six parts of the login body, joined with `&`. */
  lemma LoginPartsJoined(e: string, p: string)
    ensures Join(["grant_type=password", "username=" + e, "password=" + p, "scope=", "client_id=", "client_secret="], '&')
         == "grant_type=password" + "&" + ("username=" + e) + "&" + ("password=" + p) + "&" + "scope=" + "&" + "client_id=" + "&" + "client_secret="
  {
    JoinSix("grant_type=password", "username=" + e, "password=" + p, "scope=", "client_id=", "client_secret=");
  }

  /** The login body is its six `name=value` parts joined with `&`. */
  lemma LoginBodyJoined(email: string, password: string)
    ensures LoginBody(email, password) ==
      Join(["grant_type=password", "username=" + EncodeURIComponent(email), "password=" + EncodeURIComponent(password),
            "scope=", "client_id=", "client_secret="], '&')
  {
    LoginTextRegrouped(EncodeURIComponent(email), EncodeURIComponent(password));
    LoginPartsJoined(EncodeURIComponent(email), EncodeURIComponent(password));
  }

  /** Splitting the login body on `&` gives six `name=value` parts in a fixed order. */
  lemma LoginBodyParts(email: string, password: string)
    ensures Split(LoginBody(email, password), '&') ==
      ["grant_type=password", "username=" + EncodeURIComponent(email), "password=" + EncodeURIComponent(password),
       "scope=", "client_id=", "client_secret="]
  {
    var parts := ["grant_type=password", "username=" + EncodeURIComponent(email), "password=" + EncodeURIComponent(password),
                  "scope=", "client_id=", "client_secret="];
    EncodedHasNoDelimiters(email);
    EncodedHasNoDelimiters(password);
    assert '&' !in parts[0] && '&' !in parts[3] && '&' !in parts[4] && '&' !in parts[5];
    assert '&' !in parts[1] && '&' !in parts[2];
    LoginBodyJoined(email, password);
    SplitJoin(parts, '&');
  }

  /** A pair whose name and value need no escaping is written as it is. */
  lemma PlainPairText(name: string, value: string, text: string)
    requires forall i :: 0 <= i < |name| ==> IsUnreserved(name[i])
    requires forall i :: 0 <= i < |value| ==> IsUnreserved(value[i])
    requires text == name + "=" + value
    ensures EncodePair(name, value) == text
  {
    EncodeUnreserved(name);
    EncodeUnreserved(value);
  }

  /** A pair whose name needs no escaping is the name, `=`, then the encoded value. */
  lemma NamedPairText(name: string, value: string, text: string)
    requires forall i :: 0 <= i < |name| ==> IsUnreserved(name[i])
    requires text == name + "=" + EncodeURIComponent(value)
    ensures EncodePair(name, value) == text
  {
    EncodeUnreserved(name);
  }

  /** A form part with a plain name, and with a plain value or an encoded one. */
  predicate PlainName(name: string) {
    forall i :: 0 <= i < |name| ==> IsUnreserved(name[i])
  }

  /** `part` is how `pair` is written when its name and value need no escaping. */
  predicate PlainPart(part: string, pair: (string, string)) {
    PlainName(pair.0) && PlainName(pair.1) && part == pair.0 + "=" + pair.1
  }

  /** `part` is how `pair` is written when its name needs no escaping. */
  predicate NamedPart(part: string, pair: (string, string)) {
    PlainName(pair.0) && part == pair.0 + "=" + EncodeURIComponent(pair.1)
  }

  /** A part written either way parses back to its pair. */
  lemma PartParses(part: string, pair: (string, string))
    requires PlainPart(part, pair) || NamedPart(part, pair)
    ensures ParsePair(part) == Some(pair)
  {
    if PlainPart(part, pair) {
      PlainPairText(pair.0, pair.1, part);
    } else {
      NamedPairText(pair.0, pair.1, part);
    }
    EncodePairParses(pair.0, pair.1);
  }

  lemma GrantTypeWritten()
    ensures PlainPart("grant_type=password", ("grant_type", "password"))
  {
    assert "grant_type=password" == "grant_type" + "=" + "password";
  }

  lemma UsernameWritten(email: string)
    ensures NamedPart("username=" + EncodeURIComponent(email), ("username", email))
  {
    assert "username=" == "username" + "=";
  }

  lemma PasswordWritten(password: string)
    ensures NamedPart("password=" + EncodeURIComponent(password), ("password", password))
  {
    assert "password=" == "password" + "=";
  }

  lemma ScopeWritten()
    ensures PlainPart("scope=", ("scope", ""))
  {
    assert "scope=" == "scope" + "=" + "";
  }

  lemma ClientIdWritten()
    ensures PlainPart("client_id=", ("client_id", ""))
  {
    assert "client_id=" == "client_id" + "=" + "";
  }

  lemma ClientSecretWritten()
    ensures PlainPart("client_secret=", ("client_secret", ""))
  {
    assert "client_secret=" == "client_secret" + "=" + "";
  }

  /** A server reading the login body gets exactly the six grant parameters, the credentials unchanged. */
  lemma LoginBodyRoundTrip(email: string, password: string)
    ensures ParseForm(LoginBody(email, password)) == Some(LoginParameters(email, password))
  {
    var params := LoginParameters(email, password);
    var parts := Split(LoginBody(email, password), '&');
    LoginBodyParts(email, password);
    GrantTypeWritten();
    UsernameWritten(email);
    PasswordWritten(password);
    ScopeWritten();
    ClientIdWritten();
    ClientSecretWritten();
    forall k | 0 <= k < 6 ensures ParsePair(parts[k]) == Some(params[k]) {
      PartParses(parts[k], params[k]);
    }
    ParsePairsAll(parts, params);
  }

  /** The login request: the form body POSTed to the login endpoint, read by a server as the six grant parameters. */
  function LoginRequest(email: string, password: string): (req: Request<string>)
    ensures req.verb == "POST" && req.url == LoginUrl && req.headers == LoginHeaders && req.body.Some?
    ensures ParseForm(req.body.value) == Some(LoginParameters(email, password))
  {
    LoginBodyRoundTrip(email, password);
    Request("POST", LoginUrl, LoginHeaders, Some(LoginBody(email, password)))
  }

  /** The profile request: a bodiless GET that carries the token as a bearer credential. */
  function MeRequest(token: string): (req: Request<string>)
    ensures req.verb == "GET" && req.url == MeUrl && req.body == None
    ensures |req.headers| == 2 && req.headers[0] == ("Authorization", "Bearer " + token)
  {
    Request("GET", MeUrl, MeHeaders(token), None)
  }

  /**
    * `loginApi`: the body is parsed before the status is looked at, so an
    * unparsable body fails with the parser's message whatever the status; a
    * non-2xx status fails with `detail` or a status-coded message.
    */
  function LoginApi(reply: Reply<AuthTokens>): (r: Result<AuthTokens>)
    ensures r.Ok? <==> reply.Response? && IsSuccess(reply.status) && reply.body.Parsed?
    ensures r.Ok? ==> r.value == reply.body.payload
    ensures reply.Response? && reply.body.Unparsable? ==> r == Err(reply.body.syntaxError)
    ensures reply.Failed? ==> r == Err(TransportMessage(reply.cause))
    ensures reply.Response? && !IsSuccess(reply.status) && reply.body.Parsed? ==>
              r.Err? &&
              (reply.body.detail.Some? && reply.body.detail.value != [] ==> r.message == reply.body.detail.value) &&
              (reply.body.detail.None? || reply.body.detail == Some([]) ==> StatusIn(r.message) == Some(reply.status))
  {
    match reply
    case Failed(cause) => Err(TransportMessage(cause))
    case Response(status, Unparsable(syntaxError)) => Err(syntaxError)
    case Response(status, body) =>
      if !IsSuccess(status) then Err(DetailOr(body, StatusMessage("Login failed", status)))
      else Ok(body.payload)
  }

  /** `fetchMeApi`: a non-2xx status fails with a status-coded message before the body is parsed. */
  function FetchMeApi(reply: Reply<AuthUser>): (r: Result<AuthUser>)
    ensures r.Ok? <==> reply.Response? && IsSuccess(reply.status) && reply.body.Parsed?
    ensures r.Ok? ==> r.value == reply.body.payload
    ensures reply.Response? && !IsSuccess(reply.status) ==> r.Err? && StatusIn(r.message) == Some(reply.status)
    ensures reply.Response? && IsSuccess(reply.status) && reply.body.Unparsable? ==> r == Err(reply.body.syntaxError)
    ensures reply.Failed? ==> r == Err(TransportMessage(reply.cause))
  {
    match reply
    case Failed(cause) => Err(TransportMessage(cause))
    case Response(status, body) =>
      if !IsSuccess(status) then Err(StatusMessage("Failed to fetch user", status))
      else match body
        case Unparsable(syntaxError) => Err(syntaxError)
        case Parsed(_, user) => Ok(user)
  }
}
