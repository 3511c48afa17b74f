/**
  * The chat requests: asking the assistant a question, listing past
  * sessions and fetching one session's history. What each request carries,
  * and how each reply is turned into a value or an error.
  */
module ChatService {
  import opened Wrappers
  import opened Strings
  import opened Http

  const BaseUrl := "https://apepdcl-alfred.pathsetter.ai/api"
  const ConversationUrl := BaseUrl + "/search/chat/conversation"
  const SessionsUrl := BaseUrl + "/search/chat/sessions"
  const SessionsPrefix := BaseUrl + "/search/chat/sessions/"
  const MessagesSuffix := "/messages"

  /** A passage the answer was drawn from, with the `file_name` of its metadata; the client carries it but never reads it. */
  datatype Source = Source(id: string, text: string, fileName: string)

  /** The conversation reply; `sources` and `suggested_questions` may be missing. */
  datatype ChatResponse = ChatResponse(
    sessionId: string, query: string, answer: string,
    sources: Option<seq<Source>>, suggestedQuestions: Option<seq<string>>)

  datatype ChatSession = ChatSession(sessionId: string, firstQuestion: Option<string>, createdAt: Option<string>)

  /** The sessions reply; `sessions` may be missing. */
  datatype SessionsResponse = SessionsResponse(sessions: Option<seq<ChatSession>>)

  /** One message of a stored history, as the backend sends it; the text may sit under any of three fields. */
  datatype HistoryEntry = HistoryEntry(
    role: string, content: Option<string>, query: Option<string>, answer: Option<string>,
    sources: Option<seq<Source>>)

  /**
    * The history reply as far as the client looks at it: `null`, another
    * falsy value, a truthy scalar, an array of entries, or an object whose
    * `messages` field holds another such value (a missing field is falsy).
    */
  datatype HistoryValue =
    | Null
    | FalsyScalar
    | TruthyScalar
    | List(entries: seq<HistoryEntry>)
    | Record(messages: HistoryValue)

  predicate Truthy(v: HistoryValue) {
    !(v.Null? || v.FalsyScalar?)
  }

  /** The body of a conversation request, as `JSON.stringify` receives it. */
  datatype ConversationRequest = ConversationRequest(
    query: string, sessionId: Option<string>, projectId: string, includeSources: bool, limit: nat)

  /**
    * The request body for a question: an empty session id is sent as `null`,
    * the project id is empty (a search across the whole organisation), sources
    * are asked for, and at most five of them.
    */
  function ConversationBody(query: string, sessionId: Option<string>): (req: ConversationRequest)
    ensures req.query == query && req.projectId == "" && req.includeSources && req.limit == 5
    ensures req.sessionId == None <==> sessionId == None || sessionId == Some([])
    ensures req.sessionId.Some? ==> req.sessionId == sessionId
  {
    ConversationRequest(query, if sessionId == Some([]) then None else sessionId, "", true, 5)
  }

  /** The headers of every chat request: a bearer token only when the token is non-empty. */
  function ChatHeaders(token: string): (headers: seq<(string, string)>)
    ensures |headers| >= 1 && headers[0] == ("Content-Type", "application/json")
    ensures (exists k :: 0 <= k < |headers| && headers[k].0 == "Authorization") <==> token != []
    ensures token != [] ==> headers[|headers| - 1] == ("Authorization", "Bearer " + token)
  {
    if token != [] then
      var headers := [("Content-Type", "application/json"), ("Authorization", "Bearer " + token)];
      assert headers[1].0 == "Authorization";
      headers
    else
      assert "Content-Type"[0] != "Authorization"[0];
      [("Content-Type", "application/json")]
  }

  /** The history URL; the session id goes into the path without escaping. */
  function MessagesUrl(sessionId: string): (url: string)
    ensures |url| == |SessionsPrefix| + |sessionId| + |MessagesSuffix|
  {
    SessionsPrefix + sessionId + MessagesSuffix
  }

  /** The session id is the part of the history URL between the fixed prefix and suffix. */
  function SessionIdOfUrl(url: string): Option<string> {
    if |url| >= |SessionsPrefix| + |MessagesSuffix| &&
       url[..|SessionsPrefix|] == SessionsPrefix && url[|url| - |MessagesSuffix|..] == MessagesSuffix
    then Some(url[|SessionsPrefix|..|url| - |MessagesSuffix|])
    else None
  }

  /** The history URL names its session: reading the id back out gives the id. */
  lemma MessagesUrlNamesSession(sessionId: string)
    ensures SessionIdOfUrl(MessagesUrl(sessionId)) == Some(sessionId)
  {
    var url := MessagesUrl(sessionId);
    assert url[..|SessionsPrefix|] == SessionsPrefix;
    assert url[|url| - |MessagesSuffix|..] == MessagesSuffix;
    assert url[|SessionsPrefix|..|url| - |MessagesSuffix|] == sessionId;
  }

  /** Different sessions are fetched from different URLs. */
  lemma MessagesUrlInjective(a: string, b: string)
    requires MessagesUrl(a) == MessagesUrl(b)
    ensures a == b
  {
    MessagesUrlNamesSession(a);
    MessagesUrlNamesSession(b);
  }

  /** A question: the request body POSTed to the conversation endpoint with the chat headers. */
  function QuestionRequest(query: string, token: string, sessionId: Option<string>): (req: Request<ConversationRequest>)
    ensures req.verb == "POST" && req.url == ConversationUrl && req.headers == ChatHeaders(token)
    ensures req.body.Some? && req.body.value.query == query
    ensures req.body.value.sessionId == None <==> sessionId == None || sessionId == Some([])
  {
    Request("POST", ConversationUrl, ChatHeaders(token), Some(ConversationBody(query, sessionId)))
  }

  /** The session list: a bodiless GET of the sessions endpoint. */
  function SessionsRequest(token: string): (req: Request<ConversationRequest>)
    ensures req.verb == "GET" && req.url == SessionsUrl && req.headers == ChatHeaders(token) && req.body == None
  {
    Request("GET", SessionsUrl, ChatHeaders(token), None)
  }

  /** A session's history: a bodiless GET of a URL that names the session. */
  function HistoryRequest(token: string, sessionId: string): (req: Request<ConversationRequest>)
    ensures req.verb == "GET" && req.headers == ChatHeaders(token) && req.body == None
    ensures SessionIdOfUrl(req.url) == Some(sessionId)
  {
    MessagesUrlNamesSession(sessionId);
    Request("GET", MessagesUrl(sessionId), ChatHeaders(token), None)
  }

  /** The rejection messages of this service's request wrapper. */
  function TransportMessage(cause: Transport): string {
    match cause
    case NetworkFailure => "Chat network request failed"
    case TimedOut => "Chat request timed out"
  }

  /**
    * `sendChatMessage`: a non-2xx status fails with the body's `detail`, or a
    * status-coded message when the body does not parse or has none; a 2xx
    * reply is parsed and returned.
    */
  function SendChatMessage(reply: Reply<ChatResponse>): (r: Result<ChatResponse>)
    ensures r.Ok? <==> reply.Response? && IsSuccess(reply.status) && reply.body.Parsed?
    ensures r.Ok? ==> r.value == reply.body.payload
    ensures reply.Response? && IsSuccess(reply.status) && reply.body.Unparsable? ==> r == Err(reply.body.syntaxError)
    ensures reply.Failed? ==> r == Err(TransportMessage(reply.cause))
    ensures reply.Response? && !IsSuccess(reply.status) ==>
              r.Err? &&
              (reply.body.Parsed? && reply.body.detail.Some? && reply.body.detail.value != [] ==>
                 r.message == reply.body.detail.value) &&
              (reply.body.Unparsable? || reply.body.detail.None? || reply.body.detail == Some([]) ==>
                 StatusIn(r.message) == Some(reply.status))
  {
    match reply
    case Failed(cause) => Err(TransportMessage(cause))
    case Response(status, body) =>
      if !IsSuccess(status) then Err(DetailOr(body, StatusMessage("Chat error", status)))
      else match body
        case Unparsable(syntaxError) => Err(syntaxError)
        case Parsed(_, response) => Ok(response)
  }

  /** `fetchSessionsApi`: the sessions of a 2xx reply, or none when the field is missing. */
  function FetchSessions(reply: Reply<SessionsResponse>): (r: Result<seq<ChatSession>>)
    ensures r.Ok? <==> reply.Response? && IsSuccess(reply.status) && reply.body.Parsed?
    ensures reply.Response? && IsSuccess(reply.status) && reply.body.Unparsable? ==> r == Err(reply.body.syntaxError)
    ensures reply.Failed? ==> r == Err(TransportMessage(reply.cause))
    ensures r.Ok? && reply.body.payload.sessions.Some? ==> r.value == reply.body.payload.sessions.value
    ensures r.Ok? && reply.body.payload.sessions.None? ==> r.value == []
    ensures reply.Response? && !IsSuccess(reply.status) ==> r.Err? && StatusIn(r.message) == Some(reply.status)
  {
    match reply
    case Failed(cause) => Err(TransportMessage(cause))
    case Response(status, body) =>
      if !IsSuccess(status) then
        Err(StatusMessage("Failed to fetch sessions", status))
      else match body
        case Unparsable(syntaxError) => Err(syntaxError)
        case Parsed(_, response) => Ok(response.sessions.GetOr([]))
  }

  /** The TypeError reading `messages` of a `null` body throws. */
  const NullMessagesError := "Cannot read property 'messages' of null"

  /**
    * `parsed.messages || parsed || []`: the `messages` field when truthy, else
    * the body itself when truthy, else an empty list. A `null` body fails on
    * the field read.
    */
  function HistoryOf(parsed: HistoryValue): (r: Result<HistoryValue>)
    ensures r.Err? <==> parsed.Null?
    ensures r.Ok? ==> Truthy(r.value)
    ensures parsed.Record? && Truthy(parsed.messages) ==> r == Ok(parsed.messages)
    ensures parsed.Record? && !Truthy(parsed.messages) ==> r == Ok(parsed)
    ensures parsed.List? || parsed.TruthyScalar? ==> r == Ok(parsed)
    ensures parsed.FalsyScalar? ==> r == Ok(List([]))
  {
    match parsed
    case Null => Err(NullMessagesError)
    case Record(messages) => if Truthy(messages) then Ok(messages) else Ok(parsed)
    case FalsyScalar => Ok(List([]))
    case _ => Ok(parsed)
  }

  /** `fetchSessionMessagesApi`: a non-2xx status fails with a status-coded message before the body is parsed. */
  function FetchSessionMessages(reply: Reply<HistoryValue>): (r: Result<HistoryValue>)
    ensures r.Ok? ==> reply.Response? && IsSuccess(reply.status) && reply.body.Parsed?
    ensures r.Ok? ==> Ok(r.value) == HistoryOf(reply.body.payload)
    ensures reply.Response? && IsSuccess(reply.status) && reply.body.Parsed? ==> r == HistoryOf(reply.body.payload)
    ensures reply.Response? && IsSuccess(reply.status) && reply.body.Unparsable? ==> r == Err(reply.body.syntaxError)
    ensures reply.Failed? ==> r == Err(TransportMessage(reply.cause))
    ensures reply.Response? && !IsSuccess(reply.status) ==> r.Err? && StatusIn(r.message) == Some(reply.status)
  {
    match reply
    case Failed(cause) => Err(TransportMessage(cause))
    case Response(status, body) =>
      if !IsSuccess(status) then
        Err(StatusMessage("Failed to fetch messages", status))
      else match body
        case Unparsable(syntaxError) => Err(syntaxError)
        case Parsed(_, parsed) => HistoryOf(parsed)
  }

  /** The three requests agree on what succeeds: a parsed body under a 2xx status, and nothing else. */
  lemma SuccessAgrees(status: nat, chat: Body<ChatResponse>, sessions: Body<SessionsResponse>, history: Body<HistoryValue>)
    requires chat.Parsed? == sessions.Parsed? == history.Parsed?
    requires history.Parsed? ==> !history.payload.Null?
    ensures SendChatMessage(Response(status, chat)).Ok? == FetchSessions(Response(status, sessions)).Ok?
    ensures FetchSessions(Response(status, sessions)).Ok? == FetchSessionMessages(Response(status, history)).Ok?
  {
  }

  /** An occurrence of a pattern without `)` ends before a closing `)` at the end. */
  lemma OccurrenceBeforeClose(m: string, pattern: string, i: nat)
    requires OccursAt(m, pattern, i) && pattern != [] && m[|m| - 1] == ')' && ')' !in pattern
    ensures i + |pattern| < |m|
  {
  }

  /** A pattern that starts outside a prefix and cannot span a closing `)` is found in `prefix + d + ")"` only inside `d`. */
  lemma ContainsInDigits(prefix: string, d: string, pattern: string)
    requires pattern != [] && pattern[0] !in prefix && ')' !in pattern
    ensures Contains(prefix + d + ")", pattern) <==> Contains(d, pattern)
  {
    var m := prefix + d + ")";
    ContainsIff(m, pattern);
    ContainsIff(d, pattern);
    if Contains(d, pattern) {
      var i: nat :| OccursAt(d, pattern, i);
      assert m[|prefix| + i..|prefix| + i + |pattern|] == d[i..i + |pattern|];
      assert OccursAt(m, pattern, |prefix| + i);
    }
    if Contains(m, pattern) {
      var i: nat :| OccursAt(m, pattern, i);
      assert m[i] == pattern[0];
      assert i >= |prefix|;
      OccurrenceBeforeClose(m, pattern, i);
      assert d[i - |prefix|..i - |prefix| + |pattern|] == m[i..i + |pattern|];
      assert OccursAt(d, pattern, i - |prefix|);
    }
  }

  /** A three-digit-or-shorter status renders with `404` in it only when it is 404. */
  lemma DecimalHas404(status: nat)
    requires status < 1000
    ensures Contains(Decimal(status), "404") <==> status == 404
  {
    var d := Decimal(status);
    ContainsIff(d, "404");
    assert Decimal(404) == "404";
    if Contains(d, "404") {
      var i: nat :| OccursAt(d, "404", i);
      assert i == 0 && d == "404";
      DecimalInjective(status, 404);
    }
  }

  /**
    * The failure of a history fetch on a status below 1000 mentions `404`
    * exactly when the status is 404: the message test the chat context
    * applies recognises a missing session and nothing else.
    */
  lemma HistoryFailureNames404(status: nat)
    requires status < 1000
    ensures Contains(StatusMessage("Failed to fetch messages", status), "404") <==> status == 404
  {
    assert '4' !in "Failed to fetch messages" + " (";
    ContainsInDigits("Failed to fetch messages" + " (", Decimal(status), "404");
    DecimalHas404(status);
  }
}
