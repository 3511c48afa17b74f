/**
  * The chat state of the app: the conversation on screen, the in-flight
  * and history-loading flags, the current session and the suggested
  * follow-up questions, with the last session also kept in the secure store.
  * Each asynchronous operation is split into the step that starts it and the
  * step that settles it with the reply it got.
  */
module ChatContext {
  import opened Wrappers
  import opened Strings
  import opened Http
  import opened ChatService
  import opened SecureStore
  import AuthService

  const UserRole := "user"
  const AssistantRole := "assistant"

  datatype Message = Message(role: string, content: string, sources: Option<seq<Source>>)

  /** What the user typed, as sent, untrimmed. */
  function UserMessage(text: string): Message {
    Message(UserRole, text, None)
  }

  /** The assistant's answer with the passages it cites. */
  function AnswerMessage(response: ChatResponse): Message {
    Message(AssistantRole, response.answer, response.sources)
  }

  const ErrorPrefix := "Sorry, I encountered an error: "
  const ErrorFallback := "Please try again later."

  /** The assistant message that stands in for an answer when a question fails. */
  function ErrorMessage(message: string): (m: Message)
    ensures m.role == AssistantRole && m.sources == None
    ensures |m.content| >= |ErrorPrefix| && m.content[..|ErrorPrefix|] == ErrorPrefix
  {
    Message(AssistantRole, ErrorPrefix + OrElse(Some(message), ErrorFallback), None)
  }

  /** The error shown to the user is the error of the request, or the fallback when it has no message. */
  lemma ErrorMessageReason(message: string)
    ensures message != [] ==> ErrorMessage(message).content[|ErrorPrefix|..] == message
    ensures message == [] ==> ErrorMessage(message).content[|ErrorPrefix|..] == ErrorFallback
  {
  }

  const GreetingPrefix := "Good Morning, "
  const WelcomeTail := "! \U{1F44B}\n\nI'm ready to help you with your site today. You can ask me anything about documents, projects, or status updates."
  const FreshTail := "! \U{1F44B}\n\nI've started a fresh session for you. How can I help?"

  /** The greeting shown when an empty conversation opens for a signed-in user. */
  function WelcomeGreeting(first: string): string {
    GreetingPrefix + first + WelcomeTail
  }

  /** The greeting of a session started by hand. */
  function FreshGreeting(first: string): string {
    GreetingPrefix + first + FreshTail
  }

  /** The name a greeting addresses, read back from between its fixed opening and a given closing. */
  function AddressedName(greeting: string, tail: string): Option<string> {
    if |greeting| >= |GreetingPrefix| + |tail| && greeting[..|GreetingPrefix|] == GreetingPrefix &&
       greeting[|greeting| - |tail|..] == tail
    then Some(greeting[|GreetingPrefix|..|greeting| - |tail|])
    else None
  }

  /** Both greetings address exactly the name they were built from. */
  lemma GreetingsAddressName(first: string)
    ensures AddressedName(WelcomeGreeting(first), WelcomeTail) == Some(first)
    ensures AddressedName(FreshGreeting(first), FreshTail) == Some(first)
  {
    var w := WelcomeGreeting(first);
    assert w[..|GreetingPrefix|] == GreetingPrefix && w[|w| - |WelcomeTail|..] == WelcomeTail;
    assert w[|GreetingPrefix|..|w| - |WelcomeTail|] == first;
    var f := FreshGreeting(first);
    assert f[..|GreetingPrefix|] == GreetingPrefix && f[|f| - |FreshTail|..] == FreshTail;
    assert f[|GreetingPrefix|..|f| - |FreshTail|] == first;
  }

  /** The name a fresh session greets: the first word of the user's name, or `Maruthi` when there is none. */
  function FreshName(user: Option<AuthService.AuthUser>): (name: string)
    ensures name != []
    ensures user.Some? && FirstWord(user.value.name) != [] ==> name == FirstWord(user.value.name)
    ensures user.None? || FirstWord(user.value.name) == [] ==> name == "Maruthi"
  {
    OrElse(if user.Some? then Some(FirstWord(user.value.name)) else None, "Maruthi")
  }

  /** One stored message as the client shows it: the first non-empty of `content`, `query`, `answer`, else empty. */
  function HistoryMessage(entry: HistoryEntry): (m: Message)
    ensures m.role == entry.role && m.sources == entry.sources
    ensures m.content == [] <==>
              OrElse(entry.content, []) == [] && OrElse(entry.query, []) == [] && OrElse(entry.answer, []) == []
    ensures m.content != [] ==>
              Some(m.content) == entry.content ||
              (OrElse(entry.content, []) == [] && Some(m.content) == entry.query) ||
              (OrElse(entry.content, []) == [] && OrElse(entry.query, []) == [] && Some(m.content) == entry.answer)
  {
    Message(entry.role, OrElse(entry.content, OrElse(entry.query, OrElse(entry.answer, ""))), entry.sources)
  }

  /** `history.map(...)`: one message per stored entry, in the same order. */
  function MapHistory(entries: seq<HistoryEntry>): (messages: seq<Message>)
    ensures |messages| == |entries|
    ensures forall i :: 0 <= i < |entries| ==> messages[i] == HistoryMessage(entries[i])
  {
    seq(|entries|, i requires 0 <= i < |entries| => HistoryMessage(entries[i]))
  }

  /** A message as the backend would store it, with its text under `content`. */
  function Stored(m: Message): HistoryEntry {
    HistoryEntry(m.role, Some(m.content), None, None, m.sources)
  }

  /** Loading back a conversation stored message by message shows the same conversation. */
  lemma HistoryEcho(conversation: seq<Message>)
    ensures MapHistory(seq(|conversation|, i requires 0 <= i < |conversation| => Stored(conversation[i]))) == conversation
  {
    var stored := seq(|conversation|, i requires 0 <= i < |conversation| => Stored(conversation[i]));
    var shown := MapHistory(stored);
    forall i | 0 <= i < |conversation| ensures shown[i] == conversation[i] {
      assert shown[i] == HistoryMessage(Stored(conversation[i]));
    }
  }

  /** The TypeError a non-array history throws on `map`. */
  const NotAListError := "history.map is not a function"

  /** The messages a history fetch shows, or the error its loading throws. */
  function LoadedHistory(reply: Reply<HistoryValue>): (r: Result<seq<Message>>)
    ensures r.Ok? <==> FetchSessionMessages(reply).Ok? && FetchSessionMessages(reply).value.List?
    ensures r.Ok? ==> r.value == MapHistory(FetchSessionMessages(reply).value.entries)
  {
    match FetchSessionMessages(reply)
    case Err(message) => Err(message)
    case Ok(List(entries)) => Ok(MapHistory(entries))
    case Ok(_) => Err(NotAListError)
  }

  /** The test a failed load applies to decide that the session no longer exists. */
  predicate IsNotFound(message: string) {
    Contains(message, "404")
  }

  /** A message without the digit 4 does not mention `404`. */
  lemma No404(message: string)
    requires '4' !in message
    ensures !IsNotFound(message)
  {
    NotContainedWithoutHead(message, "404");
  }

  /**
    * A failed load counts as a missing session exactly when the server
    * answered 404: transport failures and bodies of the wrong shape never
    * do. (A body that does not parse is left aside: its syntax error comes
    * from the JavaScript engine and may mention any number.)
    */
  lemma NotFoundExactly(reply: Reply<HistoryValue>)
    requires reply.Response? ==> reply.status < 1000
    requires reply.Response? && IsSuccess(reply.status) ==> reply.body.Parsed?
    ensures LoadedHistory(reply).Err? && IsNotFound(LoadedHistory(reply).message) <==> reply.Response? && reply.status == 404
  {
    match reply
    case Failed(cause) =>
      TransportNot404(cause);
    case Response(status, body) =>
      if !IsSuccess(status) {
        HistoryFailureNames404(status);
      } else {
        ShapeErrorsNot404();
      }
  }

  lemma TransportNot404(cause: Transport)
    ensures !IsNotFound(ChatService.TransportMessage(cause))
  {
    assert '4' !in ChatService.TransportMessage(cause);
    No404(ChatService.TransportMessage(cause));
  }

  lemma ShapeErrorsNot404()
    ensures !IsNotFound(NullMessagesError) && !IsNotFound(NotAListError)
  {
    assert '4' !in NullMessagesError && '4' !in NotAListError;
    No404(NullMessagesError);
    No404(NotAListError);
  }

  class ChatProvider {
    var messages: seq<Message>
    var isThinking: bool
    var isLoadingHistory: bool
    var sessionId: Option<string>
    var suggestedQuestions: seq<string>
    const store: Store

    /** The provider mounts with no conversation, nothing in flight and no session. */
    constructor(store: Store)
      ensures messages == [] && !isThinking && !isLoadingHistory && sessionId == None && suggestedQuestions == []
      ensures this.store == store
    {
      messages := [];
      isThinking := false;
      isLoadingHistory := false;
      sessionId := None;
      suggestedQuestions := [];
      this.store := store;
    }

    /** No conversation, a user, no history loading and no session: the state the greeting rule fills. */
    predicate AwaitsGreeting(user: Option<AuthService.AuthUser>)
      reads this
    {
      messages == [] && user.Some? && !isLoadingHistory && OrElse(sessionId, []) == []
    }

    /** The greeting rule: an empty conversation of a signed-in user who is not loading a session gets the welcome. */
    method GreetIfIdle(user: Option<AuthService.AuthUser>)
      modifies this
      ensures old(AwaitsGreeting(user)) ==>
                messages == [Message(AssistantRole, WelcomeGreeting(FirstWord(user.value.name)), None)]
      ensures !old(AwaitsGreeting(user)) ==> messages == old(messages)
      ensures isThinking == old(isThinking) && isLoadingHistory == old(isLoadingHistory)
      ensures sessionId == old(sessionId) && suggestedQuestions == old(suggestedQuestions)
      ensures !AwaitsGreeting(user)
    {
      if AwaitsGreeting(user) {
        messages := [Message(AssistantRole, WelcomeGreeting(FirstWord(user.value.name)), None)];
      }
    }

    /** Starting a new chat: no session, no suggestions, the saved session deleted best-effort, one greeting. */
    method StartNewChat(user: Option<AuthService.AuthUser>, deleted: StoreOutcome)
      modifies this, store
      ensures sessionId == None && suggestedQuestions == []
      ensures messages == [Message(AssistantRole, FreshGreeting(FreshName(user)), None)]
      ensures store.entries == Deleted(old(store.entries), LastSessionKey, deleted)
      ensures isThinking == old(isThinking) && isLoadingHistory == old(isLoadingHistory)
    {
      sessionId := None;
      var _ := store.DeleteItem(LastSessionKey, deleted);
      suggestedQuestions := [];
      messages := [Message(AssistantRole, FreshGreeting(FreshName(user)), None)];
    }

    /**
      * The first half of a question: a blank text or a question already in
      * flight is ignored; otherwise the user's message is shown at once and
      * the request to send is returned.
      */
    method BeginSend(text: string, token: Option<string>) returns (request: Option<Request<ConversationRequest>>)
      modifies this
      ensures request.Some? <==> Trim(text) != [] && !old(isThinking)
      ensures request.None? ==> messages == old(messages) && isThinking == old(isThinking)
      ensures request.Some? ==>
                messages == old(messages) + [UserMessage(text)] && isThinking &&
                request.value == QuestionRequest(text, OrElse(token, ""), old(sessionId))
      ensures isLoadingHistory == old(isLoadingHistory) && sessionId == old(sessionId)
      ensures suggestedQuestions == old(suggestedQuestions)
    {
      if Trim(text) == [] || isThinking {
        return None;
      }
      messages := messages + [UserMessage(text)];
      isThinking := true;
      request := Some(QuestionRequest(text, OrElse(token, ""), sessionId));
    }

    /**
      * The second half of a question: exactly one assistant message is
      * appended, the answer or the error. An answer moves the conversation
      * to the session it names, saves that session best-effort and shows
      * its suggestions. The in-flight flag is cleared either way.
      */
    method CompleteSend(reply: Reply<ChatResponse>, saved: StoreOutcome)
      modifies this, store
      ensures !isThinking && isLoadingHistory == old(isLoadingHistory)
      ensures var r := SendChatMessage(reply);
              r.Ok? ==>
                messages == old(messages) + [AnswerMessage(r.value)] &&
                sessionId == Some(r.value.sessionId) &&
                suggestedQuestions == r.value.suggestedQuestions.GetOr([]) &&
                store.entries == Written(old(store.entries), LastSessionKey, r.value.sessionId, saved)
      ensures var r := SendChatMessage(reply);
              r.Err? ==>
                messages == old(messages) + [ErrorMessage(r.message)] &&
                sessionId == old(sessionId) && suggestedQuestions == old(suggestedQuestions) &&
                store.entries == old(store.entries)
    {
      var response := SendChatMessage(reply);
      if response.Ok? {
        messages := messages + [AnswerMessage(response.value)];
        sessionId := Some(response.value.sessionId);
        var _ := store.SetItem(LastSessionKey, response.value.sessionId, saved);
        suggestedQuestions := response.value.suggestedQuestions.GetOr([]);
      } else {
        messages := messages + [ErrorMessage(response.message)];
      }
      isThinking := false;
    }

    /**
      * A whole question, start to settlement: ignored when blank or while
      * another is in flight; otherwise the conversation grows by the user's
      * message and then exactly one assistant message, everything before
      * them untouched, and nothing is left in flight.
      */
    method SendMessage(text: string, token: Option<string>, reply: Reply<ChatResponse>, saved: StoreOutcome)
      returns (request: Option<Request<ConversationRequest>>)
      modifies this, store
      ensures request.Some? <==> Trim(text) != [] && !old(isThinking)
      ensures request.None? ==>
                messages == old(messages) && isThinking == old(isThinking) && sessionId == old(sessionId) &&
                suggestedQuestions == old(suggestedQuestions) && store.entries == old(store.entries)
      ensures request.Some? ==>
                request.value == QuestionRequest(text, OrElse(token, ""), old(sessionId)) && !isThinking &&
                |messages| == |old(messages)| + 2 && messages[..|old(messages)|] == old(messages) &&
                messages[|old(messages)|] == UserMessage(text) &&
                messages[|old(messages)| + 1].role == AssistantRole
      ensures var r := SendChatMessage(reply);
              request.Some? && r.Ok? ==>
                messages[|old(messages)| + 1] == AnswerMessage(r.value) &&
                sessionId == Some(r.value.sessionId) &&
                suggestedQuestions == r.value.suggestedQuestions.GetOr([]) &&
                store.entries == Written(old(store.entries), LastSessionKey, r.value.sessionId, saved)
      ensures var r := SendChatMessage(reply);
              request.Some? && r.Err? ==>
                messages[|old(messages)| + 1] == ErrorMessage(r.message) &&
                sessionId == old(sessionId) && suggestedQuestions == old(suggestedQuestions) &&
                store.entries == old(store.entries)
      ensures isLoadingHistory == old(isLoadingHistory)
    {
      request := BeginSend(text, token);
      if request.Some? {
        CompleteSend(reply, saved);
      }
    }

    /**
      * The first half of opening a stored session: the conversation is
      * cleared at once, the session becomes current and is saved
      * best-effort, and loading starts. Returns the history request, which
      * carries the token, or an empty one when there is none.
      */
    method BeginLoad(id: string, token: Option<string>, saved: StoreOutcome) returns (request: Request<ConversationRequest>)
      modifies this, store
      ensures request == HistoryRequest(OrElse(token, ""), id)
      ensures isLoadingHistory && messages == [] && sessionId == Some(id)
      ensures store.entries == Written(old(store.entries), LastSessionKey, id, saved)
      ensures isThinking == old(isThinking) && suggestedQuestions == old(suggestedQuestions)
    {
      isLoadingHistory := true;
      messages := [];
      sessionId := Some(id);
      var _ := store.SetItem(LastSessionKey, id, saved);
      request := HistoryRequest(OrElse(token, ""), id);
    }

    /**
      * The second half: the history replaces the conversation and clears
      * the suggestions; a failure mentioning `404` forgets the session and
      * deletes it from the store best-effort; any other failure changes
      * nothing. Loading ends either way.
      */
    method CompleteLoad(reply: Reply<HistoryValue>, deleted: StoreOutcome)
      modifies this, store
      ensures !isLoadingHistory && isThinking == old(isThinking)
      ensures var r := LoadedHistory(reply);
              r.Ok? ==>
                messages == r.value && suggestedQuestions == [] &&
                sessionId == old(sessionId) && store.entries == old(store.entries)
      ensures var r := LoadedHistory(reply);
              r.Err? && IsNotFound(r.message) ==>
                messages == [] && sessionId == None && suggestedQuestions == old(suggestedQuestions) &&
                store.entries == Deleted(old(store.entries), LastSessionKey, deleted)
      ensures var r := LoadedHistory(reply);
              r.Err? && !IsNotFound(r.message) ==>
                messages == old(messages) && sessionId == old(sessionId) &&
                suggestedQuestions == old(suggestedQuestions) && store.entries == old(store.entries)
    {
      var history := LoadedHistory(reply);
      match history {
        case Ok(shown) =>
          messages := shown;
          suggestedQuestions := [];
        case Err(message) =>
          if IsNotFound(message) {
            var _ := store.DeleteItem(LastSessionKey, deleted);
            sessionId := None;
            messages := [];
          }
      }
      isLoadingHistory := false;
    }

    /**
      * Opening a stored session, start to settlement: the history is shown
      * in its stored order; a missing session leaves no session and an
      * empty conversation; any other failure keeps the session with an empty
      * conversation. Loading has ended on every path.
      */
    method LoadSession(id: string, token: Option<string>, saved: StoreOutcome, reply: Reply<HistoryValue>,
                       deleted: StoreOutcome)
      returns (request: Request<ConversationRequest>)
      modifies this, store
      ensures request == HistoryRequest(OrElse(token, ""), id)
      ensures !isLoadingHistory && isThinking == old(isThinking)
      ensures var r := LoadedHistory(reply);
              r.Ok? ==>
                messages == r.value && suggestedQuestions == [] && sessionId == Some(id) &&
                store.entries == Written(old(store.entries), LastSessionKey, id, saved)
      ensures var r := LoadedHistory(reply);
              r.Err? ==> messages == [] && suggestedQuestions == old(suggestedQuestions)
      ensures var r := LoadedHistory(reply);
              r.Err? && IsNotFound(r.message) ==>
                sessionId == None &&
                store.entries == Deleted(Written(old(store.entries), LastSessionKey, id, saved), LastSessionKey, deleted)
      ensures var r := LoadedHistory(reply);
              r.Err? && !IsNotFound(r.message) ==>
                sessionId == Some(id) && store.entries == Written(old(store.entries), LastSessionKey, id, saved)
    {
      request := BeginLoad(id, token, saved);
      CompleteLoad(reply, deleted);
    }

    /** Signing out: the conversation, session and suggestions are cleared and the saved session deleted best-effort. */
    method Clear(deleted: StoreOutcome)
      modifies this, store
      ensures messages == [] && sessionId == None && suggestedQuestions == []
      ensures store.entries == Deleted(old(store.entries), LastSessionKey, deleted)
      ensures isThinking == old(isThinking) && isLoadingHistory == old(isLoadingHistory)
    {
      messages := [];
      sessionId := None;
      suggestedQuestions := [];
      var _ := store.DeleteItem(LastSessionKey, deleted);
    }

    /**
      * Reacting to a change of token: no token clears the chat; a token
      * reopens the saved session, if the store gives one back. A failed
      * read is swallowed. `reopened` is the session that was reopened.
      */
    method OnTokenChanged(token: Option<string>, read: StoreOutcome, saved: StoreOutcome,
                          reply: Reply<HistoryValue>, deleted: StoreOutcome)
      returns (reopened: Option<string>)
      modifies this, store
      ensures OrElse(token, []) == [] ==>
                reopened == None && messages == [] && sessionId == None && suggestedQuestions == [] &&
                store.entries == Deleted(old(store.entries), LastSessionKey, deleted) &&
                isLoadingHistory == old(isLoadingHistory)
      ensures OrElse(token, []) != [] ==>
                (reopened.Some? <==>
                   read.Done? && LastSessionKey in old(store.entries) && old(store.entries)[LastSessionKey] != [])
      ensures reopened.Some? ==> reopened.value == old(store.entries)[LastSessionKey] && !isLoadingHistory
      ensures var r := LoadedHistory(reply);
              reopened.Some? && r.Ok? ==>
                messages == r.value && suggestedQuestions == [] && sessionId == reopened &&
                store.entries == Written(old(store.entries), LastSessionKey, reopened.value, saved)
      ensures var r := LoadedHistory(reply);
              reopened.Some? && r.Err? ==> messages == [] && suggestedQuestions == old(suggestedQuestions)
      ensures var r := LoadedHistory(reply);
              reopened.Some? && r.Err? && IsNotFound(r.message) ==>
                sessionId == None &&
                store.entries == Deleted(Written(old(store.entries), LastSessionKey, reopened.value, saved), LastSessionKey, deleted)
      ensures var r := LoadedHistory(reply);
              reopened.Some? && r.Err? && !IsNotFound(r.message) ==>
                sessionId == reopened && store.entries == Written(old(store.entries), LastSessionKey, reopened.value, saved)
      ensures OrElse(token, []) != [] && reopened.None? ==>
                messages == old(messages) && sessionId == old(sessionId) && isLoadingHistory == old(isLoadingHistory) &&
                suggestedQuestions == old(suggestedQuestions) && store.entries == old(store.entries)
      ensures isThinking == old(isThinking)
    {
      reopened := None;
      if OrElse(token, []) == [] {
        Clear(deleted);
        return;
      }
      var savedId := store.GetItem(LastSessionKey, read);
      if savedId.Ok? && savedId.value.Some? && savedId.value.value != [] {
        reopened := savedId.value;
        var _ := LoadSession(savedId.value.value, token, saved, reply, deleted);
      }
    }

    /**
      * The reaction the start-up restore needs: while the auth provider is
      * still checking its saved token, a missing token says nothing about
      * a sign-out, so nothing is cleared or reopened; once the check is over,
      * a change of token is handled as above.
      */
    method OnAuthChanged(token: Option<string>, authLoading: bool, read: StoreOutcome, saved: StoreOutcome,
                         reply: Reply<HistoryValue>, deleted: StoreOutcome)
      returns (reopened: Option<string>)
      modifies this, store
      ensures authLoading ==>
                reopened == None && messages == old(messages) && sessionId == old(sessionId) &&
                suggestedQuestions == old(suggestedQuestions) && isLoadingHistory == old(isLoadingHistory) &&
                store.entries == old(store.entries)
      ensures !authLoading && OrElse(token, []) == [] ==>
                reopened == None && messages == [] && sessionId == None && suggestedQuestions == [] &&
                store.entries == Deleted(old(store.entries), LastSessionKey, deleted) &&
                isLoadingHistory == old(isLoadingHistory)
      ensures !authLoading && OrElse(token, []) != [] ==>
                (reopened.Some? <==>
                   read.Done? && LastSessionKey in old(store.entries) && old(store.entries)[LastSessionKey] != [])
      ensures reopened.Some? ==> reopened.value == old(store.entries)[LastSessionKey] && !isLoadingHistory
      ensures var r := LoadedHistory(reply);
              reopened.Some? && r.Ok? ==>
                messages == r.value && suggestedQuestions == [] && sessionId == reopened &&
                store.entries == Written(old(store.entries), LastSessionKey, reopened.value, saved)
      ensures var r := LoadedHistory(reply);
              reopened.Some? && r.Err? ==> messages == [] && suggestedQuestions == old(suggestedQuestions)
      ensures var r := LoadedHistory(reply);
              reopened.Some? && r.Err? && IsNotFound(r.message) ==>
                sessionId == None &&
                store.entries == Deleted(Written(old(store.entries), LastSessionKey, reopened.value, saved), LastSessionKey, deleted)
      ensures var r := LoadedHistory(reply);
              reopened.Some? && r.Err? && !IsNotFound(r.message) ==>
                sessionId == reopened && store.entries == Written(old(store.entries), LastSessionKey, reopened.value, saved)
      ensures !authLoading && OrElse(token, []) != [] && reopened.None? ==>
                messages == old(messages) && sessionId == old(sessionId) && isLoadingHistory == old(isLoadingHistory) &&
                suggestedQuestions == old(suggestedQuestions) && store.entries == old(store.entries)
      ensures isThinking == old(isThinking)
    {
      if authLoading {
        return None;
      }
      reopened := OnTokenChanged(token, read, saved, reply, deleted);
    }
  }

  /**
    * The provider as the app mounts it: inside the auth provider, whose token
    * is none until its start-up check ends. The cleanup for that missing
    * token deletes the saved session, so when the restored token arrives
    * there is nothing left to reopen, whatever was saved before the restart.
    */
  method MountDuringAuthCheck(store: Store, token: string, cleared: StoreOutcome, read: StoreOutcome,
                              saved: StoreOutcome, reply: Reply<HistoryValue>, deleted: StoreOutcome)
    returns (chat: ChatProvider, reopened: Option<string>)
    requires token != []
    modifies store
    ensures fresh(chat) && chat.store == store
    ensures cleared.Done? ==> reopened == None
  {
    chat := new ChatProvider(store);
    var _ := chat.OnTokenChanged(None, read, saved, reply, cleared);
    reopened := chat.OnTokenChanged(Some(token), read, saved, reply, deleted);
  }

  /**
    * The same mount when the chat waits for the auth check: the session
    * saved before the restart is reopened with the restored token, and
    * when its history loads, that conversation is shown under that session.
    */
  method MountAfterAuthCheck(store: Store, token: string, cleared: StoreOutcome, read: StoreOutcome,
                             saved: StoreOutcome, reply: Reply<HistoryValue>, deleted: StoreOutcome)
    returns (chat: ChatProvider, reopened: Option<string>)
    requires token != []
    modifies store
    ensures fresh(chat) && chat.store == store
    ensures read.Done? && LastSessionKey in old(store.entries) && old(store.entries)[LastSessionKey] != [] ==>
              reopened == Some(old(store.entries)[LastSessionKey])
    ensures read.Done? && LastSessionKey in old(store.entries) && old(store.entries)[LastSessionKey] != [] &&
            LoadedHistory(reply).Ok? ==>
              chat.messages == LoadedHistory(reply).value && chat.sessionId == reopened && !chat.isLoadingHistory
  {
    chat := new ChatProvider(store);
    var _ := chat.OnAuthChanged(None, true, read, saved, reply, cleared);
    reopened := chat.OnAuthChanged(Some(token), false, read, saved, reply, deleted);
  }

  /**
    * A chat opened for a signed-in user with nothing saved greets that user:
    * the conversation is one assistant message addressed to the first word
    * of the user's name.
    */
  method OpenForUser(store: Store, user: AuthService.AuthUser) returns (chat: ChatProvider)
    ensures fresh(chat) && chat.store == store
    ensures |chat.messages| == 1 && chat.messages[0].role == AssistantRole
    ensures AddressedName(chat.messages[0].content, WelcomeTail) == Some(FirstWord(user.name))
    ensures chat.sessionId == None && !chat.isThinking && !chat.isLoadingHistory
  {
    chat := new ChatProvider(store);
    chat.GreetIfIdle(Some(user));
    GreetingsAddressName(FirstWord(user.name));
  }
}
