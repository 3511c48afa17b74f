# Alfred field client — verified model of its session logic

Alfred is a mobile app. Field engineers sign in with it and ask an AI
assistant about documents, projects and site status. This project models the
app's session logic in Dafny and proves properties of it:

- **Authentication** (`AuthContext`, `AuthService`).
  - The password-grant login body (section 4.3.2 of RFC 6749). Its fields are
    escaped as `encodeURIComponent` does.
  - The profile request, which carries a bearer token (section 2.1 of RFC 6750).
  - How each reply becomes a value or an error message.
  - The provider that holds `user`, `token` and `isLoading`. It restores a
    saved token at start-up, signs in and signs out.
- **Chat** (`ChatContext`, `ChatService`).
  - The body of a question request and the history URL.
  - How the three chat replies are read, and the fallbacks they use.
  - The provider that owns the conversation, the in-flight and loading flags,
    the session and the suggested questions. It has the send and load
    operations (each split into a start step and a settle step, and also
    composed), new chat, logout cleanup, the start-up restore and the
    empty-conversation greeting rule.
- **Secure store** (`SecureStore`). A key/value map shared by both providers,
  under the keys `auth_access_token` and `last_chat_session_id`.
- **Profile popover and tab bar** (`ProfilePopover`, `BottomTabBar`).
  - The role text (`snake_case` to capitalised words) and the display-name
    fallback.
  - Which tab a path activates, the filled icon of the active tab, and the
    tab labels.
- **JavaScript semantics the code relies on** (`Strings`, `Http`, `UriEncoding`):
  - `indexOf`, `includes`, `replace(p, '')`, and `split`/`join` on one character;
  - `trim` over the ECMAScript whitespace set;
  - `||` and `??`;
  - decimal rendering of a status inside a template literal;
  - `encodeURIComponent` (UTF-8 with upper-case `%XX` escapes) and the form
    decoding a server applies to it.

Network replies, store outcomes and the signed-in user are method
parameters. A reply is either a transport failure or a status with a body.
The body is either a syntax error or a parsed value with an optional
`detail`.

Where the code and the design description differ, the model follows the code:

- `signIn` does not catch a rejected write of the token to the store. Such a
  write therefore fails the sign-in, and token and user stay as they were.
- The "session not found" test of `loadSession` is `message.includes('404')`.
  The other disjunct, `err?.status === 404`, never holds: no error the
  services throw carries a `status`. Any failure message containing `404`
  resets the session.
- The start-up restore deletes the saved token on any failure: a rejected
  store read, a network failure, or a non-2xx profile reply.
- The login body also carries empty `scope`, `client_id` and
  `client_secret` parameters.
- The history URL inserts the session id without escaping.
- The chat provider's cleanup for a missing token also runs when the app
  starts, before the auth provider has restored its token. It deletes the
  saved session, so the restore that follows has nothing to reopen (see
  "## Findings").

## Model

| member | source | states |
|---|---|---|
| Strings.FirstWord | context/ChatContext.tsx:66 | `name.split(' ')[0]` is the longest space-free prefix of the name, ending at a space or at the end |
| Strings.Trim | context/ChatContext.tsx:117 | `trim()` removes only whitespace, and only from the two ends: the kept text is one slice of the input that neither starts nor ends with whitespace |
| Strings.TrimEmptyIff | context/ChatContext.tsx:117 | `text.trim()` is empty exactly when every character is ECMAScript whitespace or a line terminator |
| Strings.RemoveFirst | components/AppShell/BottomTabBar.tsx:21 | `replace(p, '')` leaves a string without `p` as it is, and otherwise removes exactly one `p`'s worth of characters |
| Strings.RemoveFirstInverse | components/AppShell/BottomTabBar.tsx:30 | `replace(p, '')` removes the first occurrence only: putting `p` back at that index restores the string, and no earlier occurrence exists |
| Strings.ParseDecimalOfDecimal | services/chatService.ts:126 | the decimal rendering of a status reads back as that status |
| Strings.Split | components/AppShell/ProfilePopover.tsx:15 | `split` on one character always gives at least one part, and no part holds the separator |
| Strings.SplitJoin | components/AppShell/ProfilePopover.tsx:15 | splitting separator-free parts joined with the separator gives back the parts |
| Strings.JoinSplit | components/AppShell/ProfilePopover.tsx:15 | joining the parts of a split gives back the string |
| Http.DetailOr | services/authService.ts:79 | the error is the body's `detail` when it is present and non-empty, otherwise the fallback |
| Http.StatusMessage | services/authService.ts:79 | every `prefix (status)` message names its status: reading it back gives the status, whatever the prefix |
| UriEncoding.EncodeURIComponent | services/authService.ts:60-61 | every output character is unreserved or part of an upper-case `%XX` escape |
| UriEncoding.EncodedHasNoDelimiters | services/authService.ts:60-61 | an encoded field contains no `&`, `=` or `+` |
| UriEncoding.FormDecodeEncoded | services/authService.ts:60-61 | form-decoding an encoded field gives back exactly the field, any Unicode text included |
| AuthService.LoginBody | services/authService.ts:58-62 | the login body opens with the password grant and the username, and closes with the three empty client parameters |
| AuthService.LoginBodyParts | services/authService.ts:58-62 | splitting the login body on `&` gives exactly six `name=value` parts in a fixed order |
| AuthService.EncodePairParses | services/authService.ts:60-61 | a `name=value` part with both sides encoded parses back to exactly that name and value |
| AuthService.PartParses | services/authService.ts:58-62 | a part whose name needs no escaping parses back to its pair, whether the value is written as it is or encoded |
| AuthService.LoginBodyRoundTrip | services/authService.ts:58-62 | a server parsing the login body gets `grant_type=password`, the email and the password unchanged, and empty `scope`, `client_id`, `client_secret` |
| AuthService.LoginRequest | services/authService.ts:66-71 | the login is a POST to the login endpoint with the form content type, and a server parsing its body gets exactly the six login parameters |
| AuthService.MeRequest | services/authService.ts:93-101 | the profile request is a bodiless GET of the profile endpoint whose first header is `Authorization: Bearer <token>` |
| AuthService.MeHeaders | services/authService.ts:97-100 | the profile request sends `Authorization: Bearer <token>` with the token unchanged, and accepts JSON |
| AuthService.LoginApi | services/authService.ts:76-83 | login succeeds exactly on a parsed 2xx reply and returns its tokens; an unparsable body fails with its syntax error whatever the status; a parsed non-2xx reply fails with the non-empty `detail`, otherwise with a message naming the status; a transport failure fails with the transport message |
| AuthService.FetchMeApi | services/authService.ts:105-109 | the profile fetch succeeds exactly on a parsed 2xx reply and returns the profile; a non-2xx reply fails with a message naming the status, whatever the body; an unparsable 2xx body fails with its syntax error |
| ChatService.ConversationBody | services/chatService.ts:70-76 | the question body sends `session_id` null exactly when the id is missing or empty, otherwise the id; `project_id` is empty, sources are asked for, the limit is 5 |
| ChatService.ChatHeaders | services/chatService.ts:47-50 | chat requests carry an `Authorization` header exactly when the token is non-empty, as `Bearer <token>` |
| ChatService.MessagesUrl | services/chatService.ts:119 | the history URL is the sessions prefix, the session id as it is, and `/messages` |
| ChatService.MessagesUrlNamesSession | services/chatService.ts:119 | the session id can be read back from the history URL |
| ChatService.MessagesUrlInjective | services/chatService.ts:119 | different sessions have different history URLs |
| ChatService.QuestionRequest | services/chatService.ts:69-80 | a question is POSTed to the conversation endpoint with the chat headers; its body carries the query, and a null session exactly when the id is missing or empty |
| ChatService.SessionsRequest | services/chatService.ts:101-105 | the session list is a bodiless GET of the sessions endpoint with the chat headers |
| ChatService.HistoryRequest | services/chatService.ts:119-123 | a history fetch is a bodiless GET with the chat headers, of a URL from which the session id reads back |
| ChatService.SendChatMessage | services/chatService.ts:85-94 | a question succeeds exactly on a parsed 2xx reply; a non-2xx reply fails with the non-empty `detail`, otherwise (no detail, or a body that does not parse) with a message naming the status; an unparsable 2xx body fails with its syntax error; a transport failure fails with the chat transport message |
| ChatService.FetchSessions | services/chatService.ts:107-112 | the session list succeeds exactly on a parsed 2xx reply and returns `sessions`, or no sessions when the field is missing; a non-2xx reply names its status |
| ChatService.HistoryOf | services/chatService.ts:129-131 | `parsed.messages || parsed || []`: the truthy `messages` field, else the truthy body, else an empty list; a `null` body fails |
| ChatService.FetchSessionMessages | services/chatService.ts:125-131 | a history fetch succeeds only on a parsed 2xx reply, and a parsed 2xx reply gives exactly the value chosen as above; a non-2xx reply names its status; an unparsable 2xx body fails with its syntax error; a transport failure fails with the chat transport message |
| ChatService.SuccessAgrees | services/chatService.ts:85-127 | all three chat requests succeed on exactly the same statuses |
| ChatService.HistoryFailureNames404 | services/chatService.ts:126 | the failure message of a history fetch contains `404` exactly when the status is 404 |
| SecureStore.Store.GetItem | context/AuthContext.tsx:29 | a read gives the stored value, `None` for a missing key, or the rejection |
| SecureStore.Store.SetItem | context/AuthContext.tsx:48 | a write sets one key and leaves every other key as it was; a rejection changes nothing |
| SecureStore.Store.DeleteItem | context/AuthContext.tsx:54 | a delete removes one key and leaves every other key as it was; a rejection changes nothing |
| SecureStore.Written | context/ChatContext.tsx:88 | a best-effort write sets the key on success and leaves the map as it was on rejection |
| SecureStore.Deleted | context/ChatContext.tsx:43 | a best-effort delete removes the key on success and leaves the map as it was on rejection |
| SecureStore.KeysDistinct | constants/Config.ts:14-15 | the token key and the last-session key differ, so the two providers never overwrite each other |
| AuthContext.SavedToken | context/AuthContext.tsx:29-30 | a saved token counts only when it is present and non-empty |
| AuthContext.AuthProvider.constructor | context/AuthContext.tsx:21-23 | the provider starts signed out and loading |
| AuthContext.AuthProvider.RestoreSession | context/AuthContext.tsx:27-40 | loading ends on every path; an accepted saved token is published with its profile; with no saved token nothing else changes; a failed read or fetch deletes the saved token best-effort and publishes nothing; a published token is the stored one |
| AuthContext.AuthProvider.SignIn | context/AuthContext.tsx:45-51 | the login request carries the email and password as its form parameters; the profile request is made only after a successful login and carries the new access token; the first failure among login, profile fetch and token save is the error, and token, user and store stay as they were; success saves the access token, then publishes it with the profile |
| AuthContext.AuthProvider.SignOut | context/AuthContext.tsx:53-57 | token and user end cleared and the saved token is deleted best-effort |
| AuthContext.Startup | context/AuthContext.tsx:21-43 | from a fresh mount, the user is signed in exactly when the read succeeds, a token is saved and the server accepts it; otherwise the app is signed out; loading has ended |
| ChatContext.ErrorMessage | context/ChatContext.tsx:141-144 | a failed question shows an assistant message, without sources, that opens with the apology |
| ChatContext.ErrorMessageReason | context/ChatContext.tsx:141-144 | the error reply is the apology followed by the error's message, or `Please try again later.` when the message is empty |
| ChatContext.GreetingsAddressName | context/ChatContext.tsx:61-82 | both greetings address exactly the name they were built from |
| ChatContext.FreshName | context/ChatContext.tsx:79 | a new chat greets the first word of the user's name, or `Maruthi` when there is no user or that word is empty |
| ChatContext.HistoryMessage | context/ChatContext.tsx:94-98 | a stored message keeps its role and sources; its text is the first non-empty of `content`, `query`, `answer`, else empty |
| ChatContext.MapHistory | context/ChatContext.tsx:94-98 | the history shows one message per stored entry, in the same order |
| ChatContext.HistoryEcho | context/ChatContext.tsx:94-100 | reloading a conversation the backend stored message by message shows the same conversation |
| ChatContext.LoadedHistory | context/ChatContext.tsx:91-100 | a load shows messages exactly when the fetch gives an array, and then shows the mapped entries |
| ChatContext.NotFoundExactly | context/ChatContext.tsx:105 | a failed load counts as a missing session exactly when the server answered 404; transport failures and bodies of the wrong shape never do |
| ChatContext.ChatProvider.constructor | context/ChatContext.tsx:30-34 | the provider starts with no conversation, nothing in flight, no session and no suggestions |
| ChatContext.ChatProvider.GreetIfIdle | context/ChatContext.tsx:61-70 | an empty conversation with a user, no history loading and no session becomes the single welcome greeting to the user's first word; otherwise nothing changes; afterwards the rule no longer applies |
| ChatContext.ChatProvider.StartNewChat | context/ChatContext.tsx:72-82 | a new chat leaves no session, no suggestions, the saved session deleted best-effort, and exactly one greeting |
| ChatContext.ChatProvider.BeginSend | context/ChatContext.tsx:116-126 | a blank text or a question already in flight changes nothing; otherwise the user's message is appended, the flag is set, and the question request carries the token (empty when there is none) and names the current session |
| ChatContext.ChatProvider.CompleteSend | context/ChatContext.tsx:124-147 | exactly one assistant message is appended; an answer adopts and saves its session and shows its suggestions (or none); an error leaves session, suggestions and store unchanged; the in-flight flag ends false |
| ChatContext.ChatProvider.SendMessage | context/ChatContext.tsx:116-148 | an ignored question changes nothing; an admitted one sends the question request with the token and the current session, appends the user's message and then exactly one assistant message, keeps everything before them, and ends with nothing in flight; an answer adopts and saves its session and shows its suggestions (or none); an error leaves session, suggestions and store unchanged |
| ChatContext.ChatProvider.BeginLoad | context/ChatContext.tsx:84-91 | opening a session clears the conversation, makes the session current, saves it best-effort and starts loading; the history request names the session and carries the token (empty when there is none) |
| ChatContext.ChatProvider.CompleteLoad | context/ChatContext.tsx:90-113 | a loaded history replaces the conversation and clears suggestions; a `404` failure forgets the session, empties the conversation and deletes the saved session best-effort; any other failure changes nothing; loading ends on every path |
| ChatContext.ChatProvider.LoadSession | context/ChatContext.tsx:84-114 | the history request names the session and carries the token; after a whole load the history is shown with the session current, or, on a `404` failure, no session and an empty conversation, or, on any other failure, the session with an empty conversation; loading has ended |
| ChatContext.ChatProvider.Clear | context/ChatContext.tsx:38-44 | logout cleanup empties the conversation, session and suggestions and deletes the saved session best-effort |
| ChatContext.ChatProvider.OnTokenChanged | context/ChatContext.tsx:37-58 | a missing or empty token runs the cleanup; a token reopens the saved session exactly when the read succeeds and a non-empty id is saved, and the reopened load ends as `LoadSession` does for that id (history shown, or the session forgotten on a `404` failure, or kept with an empty conversation); otherwise nothing changes |
| ChatContext.ChatProvider.OnAuthChanged | context/ChatContext.tsx:37-58 | corrected reaction: while the auth check runs nothing changes; afterwards a missing token runs the cleanup, and a token reopens the saved session exactly when the read succeeds and a non-empty id is saved, with the same full outcome of the load as `OnTokenChanged`; when nothing is reopened nothing changes |
| ChatContext.OpenForUser | context/ChatContext.tsx:61-70 | a fresh chat for a signed-in user shows one assistant greeting addressed to the user's first name |
| ChatContext.MountDuringAuthCheck | app/_layout.tsx:7-11 | as written: mounted during the auth check, the chat deletes the saved session before the restored token arrives, so nothing is reopened |
| ChatContext.MountAfterAuthCheck | context/ChatContext.tsx:36-58 | corrected: waiting for the auth check, the session saved before the restart is reopened with the restored token, and when its history loads that conversation is shown under that session with loading ended |
| ProfilePopover.DisplayName | components/AppShell/ProfilePopover.tsx:36 | the shown name is the user's name, even when empty, and `User` only when the user or the name is missing |
| ProfilePopover.Capitalize | components/AppShell/ProfilePopover.tsx:15 | a word keeps its length; the first character is upper-cased and the rest kept |
| ProfilePopover.FormatChars | components/AppShell/ProfilePopover.tsx:15 | reference definition: each `_` becomes a space at the same position, each segment's first character is upper-cased, and every other character is kept |
| ProfilePopover.FormatRole | components/AppShell/ProfilePopover.tsx:13-16 | a missing or empty role reads `Field Engineer`; any other role's split–capitalise–join text equals the character-wise reference definition |
| ProfilePopover.FormatRoleShape | components/AppShell/ProfilePopover.tsx:15 | for a non-empty role the text has the role's length, spaces exactly where the role has `_`, and upper-cased segment starts |
| ProfilePopover.FormatRoleWords | components/AppShell/ProfilePopover.tsx:15 | for a role without spaces, splitting the text on spaces gives the capitalised segments |
| ProfilePopover.DoubledUnderscore | components/AppShell/ProfilePopover.tsx:15 | empty segments become empty words: `a__b` reads `A  B` |
| BottomTabBar.IsActive | components/AppShell/BottomTabBar.tsx:19-22 | a tab other than home is active only on a path long enough to hold its route without the group segment |
| BottomTabBar.HomeTabActive | components/AppShell/BottomTabBar.tsx:20 | the home tab is active exactly on `/`, `/index` and the empty path |
| BottomTabBar.PageTabActive | components/AppShell/BottomTabBar.tsx:21 | another tab is active on every path that contains its route without the group segment |
| BottomTabBar.BareGroupAlwaysActive | components/AppShell/BottomTabBar.tsx:21 | a route that is only the group segment would be active on every path |
| BottomTabBar.IconName | components/AppShell/BottomTabBar.tsx:28-31 | an inactive tab keeps its icon; an active one loses its first `-outline`, if it has one |
| BottomTabBar.ActiveIconRestores | components/AppShell/BottomTabBar.tsx:30 | putting `-outline` back where it was removed restores the outline icon |
| BottomTabBar.TabLabel | components/AppShell/BottomTabBar.tsx:33 | a label containing `Home` shows `Alfred`; any other label shows as it is |
| BottomTabBar.Tabs | components/AppShell/BottomTabBar.tsx:27-39 | exactly one tab per item, in item order |
| BottomTabBar.TabsFollowItems | components/AppShell/BottomTabBar.tsx:27-39 | each tab navigates to its own item's route and is active exactly when that route matches the path |
| BottomTabBar.HistoryPageTabs | components/AppShell.tsx:19-24 | on `/history`, only the History tab of the app's navigation is active, with the filled `list` icon, and the home tab reads `Alfred` |

## Left out

- The request wrapper of both services is not modelled: `XMLHttpRequest`, its callbacks and its 15 s and 30 s timeouts. Only what it resolves or rejects with is modelled, as a reply value.
- The connectivity pre-flight of the login (services/authService.ts:50-55) is left out. It is a network call whose failure is swallowed, so it cannot change the result.
- `JSON.parse` of text is not modelled. Bodies arrive as parsed values or as a syntax error with its message.
  - A parsed body is assumed to have the declared shape, and history entries are assumed to be objects.
  - A 2xx reply whose JSON is `null`, or lacks a declared field, is not modelled. For example, reading `answer` from `null` throws a TypeError.
- ChatService.Source: the `score` field (a float) is not modelled, because no code reads it.
- `console.log` and `console.error` are left out.
- React scheduling is left out, because it is framework timing: effect timing, stale `useCallback` closures, and completions of overlapping loads and sends. Each operation runs start to settlement in sequence.
  - The `isThinking` guard reads the provider's current field.
  - In the source, the guard reads the value captured by the closure.
- ChatContext.NotFoundExactly: excludes a 2xx reply whose body does not parse. The syntax error text comes from the JavaScript engine and may contain `404`, for example as a position; such a failure also resets the session. It is also stated only for statuses below 1000, for the reason given for ChatService.HistoryFailureNames404 below.
- ChatService.HistoryFailureNames404: stated for statuses below 1000. A larger status whose digits contain `404` would also count as not found.
- ChatContext.LoadedHistory: the texts of the two TypeErrors (`null` body, non-array history) depend on the engine. The model fixes one text for each and relies only on neither containing `404`.
- UriEncoding.EncodeURIComponent: a Dafny `string` holds only Unicode scalar values, so the `URIError` that `encodeURIComponent` throws on a lone surrogate cannot arise. A login whose email or password held one would reject before any request; the model does not capture that rejection.
- A `detail` that is not a string is not modelled: the body's `detail` is a string or missing. An object or number `detail` would be passed to `new Error` and shown as text such as `[object Object]`, a message the model cannot produce.
- ProfilePopover.Capitalize: `toUpperCase` is modelled for the ASCII letters `a`–`z` only. Full Unicode case mapping is out of scope; it can change length, e.g. `ß` becomes `SS`.
- ProfilePopover.FormatRoleShape: for the same reason, the length claim holds for the modelled mapping, which for ASCII input is the real one.
- The greeting texts are kept as the source writes them, but the model treats them only as fixed text around the first name.
- The screens under app/ are not modelled: they are presentation only. So are components/AppShell.tsx (except its navigation list), components/GlobalHeader.tsx, the styles and services/dashboardService.ts (mock data behind timers).

## Findings

| source | as written | input that shows it | evidently intended | confidence | as-written member | corrected member |
|---|---|---|---|---|---|---|
| context/ChatContext.tsx:37-58 | the cleanup runs whenever the token is missing, including the first run of the effect, while the enclosing auth provider (app/_layout.tsx:7-11) is still restoring its token | a restart with a saved session id and a saved token the server accepts: the first run deletes the id (the deletion succeeds), and the run for the restored token reads nothing | the last session is restored at start-up and cleared only on logout, as the effect's own comments say | medium; not executed; rests on the order in which React runs the effect and on the store serving the earlier delete before the later read | ChatContext.MountDuringAuthCheck | ChatContext.MountAfterAuthCheck |
