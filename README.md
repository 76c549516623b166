# Simple chat app: message authorization, chat creation, search, route guard and display rules

A Dafny model of the logic in a two-person chat web application built on
Next.js and a hosted Postgres/auth service. Each backend call is replaced by
an input (what the call returned) or by an in-memory table, so that the rules
the application code applies around those calls can be stated and proved:

- `MessagesRoute` — the `POST`, `PUT` and `DELETE` handlers of `/api/messages`
  as methods of a `MessageTable` class whose `rows` map holds the `messages`
  table. `Authorize` is the ladder the edit and delete handlers share:
  authentication, then existence, then ownership. Only the owner can change a
  row. A successful edit or delete changes exactly that row, and every refused
  request leaves the table as it was.
- `AddChatDialog` — the "Start New Chat" dialog as a class holding its four
  state variables plus the `chats` and `chat_participants` tables it writes.
  The search handler is split at its `fetch` into `BeginSearch` and
  `FinishSearch`. `StartChat` runs the duplicate check, then the two inserts.
- `UsersSearch` — the `GET /api/users/search` handler as a pure function from
  the `email` parameter, the session and the profile lookup to a JSON response.
- `SearchFlow` — the dialog's search fed by that endpoint.
- `Middleware` — the redirect decision of the route guard and the path
  matcher that decides which requests reach it.
- `AuthSlice` — the auth state slice: a pure `Reduce` and a class whose three
  reducer methods follow it.
- `ChatInterface` — the local message list and input box.
- `ChatList`, `Header`, `UserMenu`, `InitialsAgreement` — the three
  initials computations, the display-name and email fallbacks, the picture or
  initials choice, the resolution of the chat list, and how the three initials
  variants relate.
- `Text` — the JavaScript string built-ins these rely on: `trim`,
  `startsWith`, `split(" ")`, `join`, `charAt(0)` and `toUpperCase`.

Behaviour of the code that the model makes explicit:

- `startChat` treats a failing participants query as "no shared chat", so it
  then creates a new chat. The duplicate check guards only when the query
  succeeds (`AddChatDialog.AddChatDialog.StartChat`, parameter `lookupFails`).
- If the participants insert fails after the chat insert succeeded, the new
  chat row stays without participants.
- In the middleware matcher pattern, the `.` of `favicon.ico` is a regular-expression
  wildcard, so any character but a line terminator may stand between
  `favicon` and `ico`. A URL pathname never holds a raw line terminator, so the
  model allows any character (`Middleware.ExcludedHead`).
- The edit and delete handlers answer 404 for any failing lookup query, not
  only for a missing row (`MessagesRoute.Authorize`, parameter `lookupFails`).
- `GET /api/messages` returns every row with no authentication check of its
  own; access control is left to the database.

## Model

| member | source | states |
|---|---|---|
| `MessagesRoute.Authorize` | src/app/api/messages/route.ts:55-81 | Only the signed-in owner of an existing row gets past the checks. An auth error gives 500 and no user gives 401, whatever the table holds. For a signed-in user, a missing row or a failing lookup gives 404, and a row owned by someone else gives 403 with the per-operation text. |
| `MessagesRoute.MessageTable.List` | src/app/api/messages/route.ts:8-14 | GET returns the whole table with 200, or 400 when the query fails. |
| `MessagesRoute.MessageTable.Post` | src/app/api/messages/route.ts:17-46 | An unreadable body or an auth error gives 500 "Failed to create message". No user gives 401. A failing insert gives 500. Each of these leaves the table unchanged. Otherwise the response is 201 and exactly one row is added, under an unused id. Its owner is the session user, never a profile id from the body, and `is_edited` starts false. |
| `MessagesRoute.MessageTable.Put` | src/app/api/messages/route.ts:49-99 | The response is the `Authorize` verdict, or 500 when the body is unreadable or the update fails. On 200 exactly that row changes: it gets the new content and `is_edited` true, and no other row changes. Any other status leaves the table unchanged. |
| `MessagesRoute.MessageTable.Delete` | src/app/api/messages/route.ts:102-149 | The response is the `Authorize` verdict, or 500 when the body is unreadable or the delete fails. On 200 exactly the row with that id is removed. Any other status leaves the table unchanged. |
| `MessagesRoute.DeleteTwice` | src/app/api/messages/route.ts:119-141 | After a successful delete, a second delete of the same id returns 404 "Message not found". |
| `UsersSearch.Search` | src/app/api/users/search/route.ts:8-111 | Every response is JSON. A missing or empty `email` gives 400 before the session is read. A session read that throws gives 500. No session gives 401, and that includes a session read that returns an error. The caller's own email (string equality) gives 400. After that, lookup code `PGRST116` gives 404, any other lookup error 500, and an exception the 500 catch-all. Status 200 happens exactly for someone else's found profile, and it carries `id`, `email` and a never-empty `full_name` ("Anonymous User" when falsy). |
| `Middleware.Decide` | src/middleware.ts:13-26 | A path starting with `/chat` and no session redirects to `/login`. Exactly `/login` with a session redirects to `/chat`. Every other pair passes through. |
| `Middleware.RulesDisjoint` | src/middleware.ts:13-24 | No path meets both redirect rules. |
| `Middleware.PrefixProtects` | src/middleware.ts:13 | The guard is a prefix test: every path `/chat` + anything (for example `/chat/x` or `/chatroom`) redirects to `/login` without a session. |
| `Middleware.Matches` | src/middleware.ts:30-41 | A path reaches the guard exactly when it starts with `/` and is not under `/api`, `/_next/static`, `/_next/image` or `/favicon` + any character + `ico`. In particular `/favicon.ico` is skipped, and every `/` path whose next character is not `a`, `_` or `f` is matched. |
| `Middleware.ExcludedHead` | src/middleware.ts:40 | The negative lookahead after the leading `/`: the four alternatives, the `.` of `favicon.ico` matching any character. Any excluded head has at least three characters. |
| `Middleware.ExcludedHeadOnPath` | src/middleware.ts:40 | After a leading `/`, the lookahead excludes exactly the paths under `/api`, `/_next/static`, `/_next/image` or `/favicon` + any character + `ico`. |
| `Middleware.Handle` | src/middleware.ts:5-41 | Unmatched paths pass through. Matched paths get the guard's decision. |
| `Middleware.GuardedPathsReachGuard` | src/middleware.ts:13-41 | Paths under `/chat`, and `/login`, are always matched, so the matcher never bypasses the guard. |
| `AuthSlice.Reduce` | src/lib/store/features/authSlice.ts:19-30 | `setUser` sets the user and clears the error, and keeps `isLoading`. `setLoading` changes only `isLoading`. `setError` changes only `error`. |
| `AuthSlice.ReduceIdempotent` | src/lib/store/features/authSlice.ts:19-30 | Dispatching an action twice gives the same state as dispatching it once. |
| `AuthSlice.LoadingAndErrorCommute` | src/lib/store/features/authSlice.ts:24-29 | `setLoading` and `setError` can be applied in either order. |
| `AuthSlice.AuthStore.constructor` | src/lib/store/features/authSlice.ts:10-14 | The initial state is user null, isLoading false, error null. |
| `AuthSlice.AuthStore.SetUser` | src/lib/store/features/authSlice.ts:20-23 | The store's fields become `Reduce` of the old state with `setUser`. The method may modify only `user` and `error`. |
| `AuthSlice.AuthStore.SetLoading` | src/lib/store/features/authSlice.ts:24-26 | The fields become `Reduce` with `setLoading`. The method may modify only `isLoading`. |
| `AuthSlice.AuthStore.SetError` | src/lib/store/features/authSlice.ts:27-29 | The fields become `Reduce` with `setError`. The method may modify only `error`. |
| `ChatInterface.ChatInterface.constructor` | src/components/chat/ChatInterface.tsx:9-17 | A new screen starts with no messages and an empty input. |
| `ChatInterface.ChatInterface.SetInputMessage` | src/components/chat/ChatInterface.tsx:65 | Typing replaces the input text. |
| `ChatInterface.ChatInterface.HandleSendMessage` | src/components/chat/ChatInterface.tsx:19-32 | A message is sent exactly when the input is not all whitespace. A blank input leaves the messages and the input unchanged. A send appends exactly one message: the untrimmed input, with `isUser` true and the given id and time. The input is then empty. |
| `ChatInterface.SendKeepsHistory` | src/components/chat/ChatInterface.tsx:30 | Earlier messages remain a prefix of the list, in their order, and the list grows by at most one. |
| `ChatInterface.HeaderShowsInitials` | src/components/chat/ChatInterface.tsx:34-49 | The screen's header, with an empty picture and "John Doe", shows the badge "JD". |
| `AddChatDialog.SearchOutcome` | src/components/chat/AddChatDialog.tsx:61-76 | An OK JSON reply clears the error and stores the reply's `user`. Every other reply leaves no result. A non-OK reply shows the server's `error` text, or "Failed to search for user" when that text is absent or empty. A non-JSON reply shows "Server returned an invalid response". A rejected fetch shows its message. |
| `AddChatDialog.AddChatDialog.constructor` | src/components/chat/AddChatDialog.tsx:29-32 | The dialog starts with an empty email, not searching, no error and no result. |
| `AddChatDialog.AddChatDialog.SetSearchEmail` | src/components/chat/AddChatDialog.tsx:152 | Typing replaces the email text. |
| `AddChatDialog.AddChatDialog.OnOpenChange` | src/components/chat/AddChatDialog.tsx:34-40 | Closing resets the email, the result and the error. Opening changes nothing. |
| `AddChatDialog.AddChatDialog.BeginSearch` | src/components/chat/AddChatDialog.tsx:42-47 | A request is issued exactly when the email is not all whitespace. A blank email changes no state. Otherwise the dialog is searching, and the error and the result are cleared. |
| `AddChatDialog.AddChatDialog.FinishSearch` | src/components/chat/AddChatDialog.tsx:49-76 | It runs from the state `BeginSearch` leaves: searching, no error, no result. The error and the result become `SearchOutcome` of the reply. `isSearching` is false after either outcome. |
| `AddChatDialog.AddChatDialog.StartChat` | src/components/chat/AddChatDialog.tsx:79-134 | With no result, nothing happens. A successful lookup that finds a chat shared with the target sets "A conversation with this user already exists" and inserts nothing. `onChatCreated` is called exactly when the guards pass and both inserts succeed. Then one new chat created by the current user exists. Its participant rows are exactly the current user's and the target's (a single row if they are the same profile). The email and the result are cleared. A throwing chat insert shows its message and inserts nothing. A throwing participants insert shows its message and leaves the chat row without participants. |
| `AddChatDialog.SecondChatRefused` | src/components/chat/AddChatDialog.tsx:85-103 | After a chat with a user has been created, the user types that email again, searches, finds the same user and starts a chat. That start is refused with the duplicate message, and the chats table keeps only the first chat. |
| `AddChatDialog.SharedChats` | src/components/chat/AddChatDialog.tsx:86-100 | The duplicate check: a chat is shared exactly when it has a participant row for the current user and one for the target. |
| `AddChatDialog.ThrownMessage` | src/components/chat/AddChatDialog.tsx:130-132 | A thrown `Error` shows its own message. Any other thrown value shows "Failed to create chat". |
| `SearchFlow.Deliver` | src/components/chat/AddChatDialog.tsx:54-66 | A reply is treated as non-JSON exactly when its content type does not include `application/json` (a missing header is ""). `ok` holds exactly for a 2xx status. The `error` field is present exactly for an error body, and carries its text. The `user` field is present exactly for a user body, and carries its id, email and full name. A fetch that got a response never counts as rejected. |
| `SearchFlow.CharsetIsJson` | src/components/chat/AddChatDialog.tsx:55-58 | A header such as `application/json; charset=utf-8` passes the JSON check, and the found user is delivered. |
| `SearchFlow.DialogShowsEndpointVerdict` | src/components/chat/AddChatDialog.tsx:49-76 | For a non-blank email sent to the search endpoint, the dialog shows either the found user with no error, or exactly the endpoint's error text. It never shows the invalid-response error and never the missing-parameter error. |
| `Header.Initials` | src/components/layout/Header.tsx:29-33 | One upper-cased first letter per non-empty space-separated word, with no cap, so never more characters than words. An empty name gives "". |
| `Header.RenderProfile` | src/components/layout/Header.tsx:16-39 | A non-empty `profilePicture` is shown as the image. Otherwise the initials badge is shown. |
| `UserMenu.UpperFirstLetters` | src/components/user/UserMenu.tsx:41-44 | Upper-casing each first letter and then joining gives the same text as upper-casing the joined first letters. |
| `UserMenu.GetInitials` | src/components/user/UserMenu.tsx:40-45 | The result length equals the number of non-empty words, with no cap. Each character is the upper-cased first letter of the matching word. `getInitials("")` is "". |
| `UserMenu.ProfileAvatar` | src/components/user/UserMenu.tsx:86-99 | A non-empty picture is shown as the image. Otherwise the `getInitials` badge is shown. |
| `UserMenu.PlaceholderAvatar` | src/components/user/UserMenu.tsx:33-37 | The placeholder user has an empty picture, so the badge "JD" is shown. |
| `ChatList.InitialsSource` | src/components/chat/ChatList.tsx:120 | The initials come from `full_name` when it is non-null and non-empty, and from `email` otherwise. |
| `ChatList.Initials` | src/components/chat/ChatList.tsx:119-126 | A null profile gives "??". Otherwise the result has min(2, number of non-empty words) characters, each the upper-cased first letter of the matching word. |
| `ChatList.EntryAvatar` | src/components/chat/ChatList.tsx:108-128 | The picture is shown exactly when the profile exists and `avatar_url` is truthy. Otherwise the initials badge is shown. |
| `ChatList.DisplayName` | src/components/chat/ChatList.tsx:131 | The full name when it is truthy, else "Anonymous User". Never empty. |
| `ChatList.DisplayEmail` | src/components/chat/ChatList.tsx:134 | The email when it is non-empty, else "No email". Never empty. |
| `ChatList.ResolveChat` | src/components/chat/ChatList.tsx:43-65 | A chat with no other participant row gives null. Otherwise the entry carries that chat's id. Its profile is present exactly when the other participant's profile exists, and it is that profile. |
| `ChatList.ResolveChats` | src/components/chat/ChatList.tsx:43-69 | Chats with no other participant are dropped. Every chat with one is kept, with its other participant's profile (null when that profile is missing). The list never grows. |
| `ChatList.ResolveChatsAppend` | src/components/chat/ChatList.tsx:67-69 | Filtering keeps the order of `userChats`: resolving a concatenation gives the concatenation of the results. |
| `ChatList.IsActive` | src/components/chat/ChatList.tsx:105 | An entry is highlighted exactly when `activeChat` is set and equals its `chat_id`. |
| `InitialsAgreement.HeaderAgreesWithUserMenu` | src/components/user/UserMenu.tsx:40-45 | The account menu's initials equal the header's for every name. |
| `InitialsAgreement.ChatListCapsHeader` | src/components/chat/ChatList.tsx:119-125 | The list's initials are the header's initials of the same text, cut to two characters. |
| `InitialsAgreement.RepeatedSpaces` | src/components/chat/ChatList.tsx:121-123 | Empty words from repeated spaces add nothing: "ada  lovelace" gives "AL". |
| `Text.TrimEmptyIffBlank` | src/components/chat/ChatInterface.tsx:21 | `!s.trim()` holds exactly when every character of `s` is whitespace. |
| `Text.Trim` | src/components/chat/AddChatDialog.tsx:43 | `trim()` is no longer than the string and neither starts nor ends with whitespace. It is `TrimEnd` of `TrimStart`, whose rows say what is cut off. |
| `Text.Contains` | src/components/chat/AddChatDialog.tsx:56 | `includes` holds when `sub` occurs at some position of `s`. It never holds for a `sub` longer than `s`, and always holds when `s` starts with `sub`. |
| `Text.StartsWith` | src/middleware.ts:13 | `startsWith` holds exactly when the prefix is no longer than the string and agrees with it at each position. |
| `Text.TrimStart` | src/components/chat/AddChatDialog.tsx:43 | The result is the suffix left after the longest whitespace prefix. |
| `Text.TrimEnd` | src/components/chat/AddChatDialog.tsx:43 | The result is the prefix left before the longest whitespace suffix. |
| `Text.Split` | src/components/layout/Header.tsx:30 | `split(" ")` returns at least one part, and no part contains the separator. |
| `Text.JoinSplit` | src/components/user/UserMenu.tsx:42 | Joining the parts of a split with the separator gives back the original string. |
| `Text.SplitJoin` | src/components/chat/ChatList.tsx:121 | Splitting the join of at least one separator-free part gives back those parts. |
| `Text.UpperChar` | src/components/user/UserMenu.tsx:43 | ASCII lower-case letters map to the matching upper-case letter. Every other character is unchanged. |
| `Text.Upper` | src/components/layout/Header.tsx:33 | Upper-casing keeps the length and maps each character on its own. |
| `Text.CharAt0` | src/components/layout/Header.tsx:31 | `charAt(0)` is empty exactly for the empty word, and otherwise is the word's first character. |
| `Text.NonEmptyWords` | src/components/chat/ChatList.tsx:122 | The result holds exactly the non-empty words of the input, never more elements than the input. A single word is kept exactly when it is non-empty. |
| `Text.NonEmptyWordsAppend` | src/components/chat/ChatList.tsx:121-123 | Dropping the empty words keeps the order of the rest: filtering a concatenation concatenates the filtered halves. So the initials follow the order of the words. |
| `Text.NonEmptyWordsCount` | src/components/chat/ChatList.tsx:122 | Each non-empty word is kept as many times as it occurs, and only the empty words are dropped. |
| `Text.FirstLetters` | src/components/layout/Header.tsx:30-32 | Mapping to first characters and joining gives one character per non-empty word, in order: the first character of each. |

## Left out

- Backend calls, cookies, `NextResponse` construction and logging. Each call
  is an input saying what it returned, or an in-memory table. Row-level
  security is enforced by the hosted database and is not visible in this code.
- Concurrency. The handlers and the dialog run as sequential steps. The
  duplicate check in `startChat` is a read followed by writes, and other
  clients may write in between. The model makes no claim that a pair of
  users is unique across concurrent clients.
- Request bodies are either unreadable, which leads to the catch-all 500, or
  well-formed. JSON fields of the wrong type are not modelled. Message ids
  are natural numbers assigned by the table's counter.
- `startChat` takes the current user's id as a parameter. The case where
  `getUser` returns no user (an undefined id in the queries) is not modelled.
- In `handleSearch` every value thrown inside the `try` is an `Error`: a
  rejected fetch, an unparsable body, or the handler's own errors.
  `FetchFailed` carries the message, so the "Failed to search user" fallback
  for non-`Error` values has no input that reaches it.
- The `fetchChats` I/O (the `loading` flag, and the early returns when there
  is no user or no chat list). `ResolveChats` takes the query results as
  maps: chat to other participant, and profile id to profile.
- `Text.CharAt0`: strings are sequences of Unicode code points, while JavaScript
  indexes UTF-16 code units. For a word that starts outside the Basic
  Multilingual Plane (an emoji, say), `charAt(0)` gives half a surrogate pair;
  the model gives the whole character.
- `Text.FirstLetters`: takes the first code point of each word, where the
  source's `charAt(0)` and `word[0]` take the first UTF-16 code unit (half a
  surrogate pair for a word that starts outside the Basic Multilingual Plane).
- `Header.Initials`: a word that starts outside the Basic Multilingual Plane
  gives, in the source, a lone high surrogate in the badge; in the model, the
  whole character.
- `UserMenu.GetInitials`: the same UTF-16 difference as `Header.Initials`.
- `ChatList.Initials`: besides the first-letter difference above, the
  source's `slice(0, 2)` counts UTF-16 code units, so it may keep a single
  astral letter or a lone surrogate; the model keeps two code points.
- `MessagesRoute.MessageTable.Post`: the insert sends only `chat_id`,
  `profile_id` and `content`. The model's new row has `is_edited` false,
  which assumes the column's database default; the schema is not part of
  this model.
- `AddChatDialog.AddChatDialog.StartChat`: `chat_participants` is a set of
  pairs. When the target is the current user's own profile, the source
  inserts two identical rows and the model holds one. The search endpoint
  refuses one's own email, so a search does not normally produce this case.
- `toUpperCase` is modelled for ASCII letters only. Characters whose upper
  case has more than one character (ß to SS) would change what
  `slice(0, 2)` keeps.
- The matcher is modelled as a test on the pathname. Next.js's own handling
  of trailing slashes, locales and data routes is not modelled.
- The clock: `Date.now()` ids and `toLocaleTimeString` labels are parameters.
- Rendering, the sign-out and edit buttons of the account menu, the search
  button's disabled state, the OAuth callback, the landing page, the login
  button, the message bubble, the sidebar, layouts, configuration, the
  schema inspector, and the pass-through `/api/users` and `/api/chats` routes.
- No optimistic send, pagination, message de-duplication or realtime
  subscription exists in these files, so none is modelled.
