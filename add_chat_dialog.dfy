/**
  The "Start New Chat" dialog of src/components/chat/AddChatDialog.tsx: its
  state (`searchEmail`, `isSearching`, `error`, `searchResult`), the search
  handler, the chat-creation handler and the reset on close. The `chats` and
  `chat_participants` tables it writes are fields of the same object; what the
  network and the backend answer are parameters.
 */
module AddChatDialog {
  import opened Wrappers
  import opened Text

  /** Chat ids are assigned here by the model's own counter (`nextChatId`). */
  type ChatId = nat
  type ProfileId = string

  /** The `user` object of a successful search response. */
  datatype SearchResult = SearchResult(id: ProfileId, email: string, fullName: string)

  /** What `fetch` of the search endpoint gave: a rejected fetch (its error message),
      a response without a JSON content type, or a JSON response with its `ok` flag,
      its `error` field and its `user` field. */
  datatype SearchReply =
    | FetchFailed(message: string)
    | NonJson
    | JsonReply(ok: bool, error: Option<string>, user: Option<SearchResult>)

  /** A value thrown by a backend step of `startChat`. */
  datatype Thrown = ErrorObject(message: string) | OtherValue

  const InvalidResponse := "Server returned an invalid response"
  // The client's fallback literal; the search endpoint sends the same text from its own literal.
  const SearchFailed := "Failed to search for user"
  const DuplicateChat := "A conversation with this user already exists"
  const CreateChatFailed := "Failed to create chat"

  /** The `error` and `searchResult` a settled search leaves behind. */
  function SearchOutcome(reply: SearchReply): (r: (string, Option<SearchResult>))
    ensures reply.JsonReply? && reply.ok ==> r == ("", reply.user)
    ensures !(reply.JsonReply? && reply.ok) ==> r.1 == None
    ensures reply.NonJson? ==> r.0 == InvalidResponse
    ensures reply.JsonReply? && !reply.ok ==>
      r.0 != "" && r.0 == (if Truthy(reply.error) then reply.error.value else SearchFailed)
    ensures reply.FetchFailed? ==> r.0 == reply.message
  {
    match reply
    case FetchFailed(message) => (message, None)
    case NonJson => (InvalidResponse, None)
    case JsonReply(ok, err, user) =>
      if !ok then (if Truthy(err) then err.value else SearchFailed, None)
      else ("", user)
  }

  /** `error instanceof Error ? error.message : "Failed to create chat"` */
  function ThrownMessage(t: Thrown): (m: string)
    ensures t.ErrorObject? ==> m == t.message
    ensures t.OtherValue? ==> m == CreateChatFailed
  {
    match t
    case ErrorObject(message) => message
    case OtherValue => CreateChatFailed
  }

  /** The duplicate check: the chats of `a` (the `chat_participants` rows with `profile_id` `a`)
      that also have a participant row for `b`. */
  function SharedChats(participants: set<(ChatId, ProfileId)>, a: ProfileId, b: ProfileId): (r: set<ChatId>)
    ensures forall c :: c in r <==> (c, a) in participants && (c, b) in participants
  {
    set p | p in participants && p.1 == a && (p.0, b) in participants :: p.0
  }

  class AddChatDialog {
    var searchEmail: string
    var isSearching: bool
    var error: string
    var searchResult: Option<SearchResult>
    /** `chats`: id to `created_by`. */
    var chats: map<ChatId, ProfileId>
    /** `chat_participants` as (chat_id, profile_id) pairs. */
    var participants: set<(ChatId, ProfileId)>
    /** The next id the `chats` table assigns. */
    var nextChatId: ChatId

    /** Chat ids are below the counter, and every participant row names an existing chat. */
    ghost predicate Valid()
      reads this
    {
      && (forall c :: c in chats ==> c < nextChatId)
      && (forall p :: p in participants ==> p.0 in chats)
    }

    constructor ()
      ensures Valid()
      ensures searchEmail == "" && !isSearching && error == "" && searchResult == None
      ensures chats == map[] && participants == {}
    {
      searchEmail, isSearching, error, searchResult := "", false, "", None;
      chats, participants, nextChatId := map[], {}, 0;
    }

    /** `startChat` gets past its guards: there is a result, and the duplicate check finds
        no chat shared with it (or its query failed, which reads as none). */
    ghost predicate ClearToCreate(me: ProfileId, lookupFails: bool)
      reads this
    {
      searchResult.Some? && (lookupFails || SharedChats(participants, me, searchResult.value.id) == {})
    }

    /** The email input's `onChange`. */
    method SetSearchEmail(text: string)
      modifies this`searchEmail
      ensures searchEmail == text
    {
      searchEmail := text;
    }

    /** The effect on `open`: closing the dialog clears the email, the result and the error. */
    method OnOpenChange(open: bool)
      modifies this`searchEmail, this`searchResult, this`error
      ensures !open ==> searchEmail == "" && searchResult == None && error == ""
      ensures open ==> searchEmail == old(searchEmail) && searchResult == old(searchResult) && error == old(error)
    {
      if !open {
        searchEmail := "";
        searchResult := None;
        error := "";
      }
    }

    /** `handleSearch` up to the `fetch`: a blank email issues no request and changes nothing;
        otherwise the dialog is marked searching and the previous error and result are cleared. */
    method BeginSearch() returns (requested: bool)
      modifies this`isSearching, this`error, this`searchResult
      ensures requested <==> !IsBlank(searchEmail)
      ensures !requested ==> isSearching == old(isSearching) && error == old(error) && searchResult == old(searchResult)
      ensures requested ==> isSearching && error == "" && searchResult == None
    {
      TrimEmptyIffBlank(searchEmail);
      if Trim(searchEmail) == "" {
        return false;
      }
      isSearching := true;
      error := "";
      searchResult := None;
      requested := true;
    }

    /** `handleSearch` after the `fetch` settles, from the state `BeginSearch` left: record the
        result or the error; in every case `isSearching` ends false. */
    method FinishSearch(reply: SearchReply)
      requires isSearching && error == "" && searchResult == None
      modifies this`isSearching, this`error, this`searchResult
      ensures !isSearching
      ensures (error, searchResult) == SearchOutcome(reply)
    {
      var outcome := SearchOutcome(reply);
      error, searchResult := outcome.0, outcome.1;
      isSearching := false;
    }

    /** `startChat` for the signed-in user `me`. `lookupFails` is a failing participants query
        (read by the handler as "no existing chat"); `chatInsert` and `participantsInsert` are what
        the two inserts throw, if anything. Returns whether `onChatCreated` was called. */
    method StartChat(me: ProfileId, lookupFails: bool, chatInsert: Option<Thrown>, participantsInsert: Option<Thrown>)
      returns (notified: bool)
      requires Valid()
      modifies this
      ensures Valid()
      ensures searchEmail == (if notified then "" else old(searchEmail))
      ensures searchResult == (if notified then None else old(searchResult))
      ensures isSearching == old(isSearching)
      // no search result: nothing happens
      ensures old(searchResult).None? ==>
        !notified && error == old(error) && chats == old(chats) && participants == old(participants)
      // the pair already shares a chat: refused, nothing inserted
      ensures old(searchResult).Some? && !lookupFails && SharedChats(old(participants), me, old(searchResult).value.id) != {} ==>
        !notified && error == DuplicateChat && chats == old(chats) && participants == old(participants)
      ensures notified <==> old(ClearToCreate(me, lookupFails)) && chatInsert.None? && participantsInsert.None?
      // success: one new chat created by `me`, with exactly the two participant rows
      ensures notified ==>
        var c := old(nextChatId);
        var target := old(searchResult).value.id;
        && c !in old(chats)
        && chats == old(chats)[c := me]
        && participants == old(participants) + {(c, me), (c, target)}
        && (forall p :: p in participants && p.0 == c ==> p == (c, me) || p == (c, target))
        && c in SharedChats(participants, me, target)
        && error == old(error)
      // the chat insert throws: its message is shown, nothing is inserted
      ensures old(ClearToCreate(me, lookupFails)) && chatInsert.Some? ==>
        error == ThrownMessage(chatInsert.value) && chats == old(chats) && participants == old(participants)
      // the participants insert throws: the chat row stays, without participants
      ensures old(ClearToCreate(me, lookupFails)) && chatInsert.None? && participantsInsert.Some? ==>
        && error == ThrownMessage(participantsInsert.value)
        && old(nextChatId) !in old(chats) && chats == old(chats)[old(nextChatId) := me]
        && participants == old(participants)
    {
      if searchResult.None? {
        return false;
      }
      var target := searchResult.value.id;
      var existing := if lookupFails then {} else SharedChats(participants, me, target);
      if existing != {} {
        error := DuplicateChat;
        return false;
      }
      if chatInsert.Some? {
        error := ThrownMessage(chatInsert.value);
        return false;
      }
      var c := nextChatId;
      chats := chats[c := me];
      nextChatId := c + 1;
      if participantsInsert.Some? {
        error := ThrownMessage(participantsInsert.value);
        return false;
      }
      participants := participants + {(c, me), (c, target)};
      assert (c, me) in participants && (c, target) in participants;
      searchEmail := "";
      searchResult := None;
      notified := true;
    }
  }

  /** Once a chat with a user exists, typing that user's email again, searching, finding the
      user and starting a chat is refused. */
  method SecondChatRefused(dialog: AddChatDialog, me: ProfileId, user: SearchResult) returns (first: bool, second: bool)
    requires dialog.Valid() && dialog.searchResult == Some(user) && !IsBlank(user.email)
    modifies dialog
    ensures first ==> !second && dialog.error == DuplicateChat
    ensures first ==> dialog.chats == old(dialog.chats)[old(dialog.nextChatId) := me]
  {
    first := dialog.StartChat(me, false, None, None);
    dialog.SetSearchEmail(user.email);
    var requested := dialog.BeginSearch();
    dialog.FinishSearch(JsonReply(true, None, Some(user)));
    second := dialog.StartChat(me, false, None, None);
  }
}
