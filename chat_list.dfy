/**
  The conversation list of src/components/chat/ChatList.tsx: how the chats the
  signed-in user takes part in are resolved into entries, and how each entry
  is labelled. The queries themselves are inputs (see ResolveChats).
 */
module ChatList {
  import opened Wrappers
  import opened Text
  import opened Display

  /** A row of `profiles` as selected by the list (`id, full_name, email, avatar_url`);
      the search endpoint reads its own set of columns (`UsersSearch.Profile`). */
  datatype Profile = Profile(id: string, fullName: Option<string>, email: string, avatarUrl: Option<string>)

  /** `ChatParticipant`: a chat and the other participant's profile, or null when that lookup
      found none. The chat id is the string the queries return and `activeChat` is compared
      with; the dialog's `AddChatDialog.ChatId` is instead a counter the model assigns. */
  datatype ChatParticipant = ChatParticipant(chatId: string, profile: Option<Profile>)

  const NoProfileInitials := "??"
  // ChatList.tsx's own literal; the search endpoint has a separate one (`UsersSearch.AnonymousName`).
  const AnonymousName := "Anonymous User"
  const NoEmail := "No email"

  /** `full_name || email`: the text the initials are taken from. */
  function InitialsSource(p: Profile): (s: string)
    ensures Truthy(p.fullName) ==> s == p.fullName.value
    ensures !Truthy(p.fullName) ==> s == p.email
  {
    if Truthy(p.fullName) then p.fullName.value else p.email
  }

  /** The badge text: first letters of the words of the name (or the email), upper-cased,
      at most two of them; "??" when there is no profile. */
  function Initials(profile: Option<Profile>): (r: string)
    ensures profile.None? ==> r == NoProfileInitials
    ensures profile.Some? ==>
      var words := NonEmptyWords(Split(InitialsSource(profile.value), ' '));
      && |r| == (if |words| < 2 then |words| else 2)
      && forall k :: 0 <= k < |r| ==> r[k] == UpperChar(words[k][0])
  {
    match profile
    case None => NoProfileInitials
    case Some(p) =>
      var all := Upper(FirstLetters(Split(InitialsSource(p), ' ')));
      all[..if |all| < 2 then |all| else 2]
  }

  /** The avatar slot: the profile's picture when `avatar_url` is truthy, otherwise the badge. */
  function EntryAvatar(profile: Option<Profile>): (a: Avatar)
    ensures a.Picture? <==> profile.Some? && Truthy(profile.value.avatarUrl)
    ensures a.Picture? ==> a.src == profile.value.avatarUrl.value
    ensures a.Badge? ==> a.initials == Initials(profile)
  {
    if profile.Some? && Truthy(profile.value.avatarUrl) then Picture(profile.value.avatarUrl.value)
    else Badge(Initials(profile))
  }

  /** `profiles?.full_name || "Anonymous User"`: never empty. */
  function DisplayName(profile: Option<Profile>): (r: string)
    ensures r != ""
    ensures profile.Some? && Truthy(profile.value.fullName) ==> r == profile.value.fullName.value
    ensures !(profile.Some? && Truthy(profile.value.fullName)) ==> r == AnonymousName
  {
    if profile.Some? && Truthy(profile.value.fullName) then profile.value.fullName.value else AnonymousName
  }

  /** `profiles?.email || "No email"`: never empty. */
  function DisplayEmail(profile: Option<Profile>): (r: string)
    ensures r != ""
    ensures profile.Some? && profile.value.email != "" ==> r == profile.value.email
    ensures !(profile.Some? && profile.value.email != "") ==> r == NoEmail
  {
    if profile.Some? && profile.value.email != "" then profile.value.email else NoEmail
  }

  /** The entry for one chat, or null when the chat has no other participant.
      `others` holds the chats for which the other-participant query returned a row,
      `profiles` the profiles that exist; a missing profile gives a null `profiles` field. */
  function ResolveChat(chatId: string, others: map<string, string>, profiles: map<string, Profile>): (r: Option<ChatParticipant>)
    ensures r.None? <==> chatId !in others
    ensures r.Some? ==> r.value.chatId == chatId
    ensures r.Some? ==> (r.value.profile.Some? <==> others[chatId] in profiles)
    ensures r.Some? && r.value.profile.Some? ==> r.value.profile.value == profiles[others[chatId]]
  {
    if chatId !in others then None
    else
      var other := others[chatId];
      Some(ChatParticipant(chatId, if other in profiles then Some(profiles[other]) else None))
  }

  /** `(await Promise.all(userChats.map(...))).filter(chat => chat !== null)`. */
  function ResolveChats(userChats: seq<string>, others: map<string, string>, profiles: map<string, Profile>): (r: seq<ChatParticipant>)
    ensures |r| <= |userChats|
    ensures forall e :: e in r ==> e.chatId in userChats && Some(e) == ResolveChat(e.chatId, others, profiles)
    ensures forall c :: c in userChats && c in others ==> ResolveChat(c, others, profiles).value in r
    decreases |userChats|
  {
    if userChats == [] then []
    else
      var rest := ResolveChats(userChats[1..], others, profiles);
      match ResolveChat(userChats[0], others, profiles)
      case None => rest
      case Some(e) => [e] + rest
  }

  /** The filter keeps the order of `userChats`: resolving a concatenation concatenates the results. */
  lemma {:induction false} ResolveChatsAppend(a: seq<string>, b: seq<string>, others: map<string, string>, profiles: map<string, Profile>)
    ensures ResolveChats(a + b, others, profiles) == ResolveChats(a, others, profiles) + ResolveChats(b, others, profiles)
    decreases |a|
  {
    if a != [] {
      assert (a + b)[0] == a[0];
      assert (a + b)[1..] == a[1..] + b;
      ResolveChatsAppend(a[1..], b, others, profiles);
      match ResolveChat(a[0], others, profiles)
      case None =>
      case Some(e) =>
        assert [e] + ResolveChats(a[1..], others, profiles) + ResolveChats(b, others, profiles)
            == [e] + (ResolveChats(a[1..], others, profiles) + ResolveChats(b, others, profiles));
    } else {
      assert a + b == b;
    }
  }

  /** `activeChat === chat.chat_id`: an entry is highlighted exactly when the
      active chat is set and is that entry's chat; an unset one highlights nothing. */
  function IsActive(activeChat: Option<string>, chatId: string): (b: bool)
    ensures activeChat.None? ==> !b
    ensures activeChat.Some? ==> (b <==> activeChat.value == chatId)
  {
    activeChat == Some(chatId)
  }
}
