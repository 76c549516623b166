/**
  The three initials computations side by side: the header's, the account
  menu's and the conversation list's.
 */
module InitialsAgreement {
  import opened Wrappers
  import opened Text
  import Header
  import UserMenu
  import ChatList

  /** Upper-casing each letter before joining (account menu) or the joined letters after
      (header) gives the same initials. */
  lemma HeaderAgreesWithUserMenu(name: string)
    ensures Header.Initials(name) == UserMenu.GetInitials(name)
  {
  }

  /** The conversation list shows the header's initials of the name (or email), cut to two. */
  lemma ChatListCapsHeader(p: ChatList.Profile)
    ensures
      var full := Header.Initials(ChatList.InitialsSource(p));
      ChatList.Initials(Some(p)) == full[..if |full| < 2 then |full| else 2]
  {
  }

  /** Repeated spaces make empty words, which contribute no letter. */
  lemma RepeatedSpaces()
    ensures ChatList.Initials(Some(ChatList.Profile("p", Some("ada  lovelace"), "ada@example.com", None))) == "AL"
  {
    SplitAdaLovelace();
    assert NonEmptyWords(["ada", "", "lovelace"]) == ["ada", "lovelace"];
  }

  /** The double space splits into an empty middle word. */
  lemma SplitAdaLovelace()
    ensures Split("ada  lovelace", ' ') == ["ada", "", "lovelace"]
  {
    SplitJoin(["ada", "", "lovelace"], ' ');
    assert Join(["ada", "", "lovelace"], ' ') == "ada  lovelace";
  }
}
