/** The account menu of src/components/user/UserMenu.tsx (sign-out I/O not modelled). */
module UserMenu {
  import opened Text
  import opened Display

  /** The placeholder user the menu renders. */
  const PlaceholderName := "John Doe"
  const PlaceholderEmail := "john.doe@example.com"
  const PlaceholderPicture := ""

  /** `words.map(n => n.charAt(0).toUpperCase()).join("")`: upper-casing each first
      letter before joining gives the same text as upper-casing the joined letters. */
  function UpperFirstLetters(words: seq<string>): (r: string)
    ensures r == Upper(FirstLetters(words))
    decreases |words|
  {
    if words == [] then "" else Upper(CharAt0(words[0])) + UpperFirstLetters(words[1..])
  }

  /** `getInitials(name)`: one upper-cased letter per non-empty space-separated word. */
  function GetInitials(name: string): (r: string)
    ensures |r| == |NonEmptyWords(Split(name, ' '))|
    ensures forall k :: 0 <= k < |r| ==> r[k] == UpperChar(NonEmptyWords(Split(name, ' '))[k][0])
    ensures name == "" ==> r == ""
  {
    UpperFirstLetters(Split(name, ' '))
  }

  /** The profile dialog's avatar: the picture when it is non-empty, otherwise the initials. */
  function ProfileAvatar(picture: string, name: string): (a: Avatar)
    ensures a.Picture? <==> picture != ""
    ensures a.Picture? ==> a.src == picture
    ensures a.Badge? ==> a.initials == GetInitials(name)
  {
    if picture != "" then Picture(picture) else Badge(GetInitials(name))
  }

  /** The placeholder user has no picture, so the dialog shows the badge "JD". */
  lemma PlaceholderAvatar()
    ensures ProfileAvatar(PlaceholderPicture, PlaceholderName) == Badge("JD")
  {
    var words := Split(PlaceholderName, ' ');
    SplitJohnDoe();
    assert NonEmptyWords(words) == ["John", "Doe"];
    var r := GetInitials(PlaceholderName);
    assert |r| == 2 && r[0] == UpperChar('J') && r[1] == UpperChar('D');
  }

  lemma SplitJohnDoe()
    ensures Split(PlaceholderName, ' ') == ["John", "Doe"]
  {
    SplitJoin(["John", "Doe"], ' ');
    assert Join(["John", "Doe"], ' ') == PlaceholderName;
  }
}
