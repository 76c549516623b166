/** The chat header of src/components/layout/Header.tsx. */
module Header {
  import opened Wrappers
  import opened Text
  import opened Display

  /** `userName.split(" ").map(name => name.charAt(0)).join("").toUpperCase()`:
      one upper-cased letter per non-empty word, with no cap on the count. */
  function Initials(userName: string): (r: string)
    ensures |r| == |NonEmptyWords(Split(userName, ' '))| <= |Split(userName, ' ')|
    ensures forall k :: 0 <= k < |r| ==> r[k] == UpperChar(NonEmptyWords(Split(userName, ' '))[k][0])
    ensures userName == "" ==> r == ""
  {
    Upper(FirstLetters(Split(userName, ' ')))
  }

  /** `renderProfile`: a truthy `profilePicture` is shown as the image, otherwise the initials. */
  function RenderProfile(profilePicture: Option<string>, userName: string): (a: Avatar)
    ensures a.Picture? <==> Truthy(profilePicture)
    ensures a.Picture? ==> a.src == profilePicture.value
    ensures a.Badge? ==> a.initials == Initials(userName)
  {
    if Truthy(profilePicture) then Picture(profilePicture.value) else Badge(Initials(userName))
  }
}
