/** The name shown for a user and the letter of their fallback avatar. */
module UserDisplay {
  import opened Wrappers
  import opened Text

  datatype User = User(username: string, businessName: Option<string>)

  /** The business name for a seller that has one, the username otherwise. */
  function GetDisplayName(user: User, isSeller: bool): (r: string)
    ensures isSeller && user.businessName.Some? && user.businessName.value != [] ==> r == user.businessName.value
    ensures !isSeller || user.businessName.None? || user.businessName.value == [] ==> r == user.username
  {
    if isSeller && user.businessName.Some? && user.businessName.value != [] then user.businessName.value
    else user.username
  }

  /** "?" for a missing or empty name, else its first character upper-cased. */
  function GetInitialAvatar(name: Option<string>): (r: string)
    ensures |r| == 1
    ensures name.None? || name.value == [] ==> r == "?"
    ensures name.Some? && name.value != [] ==> r[0] == UpperChar(name.value[0])
  {
    if name.Some? && name.value != [] then [UpperChar(name.value[0])] else "?"
  }

  /** A user with a username never shows an empty name, so their avatar shows
      the upper-cased first letter of that name. */
  lemma DisplayedAvatar(user: User, isSeller: bool)
    requires user.username != []
    ensures GetDisplayName(user, isSeller) != []
    ensures GetInitialAvatar(Some(GetDisplayName(user, isSeller)))
            == [UpperChar(GetDisplayName(user, isSeller)[0])]
  {
  }

  /** The avatar letter does not depend on the case of the name's first letter. */
  lemma InitialIgnoresCase(name: string)
    requires name != []
    ensures GetInitialAvatar(Some([LowerChar(name[0])] + name[1..])) == GetInitialAvatar(Some(name))
  {
    var c := name[0];
    assert UpperChar(LowerChar(c)) == UpperChar(c);
  }
}
