/**
 The custom user model (custom_usermodel/abstractModel.py and
 custom_usermodel/models.py): a user is identified by e-mail address and may
 have a separate contact address for notifications.
 */
module Users {

  /** The primary key of a user row, which other records refer to. */
  type UserId = nat

  /** Password state of a user record. Users created by single sign-on never
      get a password they could log in with. */
  datatype Password = NoPassword | Unusable | Hashed(hash: string)

  datatype User = User(
    email: string,
    firstName: string,
    lastName: string,
    contactEmail: string,
    password: Password)

  /** `User.get_contact_email`: `contact_email or email`. */
  function ContactEmail(u: User): (r: string)
    ensures u.contactEmail != "" ==> r == u.contactEmail
    ensures u.contactEmail == "" ==> r == u.email
  {
    if u.contactEmail != "" then u.contactEmail else u.email
  }

  /** The contact address is always one of the two stored addresses. */
  lemma ContactEmailIsStored(u: User)
    ensures ContactEmail(u) == u.contactEmail || ContactEmail(u) == u.email
    ensures ContactEmail(u) == "" ==> u.contactEmail == "" && u.email == ""
  {
  }

  /** `get_short_name`: first name, one space, last name; the space is there
      even when both names are empty. */
  function ShortName(u: User): (r: string)
    ensures |r| == |u.firstName| + |u.lastName| + 1
    ensures r[..|u.firstName|] == u.firstName
    ensures r[|u.firstName|] == ' '
    ensures r[|u.firstName| + 1..] == u.lastName
  {
    u.firstName + " " + u.lastName
  }

  /** Knowing where the first name ends, both names can be read back. */
  lemma ShortNameSplitsBack(u: User, v: User)
    requires |u.firstName| == |v.firstName|
    requires ShortName(u) == ShortName(v)
    ensures u.firstName == v.firstName && u.lastName == v.lastName
  {
    assert u.firstName == ShortName(u)[..|u.firstName|];
    assert u.lastName == ShortName(u)[|u.firstName| + 1..];
  }

  function FirstName(u: User): (r: string)
    ensures r == u.firstName
  {
    u.firstName
  }

  function LastName(u: User): (r: string)
    ensures r == u.lastName
  {
    u.lastName
  }

  /** The short name is made of the names the two getters return. */
  lemma ShortNameOfParts(u: User)
    ensures ShortName(u) == FirstName(u) + " " + LastName(u)
    ensures ShortName(u) == " " <==> FirstName(u) == "" && LastName(u) == ""
  {
    if ShortName(u) == " " {
      assert |u.firstName| + |u.lastName| == 0;
    }
  }

  /** `has_usable_password(request)` is overridden to answer no, whatever the
      request and whatever password the record holds. */
  function HasUsablePassword<Request>(u: User, request: Request): (r: bool)
    ensures !r
  {
    false
  }
}
