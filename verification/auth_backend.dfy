/**
 The single sign-on backend (custom_usermodel/backends.py): on every login
 the profile returned by the SSO broker either creates the user or refreshes
 the contact address of the user it already names.
 */
module AuthBackend {
  import opened Users

  /** The fields of an SSO profile that the backend reads. */
  datatype Profile = Profile(email: string, firstName: string, lastName: string, contactEmail: string)

  /** The user table, keyed by the username field, which is `email`. */
  type UserTable = map<string, User>

  predicate WellKeyed(table: UserTable) {
    forall e :: e in table ==> table[e].email == e
  }

  /** `CustomAuthbrokerBackend.get_or_create_user`: find the user whose email
      is the profile's, or create one from the profile with an unusable
      password; then bring its contact email up to date. Returns the new
      table and the user. */
  function GetOrCreateUser(table: UserTable, profile: Profile): (r: (UserTable, User))
    requires WellKeyed(table)
    ensures WellKeyed(r.0)
    ensures r.1.email == profile.email
    ensures r.1.contactEmail == profile.contactEmail
    ensures profile.email in r.0 && r.0[profile.email] == r.1
    ensures profile.email !in table ==>
              r.1 == User(profile.email, profile.firstName, profile.lastName,
                          profile.contactEmail, Unusable)
    ensures profile.email in table ==>
              r.1 == table[profile.email].(contactEmail := profile.contactEmail)
    ensures r.0.Keys == table.Keys + {profile.email}
    ensures forall e :: e in table && e != profile.email ==> r.0[e] == table[e]
  {
    var email := profile.email;
    var (user, created) :=
      if email in table then (table[email], false)
      else (User(email, profile.firstName, profile.lastName, profile.contactEmail, NoPassword), true);
    var user := if created then user.(password := Unusable) else user;
    var user := if user.contactEmail != profile.contactEmail
                then user.(contactEmail := profile.contactEmail) else user;
    (table[email := user], user)
  }

  /** Existing users keep their names and password: the profile's names are
      defaults that apply only on creation. */
  lemma ExistingUserKeepsNames(table: UserTable, profile: Profile)
    requires WellKeyed(table)
    requires profile.email in table
    ensures var (_, u) := GetOrCreateUser(table, profile);
            u.firstName == table[profile.email].firstName
            && u.lastName == table[profile.email].lastName
            && u.password == table[profile.email].password
  {
  }

  /** The table grows by at most the one new user. */
  lemma GetOrCreateUserKeepsTable(table: UserTable, profile: Profile)
    requires WellKeyed(table)
    ensures var (t, _) := GetOrCreateUser(table, profile);
            |table| <= |t| <= |table| + 1
            && (profile.email in table <==> |t| == |table|)
  {
    var (t, _) := GetOrCreateUser(table, profile);
    if profile.email in table {
      assert t.Keys == table.Keys;
    } else {
      assert t.Keys == table.Keys + {profile.email};
    }
  }

  /** Logging in twice with the same profile: the second call returns the
      same user and changes nothing. */
  lemma GetOrCreateUserIdempotent(table: UserTable, profile: Profile)
    requires WellKeyed(table)
    ensures var (t1, u1) := GetOrCreateUser(table, profile);
            GetOrCreateUser(t1, profile) == (t1, u1)
  {
    var (t1, u1) := GetOrCreateUser(table, profile);
    assert t1[profile.email := u1] == t1;
  }
}
