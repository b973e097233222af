/** The login check of the report: `authenticate(username, password)`
    looks the user up in the configured table of users. */
module Auth {

  /** The user table configured for the app (`st.secrets["users"]`), user
      name to password. */
  type Users = map<string, string>

  /** Accepts exactly the users that are in the table and whose stored
      password is the one given. */
  function Authenticate(users: Users, username: string, password: string): (ok: bool)
    ensures ok ==> username in users && users[username] == password
    ensures username !in users ==> !ok
    ensures username in users && users[username] != password ==> !ok
    ensures username in users && users[username] == password ==> ok
  {
    if username in users && users[username] == password then true else false
  }

  /** At most one password opens an account. */
  lemma {:induction false} OnePasswordPerUser(users: Users, username: string, p1: string, p2: string)
    requires Authenticate(users, username, p1) && Authenticate(users, username, p2)
    ensures p1 == p2
  {
  }

  /** Whether a user gets in depends on that user's own entry alone: adding
      or changing the entry of another user changes nothing for them. */
  lemma {:induction false} OtherEntriesIrrelevant(users: Users, other: string, stored: string, username: string, password: string)
    requires other != username
    ensures Authenticate(users[other := stored], username, password) == Authenticate(users, username, password)
  {
  }
}
