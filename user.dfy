/** The user record (src/models/user.py) and the opaque values that the
    authentication layer hands around. */
module Users {
  import opened Tables

  /** The stored password credential (a bcrypt hash in the source). It is
      opaque here: only a password-check function supplied by the caller
      looks inside it. */
  datatype Credential = Credential(hash: seq<char>)

  datatype User = User(id: Id, username: string, email: string, credential: Credential)

  /** Lifetime of an access token, in hours. */
  const TokenLifetimeHours: nat := 2

  /** An access token: it names the user it identifies and how long it lives.
      Signing and encoding are not part of this model. */
  datatype AccessToken = AccessToken(identity: Id, lifetimeHours: nat)

  /** Some user in the table already has this username. */
  predicate UsernameTaken(users: map<Id, User>, username: string) {
    exists k :: k in users && users[k].username == username
  }

  /** Some user in the table already has this email. */
  predicate EmailTaken(users: map<Id, User>, email: string) {
    exists k :: k in users && users[k].email == email
  }

  /** No two users share a username, and no two share an email. */
  ghost predicate UniqueLogins(users: map<Id, User>) {
    forall j, k :: j in users && k in users && j != k ==>
      users[j].username != users[k].username && users[j].email != users[k].email
  }

  /** Adding a user whose username and email are both free keeps logins
      unique. */
  lemma AddingFreshLoginKeepsUnique(users: map<Id, User>, u: User)
    requires UniqueLogins(users)
    requires u.id !in users
    requires !UsernameTaken(users, u.username) && !EmailTaken(users, u.email)
    ensures UniqueLogins(users[u.id := u])
  {
    var users' := users[u.id := u];
    forall j, k | j in users' && k in users' && j != k
      ensures users'[j].username != users'[k].username && users'[j].email != users'[k].email
    {
      if j == u.id {
        assert users'[k] == users[k];
      } else if k == u.id {
        assert users'[j] == users[j];
      }
    }
  }
}
