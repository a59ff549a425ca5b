/** Credentials: the login lookup and what registration's new row means for
    later logins and for the uniqueness of emails. */
module Accounts {
  import opened Models

  const EmailTaken := "Email ya registrado"
  const BadCredentials := "Credenciales incorrectas"

  /** The reply of registration and login: the signed-in user (its id is what
      the session manager is handed; name and role are echoed to the client),
      or a refusal message. */
  datatype AuthReply = SignedIn(userId: nat, name: string, role: Role) | Rejected(message: string)

  /** The row registration appends for a fresh email: next id, default role 'user'. */
  function NewUser(users: seq<User>, name: string, email: string, passwordHash: string): (u: User)
    ensures u.email == email && u.passwordHash == passwordHash
    ensures u.role == UserRole && u.id == |users| + 1
  {
    User(|users| + 1, name, email, passwordHash, UserRole)
  }

  /** Login: looks the email up and checks the password against the stored
      hash with `check` (the password-hash library's verifier). An unknown
      email and a wrong password produce the same refusal. */
  function Login(users: seq<User>, email: string, password: string, check: (string, string) -> bool): (r: AuthReply)
    ensures r.Rejected? ==> r == Rejected(BadCredentials)
    ensures r.SignedIn? ==> exists i | 0 <= i < |users| ::
      users[i].email == email && check(users[i].passwordHash, password) &&
      r == SignedIn(users[i].id, users[i].name, users[i].role)
    ensures (forall i | 0 <= i < |users| :: users[i].email != email) ==> r.Rejected?
  {
    match FindUserByEmail(users, email)
    case Some(i) =>
      if check(users[i].passwordHash, password) then SignedIn(users[i].id, users[i].name, users[i].role)
      else Rejected(BadCredentials)
    case None => Rejected(BadCredentials)
  }

  /** With emails unique, login succeeds exactly when some user has that email
      and the password checks against that user's hash. */
  lemma LoginSucceedsIff(users: seq<User>, email: string, password: string, check: (string, string) -> bool)
    requires UniqueEmails(users)
    ensures Login(users, email, password, check).SignedIn? <==>
      exists i | 0 <= i < |users| :: users[i].email == email && check(users[i].passwordHash, password)
  {
    if i :| 0 <= i < |users| && users[i].email == email && check(users[i].passwordHash, password) {
      var f := FindUserByEmail(users, email);
      assert f.Some?;
      assert f.value == i;
    }
  }

  /** Registering an email that is not yet taken keeps emails unique. */
  lemma RegistrationKeepsEmailsUnique(users: seq<User>, name: string, email: string, passwordHash: string)
    requires UniqueEmails(users)
    requires FindUserByEmail(users, email).None?
    ensures UniqueEmails(users + [NewUser(users, name, email, passwordHash)])
  {
  }

  /** A user just registered with a hash the password checks against can log
      in with that password, and gets back the new row's id, name and role. */
  lemma RegisteredUserCanLogIn(users: seq<User>, name: string, email: string, password: string,
                               passwordHash: string, check: (string, string) -> bool)
    requires FindUserByEmail(users, email).None?
    requires check(passwordHash, password)
    ensures Login(users + [NewUser(users, name, email, passwordHash)], email, password, check)
         == SignedIn(|users| + 1, name, UserRole)
  {
    var after := users + [NewUser(users, name, email, passwordHash)];
    var f := FindUserByEmail(after, email);
    assert after[|users|].email == email;
    assert f.Some? && f.value == |users|;
  }
}
