/** The credentials check and the two callbacks that carry the user id
    from sign-in into the JWT and from the JWT into the session. */
module Auth {
  import opened Js
  import opened Store

  datatype Credentials = Credentials(email: Option<string>, password: Option<string>)

  const MissingCredentials := "Missing email or password"
  const InvalidLogin := "Invalid login"

  /** `authorize(credentials)`: the user row on success, or the message of
      the error it throws. `compare` stands for bcrypt's check of a
      password against a stored hash. An unknown email, an account without
      a password and a wrong password all fail with the same message. */
  function Authorize(users: map<string, User>, credentials: Option<Credentials>,
                     compare: (string, string) -> bool): (r: Result<User, string>)
    ensures r.Throws? ==> r.error in {MissingCredentials, InvalidLogin}
    ensures r.Throws? && r.error == MissingCredentials <==>
      credentials.None? || !Truthy(credentials.value.email) || !Truthy(credentials.value.password)
    ensures r.Returns? <==>
      && credentials.Some? && Truthy(credentials.value.email) && Truthy(credentials.value.password)
      && var email := credentials.value.email.value;
         && email in users && Truthy(users[email].passwordHash)
         && compare(credentials.value.password.value, users[email].passwordHash.value)
    ensures r.Returns? ==> r.value == users[credentials.value.email.value]
  {
    if credentials.None? || !Truthy(credentials.value.email) || !Truthy(credentials.value.password) then
      Throws(MissingCredentials)
    else
      var email, password := credentials.value.email.value, credentials.value.password.value;
      if email !in users || !Truthy(users[email].passwordHash) then
        Throws(InvalidLogin)
      else if !compare(password, users[email].passwordHash.value) then
        Throws(InvalidLogin)
      else
        Returns(users[email])
  }

  /** The JWT's `id` claim; other claims are not touched by the callbacks. */
  class JwtToken {
    var id: Option<string>

    constructor (id: Option<string>)
      ensures this.id == id
    {
      this.id := id;
    }
  }

  /** `session.user`; only `id` is written by the callbacks. */
  class SessionUser {
    var id: Option<string>
    var name: Option<string>
    var email: Option<string>

    constructor (name: Option<string>, email: Option<string>)
      ensures this.id == None && this.name == name && this.email == email
    {
      this.id, this.name, this.email := None, name, email;
    }
  }

  class AuthSession {
    var user: SessionUser?

    constructor (user: SessionUser?)
      ensures this.user == user
    {
      this.user := user;
    }
  }

  /** `callbacks.jwt`: on sign-in (a user is passed) the token takes the
      user's id; otherwise the token is returned as it was. */
  method JwtCallback(token: JwtToken, user: Option<User>) returns (r: JwtToken)
    modifies token`id
    ensures r == token
    ensures user.Some? ==> token.id == Some(user.value.id)
    ensures user.None? ==> token.id == old(token.id)
  {
    if user.Some? {
      token.id := Some(user.value.id);
    }
    return token;
  }

  /** `callbacks.session`: the token's id is copied into `session.user.id`
      only when the token has a non-empty id and the session has a user;
      otherwise nothing changes. */
  method SessionCallback(session: AuthSession, token: JwtToken) returns (r: AuthSession)
    modifies if session.user != null then {session.user} else {}
    ensures r == session && session.user == old(session.user)
    ensures session.user != null ==>
      && session.user.name == old(session.user.name) && session.user.email == old(session.user.email)
      && session.user.id == (if Truthy(token.id) then token.id else old(session.user.id))
  {
    if Truthy(token.id) && session.user != null {
      session.user.id := token.id;
    }
    return session;
  }
}
