/** Properties that span several routes, stated as client methods that
    call them in sequence. `hash` and `compare` stand for bcrypt: a hash
    is never empty and a password matches its own hash. */
module Flows {
  import opened Js
  import opened Store
  import Hex
  import SignupRoute
  import RequestResetRoute
  import ResetPasswordRoute
  import Auth

  ghost predicate BcryptLaws(hash: string -> string, compare: (string, string) -> bool) {
    forall p :: hash(p) != "" && compare(p, hash(p))
  }

  /** An account created by signup can log in with the same email and
      password, and the login yields exactly the row signup created. */
  method SignupThenLogin(db: Db, name: Option<string>, email: string, password: string,
                         hash: string -> string, compare: (string, string) -> bool, newId: string)
    returns (signup: Response, login: Result<User, string>)
    requires db.Valid() && newId !in UserIds(db.users)
    requires BcryptLaws(hash, compare)
    requires email != "" && |password| >= SignupRoute.MinPasswordLength && email !in db.users
    modifies db`users
    ensures signup == Response(201, UserCreated(newId))
    ensures login == Returns(User(newId, Some(name.GetOr("")), email, Some(hash(password))))
  {
    signup := SignupRoute.Post(db, Some(SignupRoute.SignupBody(name, Some(email), Some(password))), hash, newId);
    login := Auth.Authorize(db.users, Some(Auth.Credentials(Some(email), Some(password))), compare);
  }

  /** A reset token works once: a second use of the same token is refused
      and changes nothing. */
  method ResetTwice(db: Db, token: string, password: string, now: int, hash: string -> string)
    returns (first: Response, second: Response)
    requires db.Valid() && token != "" && password != ""
    requires token in db.tokens && !ResetPasswordRoute.Expired(db.tokens[token], now)
    requires db.tokens[token].identifier in db.users
    modifies db`users, db`tokens
    ensures first == ResetPasswordRoute.PasswordUpdated
    ensures second == ResetPasswordRoute.LinkInvalid
    ensures token !in db.tokens
  {
    var body := Some(ResetPasswordRoute.ResetBody(Some(token), Some(password)));
    first := ResetPasswordRoute.Post(db, body, now, hash);
    second := ResetPasswordRoute.Post(db, body, now, hash);
  }

  /** A reset link whose token expires at `expires` is honoured when used
      at any time up to and including `expires` and refused after; once
      honoured, the new password logs in. */
  method RedeemLink(db: Db, email: string, token: string, expires: int, now: int, password: string,
                    hash: string -> string, compare: (string, string) -> bool)
    returns (reset: Response, login: Result<User, string>)
    requires db.Valid() && BcryptLaws(hash, compare)
    requires token != "" && password != "" && email != "" && email in db.users
    requires token in db.tokens && db.tokens[token] == VerificationToken(email, token, expires)
    modifies db`users, db`tokens
    ensures reset == ResetPasswordRoute.PasswordUpdated <==> now <= expires
    ensures reset != ResetPasswordRoute.PasswordUpdated ==> reset == ResetPasswordRoute.LinkInvalid
    ensures reset == ResetPasswordRoute.PasswordUpdated ==> login.Returns? && login.value.email == email
  {
    reset := ResetPasswordRoute.Post(db, Some(ResetPasswordRoute.ResetBody(Some(token), Some(password))), now, hash);
    login := Auth.Authorize(db.users, Some(Auth.Credentials(Some(email), Some(password))), compare);
  }

  /** A reset link requested at `now` is honoured up to and including
      `now + 1 hour` and refused after; once honoured, the new password
      logs in. */
  method RequestThenReset(db: Db, email: string, random: seq<Hex.Byte>, now: int, delay: int, password: string,
                          hash: string -> string, compare: (string, string) -> bool)
    returns (request: Response, reset: Response, login: Result<User, string>)
    requires db.Valid() && |random| == RequestResetRoute.TokenBytes
    requires BcryptLaws(hash, compare)
    requires email != "" && email in db.users && password != ""
    requires Hex.Encode(random) !in db.tokens
    modifies db`users, db`tokens
    ensures request == RequestResetRoute.Accepted
    ensures reset == ResetPasswordRoute.PasswordUpdated <==> delay <= RequestResetRoute.TokenLifetimeMs
    ensures reset != ResetPasswordRoute.PasswordUpdated ==> reset == ResetPasswordRoute.LinkInvalid
    ensures reset == ResetPasswordRoute.PasswordUpdated ==> login.Returns? && login.value.email == email
  {
    request := RequestResetRoute.Post(db, Some(RequestResetRoute.RequestResetBody(Some(email))), now, random);
    var token := Hex.Encode(random);
    assert |token| == 64;
    reset, login := RedeemLink(db, email, token, now + RequestResetRoute.TokenLifetimeMs, now + delay, password, hash, compare);
  }

  /** Signing in with a user puts its id in the token, and the session
      built from that token carries the same id. */
  method SignInCarriesId(user: User, token: Auth.JwtToken, session: Auth.AuthSession)
    requires user.id != "" && session.user != null
    modifies token`id, session.user
    ensures session.user.id == Some(user.id)
  {
    var t := Auth.JwtCallback(token, Some(user));
    var s := Auth.SessionCallback(session, t);
  }
}
