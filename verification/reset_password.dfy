/** `POST /api/auth/reset-password`: redeem a reset token. The password
    update comes first and the token deletion second, so a failed update
    leaves the token in place. */
module ResetPasswordRoute {
  import opened Js
  import opened Store

  datatype ResetBody = ResetBody(token: Option<string>, password: Option<string>)

  const FieldsRequired := Response(400, Error("Token and new password are required."))
  const LinkInvalid := Response(400, Error("Reset link is invalid or has expired."))
  const ResetFailed := Response(500, Error("Could not reset password."))
  const PasswordUpdated := Response(200, Success)

  /** `record.expires < new Date()`: a token is still good at the very
      millisecond it expires. */
  predicate Expired(t: VerificationToken, now: int) {
    t.expires < now
  }

  predicate HasFields(b: ResetBody) {
    Truthy(b.token) && Truthy(b.password)
  }

  /** `body` is `None` when the JSON does not parse. There is no minimum
      password length here. `hash` stands for bcrypt and `now` for the
      current time in milliseconds. */
  method Post(db: Db, body: Option<ResetBody>, now: int, hash: string -> string) returns (resp: Response)
    requires db.Valid()
    modifies db`users, db`tokens
    ensures db.Valid()
    ensures body.None? ==> resp == ResetFailed
    ensures resp == FieldsRequired <==> body.Some? && !HasFields(body.value)
    ensures resp == LinkInvalid <==>
      && body.Some? && HasFields(body.value)
      && var token := body.value.token.value;
         token !in old(db.tokens) || Expired(old(db.tokens)[token], now)
    ensures resp == PasswordUpdated <==>
      && body.Some? && HasFields(body.value)
      && var token := body.value.token.value;
         && token in old(db.tokens) && !Expired(old(db.tokens)[token], now)
         && old(db.tokens)[token].identifier in old(db.users)
    ensures resp in {FieldsRequired, LinkInvalid, ResetFailed, PasswordUpdated}
    ensures resp != PasswordUpdated ==> db.users == old(db.users) && db.tokens == old(db.tokens)
    ensures resp == PasswordUpdated ==>
      var token, password := body.value.token.value, body.value.password.value;
      var email := old(db.tokens)[token].identifier;
      && db.users == old(db.users)[email := old(db.users)[email].(passwordHash := Some(hash(password)))]
      && db.tokens == old(db.tokens) - {token}
  {
    if body.None? {
      return ResetFailed;
    }
    var token, password := body.value.token, body.value.password;
    if !Truthy(token) || !Truthy(password) {
      return FieldsRequired;
    }
    if token.value !in db.tokens || Expired(db.tokens[token.value], now) {
      return LinkInvalid;
    }
    var record := db.tokens[token.value];
    var passwordHash := hash(password.value);
    // prisma.user.update throws when no user has this email.
    if record.identifier !in db.users {
      return ResetFailed;
    }
    var user := db.users[record.identifier];
    db.users := db.users[record.identifier := user.(passwordHash := Some(passwordHash))];
    UserIdsUpdate(old(db.users), record.identifier, db.users[record.identifier]);
    db.tokens := db.tokens - {token.value};
    resp := PasswordUpdated;
  }
}
