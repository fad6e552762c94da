/** `POST /api/auth/request-reset`: issue a one-hour password-reset token
    for a known email, and answer the same way whether or not the email
    is known. */
module RequestResetRoute {
  import opened Js
  import opened Store
  import Hex

  datatype RequestResetBody = RequestResetBody(email: Option<string>)

  const TokenBytes := 32
  const TokenLifetimeMs := 1000 * 60 * 60

  const EmailRequired := Response(400, Error("Email is required."))
  const Accepted := Response(200, Success)
  const StartFailed := Response(500, Error("Could not start password reset."))

  /** `body` is `None` when the JSON does not parse, which this route does
      not catch before its outer handler. `now` stands for `Date.now()` and
      `random` for `randomBytes(32)`; the token is its hex encoding. A token
      that is already in the table makes the insert fail. */
  method Post(db: Db, body: Option<RequestResetBody>, now: int, random: seq<Hex.Byte>) returns (resp: Response)
    requires db.Valid()
    requires |random| == TokenBytes
    modifies db`tokens
    ensures db.Valid()
    ensures body.None? ==> resp == StartFailed
    ensures resp == EmailRequired <==> body.Some? && !Truthy(body.value.email)
    ensures resp in {EmailRequired, Accepted, StartFailed}
    ensures resp != Accepted ==> db.tokens == old(db.tokens)
    ensures body.Some? && Truthy(body.value.email) && body.value.email.value !in db.users ==>
      resp == Accepted && db.tokens == old(db.tokens)
    ensures body.Some? && Truthy(body.value.email) && body.value.email.value in db.users ==>
      var email, token := body.value.email.value, Hex.Encode(random);
      if token in old(db.tokens) then resp == StartFailed
      else resp == Accepted && db.tokens == old(db.tokens)[token := VerificationToken(email, token, now + TokenLifetimeMs)]
    ensures forall t :: t in db.tokens && t !in old(db.tokens) ==>
      |t| == 64 && forall k :: 0 <= k < |t| ==> Hex.IsHexDigit(t[k])
  {
    if body.None? {
      return StartFailed;
    }
    var email := body.value.email;
    if !Truthy(email) {
      return EmailRequired;
    }
    if email.value !in db.users {
      return Accepted;
    }
    var token := Hex.Encode(random);
    var expires := now + TokenLifetimeMs;
    if token in db.tokens {
      return StartFailed;
    }
    db.tokens := db.tokens[token := VerificationToken(email.value, token, expires)];
    resp := Accepted;
  }
}
