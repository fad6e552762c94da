/** `POST /api/auth/signup`: a ladder of checks on the JSON body, then one
    insert into the user table. */
module SignupRoute {
  import opened Js
  import opened Store

  datatype SignupBody = SignupBody(name: Option<string>, email: Option<string>, password: Option<string>)

  const MinPasswordLength := 8

  const MissingFields := Response(400, Error("Email and password are required."))
  const PasswordTooShort := Response(400, Error("Password must be at least 8 characters."))
  const EmailTaken := Response(409, Error("An account with this email already exists."))

  /** The body as the route reads it: JSON that does not parse is caught
      and read as `{}`. */
  function Fields(body: Option<SignupBody>): SignupBody {
    body.GetOr(SignupBody(None, None, None))
  }

  predicate HasCredentials(b: SignupBody) {
    Truthy(b.email) && Truthy(b.password)
  }

  /** Presence first, then length, then uniqueness; only when all pass is
      exactly one user added, under the submitted email, with the hash of
      the submitted password and `name ?? ""`. `hash` stands for bcrypt
      and `newId` for the id the database generates. */
  method Post(db: Db, body: Option<SignupBody>, hash: string -> string, newId: string) returns (resp: Response)
    requires db.Valid()
    requires newId !in UserIds(db.users)
    modifies db`users
    ensures db.Valid()
    ensures var b := Fields(body);
      resp == MissingFields <==> !HasCredentials(b)
    ensures var b := Fields(body);
      resp == PasswordTooShort <==> HasCredentials(b) && |b.password.value| < MinPasswordLength
    ensures var b := Fields(body);
      resp == EmailTaken <==>
        HasCredentials(b) && |b.password.value| >= MinPasswordLength && b.email.value in old(db.users)
    ensures resp.status in {400, 409, 201}
    ensures var b := Fields(body);
      resp.status == 201 <==>
        HasCredentials(b) && |b.password.value| >= MinPasswordLength && b.email.value !in old(db.users)
    ensures resp.status != 201 ==> db.users == old(db.users)
    ensures resp.status == 201 ==>
      var b := Fields(body);
      && HasCredentials(b)
      && b.email.value !in old(db.users)
      && resp == Response(201, UserCreated(newId))
      && db.users == old(db.users)[b.email.value := User(newId, Some(b.name.GetOr("")), b.email.value, Some(hash(b.password.value)))]
  {
    var b := Fields(body);
    if !Truthy(b.email) || !Truthy(b.password) {
      return MissingFields;
    }
    var email, password := b.email.value, b.password.value;
    if |password| < MinPasswordLength {
      return PasswordTooShort;
    }
    if email in db.users {
      return EmailTaken;
    }
    var passwordHash := hash(password);
    var user := User(newId, Some(b.name.GetOr("")), email, Some(passwordHash));
    db.users := db.users[email := user];
    UserIdsInsert(old(db.users), email, user);
    resp := Response(201, UserCreated(user.id));
  }
}
