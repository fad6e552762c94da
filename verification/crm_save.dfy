/** `POST /api/crm/save`: authentication, then the body, then the owner
    lookup, then one appended CRM record. */
module CrmSaveRoute {
  import opened Js
  import opened Store

  datatype CrmBody = CrmBody(raw: Option<string>, processed: Option<string>, kind: Option<string>)

  const DefaultKind := "general"

  const NotAuthenticated := Response(401, Error("Not authenticated."))
  const MissingData := Response(400, Error("Missing data to save."))
  const UserNotFound := Response(404, Error("User not found in database."))

  /** The body as the route reads it: JSON that does not parse is caught
      and read as `{}`. */
  function Fields(body: Option<CrmBody>): CrmBody {
    body.GetOr(CrmBody(None, None, None))
  }

  /** `sessionEmail` is `session?.user?.email`. The session is checked
      before the body is looked at; on success the new record belongs to
      the session's user, keeps `processed` as sent and defaults `raw` and
      `type` only when they are null or absent. `newId` stands for the id
      the database generates. */
  method Post(db: Db, sessionEmail: Option<string>, body: Option<CrmBody>, newId: string) returns (resp: Response)
    requires db.Valid()
    requires newId !in RecordIds(db.records)
    modifies db`records
    ensures db.Valid()
    ensures !Truthy(sessionEmail) ==> resp == NotAuthenticated
    ensures resp == MissingData <==> Truthy(sessionEmail) && !Truthy(Fields(body).processed)
    ensures resp == UserNotFound <==>
      Truthy(sessionEmail) && Truthy(Fields(body).processed) && sessionEmail.value !in db.users
    ensures resp.status in {401, 400, 404, 200}
    ensures resp.status == 200 <==>
      Truthy(sessionEmail) && Truthy(Fields(body).processed) && sessionEmail.value in db.users
    ensures resp.status != 200 ==> db.records == old(db.records)
    ensures resp.status == 200 ==>
      var b := Fields(body);
      && Truthy(sessionEmail) && Truthy(b.processed) && sessionEmail.value in db.users
      && var saved := CrmRecord(newId, db.users[sessionEmail.value].id, b.raw.GetOr(""), b.processed.value, b.kind.GetOr(DefaultKind));
         && db.records == old(db.records) + [saved]
         && resp == Response(200, RecordSaved(saved))
  {
    if !Truthy(sessionEmail) {
      return NotAuthenticated;
    }
    var b := Fields(body);
    if !Truthy(b.processed) {
      return MissingData;
    }
    if sessionEmail.value !in db.users {
      return UserNotFound;
    }
    var user := db.users[sessionEmail.value];
    var saved := CrmRecord(newId, user.id, b.raw.GetOr(""), b.processed.value, b.kind.GetOr(DefaultKind));
    db.records := db.records + [saved];
    resp := Response(200, RecordSaved(saved));
  }
}
