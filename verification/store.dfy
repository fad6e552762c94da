/** The three database tables the API routes read and write: users keyed
    by email, verification tokens keyed by token, and CRM records. */
module Store {
  import opened Js

  /** A row of the user table. `passwordHash` is absent for accounts that
      were created through the OAuth provider. */
  datatype User = User(id: string, name: Option<string>, email: string, passwordHash: Option<string>)

  /** A row of the verification-token table; `expires` is in milliseconds
      since the epoch. */
  datatype VerificationToken = VerificationToken(identifier: string, token: string, expires: int)

  /** A row of the CRM-record table; `kind` is the `type` column. */
  datatype CrmRecord = CrmRecord(id: string, userId: string, raw: string, processed: string, kind: string)

  /** The JSON body of a route's response. */
  datatype Payload =
    | Error(message: string)                 // { error }
    | Success                                // { success: true }
    | UserCreated(userId: string)            // { success: true, userId }
    | RecordSaved(record: CrmRecord)         // { success: true, record }

  datatype Response = Response(status: int, payload: Payload)

  function UserIds(users: map<string, User>): set<string> {
    set e | e in users :: users[e].id
  }

  function RecordIds(records: seq<CrmRecord>): set<string> {
    set k | 0 <= k < |records| :: records[k].id
  }

  lemma UserIdsInsert(users: map<string, User>, e: string, u: User)
    requires e !in users
    ensures UserIds(users[e := u]) == UserIds(users) + {u.id}
  {
    var m := users[e := u];
    forall id | id in UserIds(users) ensures id in UserIds(m) {
      var e' :| e' in users && users[e'].id == id;
      assert m[e'].id == id;
    }
    assert m[e].id == u.id;
  }

  lemma UserIdsUpdate(users: map<string, User>, e: string, u: User)
    requires e in users && u.id == users[e].id
    ensures UserIds(users[e := u]) == UserIds(users)
  {
    var m := users[e := u];
    forall id | id in UserIds(users) ensures id in UserIds(m) {
      var e' :| e' in users && users[e'].id == id;
      assert m[e'].id == id;
    }
  }

  /** The database. */
  class Db {
    var users: map<string, User>
    var tokens: map<string, VerificationToken>
    var records: seq<CrmRecord>

    /** The table constraints: unique keys, unique ids, and every CRM
        record belongs to an existing user. */
    ghost predicate Valid()
      reads this
    {
      && (forall e :: e in users ==> users[e].email == e)
      && (forall e1, e2 :: e1 in users && e2 in users && e1 != e2 ==> users[e1].id != users[e2].id)
      && (forall t :: t in tokens ==> tokens[t].token == t)
      && (forall i, j :: 0 <= i < j < |records| ==> records[i].id != records[j].id)
      && (forall i :: 0 <= i < |records| ==> records[i].userId in UserIds(users))
    }

    constructor ()
      ensures Valid()
      ensures users == map[] && tokens == map[] && records == []
    {
      users, tokens, records := map[], map[], [];
    }
  }
}
