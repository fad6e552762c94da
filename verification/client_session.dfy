/** The client-side session the pages read: `session.user` with an
    optional name and email. */
module ClientSession {
  import opened Js

  datatype Profile = Profile(name: Option<string>, email: Option<string>)

  /** A session object; `user` is `session.user`, which may be absent. */
  datatype Session = Session(user: Option<Profile>)
}
