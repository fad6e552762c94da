/** The dashboard page: redirect when signed out, a loading screen while
    the session is checked, and a greeting by first name. */
module DashboardPage {
  import opened Js
  import opened Text
  import opened ClientSession

  datatype Status = Loading | Authenticated | Unauthenticated

  datatype Screen = LoadingScreen | Nothing | Welcome(firstName: string)

  /** What the page does: whether its effect pushes `/login`, and what it
      renders. */
  datatype View = View(redirectToLogin: bool, screen: Screen)

  /** `name?.split(" ")[0] ?? email?.split("@")[0] ?? "there"`. Only a
      null or absent name falls back to the email, so an empty name gives
      `""`; the name is cut at the first space character only. */
  function FirstName(user: Option<Profile>): (r: string)
    ensures user.Some? && user.value.name.Some? ==>
      var n := user.value.name.value;
      r <= n && ' ' !in r && (|r| < |n| ==> n[|r|] == ' ')
    ensures user.Some? && user.value.name.None? && user.value.email.Some? ==>
      var e := user.value.email.value;
      r <= e && '@' !in r && (|r| < |e| ==> e[|r|] == '@')
    ensures (user.None? || (user.value.name.None? && user.value.email.None?)) ==> r == "there"
  {
    if user.Some? && user.value.name.Some? then BeforeFirst(user.value.name.value, ' ')
    else if user.Some? && user.value.email.Some? then BeforeFirst(user.value.email.value, '@')
    else "there"
  }

  /** An empty name does not fall back to the email. */
  lemma EmptyNameGreetsNobody(email: Option<string>)
    ensures FirstName(Some(Profile(Some(""), email))) == ""
  {
  }

  function Page(status: Status, session: Option<Session>): (v: View)
    ensures v.redirectToLogin <==> status == Unauthenticated
    ensures status == Loading ==> v.screen == LoadingScreen
    ensures status != Loading && session.None? ==> v.screen == Nothing
    ensures status != Loading && session.Some? ==> v.screen == Welcome(FirstName(session.value.user))
  {
    var redirect := status == Unauthenticated;
    if status == Loading then View(redirect, LoadingScreen)
    else if session.None? then View(redirect, Nothing)
    else View(redirect, Welcome(FirstName(session.value.user)))
  }
}
