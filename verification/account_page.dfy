/** The account page: redirect without a session user, otherwise the
    avatar initials and the displayed name and email. */
module AccountPage {
  import opened Js
  import opened Text
  import opened ClientSession

  datatype AccountView =
    | RedirectTo(path: string)
    | AccountProfile(initials: string, displayName: string, displayEmail: string)

  /** The first character of each word. */
  function Firsts(words: seq<string>): (r: string)
    requires AllWords(words)
    ensures |r| == |words|
    ensures forall k :: 0 <= k < |words| ==> r[k] == words[k][0]
  {
    seq(|words|, k requires 0 <= k < |words| => assert IsWord(words[k]); words[k][0])
  }

  /** The page's initials: the upper-cased first character of every word
      of a non-blank name; else the upper-cased first character of the
      email; else `"V"`. */
  function Initials(user: Profile): (r: string)
    ensures forall k :: 0 <= k < |r| ==> !IsLowerAscii(r[k])
    ensures Truthy(user.name) && Trim(user.name.value) != "" ==>
      |r| == |SplitWs(Trim(user.name.value))|
    ensures (!Truthy(user.name) || Trim(user.name.value) == "") && Truthy(user.email) ==>
      r == [UpperChar(user.email.value[0])]
    ensures (!Truthy(user.name) || Trim(user.name.value) == "") && !Truthy(user.email) ==> r == "V"
  {
    if Truthy(user.name) && |Trim(user.name.value)| > 0 then
      var t := Trim(user.name.value);
      SplitTrimmedWords(t);
      Upper(Firsts(SplitWs(t)))
    else if Truthy(user.email) then
      Upper([user.email.value[0]])
    else
      "V"
  }

  /** For a name made of words separated by whitespace, with any
      whitespace around it, the initials are the upper-cased first
      characters of the words, in order. */
  lemma InitialsOfWords(user: Profile, lead: string, words: seq<string>, gaps: seq<string>, trail: string)
    requires |words| >= 1 && |gaps| == |words| - 1 && AllWords(words) && AllGaps(gaps)
    requires AllSpace(lead) && AllSpace(trail)
    requires user.name == Some(lead + Interleave(words, gaps) + trail)
    ensures Initials(user) == Upper(Firsts(words))
  {
    var x := Interleave(words, gaps);
    InterleaveTrimmed(words, gaps);
    TrimAround(lead, x, trail);
    SplitInterleave(words, gaps);
  }

  /** The page: `/login` without a session user; otherwise the initials,
      `name || "Your account"` and `email || ""`. */
  function Page(session: Option<Session>): (v: AccountView)
    ensures v == RedirectTo("/login") <==> session.None? || session.value.user.None?
    ensures v.AccountProfile? <==> session.Some? && session.value.user.Some?
    ensures v.AccountProfile? ==>
      var user := session.value.user.value;
      && v.initials == Initials(user)
      && (Truthy(user.name) ==> v.displayName == user.name.value)
      && (!Truthy(user.name) ==> v.displayName == "Your account")
      && (Truthy(user.email) ==> v.displayEmail == user.email.value)
      && (!Truthy(user.email) ==> v.displayEmail == "")
  {
    if session.None? || session.value.user.None? then RedirectTo("/login")
    else
      var user := session.value.user.value;
      AccountProfile(Initials(user), Or(user.name, "Your account"), Or(user.email, ""))
  }
}
