/** The navigation shell: which nav link is highlighted, and the avatar
    initials. */
module AppShell {
  import opened Js
  import opened Text
  import opened ClientSession

  datatype NavItem = NavItem(href: string, caption: string)

  const NavItems := [NavItem("/dashboard", "Dashboard"), NavItem("/", "Intelligence")]

  /** `isActive(href)`: the root link only on the root page, any other
      link on every path that starts with its href. */
  function IsActive(pathname: string, href: string): (r: bool)
    ensures href == "/" ==> (r <==> pathname == "/")
    ensures href != "/" ==> (r <==> exists rest :: pathname == href + rest)
  {
    if href == "/" then pathname == "/"
    else
      assert href <= pathname ==> pathname == href + pathname[|href|..];
      href <= pathname
  }

  /** The root link is highlighted on `/` and nowhere else. */
  lemma RootActiveOnlyAtRoot(pathname: string)
    ensures IsActive(pathname, "/") <==> pathname == "/"
  {
  }

  /** A non-root link stays highlighted on every longer path, including
      ones that are not sub-paths: `/dashboardX` highlights `/dashboard`. */
  lemma ActiveOnLongerPaths(pathname: string, href: string, more: string)
    requires href != "/" && IsActive(pathname, href)
    ensures IsActive(pathname + more, href)
    ensures IsActive("/dashboardX", "/dashboard")
  {
    assert (pathname + more)[..|href|] == pathname[..|href|];
  }

  /** At most one of the two nav links is highlighted on any path. */
  lemma AtMostOneNavItemActive(pathname: string)
    ensures forall i, j :: 0 <= i < j < |NavItems| ==>
      !(IsActive(pathname, NavItems[i].href) && IsActive(pathname, NavItems[j].href))
  {
  }

  /** The text the avatar is built from: `name || email || ""`. */
  function AvatarSource(user: Profile): (r: string)
    ensures Truthy(user.name) ==> r == user.name.value
    ensures !Truthy(user.name) && Truthy(user.email) ==> r == user.email.value
    ensures r == "" <==> !Truthy(user.name) && !Truthy(user.email)
  {
    Or(user.name, Or(user.email, ""))
  }

  /** The rule applied to the pieces of the trimmed source: the first
      two characters of a single piece, or the first characters of the
      first and last pieces, upper-cased. */
  function PieceInitials(parts: seq<string>): (r: string)
    requires |parts| >= 1
    requires |parts| > 1 ==> IsWord(parts[0]) && IsWord(parts[|parts| - 1])
    ensures |r| <= 2
    ensures forall k :: 0 <= k < |r| ==> !IsLowerAscii(r[k])
  {
    if |parts| == 1 then Upper(Take(parts[0], 2))
    else Upper([parts[0][0], parts[|parts| - 1][0]])
  }

  /** The initials of a non-empty source text. */
  function SourceInitials(source: string): (r: string)
    requires source != ""
    ensures |r| <= 2
    ensures forall k :: 0 <= k < |r| ==> !IsLowerAscii(r[k])
    ensures AllSpace(source) ==> r == ""
  {
    var t := Trim(source);
    assert AllSpace(source) ==> t == "" by {
      if AllSpace(source) { TrimBlank(source); }
    }
    var parts := SplitWs(t);
    assert t == "" ==> parts == [""] by { SplitEmpty(); }
    assert |parts| > 1 ==> AllWords(parts) by {
      if |parts| > 1 { SplitTrimmedWords(t); }
    }
    PieceInitials(parts)
  }

  /** `getInitials()`: `"V"` when there is neither a name nor an email,
      otherwise the initials of `name || email`. A name made only of
      whitespace is truthy, so it wins over the email and gives `""`. */
  function Initials(user: Profile): (r: string)
    ensures |r| <= 2
    ensures forall k :: 0 <= k < |r| ==> !IsLowerAscii(r[k])
    ensures !Truthy(user.name) && !Truthy(user.email) ==> r == "V"
    ensures Truthy(user.name) && AllSpace(user.name.value) ==> r == ""
    ensures AvatarSource(user) != "" && AllSpace(AvatarSource(user)) ==> r == ""
  {
    var source := AvatarSource(user);
    if source == "" then "V" else SourceInitials(source)
  }

  /** For a source made of words separated by whitespace, with any
      whitespace around it, the initials are the rule applied to exactly
      those words: the first two characters of a single word, or the first
      characters of the first and the last word. */
  lemma InitialsOfWords(user: Profile, lead: string, words: seq<string>, gaps: seq<string>, trail: string)
    requires |words| >= 1 && |gaps| == |words| - 1 && AllWords(words) && AllGaps(gaps)
    requires AllSpace(lead) && AllSpace(trail)
    requires AvatarSource(user) == lead + Interleave(words, gaps) + trail
    ensures IsWord(words[0]) && IsWord(words[|words| - 1])
    ensures Initials(user) == PieceInitials(words)
  {
    var source := AvatarSource(user);
    SplitOfPadded(lead, words, gaps, trail);
    assert source != "";
    assert SplitWs(Trim(source)) == words;
  }
}
