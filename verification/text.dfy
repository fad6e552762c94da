/** The string operations the pages use: `trim`, `split(/\s+/)`,
    `split(c)[0]`, `slice(0, n)` and `toUpperCase`. */
module Text {

  /** JavaScript's WhiteSpace and LineTerminator characters, the set that
      both `String.prototype.trim` and the regular-expression class `\s`
      use. */
  const Whitespace: set<char> := {
    '\U{0009}', '\U{000A}', '\U{000B}', '\U{000C}', '\U{000D}', '\U{0020}',
    '\U{00A0}', '\U{1680}', '\U{2000}', '\U{2001}', '\U{2002}', '\U{2003}',
    '\U{2004}', '\U{2005}', '\U{2006}', '\U{2007}', '\U{2008}', '\U{2009}',
    '\U{200A}', '\U{2028}', '\U{2029}', '\U{202F}', '\U{205F}', '\U{3000}',
    '\U{FEFF}'
  }

  predicate IsSpace(c: char) {
    c in Whitespace
  }

  predicate AllSpace(s: string) {
    forall i :: 0 <= i < |s| ==> IsSpace(s[i])
  }

  predicate NoSpace(s: string) {
    forall i :: 0 <= i < |s| ==> !IsSpace(s[i])
  }

  /** A string with no whitespace at either end. */
  predicate Trimmed(s: string) {
    s == [] || (!IsSpace(s[0]) && !IsSpace(s[|s| - 1]))
  }

  /** A word of `split(/\s+/)` on a trimmed, non-blank string. */
  predicate IsWord(w: string) {
    w != [] && NoSpace(w)
  }

  /** A maximal run of whitespace between two words. */
  predicate IsGap(g: string) {
    g != [] && AllSpace(g)
  }

  /** `s.trimStart()`: the suffix left after the leading whitespace. */
  function TrimStart(s: string): (r: string)
    ensures |r| <= |s| && r == s[|s| - |r|..]
    ensures AllSpace(s[..|s| - |r|])
    ensures r == [] || !IsSpace(r[0])
  {
    if s != [] && IsSpace(s[0]) then
      var r := TrimStart(s[1..]);
      assert s[..|s| - |r|] == [s[0]] + s[1..][..|s| - 1 - |r|];
      r
    else s
  }

  /** `s.trimEnd()`: the prefix left before the trailing whitespace. */
  function TrimEnd(s: string): (r: string)
    ensures |r| <= |s| && r == s[..|r|]
    ensures AllSpace(s[|r|..])
    ensures r == [] || !IsSpace(r[|r| - 1])
  {
    if s != [] && IsSpace(s[|s| - 1]) then TrimEnd(s[..|s| - 1]) else s
  }

  /** `s.trim()`. */
  function Trim(s: string): (r: string)
    ensures Trimmed(r)
    ensures |r| <= |s|
  {
    TrimEnd(TrimStart(s))
  }

  /** `trim` removes only whitespace, and only at the ends: `s` is what
      it leaves with whitespace before and after. */
  lemma TrimSlice(s: string)
    ensures exists lead, trail :: s == lead + Trim(s) + trail && AllSpace(lead) && AllSpace(trail)
  {
    var t := TrimStart(s);
    Padded(s, t, TrimEnd(t));
  }

  /** A suffix `t` of `s` after whitespace, and a prefix `r` of `t` before
      whitespace, is `s` with whitespace before and after it. */
  lemma Padded(s: string, t: string, r: string)
    requires |t| <= |s| && t == s[|s| - |t|..] && AllSpace(s[..|s| - |t|])
    requires |r| <= |t| && r == t[..|r|] && AllSpace(t[|r|..])
    ensures exists lead, trail :: s == lead + r + trail && AllSpace(lead) && AllSpace(trail)
  {
    var lead, trail := s[..|s| - |t|], t[|r|..];
    assert t == r + trail;
    assert s == lead + r + trail;
  }

  /** Index of the first whitespace character, or `|s|` when there is none. */
  function FirstSpace(s: string): (i: nat)
    ensures i <= |s| && NoSpace(s[..i])
    ensures i == |s| || IsSpace(s[i])
  {
    if s == [] || IsSpace(s[0]) then 0 else 1 + FirstSpace(s[1..])
  }

  /** `s.split(/\s+/)`: the pieces between maximal runs of whitespace.
      Like JavaScript, `""` gives `[""]` and a leading or trailing run
      gives an empty first or last piece. */
  function SplitWs(s: string): (parts: seq<string>)
    decreases |s|
    ensures |parts| >= 1
    ensures forall k :: 0 <= k < |parts| ==> NoSpace(parts[k])
  {
    var i := FirstSpace(s);
    if i == |s| then [s]
    else
      var rest := TrimStart(s[i..]);
      assert rest != s[i..];
      [s[..i]] + SplitWs(rest)
  }

  /** Words joined by whitespace gaps: `w0 g0 w1 g1 ... wn`. This is the
      reference shape of a name that `SplitWs` takes apart. */
  function Interleave(words: seq<string>, gaps: seq<string>): string
    requires |words| >= 1 && |gaps| == |words| - 1
    decreases |words|
  {
    if |words| == 1 then words[0]
    else words[0] + gaps[0] + Interleave(words[1..], gaps[1..])
  }

  predicate AllWords(words: seq<string>) {
    forall k :: 0 <= k < |words| ==> IsWord(words[k])
  }

  predicate AllGaps(gaps: seq<string>) {
    forall k :: 0 <= k < |gaps| ==> IsGap(gaps[k])
  }

  /** The first character `s.split(c)[0]` stops at: the prefix of `s`
      before the first `c`, or all of `s` when `c` does not occur. */
  function BeforeFirst(s: string, c: char): (r: string)
    ensures r <= s
    ensures c !in r
    ensures |r| < |s| ==> s[|r|] == c
  {
    if s == [] || s[0] == c then [] else [s[0]] + BeforeFirst(s[1..], c)
  }

  /** `s.slice(0, n)`. */
  function Take(s: string, n: nat): (r: string)
    ensures |r| <= n && r <= s
    ensures |r| == if |s| <= n then |s| else n
  {
    if |s| <= n then s else s[..n]
  }

  /** ASCII upper-casing of one character. */
  function UpperChar(c: char): (u: char)
    ensures !IsLowerAscii(u)
  {
    if 'a' <= c <= 'z' then (c as int - 32) as char else c
  }

  predicate IsLowerAscii(c: char) {
    'a' <= c <= 'z'
  }

  /** `s.toUpperCase()`, restricted to ASCII letters. */
  function Upper(s: string): (r: string)
    ensures |r| == |s|
    ensures forall k :: 0 <= k < |s| ==> r[k] == UpperChar(s[k])
    ensures forall k :: 0 <= k < |r| ==> !IsLowerAscii(r[k])
  {
    seq(|s|, k requires 0 <= k < |s| => UpperChar(s[k]))
  }

  // ---------------------------------------------------------------------
  // Lemmas

  /** `trimStart` removes exactly the leading run of whitespace. */
  lemma TrimStartAt(s: string, k: nat)
    requires k <= |s| && AllSpace(s[..k])
    requires k == |s| || !IsSpace(s[k])
    ensures TrimStart(s) == s[k..]
  {
    var r := TrimStart(s);
    var m := |s| - |r|;
    forall j | 0 <= j < k ensures IsSpace(s[j]) { assert s[..k][j] == s[j]; }
    forall j | 0 <= j < m ensures IsSpace(s[j]) { assert s[..m][j] == s[j]; }
    assert m < |s| ==> s[m] == r[0];
  }

  /** `trimEnd` removes exactly the trailing run of whitespace. */
  lemma TrimEndAt(s: string, k: nat)
    requires k <= |s| && AllSpace(s[k..])
    requires k == 0 || !IsSpace(s[k - 1])
    ensures TrimEnd(s) == s[..k]
  {
    var m := |TrimEnd(s)|;
    assert m == k;
  }

  /** `trim` removes any leading and trailing whitespace around a string
      that has none at its ends, and nothing else. */
  lemma TrimAround(lead: string, x: string, trail: string)
    requires AllSpace(lead) && AllSpace(trail) && Trimmed(x)
    ensures Trim(lead + x + trail) == x
  {
    var s := lead + x + trail;
    if x == [] {
      assert AllSpace(s) by {
        forall i | 0 <= i < |s| ensures IsSpace(s[i]) {
          if i < |lead| { assert s[i] == lead[i]; } else { assert s[i] == trail[i - |lead|]; }
        }
      }
      assert s[..|s|] == s;
      TrimStartAt(s, |s|);
      assert s[|s|..] == [];
    } else {
      assert s[..|lead|] == lead;
      assert s[|lead|] == x[0];
      TrimStartAt(s, |lead|);
      var t := s[|lead|..];
      assert t == x + trail;
      assert t[|x|..] == trail;
      assert t[|x| - 1] == x[|x| - 1];
      TrimEndAt(t, |x|);
      assert t[..|x|] == x;
    }
  }

  /** `FirstSpace` finds the end of the first run of non-whitespace. */
  lemma FirstSpaceAt(s: string, k: nat)
    requires k <= |s| && NoSpace(s[..k])
    requires k == |s| || IsSpace(s[k])
    ensures FirstSpace(s) == k
  {
    var m := FirstSpace(s);
    forall j | 0 <= j < k ensures !IsSpace(s[j]) { assert s[..k][j] == s[j]; }
    forall j | 0 <= j < m ensures !IsSpace(s[j]) { assert s[..m][j] == s[j]; }
  }

  /** An interleaving of words starts with its first word and ends with
      its last one. */
  lemma {:induction false} InterleaveEnds(words: seq<string>, gaps: seq<string>)
    requires |words| >= 1 && |gaps| == |words| - 1
    ensures words[0] <= Interleave(words, gaps)
    ensures var s := Interleave(words, gaps); var w := words[|words| - 1];
            |w| <= |s| && s[|s| - |w|..] == w
    decreases |words|
  {
    if |words| > 1 {
      InterleaveEnds(words[1..], gaps[1..]);
      var rest := Interleave(words[1..], gaps[1..]);
      var s := Interleave(words, gaps);
      var w := words[|words| - 1];
      assert s == words[0] + gaps[0] + rest;
      assert words[1..][|words[1..]| - 1] == w;
      assert s[|s| - |w|..] == rest[|rest| - |w|..];
    }
  }

  /** Words joined by gaps never start or end with whitespace. */
  lemma InterleaveTrimmed(words: seq<string>, gaps: seq<string>)
    requires |words| >= 1 && |gaps| == |words| - 1 && AllWords(words)
    ensures Trimmed(Interleave(words, gaps)) && Interleave(words, gaps) != []
  {
    InterleaveEnds(words, gaps);
    var s := Interleave(words, gaps);
    var w := words[|words| - 1];
    assert IsWord(words[0]) && IsWord(w);
    assert s[0] == words[0][0];
    assert s[|s| - 1] == s[|s| - |w|..][|w| - 1] == w[|w| - 1];
  }

  /** A single word splits into itself. */
  lemma SplitWord(w: string)
    requires IsWord(w)
    ensures SplitWs(w) == [w]
  {
    assert w[..|w|] == w;
    FirstSpaceAt(w, |w|);
  }

  /** Splitting `w g rest` peels off the word `w` and the whole gap `g`. */
  lemma SplitCons(w: string, g: string, rest: string)
    requires IsWord(w) && IsGap(g) && rest != [] && !IsSpace(rest[0])
    ensures SplitWs(w + g + rest) == [w] + SplitWs(rest)
  {
    var s := w + g + rest;
    assert s[..|w|] == w;
    assert s[|w|] == g[0];
    FirstSpaceAt(s, |w|);
    var t := s[|w|..];
    assert t == g + rest;
    assert t[..|g|] == g;
    assert t[|g|] == rest[0];
    TrimStartAt(t, |g|);
    assert t[|g|..] == rest;
  }

  /** Round trip: splitting words joined by whitespace gaps gives the
      words back. */
  lemma {:induction false} SplitInterleave(words: seq<string>, gaps: seq<string>)
    requires |words| >= 1 && |gaps| == |words| - 1
    requires AllWords(words) && AllGaps(gaps)
    ensures SplitWs(Interleave(words, gaps)) == words
    decreases |words|
  {
    if |words| == 1 {
      assert IsWord(words[0]);
      SplitWord(words[0]);
    } else {
      AllTails(words, gaps);
      SplitInterleave(words[1..], gaps[1..]);
      SplitInterleaveStep(words, gaps);
    }
  }

  /** The inductive step of `SplitInterleave`: the first word and gap
      are peeled off, and the rest splits as assumed. */
  lemma SplitInterleaveStep(words: seq<string>, gaps: seq<string>)
    requires |words| > 1 && |gaps| == |words| - 1
    requires IsWord(words[0]) && IsGap(gaps[0]) && AllWords(words[1..])
    requires SplitWs(Interleave(words[1..], gaps[1..])) == words[1..]
    ensures SplitWs(Interleave(words, gaps)) == words
  {
    var ws, gs := words[1..], gaps[1..];
    var rest := Interleave(ws, gs);
    assert Interleave(words, gaps) == words[0] + gaps[0] + rest;
    InterleaveTrimmed(ws, gs);
    SplitCons(words[0], gaps[0], rest);
    assert words == [words[0]] + ws;
  }

  /** Dropping the first word and the first gap keeps both well formed. */
  lemma AllTails(words: seq<string>, gaps: seq<string>)
    requires |words| >= 1 && |gaps| >= 1 && AllWords(words) && AllGaps(gaps)
    ensures IsWord(words[0]) && IsGap(gaps[0]) && AllWords(words[1..]) && AllGaps(gaps[1..])
  {
    forall k | 0 <= k < |words| - 1 ensures words[1..][k] == words[k + 1] { }
    forall k | 0 <= k < |gaps| - 1 ensures gaps[1..][k] == gaps[k + 1] { }
  }

  lemma AllWordsCons(w: string, ws: seq<string>)
    requires IsWord(w) && AllWords(ws)
    ensures AllWords([w] + ws)
  {
    forall k | 0 <= k < |ws| ensures ([w] + ws)[k + 1] == ws[k] { }
  }

  /** After the first word of a trimmed string, what `SplitWs` recurses
      on is again trimmed and non-blank. */
  lemma SplitRestTrimmed(s: string)
    requires s != [] && Trimmed(s) && FirstSpace(s) < |s|
    ensures var rest := TrimStart(s[FirstSpace(s)..]); rest != [] && Trimmed(rest)
  {
    var t := s[FirstSpace(s)..];
    var rest := TrimStart(t);
    assert t[|t| - 1] == s[|s| - 1];
    assert rest != [] by {
      assert t[..|t|][|t| - 1] == t[|t| - 1];
    }
    assert rest[|rest| - 1] == t[|t| - 1];
  }

  /** Every piece of `split(/\s+/)` on a trimmed, non-blank string is a
      non-empty word. */
  lemma {:induction false} SplitTrimmedWords(s: string)
    requires s != [] && Trimmed(s)
    ensures AllWords(SplitWs(s))
    decreases |s|
  {
    var i := FirstSpace(s);
    if i < |s| {
      var rest := TrimStart(s[i..]);
      SplitRestTrimmed(s);
      SplitTrimmedWords(rest);
      var parts := SplitWs(s);
      assert parts == [s[..i]] + SplitWs(rest);
      assert i != 0;
      AllWordsCons(s[..i], SplitWs(rest));
    }
  }

  /** A blank string has nothing left after `trim`. */
  lemma TrimBlank(s: string)
    requires AllSpace(s)
    ensures Trim(s) == ""
  {
    assert s == s + "" + "";
    TrimAround(s, "", "");
  }

  /** Splitting the trimmed form of words joined by gaps, with any
      whitespace around them, gives the words. */
  lemma SplitOfPadded(lead: string, words: seq<string>, gaps: seq<string>, trail: string)
    requires |words| >= 1 && |gaps| == |words| - 1 && AllWords(words) && AllGaps(gaps)
    requires AllSpace(lead) && AllSpace(trail)
    ensures Trim(lead + Interleave(words, gaps) + trail) != ""
    ensures SplitWs(Trim(lead + Interleave(words, gaps) + trail)) == words
  {
    InterleaveTrimmed(words, gaps);
    TrimAround(lead, Interleave(words, gaps), trail);
    SplitInterleave(words, gaps);
  }

  /** A blank string splits into the single empty piece. */
  lemma SplitEmpty()
    ensures SplitWs("") == [""]
  {
  }
}
