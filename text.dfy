/** Python's `str.strip()` without arguments and the requester display name
    built from it. */
module Text {
  import opened Records

  /** The characters for which Python's `str.isspace()` holds: the ASCII
      controls TAB to CR and FS to US, SPACE, NEL, NO-BREAK SPACE and the
      Unicode space separators and line/paragraph separators. */
  const Whitespace: set<char> := {
      '\U{9}', '\U{A}', '\U{B}', '\U{C}', '\U{D}', '\U{1C}', '\U{1D}', '\U{1E}',
      '\U{1F}', '\U{20}', '\U{85}', '\U{A0}', '\U{1680}', '\U{2000}', '\U{2001}', '\U{2002}',
      '\U{2003}', '\U{2004}', '\U{2005}', '\U{2006}', '\U{2007}', '\U{2008}', '\U{2009}', '\U{200A}',
      '\U{2028}', '\U{2029}', '\U{202F}', '\U{205F}', '\U{3000}'
    }

  /** Neither begins nor ends with a character of `ws`. */
  predicate Trimmed(s: string, ws: set<char>)
  {
    s == [] || (s[0] !in ws && s[|s| - 1] !in ws)
  }

  /** The index of the first character at or after `i` that is not in `ws`
      (or `|s|`): the left scan of Python's `strip`. */
  function SkipLeft(s: string, ws: set<char>, i: nat): (n: nat)
    requires i <= |s|
    ensures i <= n <= |s|
    ensures forall k :: i <= k < n ==> s[k] in ws
    ensures n == |s| || s[n] !in ws
    decreases |s| - i
  {
    if i < |s| && s[i] in ws then SkipLeft(s, ws, i + 1) else i
  }

  /** The index just after the last character before `e` that is not in
      `ws`, scanning no further left than `lo`: the right scan of `strip`. */
  function SkipRight(s: string, ws: set<char>, lo: nat, e: nat): (n: nat)
    requires lo <= e <= |s|
    ensures lo <= n <= e
    ensures forall k :: n <= k < e ==> s[k] in ws
    ensures n == lo || s[n - 1] !in ws
    decreases e
  {
    if e > lo && s[e - 1] in ws then SkipRight(s, ws, lo, e - 1) else e
  }

  /** How many leading characters `strip` removes. */
  function Lead(s: string, ws: set<char>): nat
  {
    SkipLeft(s, ws, 0)
  }

  /** `r` sits in `s` after `lead` characters, and every character of `s`
      before or after it is in `ws`. */
  predicate Flanked(s: string, lead: nat, r: string, ws: set<char>)
  {
    && lead + |r| <= |s| && r == s[lead..lead + |r|]
    && (forall i :: 0 <= i < lead ==> s[i] in ws)
    && (forall i :: lead + |r| <= i < |s| ==> s[i] in ws)
  }

  /** `s.strip(ws)`: `s` without its leading and trailing characters of `ws`.
      The result is the slice of `s` after the leading run, and everything
      cut off on either side belongs to `ws`. */
  function Trim(s: string, ws: set<char>): (r: string)
    ensures Trimmed(r, ws)
    ensures Flanked(s, Lead(s, ws), r, ws)
  {
    var lead := SkipLeft(s, ws, 0);
    var end := SkipRight(s, ws, lead, |s|);
    var r := s[lead..end];
    assert r == [] || (r[0] == s[lead] && r[|r| - 1] == s[end - 1]);
    r
  }

  /** A string with nothing to trim is its own trim. */
  lemma TrimOfTrimmed(s: string, ws: set<char>)
    requires Trimmed(s, ws)
    ensures Trim(s, ws) == s
  {
    assert SkipLeft(s, ws, 0) == 0;
    assert SkipRight(s, ws, 0, |s|) == |s|;
  }

  /** Trimming is idempotent. */
  lemma TrimIdempotent(s: string, ws: set<char>)
    ensures Trim(Trim(s, ws), ws) == Trim(s, ws)
  {
    TrimOfTrimmed(Trim(s, ws), ws);
  }

  /** Two non-empty trimmed parts joined by one separator `c` leave nothing
      to trim. */
  lemma TrimJoined(a: string, c: char, b: string, ws: set<char>)
    requires Trimmed(a, ws) && Trimmed(b, ws) && a != [] && b != []
    ensures Trim(a + [c] + b, ws) == a + [c] + b
  {
    var j := a + [c] + b;
    assert j[0] == a[0] && j[|j| - 1] == b[|b| - 1];
    TrimOfTrimmed(j, ws);
  }

  /** A trailing separator of `ws` after a non-empty trimmed part is cut. */
  lemma TrimTrailing(a: string, c: char, ws: set<char>)
    requires Trimmed(a, ws) && a != [] && c in ws
    ensures Trim(a + [c], ws) == a
  {
    var j := a + [c];
    assert j[0] == a[0] && j[|a|] == c && j[|a| - 1] == a[|a| - 1];
    assert SkipLeft(j, ws, 0) == 0;
    assert SkipRight(j, ws, 0, |a|) == |a|;
    assert SkipRight(j, ws, 0, |j|) == |a|;
    assert j[..|a|] == a;
  }

  /** A leading separator of `ws` before a non-empty trimmed part is cut. */
  lemma TrimLeading(c: char, b: string, ws: set<char>)
    requires Trimmed(b, ws) && b != [] && c in ws
    ensures Trim([c] + b, ws) == b
  {
    var j := [c] + b;
    assert j[0] == c && j[1] == b[0] && j[|j| - 1] == b[|b| - 1];
    assert SkipLeft(j, ws, 1) == 1;
    assert SkipLeft(j, ws, 0) == 1;
    assert SkipRight(j, ws, 1, |j|) == |j|;
    assert j[1..] == b;
  }

  /** Python's `s.strip()` with no argument. */
  function Strip(s: string): (r: string)
    ensures Trimmed(r, Whitespace)
    ensures Flanked(s, Lead(s, Whitespace), r, Whitespace)
  {
    Trim(s, Whitespace)
  }

  /** The requester's display name: both parts stripped; None when both are
      empty, otherwise `"first last"` stripped again, so that a lone part
      carries no stray space. */
  function DisplayName(firstName: string, lastName: string): (r: Option<string>)
    ensures r.None? <==> Strip(firstName) == [] && Strip(lastName) == []
    ensures r.Some? ==> r.value != [] && Trimmed(r.value, Whitespace)
    ensures Strip(firstName) != [] && Strip(lastName) != []
      ==> r == Some(Strip(firstName) + " " + Strip(lastName))
    ensures Strip(firstName) != [] && Strip(lastName) == [] ==> r == Some(Strip(firstName))
    ensures Strip(firstName) == [] && Strip(lastName) != [] ==> r == Some(Strip(lastName))
  {
    var first := Strip(firstName);
    var last := Strip(lastName);
    if first != [] || last != [] then
      var joined := first + " " + last;
      if first != [] && last != [] then
        TrimJoined(first, ' ', last, Whitespace);
        Some(Strip(joined))
      else if first != [] then
        TrimTrailing(first, ' ', Whitespace);
        assert joined == first + [' '];
        Some(Strip(joined))
      else
        TrimLeading(' ', last, Whitespace);
        assert joined == [' '] + last;
        Some(Strip(joined))
    else
      None
  }
}
