/** JavaScript's String.prototype.trim, which both screens apply to form
    input before validating it.  The trimming functions take the set of
    characters to strip as a parameter; Trim instantiates it with the set
    ECMAScript defines. */
module Text {

  /** The characters ECMAScript's trim removes: WhiteSpace (tab, vertical
      tab, form feed, space, no-break space, the byte order mark and the
      Unicode space separators U+1680, U+2000 to U+200A, U+202F, U+205F,
      U+3000) and LineTerminator (line feed, carriage return, U+2028, U+2029). */
  const JsWhitespace: set<char> := {
    '\t', '\n', '\U{000B}', '\U{000C}', '\r', ' ', '\U{00A0}', '\U{FEFF}',
    '\U{1680}', '\U{2000}', '\U{2001}', '\U{2002}', '\U{2003}', '\U{2004}',
    '\U{2005}', '\U{2006}', '\U{2007}', '\U{2008}', '\U{2009}', '\U{200A}',
    '\U{202F}', '\U{205F}', '\U{3000}', '\U{2028}', '\U{2029}'
  }

  /** Every character of `s` is in `ws` (the empty string included). */
  predicate AllIn(s: string, ws: set<char>)
  {
    forall i :: 0 <= i < |s| ==> s[i] in ws
  }

  /** Nothing but JavaScript whitespace: what `s.trim() === ""` accepts. */
  predicate IsBlank(s: string)
  {
    AllIn(s, JsWhitespace)
  }

  /** The index of the first character of `s` at or after `i` that is not
      in `ws`, or `|s|` when there is none. */
  function SkipFrom(s: string, ws: set<char>, i: nat): (j: nat)
    requires i <= |s|
    ensures i <= j <= |s|
    ensures forall k :: i <= k < j ==> s[k] in ws
    ensures j < |s| ==> s[j] !in ws
    decreases |s| - i
  {
    if i < |s| && s[i] in ws then SkipFrom(s, ws, i + 1) else i
  }

  /** The index just past the last character of `s[lo..j]` that is not in
      `ws`, or `lo` when there is none. */
  function SkipBackFrom(s: string, ws: set<char>, lo: nat, j: nat): (e: nat)
    requires lo <= j <= |s|
    ensures lo <= e <= j
    ensures forall k :: e <= k < j ==> s[k] in ws
    ensures e > lo ==> s[e - 1] !in ws
    decreases j - lo
  {
    if j > lo && s[j - 1] in ws then SkipBackFrom(s, ws, lo, j - 1) else j
  }

  /** `s` without characters from `ws` at either end: an infix of `s` with
      only characters of `ws` before and after it, empty exactly when `s`
      has no other characters. */
  function Strip(s: string, ws: set<char>): (r: string)
    ensures r == [] <==> AllIn(s, ws)
    ensures r != [] ==> r[0] !in ws && r[|r| - 1] !in ws
    ensures exists i :: 0 <= i <= |s| - |r| && r == s[i..i + |r|] && AllIn(s[..i], ws) && AllIn(s[i + |r|..], ws)
  {
    var i := SkipFrom(s, ws, 0);
    var e := SkipBackFrom(s, ws, i, |s|);
    assert AllIn(s[..i], ws);
    assert AllIn(s[e..], ws);
    s[i..e]
  }

  /** `s.trim()`. */
  function Trim(s: string): (r: string)
    ensures r == [] <==> IsBlank(s)
    ensures r != [] ==> r[0] !in JsWhitespace && r[|r| - 1] !in JsWhitespace
  {
    Strip(s, JsWhitespace)
  }

  /** The trimmed text is a piece of the text with only whitespace before
      and after it. */
  lemma TrimTakesInfix(s: string)
    ensures exists i :: 0 <= i <= |s| - |Trim(s)| && Trim(s) == s[i..i + |Trim(s)|] &&
                        AllIn(s[..i], JsWhitespace) && AllIn(s[i + |Trim(s)|..], JsWhitespace)
  {
    assert Trim(s) == Strip(s, JsWhitespace);
  }

  /** Trimming a trimmed string changes nothing. */
  lemma TrimIdempotent(s: string)
    ensures Trim(Trim(s)) == Trim(s)
  {
    var r := Trim(s);
    if r != [] {
      assert SkipFrom(r, JsWhitespace, 0) == 0;
      assert SkipBackFrom(r, JsWhitespace, 0, |r|) == |r|;
      assert r[0..|r|] == r;
    }
  }
}
