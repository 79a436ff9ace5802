/** Text with the white space around it taken off, as the two languages of the program do it. */
module Text {
  /** The white space that both languages know. */
  predicate CommonSpace(c: char) {
    || '\t' <= c <= '\r' || c == ' ' || c == '\U{A0}' || c == '\U{1680}' || '\U{2000}' <= c <= '\U{200A}'
    || c == '\U{2028}' || c == '\U{2029}' || c == '\U{202F}' || c == '\U{205F}' || c == '\U{3000}'
  }

  predicate PythonSpace(c: char) {
    CommonSpace(c) || '\U{1C}' <= c <= '\U{1F}' || c == '\U{85}'
  }

  predicate ScriptSpace(c: char) {
    CommonSpace(c) || c == '\U{FEFF}'
  }

  function StripLeft(s: string, space: char -> bool): string {
    if |s| > 0 && space(s[0]) then StripLeft(s[1..], space) else s
  }

  function StripRight(s: string, space: char -> bool): string {
    if |s| > 0 && space(s[|s| - 1]) then StripRight(s[..|s| - 1], space) else s
  }

  /** `str.strip` of Python. */
  function Stripped(s: string): string {
    StripRight(StripLeft(s, PythonSpace), PythonSpace)
  }

  /** `trim` of the site's scripts. */
  function Trimmed(s: string): string {
    StripRight(StripLeft(s, ScriptSpace), ScriptSpace)
  }

  lemma {:induction false} StripLeftKeeps(s: string, space: char -> bool)
    ensures StripLeft(s, space) == s <==> s == "" || !space(s[0])
    ensures StripLeft(s, space) == s || |StripLeft(s, space)| < |s|
  {
    if |s| > 0 && space(s[0]) {
      StripLeftKeeps(s[1..], space);
    }
  }

  predicate AllSpace(s: string, space: char -> bool) {
    forall i :: 0 <= i < |s| ==> space(s[i])
  }

  lemma {:induction false} StripLeftTakesSpace(s: string, space: char -> bool) returns (gone: string)
    ensures s == gone + StripLeft(s, space) && AllSpace(gone, space)
    ensures var t := StripLeft(s, space); t == "" || !space(t[0])
  {
    gone := "";
    if |s| > 0 && space(s[0]) {
      var rest := StripLeftTakesSpace(s[1..], space);
      gone := [s[0]] + rest;
    }
  }

  lemma {:induction false} StripRightTakesSpace(s: string, space: char -> bool) returns (gone: string)
    ensures s == StripRight(s, space) + gone && AllSpace(gone, space)
    ensures var t := StripRight(s, space); t == "" || !space(t[|t| - 1])
  {
    gone := "";
    if |s| > 0 && space(s[|s| - 1]) {
      var rest := StripRightTakesSpace(s[..|s| - 1], space);
      gone := rest + [s[|s| - 1]];
      assert s == s[..|s| - 1] + [s[|s| - 1]];
    }
  }

  /** What is taken off is white space at both ends, and all of it. */
  ghost predicate Bared(s: string, t: string, space: char -> bool) {
    && (exists before, after :: s == before + t + after && AllSpace(before, space) && AllSpace(after, space))
    && (t == "" || (!space(t[0]) && !space(t[|t| - 1])))
  }

  lemma {:induction false} StripBares(s: string, space: char -> bool)
    ensures Bared(s, StripRight(StripLeft(s, space), space), space)
  {
    var before := StripLeftTakesSpace(s, space);
    var inner := StripLeft(s, space);
    var after := StripRightTakesSpace(inner, space);
    var t := StripRight(inner, space);
    assert s == before + t + after;
    assert t != "" ==> t[0] == inner[0];
  }

  /** Both languages take off exactly the white space at the ends, each what it counts as such. */
  lemma TrimBares(s: string)
    ensures Bared(s, Trimmed(s), ScriptSpace) && Bared(s, Stripped(s), PythonSpace)
  {
    StripBares(s, ScriptSpace);
    StripBares(s, PythonSpace);
  }

  lemma {:induction false} StripRightKeeps(s: string, space: char -> bool)
    ensures StripRight(s, space) == s <==> s == "" || !space(s[|s| - 1])
    ensures StripRight(s, space) == s || |StripRight(s, space)| < |s|
  {
    if |s| > 0 && space(s[|s| - 1]) {
      StripRightKeeps(s[..|s| - 1], space);
    }
  }

  /** Text is trimmed already exactly when it neither begins nor ends with white space. */
  lemma TrimmedIff(s: string)
    ensures Trimmed(s) == s <==> s == "" || (!ScriptSpace(s[0]) && !ScriptSpace(s[|s| - 1]))
  {
    StripLeftKeeps(s, ScriptSpace);
    StripRightKeeps(s, ScriptSpace);
    StripRightKeeps(StripLeft(s, ScriptSpace), ScriptSpace);
  }
}
