/** The regular expression matcher of grep, against the language that its patterns denote. */
module Grep {

  /** A C string without its terminating NUL. */
  type CString = s: string | forall i :: 0 <= i < |s| ==> s[i] != '\0' witness ""

  /** The character at position i; the terminator at the end. */
  function CharAt(s: CString, i: int): (c: char)
    requires 0 <= i <= |s|
    ensures c == '\0' <==> i == |s|
  {
    if i < |s| then s[i] else '\0'
  }

  // ---------- the language of a pattern ----------

  /** One character, or any number of the same; '.' stands for every character. */
  datatype Atom = One(c: char) | Many(c: char)

  predicate Hit(c: char, x: char) {
    c == '.' || c == x
  }

  /** The string is a run of characters that c stands for. */
  predicate IsRun(c: char, s: string) {
    forall i :: 0 <= i < |s| ==> Hit(c, s[i])
  }

  predicate InAtom(a: Atom, s: string) {
    match a
    case One(c) => |s| == 1 && Hit(c, s[0])
    case Many(c) => IsRun(c, s)
  }

  /** A string is in the language of a sequence of atoms when it can be cut into pieces, one in
      the language of each atom. */
  ghost predicate InLang(atoms: seq<Atom>, s: string)
    decreases |atoms|
  {
    if atoms == [] then s == ""
    else exists k {:trigger s[..k]} :: 0 <= k <= |s| && InAtom(atoms[0], s[..k]) && InLang(atoms[1..], s[k..])
  }

  /** The atoms of a pattern from position i on. A star after a character, whatever it is, makes
      it Many; a '$' at the very end is no atom. */
  function Atoms(re: CString, i: int): (a: seq<Atom>)
    requires 0 <= i <= |re|
    decreases |re| - i
  {
    if i == |re| then []
    else if i + 1 < |re| && re[i + 1] == '*' then [Many(re[i])] + Atoms(re, i + 2)
    else if re[i] == '$' && i + 1 == |re| then []
    else [One(re[i])] + Atoms(re, i + 1)
  }

  predicate EndAnchored(re: CString, i: int) {
    0 <= i < |re| && re[|re| - 1] == '$'
  }

  predicate StartAnchored(re: CString) {
    |re| > 0 && re[0] == '^'
  }

  /** Some stretch of text that begins at j is in the language of the pattern from i on. */
  ghost predicate Here(re: CString, i: int, text: CString, j: int)
    requires 0 <= i <= |re| && 0 <= j <= |text|
  {
    exists k {:trigger text[j..k]} :: j <= k <= |text| && Ends(re, i, text, k) && InLang(Atoms(re, i), text[j..k])
  }

  predicate Ends(re: CString, i: int, text: CString, k: int) {
    EndAnchored(re, i) ==> k == |text|
  }

  /** Some stretch of text is in the language of the pattern: any stretch, but from the start of
      the text for a pattern that begins with '^', and up to the end of it for one that ends with
      '$'. */
  ghost predicate Matches(re: CString, text: CString) {
    var i := if StartAnchored(re) then 1 else 0;
    exists j, k {:trigger text[j..k]} :: 0 <= j <= k <= |text|
      && (StartAnchored(re) ==> j == 0) && Ends(re, i, text, k) && InLang(Atoms(re, i), text[j..k])
  }

  // ---------- how the language unfolds ----------

  lemma HereNone(re: CString, text: CString, j: int)
    requires 0 <= j <= |text|
    ensures Here(re, |re|, text, j)
  {
    assert text[j..j] == "";
  }

  lemma HereEnd(re: CString, i: int, text: CString, j: int)
    requires 0 <= i < |re| && 0 <= j <= |text| && re[i] == '$' && i + 1 == |re|
    ensures Here(re, i, text, j) <==> j == |text|
  {
    if j == |text| {
      assert text[j..j] == "";
    }
  }

  /** The character at i is an atom of its own. */
  predicate Plain(re: CString, i: int) {
    && 0 <= i < |re| && !(i + 1 < |re| && re[i + 1] == '*')
    && !(re[i] == '$' && i + 1 == |re|)
  }

  lemma HereOne(re: CString, i: int, text: CString, j: int)
    requires Plain(re, i) && 0 <= j <= |text|
    ensures Here(re, i, text, j) <==> j < |text| && Hit(re[i], text[j]) && Here(re, i + 1, text, j + 1)
  {
    var atoms := Atoms(re, i);
    assert atoms[0] == One(re[i]) && atoms[1..] == Atoms(re, i + 1);
    assert EndAnchored(re, i) <==> EndAnchored(re, i + 1);
    if Here(re, i, text, j) {
      var k :| j <= k <= |text| && Ends(re, i, text, k) && InLang(atoms, text[j..k]);
      var s := text[j..k];
      var m :| 0 <= m <= |s| && InAtom(atoms[0], s[..m]) && InLang(atoms[1..], s[m..]);
      assert m == 1 && s[..1][0] == text[j] && s[1..] == text[j + 1..k];
    }
    if j < |text| && Hit(re[i], text[j]) && Here(re, i + 1, text, j + 1) {
      var k :| j + 1 <= k <= |text| && Ends(re, i + 1, text, k) && InLang(Atoms(re, i + 1), text[j + 1..k]);
      var s := text[j..k];
      assert s[1..] == text[j + 1..k] && InAtom(atoms[0], s[..1]);
      assert InLang(atoms, s);
    }
  }

  /** The pattern from i on matches after a run of characters that c stands for. */
  ghost predicate AfterRun(c: char, re: CString, i: int, text: CString, j: int)
    requires 0 <= i <= |re| && 0 <= j <= |text|
  {
    exists m {:trigger text[j..m]} :: j <= m <= |text| && IsRun(c, text[j..m]) && Here(re, i, text, m)
  }

  lemma StarAtoms(re: CString, i: int)
    requires 0 <= i && i + 1 < |re| && re[i + 1] == '*'
    ensures var atoms := Atoms(re, i); |atoms| > 0 && atoms[0] == Many(re[i]) && atoms[1..] == Atoms(re, i + 2)
    ensures EndAnchored(re, i) <==> EndAnchored(re, i + 2)
  {
  }

  lemma StarSplits(re: CString, i: int, text: CString, j: int)
    requires 0 <= i && i + 1 < |re| && re[i + 1] == '*' && 0 <= j <= |text| && Here(re, i, text, j)
    ensures AfterRun(re[i], re, i + 2, text, j)
  {
    var atoms := Atoms(re, i);
    StarAtoms(re, i);
    var k :| j <= k <= |text| && Ends(re, i, text, k) && InLang(atoms, text[j..k]);
    var s := text[j..k];
    var m :| 0 <= m <= |s| && InAtom(atoms[0], s[..m]) && InLang(atoms[1..], s[m..]);
    assert s[..m] == text[j..j + m] && s[m..] == text[j + m..k];
    assert Here(re, i + 2, text, j + m);
  }

  lemma StarJoins(re: CString, i: int, text: CString, j: int, m: int)
    requires 0 <= i && i + 1 < |re| && re[i + 1] == '*' && 0 <= j <= m <= |text|
    requires IsRun(re[i], text[j..m]) && Here(re, i + 2, text, m)
    ensures Here(re, i, text, j)
  {
    var atoms := Atoms(re, i);
    StarAtoms(re, i);
    var k :| m <= k <= |text| && Ends(re, i + 2, text, k) && InLang(Atoms(re, i + 2), text[m..k]);
    var s := text[j..k];
    assert s[..m - j] == text[j..m] && s[m - j..] == text[m..k];
    assert InLang(atoms, s);
  }

  lemma HereStar(re: CString, i: int, text: CString, j: int)
    requires 0 <= i && i + 1 < |re| && re[i + 1] == '*' && 0 <= j <= |text|
    ensures Here(re, i, text, j) <==> AfterRun(re[i], re, i + 2, text, j)
  {
    if Here(re, i, text, j) {
      StarSplits(re, i, text, j);
    }
    if AfterRun(re[i], re, i + 2, text, j) {
      var m :| j <= m <= |text| && IsRun(re[i], text[j..m]) && Here(re, i + 2, text, m);
      StarJoins(re, i, text, j, m);
    }
  }

  // ---------- the matcher ----------

  /** match: is there a match anywhere in the text. */
  method Match(re: CString, text: CString) returns (r: bool)
    ensures r <==> Matches(re, text)
  {
    if CharAt(re, 0) == '^' {
      r := MatchHere(re, 1, text, 0);
      StartOnly(re, text);
      return;
    }
    var j := 0;
    while true
      invariant 0 <= j <= |text| && forall m :: 0 <= m < j ==> !Here(re, 0, text, m)
      decreases |text| - j
    {
      r := MatchHere(re, 0, text, j);
      if r {
        SomewhereIs(re, text);
        return;
      }
      if CharAt(text, j) == '\0' {
        break;
      }
      j := j + 1;
    }
    SomewhereIs(re, text);
    return false;
  }

  lemma StartOnly(re: CString, text: CString)
    requires StartAnchored(re)
    ensures Matches(re, text) <==> Here(re, 1, text, 0)
  {
  }

  lemma SomewhereIs(re: CString, text: CString)
    requires !StartAnchored(re)
    ensures Matches(re, text) <==> exists j :: 0 <= j <= |text| && Here(re, 0, text, j)
  {
    if Matches(re, text) {
      var j, k :| 0 <= j <= k <= |text| && Ends(re, 0, text, k) && InLang(Atoms(re, 0), text[j..k]);
      assert Here(re, 0, text, j);
    }
  }

  /** matchhere: is there a match that begins at position j. */
  method MatchHere(re: CString, i: int, text: CString, j: int) returns (r: bool)
    requires 0 <= i <= |re| && 0 <= j <= |text|
    ensures r <==> Here(re, i, text, j)
    decreases |re| - i, 0
  {
    if CharAt(re, i) == '\0' {
      HereNone(re, text, j);
      return true;
    }
    if CharAt(re, i + 1) == '*' {
      HereStar(re, i, text, j);
      r := MatchStar(re[i], re, i + 2, text, j);
      return;
    }
    if re[i] == '$' && CharAt(re, i + 1) == '\0' {
      HereEnd(re, i, text, j);
      return CharAt(text, j) == '\0';
    }
    HereOne(re, i, text, j);
    if CharAt(text, j) != '\0' && (re[i] == '.' || re[i] == text[j]) {
      r := MatchHere(re, i + 1, text, j + 1);
      return;
    }
    return false;
  }

  /** matchstar: is there a match of the rest after a run of c that begins at position j. */
  method MatchStar(c: char, re: CString, i: int, text: CString, j: int) returns (r: bool)
    requires 0 <= i <= |re| && 0 <= j <= |text|
    ensures r <==> AfterRun(c, re, i, text, j)
    decreases |re| - i, 1
  {
    var m := j;
    while true
      invariant j <= m <= |text| && IsRun(c, text[j..m])
      invariant forall n :: j <= n < m ==> !Here(re, i, text, n)
      decreases |text| - m
    {
      r := MatchHere(re, i, text, m);
      if r {
        return;
      }
      if CharAt(text, m) == '\0' || !(text[m] == c || c == '.') {
        break;
      }
      assert text[j..m + 1] == text[j..m] + [text[m]];
      m := m + 1;
    }
    forall n | m < n <= |text|
      ensures !IsRun(c, text[j..n])
    {
      RunEnds(c, text, j, m, n);
    }
    return false;
  }

  lemma RunEnds(c: char, text: CString, j: int, m: int, n: int)
    requires 0 <= j <= m < n <= |text| && !Hit(c, text[m])
    ensures !IsRun(c, text[j..n])
  {
    assert text[j..n][m - j] == text[m];
  }
}
