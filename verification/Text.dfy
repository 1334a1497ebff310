/** Where one text occurs in another, and how many parentheses open in a stretch of it. */
module Text {

  predicate Occurs(input: string, i: int, s: string) {
    0 <= i && i + |s| <= |input| && input[i..i + |s|] == s
  }

  lemma OccursSplit(input: string, i: int, s: string, t: string, j: int, st: string)
    requires st == s + t && Occurs(input, i, st) && j == i + |s|
    ensures Occurs(input, i, s) && Occurs(input, j, t) && i + |st| == j + |t|
  {
    assert input[i..i + |st|][..|s|] == s;
    assert input[i..i + |st|][|s|..] == t;
  }

  lemma OccursAt(input: string, i: int, s: string, k: int)
    requires Occurs(input, i, s) && 0 <= k < |s|
    ensures input[i + k] == s[k]
  {
    assert input[i..i + |s|][k] == input[i + k];
  }

  /** The opening parentheses in a stretch of text. */
  function Opens(input: string, i: int, j: int): (n: nat)
    requires 0 <= i <= j <= |input|
    decreases j - i
  {
    if i == j then 0 else (if input[i] == '(' then 1 else 0) + Opens(input, i + 1, j)
  }

  lemma {:induction false} OpensSplit(input: string, i: int, m: int, j: int)
    requires 0 <= i <= m <= j <= |input|
    ensures Opens(input, i, j) == Opens(input, i, m) + Opens(input, m, j)
    decreases m - i
  {
    if i < m {
      OpensSplit(input, i + 1, m, j);
    }
  }
}
