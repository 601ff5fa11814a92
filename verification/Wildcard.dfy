/** The glob matcher of the test framework, against the recursive meaning of '*' and '?'. */
module Wildcard {

  function Lower(c: char): (r: char) {
    if 'A' <= c <= 'Z' then (c as int + 32) as char else c
  }

  // One pattern character other than '*' accepts one character of the text.
  predicate Accepts(p: char, c: char, caseSensitive: bool) {
    p == '?' || (if caseSensitive then p == c else Lower(p) == Lower(c))
  }

  /** '*' stands for any text, '?' for any character, every other character for itself. */
  ghost predicate Matches(str: string, wild: string, cs: bool)
    decreases |wild|, |str|
  {
    if wild == [] then str == []
    else if wild[0] == '*' then Matches(str, wild[1..], cs) || (str != [] && Matches(str[1..], wild, cs))
    else str != [] && Accepts(wild[0], str[0], cs) && Matches(str[1..], wild[1..], cs)
  }

  // A match that starts at p or later.
  ghost predicate MatchesLater(str: string, p: nat, wild: string, cs: bool) {
    exists q :: p <= q <= |str| && Matches(str[q..], wild, cs)
  }

  /** A star swallows some beginning of the text. */
  lemma {:induction false} StarMeaning(str: string, p: nat, wild: string, cs: bool)
    requires p <= |str| && wild != [] && wild[0] == '*'
    ensures Matches(str[p..], wild, cs) <==> MatchesLater(str, p, wild[1..], cs)
    decreases |str| - p
  {
    if p < |str| {
      assert str[p..][1..] == str[p + 1..];
      StarMeaning(str, p + 1, wild, cs);
    }
    if Matches(str[p..], wild[1..], cs) {
      assert MatchesLater(str, p, wild[1..], cs);
    }
  }

  ghost predicate StarFree(wild: string) {
    forall i | 0 <= i < |wild| :: wild[i] != '*'
  }

  const UPPER := "ABCDEFGHIJKLMNOPQRSTUVWXYZ"
  const LOWER := "abcdefghijklmnopqrstuvwxyz"

  // Both cases of one letter.
  ghost predicate OneLetter(a: char, b: char) {
    exists k :: 0 <= k < 26 && ((a == UPPER[k] && b == LOWER[k]) || (a == LOWER[k] && b == UPPER[k]))
  }

  lemma AlphabetSize()
    ensures |UPPER| == |LOWER| == 26
  {}

  lemma Alphabet(k: nat)
    requires k < 26
    ensures UPPER[k] as int == 'A' as int + k && LOWER[k] as int == 'a' as int + k
  {}

  lemma OneLetterIs(a: char, b: char)
    ensures OneLetter(a, b) <==>
              ('A' <= a <= 'Z' && b as int == a as int + 32) || ('A' <= b <= 'Z' && a as int == b as int + 32)
  {
    hide UPPER, LOWER;
    AlphabetSize();
    forall k: nat | k < 26
      ensures UPPER[k] as int == 'A' as int + k && LOWER[k] as int == 'a' as int + k
    {
      Alphabet(k);
    }
    if 'A' <= a <= 'Z' && b as int == a as int + 32 {
      assert a == UPPER[a as int - 'A' as int];
    }
    if 'A' <= b <= 'Z' && a as int == b as int + 32 {
      assert b == UPPER[b as int - 'A' as int];
    }
  }

  lemma AcceptsIs(p: char, c: char, cs: bool)
    ensures Accepts(p, c, cs) <==> p == '?' || p == c || (!cs && OneLetter(p, c))
  {
    hide OneLetter;
    OneLetterIs(p, c);
  }

  // Character by character: a question mark, the same character, or the other case of the same letter.
  ghost predicate Alike(str: string, wild: string, cs: bool) {
    && |str| == |wild|
    && forall k | 0 <= k < |wild| :: wild[k] == '?' || wild[k] == str[k] || (!cs && OneLetter(wild[k], str[k]))
  }

  /** What a pattern without a star matches. */
  lemma {:induction false} StarFreeMatches(str: string, wild: string, cs: bool)
    requires StarFree(wild)
    ensures Matches(str, wild, cs) <==> Alike(str, wild, cs)
  {
    hide Accepts, OneLetter;
    if wild != [] && str != [] {
      AcceptsIs(wild[0], str[0], cs);
      StarFreeMatches(str[1..], wild[1..], cs);
      assert str == [str[0]] + str[1..] && wild == [wild[0]] + wild[1..];
    }
  }

  /** A piece of the pattern without a star uses up as many characters as it has. */
  lemma {:induction false} PieceUsesItsLength(str: string, p: nat, wild: string, m: nat, j: nat, cs: bool)
    requires p <= |str| && m <= j <= |wild| && StarFree(wild[m..j])
    requires Matches(str[p..], wild[m..], cs)
    ensures p + (j - m) <= |str| && Matches(str[p + (j - m)..], wild[j..], cs)
    decreases j - m
  {
    if m < j {
      assert wild[m] == wild[m..j][0];
      assert wild[m..][1..] == wild[m + 1..];
      assert str[p..][1..] == str[p + 1..];
      assert wild[m..j][1..] == wild[m + 1..j];
      PieceUsesItsLength(str, p + 1, wild, m + 1, j, cs);
    }
  }

  /** Once a later star is reached, starting an earlier piece over cannot win anything: whatever it
      would match, the later star matches too. */
  lemma LaterStarSuffices(str: string, c: nat, i: nat, wild: string, m: nat, j: nat, cs: bool)
    requires m <= j < |wild| && wild[j] == '*' && StarFree(wild[m..j])
    requires c + (j - m) >= i && i <= |str|
    requires MatchesLater(str, c, wild[m..], cs)
    ensures Matches(str[i..], wild[j..], cs)
  {
    var q :| c <= q <= |str| && Matches(str[q..], wild[m..], cs);
    PieceUsesItsLength(str, q, wild, m, j, cs);
    StarMeaning(str, q + (j - m), wild[j..], cs);
    StarMeaning(str, i, wild[j..], cs);
  }

  // No match can start later than where the text is too short for the piece.
  lemma TooLate(str: string, c: nat, wild: string, m: nat, j: nat, cs: bool)
    requires m <= j <= |wild| && StarFree(wild[m..j]) && c + (j - m) > |str|
    ensures !MatchesLater(str, c, wild[m..], cs)
  {
    if MatchesLater(str, c, wild[m..], cs) {
      var q :| c <= q <= |str| && Matches(str[q..], wild[m..], cs);
      PieceUsesItsLength(str, q, wild, m, j, cs);
    }
  }

  lemma LaterUnfolds(str: string, c: nat, wild: string, cs: bool)
    requires c <= |str|
    ensures MatchesLater(str, c, wild, cs) <==> Matches(str[c..], wild, cs) || MatchesLater(str, c + 1, wild, cs)
  {}

  /** What is known inside the second loop: the piece of the pattern from the last star up to j has
      been matched from c - 1 on, and the whole text matches exactly when either this attempt goes
      through or a later one does. */
  ghost predicate Trying(str: string, wild: string, cs: bool, i: nat, j: nat, c: nat, m: nat) {
    && i <= |str| && 1 <= m <= j <= |wild| && i + 1 == c + (j - m)
    && StarFree(wild[m..j])
    && (Matches(str, wild, cs) <==> Matches(str[i..], wild[j..], cs) || MatchesLater(str, c, wild[m..], cs))
  }

  // At a star, with nothing left to win by going back further.
  ghost predicate AtStar(str: string, wild: string, cs: bool, i: nat, j: nat) {
    && i <= |str| && j < |wild| && wild[j] == '*'
    && (Matches(str, wild, cs) <==> Matches(str[i..], wild[j..], cs))
  }

  lemma StarReached(str: string, wild: string, cs: bool, i: nat, j: nat)
    requires i <= |str| && j < |wild| && wild[j] == '*'
    requires Matches(str, wild, cs) <==> Matches(str[i..], wild[j..], cs)
    ensures AtStar(str, wild, cs, i, j)
  {}

  lemma TryingReachesStar(str: string, wild: string, cs: bool, i: nat, j: nat, c: nat, m: nat)
    requires Trying(str, wild, cs, i, j, c, m) && j < |wild| && wild[j] == '*'
    ensures AtStar(str, wild, cs, i, j)
  {
    if MatchesLater(str, c, wild[m..], cs) {
      LaterStarSuffices(str, c, i, wild, m, j, cs);
    }
  }

  lemma StarStartsPiece(str: string, wild: string, cs: bool, i: nat, j: nat)
    requires AtStar(str, wild, cs, i, j)
    ensures Trying(str, wild, cs, i, j + 1, i + 1, j + 1)
  {
    StarMeaning(str, i, wild[j..], cs);
    assert wild[j..][1..] == wild[j + 1..];
    LaterUnfolds(str, i, wild[j + 1..], cs);
  }

  lemma LastStarMatches(str: string, wild: string, cs: bool, i: nat, j: nat)
    requires AtStar(str, wild, cs, i, j) && j + 1 == |wild|
    ensures Matches(str, wild, cs)
  {
    StarMeaning(str, i, wild[j..], cs);
    assert Matches(str[|str|..], wild[j..][1..], cs);
  }

  lemma CharacterAccepted(str: string, wild: string, cs: bool, i: nat, j: nat, c: nat, m: nat)
    requires Trying(str, wild, cs, i, j, c, m) && i < |str|
    requires j < |wild| && wild[j] != '*' && Accepts(wild[j], str[i], cs)
    ensures Trying(str, wild, cs, i + 1, j + 1, c, m)
  {
    assert str[i..][1..] == str[i + 1..] && wild[j..][1..] == wild[j + 1..];
    assert wild[m..j + 1] == wild[m..j] + [wild[j]];
  }

  lemma AttemptFails(str: string, wild: string, cs: bool, i: nat, j: nat, c: nat, m: nat)
    requires Trying(str, wild, cs, i, j, c, m) && i < |str|
    requires j == |wild| || (wild[j] != '*' && !Accepts(wild[j], str[i], cs))
    ensures Trying(str, wild, cs, c, m, c + 1, m)
  {
    LaterUnfolds(str, c, wild[m..], cs);
  }

  lemma TextUsedUp(str: string, wild: string, cs: bool, i: nat, j: nat, c: nat, m: nat)
    requires Trying(str, wild, cs, i, j, c, m) && i == |str|
    ensures Matches(str, wild, cs) <==> Matches(str[i..], wild[j..], cs)
  {
    TooLate(str, c, wild, m, j, cs);
  }

  lemma FirstCharacters(str: string, wild: string, cs: bool, i: nat, j: nat)
    requires i < |str| && j <= |wild| && (j < |wild| ==> wild[j] != '*')
    ensures Matches(str[i..], wild[j..], cs)
            <==> j < |wild| && Accepts(wild[j], str[i], cs) && Matches(str[i + 1..], wild[j + 1..], cs)
  {
    if j < |wild| {
      assert str[i..][1..] == str[i + 1..] && wild[j..][1..] == wild[j + 1..];
    }
  }

  lemma RestOfPattern(wild: string, cs: bool, j: nat)
    requires j <= |wild|
    ensures j == |wild| ==> Matches([], wild[j..], cs)
    ensures j < |wild| ==> (Matches([], wild[j..], cs) <==> wild[j] == '*' && Matches([], wild[j + 1..], cs))
  {
    if j < |wild| {
      assert wild[j..][1..] == wild[j + 1..];
    }
  }

  /** wildcmp: returns 1 exactly for a match, although it only ever goes back to the last star. The
      pointers of the source are positions here: str, wild, cp and mp are i, j, c and m. */
  method WildCmp(str: string, wild: string, caseSensitive: bool) returns (r: int)
    ensures r == 1 || r == 0
    ensures r == 1 <==> Matches(str, wild, caseSensitive)
  {
    hide Matches, Accepts, Trying;
    var i, j, c, m := 0, 0, 0, 0;
    assert str[i..] == str && wild[j..] == wild;
    while i < |str| && !(j < |wild| && wild[j] == '*')
      invariant i <= |str| && j <= |wild|
      invariant Matches(str, wild, caseSensitive) == Matches(str[i..], wild[j..], caseSensitive)
    {
      FirstCharacters(str, wild, caseSensitive, i, j);
      if j == |wild| || !Accepts(wild[j], str[i], caseSensitive) {
        return 0;
      }
      i, j := i + 1, j + 1;
    }

    if i < |str| {
      StarReached(str, wild, caseSensitive, i, j);
    }
    ghost var started := false;
    while i < |str|
      invariant i <= |str| && m <= j <= |wild| && c <= i + 1
      invariant !started ==> m == 0 && (i < |str| ==> AtStar(str, wild, caseSensitive, i, j))
                             && (Matches(str, wild, caseSensitive) <==> Matches(str[i..], wild[j..], caseSensitive))
      invariant started ==> Trying(str, wild, caseSensitive, i, j, c, m)
      decreases |wild| - m, |str| + 1 - c, |str| - i
    {
      if j < |wild| && wild[j] == '*' {
        if started {
          TryingReachesStar(str, wild, caseSensitive, i, j, c, m);
        }
        j := j + 1;
        if j == |wild| {
          LastStarMatches(str, wild, caseSensitive, i, j - 1);
          return 1;
        }
        StarStartsPiece(str, wild, caseSensitive, i, j - 1);
        m := j;
        c := i + 1;
        started := true;
      } else if j < |wild| && Accepts(wild[j], str[i], caseSensitive) {
        CharacterAccepted(str, wild, caseSensitive, i, j, c, m);
        i, j := i + 1, j + 1;
      } else {
        AttemptFails(str, wild, caseSensitive, i, j, c, m);
        j := m;
        i := c;
        c := c + 1;
      }
    }

    if started {
      TextUsedUp(str, wild, caseSensitive, i, j, c, m);
    }
    assert str[i..] == [];
    while j < |wild| && wild[j] == '*'
      invariant j <= |wild|
      invariant Matches(str, wild, caseSensitive) <==> Matches([], wild[j..], caseSensitive)
    {
      RestOfPattern(wild, caseSensitive, j);
      j := j + 1;
    }
    RestOfPattern(wild, caseSensitive, j);
    return if j == |wild| then 1 else 0;
  }
}
