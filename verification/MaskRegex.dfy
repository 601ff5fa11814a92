/** The regular expression of the mask parser as a value with a language, and the search for the
    prefix of a text that it matches. */
module MaskRegex {
  import opened Wrappers

  datatype Regex = Digit | Is(c: char) | Cat(first: Regex, second: Regex) | Or(left: Regex, right: Regex)
                 | Maybe(r: Regex) | Plus(r: Regex)

  predicate IsDigit(c: char) {
    '0' <= c <= '9'
  }

  /** The words of a regular expression. */
  ghost predicate Matches(r: Regex, w: string)
    decreases |w|, r
  {
    match r
    case Digit => |w| == 1 && IsDigit(w[0])
    case Is(c) => w == [c]
    case Cat(a, b) => exists i | 0 <= i <= |w| :: Matches(a, w[..i]) && Matches(b, w[i..])
    case Or(a, b) => Matches(a, w) || Matches(b, w)
    case Maybe(a) => w == "" || Matches(a, w)
    case Plus(a) => Matches(a, w) || exists i | 0 < i < |w| :: Matches(a, w[..i]) && Matches(r, w[i..])
  }

  const NUMBER := Plus(Digit)
  const RANGE := Cat(NUMBER, Cat(Is('-'), NUMBER))
  const UNIT := Cat(NUMBER, Maybe(Is(',')))
  const LIST := Cat(Is('{'), Cat(Plus(UNIT), Is('}')))

  // The first group: \d+ | \d+-\d+ | \{(\d+,?)+\}
  const ITEM := Or(NUMBER, Or(RANGE, LIST))

  // ---- the same words, described directly ----

  predicate Digits(w: string) {
    w != "" && forall k | 0 <= k < |w| :: IsDigit(w[k])
  }

  // Numbers with single commas between them, and maybe one behind them.
  predicate Content(w: string) {
    && w != "" && IsDigit(w[0])
    && (forall k | 0 <= k < |w| :: IsDigit(w[k]) || w[k] == ',')
    && (forall k | 0 < k < |w| :: w[k] == ',' ==> w[k - 1] != ',')
  }

  predicate IsRange(w: string) {
    exists i | 0 < i < |w| :: w[i] == '-' && Digits(w[..i]) && Digits(w[i + 1..])
  }

  predicate IsList(w: string) {
    |w| > 2 && w[0] == '{' && w[|w| - 1] == '}' && Content(w[1..|w| - 1])
  }

  predicate IsItem(w: string) {
    Digits(w) || IsRange(w) || IsList(w)
  }

  lemma {:induction false} NumberIsDigits(w: string)
    ensures Matches(NUMBER, w) <==> Digits(w)
  {
    if Matches(NUMBER, w) && !Matches(Digit, w) {
      var i :| 0 < i < |w| && Matches(Digit, w[..i]) && Matches(NUMBER, w[i..]);
      NumberIsDigits(w[i..]);
      assert w == w[..i] + w[i..];
    }
    if Digits(w) && |w| > 1 {
      NumberIsDigits(w[1..]);
      assert Matches(Digit, w[..1]) && Matches(NUMBER, w[1..]);
    }
  }

  lemma OneLetter(c: char, w: string)
    ensures Matches(Is(c), w) <==> |w| == 1 && w[0] == c
  {}

  lemma LetterFirst(c: char, r: Regex, w: string)
    ensures Matches(Cat(Is(c), r), w) <==> w != "" && w[0] == c && Matches(r, w[1..])
  {
    if i :| 0 <= i <= |w| && Matches(Is(c), w[..i]) && Matches(r, w[i..]) {
      OneLetter(c, w[..i]);
    }
    if w != "" && w[0] == c && Matches(r, w[1..]) {
      OneLetter(c, w[..1]);
    }
  }

  lemma LetterLast(r: Regex, c: char, w: string)
    ensures Matches(Cat(r, Is(c)), w) <==> w != "" && w[|w| - 1] == c && Matches(r, w[..|w| - 1])
  {
    if i :| 0 <= i <= |w| && Matches(r, w[..i]) && Matches(Is(c), w[i..]) {
      OneLetter(c, w[i..]);
    }
    if w != "" && w[|w| - 1] == c && Matches(r, w[..|w| - 1]) {
      OneLetter(c, w[|w| - 1..]);
    }
  }

  ghost predicate DashAt(w: string, i: nat) {
    0 < i < |w| && w[i] == '-' && Digits(w[..i]) && Digits(w[i + 1..])
  }

  lemma DashPart(w: string, i: nat)
    requires i <= |w|
    ensures Matches(NUMBER, w[..i]) && Matches(Cat(Is('-'), NUMBER), w[i..]) <==> DashAt(w, i)
  {
    hide Matches;
    var v := w[i..];
    NumberIsDigits(w[..i]);
    LetterFirst('-', NUMBER, v);
    if v != "" {
      assert v[1..] == w[i + 1..];
      NumberIsDigits(v[1..]);
    }
  }

  lemma RangeWords(w: string)
    ensures Matches(RANGE, w) <==>
              exists i | 0 <= i <= |w| :: Matches(NUMBER, w[..i]) && Matches(Cat(Is('-'), NUMBER), w[i..])
  {}

  lemma RangeIsRange(w: string)
    ensures Matches(RANGE, w) <==> IsRange(w)
  {
    hide Matches, Digits;
    RangeWords(w);
    if i :| 0 <= i <= |w| && Matches(NUMBER, w[..i]) && Matches(Cat(Is('-'), NUMBER), w[i..]) {
      DashPart(w, i);
    }
    if IsRange(w) {
      var i :| 0 < i < |w| && w[i] == '-' && Digits(w[..i]) && Digits(w[i + 1..]);
      DashPart(w, i);
    }
  }

  // One number of a list, with or without the comma behind it.
  predicate IsUnit(w: string) {
    Digits(w) || (w != "" && w[|w| - 1] == ',' && Digits(w[..|w| - 1]))
  }

  lemma UnitIsUnit(w: string)
    ensures Matches(UNIT, w) <==> IsUnit(w)
  {
    if Matches(UNIT, w) {
      var i :| 0 <= i <= |w| && Matches(NUMBER, w[..i]) && Matches(Maybe(Is(',')), w[i..]);
      NumberIsDigits(w[..i]);
      if w[i..] == "" {
        assert w[..i] == w;
      } else {
        assert Matches(Is(','), w[i..]);
        assert |w[i..]| == 1 && w[i] == w[i..][0];
      }
    }
    if Digits(w) {
      NumberIsDigits(w);
      assert w[..|w|] == w && w[|w|..] == "";
      assert Matches(NUMBER, w[..|w|]) && Matches(Maybe(Is(',')), w[|w|..]);
    } else if IsUnit(w) {
      var i := |w| - 1;
      NumberIsDigits(w[..i]);
      assert w[i..] == ",";
      assert Matches(Is(','), w[i..]);
      assert Matches(NUMBER, w[..i]) && Matches(Maybe(Is(',')), w[i..]);
    }
  }

  lemma UnitIsContent(u: string)
    requires IsUnit(u)
    ensures Content(u)
  {}

  lemma ContentJoins(u: string, v: string)
    requires Content(u) && Content(v)
    ensures Content(u + v)
  {}

  function DigitRun(w: string): (n: nat)
    ensures n <= |w| && (forall k | 0 <= k < n :: IsDigit(w[k])) && (n < |w| ==> !IsDigit(w[n]))
  {
    if w == "" || !IsDigit(w[0]) then 0 else 1 + DigitRun(w[1..])
  }

  // Content starts with a unit, and what is behind it is content again.
  lemma FirstUnit(w: string) returns (n: nat)
    requires Content(w)
    ensures 0 < n <= |w| && IsUnit(w[..n]) && (n < |w| ==> Content(w[n..]))
  {
    var d := DigitRun(w);
    n := if d < |w| then d + 1 else d;
    if n < |w| {
      assert w[d] == ',' && w[n] != ',';
    }
  }

  lemma {:induction false} UnitsAreContent(w: string)
    ensures Matches(Plus(UNIT), w) <==> Content(w)
  {
    hide IsUnit, Content;
    UnitIsUnit(w);
    if IsUnit(w) {
      UnitIsContent(w);
    } else {
      if Matches(Plus(UNIT), w) {
        var i :| 0 < i < |w| && Matches(UNIT, w[..i]) && Matches(Plus(UNIT), w[i..]);
        UnitIsUnit(w[..i]);
        UnitsAreContent(w[i..]);
        UnitIsContent(w[..i]);
        ContentJoins(w[..i], w[i..]);
        assert w == w[..i] + w[i..];
      }
      if Content(w) {
        var n := FirstUnit(w);
        UnitIsUnit(w[..n]);
        assert w[..|w|] == w;
        UnitsAreContent(w[n..]);
        assert Matches(UNIT, w[..n]) && Matches(Plus(UNIT), w[n..]);
      }
    }
  }

  lemma ListIsList(w: string)
    ensures Matches(LIST, w) <==> IsList(w)
  {
    hide Matches, Content;
    LetterFirst('{', Cat(Plus(UNIT), Is('}')), w);
    if w != "" {
      var v := w[1..];
      LetterLast(Plus(UNIT), '}', v);
      if v != "" {
        assert v[..|v| - 1] == w[1..|w| - 1];
        UnitsAreContent(w[1..|w| - 1]);
        NoContentInNothing();
      }
    }
  }

  lemma NoContentInNothing()
    ensures !Content("")
  {}

  /** The words of the expression are numbers, ranges and lists. */
  lemma ItemIsItem(w: string)
    ensures Matches(ITEM, w) <==> IsItem(w)
  {
    NumberIsDigits(w);
    RangeIsRange(w);
    ListIsList(w);
    hide Digits, IsRange, IsList;
  }

  // ---- searching at the start of a text ----

  // ^(item)(,|$)
  ghost predicate MatchesAt(s: string, n: nat) {
    n <= |s| && Matches(ITEM, s[..n]) && (n == |s| || s[n] == ',')
  }

  predicate EndsAt(s: string, n: nat)
    requires n <= |s|
  {
    n == |s| || s[n] == ','
  }

  function BraceRun(w: string): (n: nat)
    ensures n <= |w| && (forall k | 0 <= k < n :: w[k] != '}') && (n < |w| ==> w[n] == '}')
  {
    if w == "" || w[0] == '}' then 0 else 1 + BraceRun(w[1..])
  }

  /** regex_search: the length of the first group, if there is a match. */
  function Search(s: string): (r: Option<nat>)
    ensures r.Some? ==> 0 < r.value <= |s| && EndsAt(s, r.value)
  {
    var d := DigitRun(s);
    if d > 0 then
      if EndsAt(s, d) then Some(d)
      else if s[d] != '-' then None
      else
        var e := DigitRun(s[d + 1..]);
        if e > 0 && EndsAt(s, d + 1 + e) then Some(d + 1 + e) else None
    else if s == "" || s[0] != '{' then None
    else
      var b := BraceRun(s);
      if b < |s| && Content(s[1..b]) && EndsAt(s, b + 1) then Some(b + 1) else None
  }

  lemma DigitsSearch(s: string, n: nat)
    requires n <= |s| && Digits(s[..n]) && EndsAt(s, n)
    ensures Search(s) == Some(n)
  {
    assert forall k | 0 <= k < n :: s[k] == s[..n][k];
  }

  lemma DigitRunIs(s: string, n: nat)
    requires n <= |s| && (forall k | 0 <= k < n :: IsDigit(s[k])) && (n < |s| ==> !IsDigit(s[n]))
    ensures DigitRun(s) == n
  {}

  // A range at the start of a text, character by character.
  ghost predicate RangeAt(s: string, i: nat, n: nat) {
    && 0 < i && i + 1 < n <= |s| && s[i] == '-' && EndsAt(s, n)
    && (forall k | 0 <= k < i :: IsDigit(s[k])) && (forall k | i < k < n :: IsDigit(s[k]))
  }

  lemma RangeHasParts(s: string, n: nat)
    requires n <= |s| && IsRange(s[..n]) && EndsAt(s, n)
    ensures exists i :: RangeAt(s, i, n)
  {
    var w := s[..n];
    var i :| 0 < i < |w| && w[i] == '-' && Digits(w[..i]) && Digits(w[i + 1..]);
    assert forall k | 0 <= k < i :: s[k] == w[..i][k];
    assert forall k | i < k < n :: s[k] == w[i + 1..][k - i - 1];
    assert RangeAt(s, i, n);
  }

  lemma RangeSearch(s: string, n: nat)
    requires n <= |s| && IsRange(s[..n]) && EndsAt(s, n)
    ensures Search(s) == Some(n)
  {
    hide DigitRun, Content, IsRange;
    RangeHasParts(s, n);
    var i: nat :| RangeAt(s, i, n);
    DigitRunIs(s, i);
    DigitRunIs(s[i + 1..], n - i - 1);
  }

  lemma ListSearch(s: string, n: nat)
    requires n <= |s| && IsList(s[..n]) && EndsAt(s, n)
    ensures Search(s) == Some(n)
  {
    var w := s[..n];
    var c := w[1..n - 1];
    assert s[0] == w[0] == '{' && s[n - 1] == w[n - 1] == '}';
    forall k | 0 <= k < n - 1
      ensures s[k] != '}'
    {
      assert k > 0 ==> s[k] == c[k - 1];
    }
    assert BraceRun(s) == n - 1;
    assert s[1..n - 1] == c;
  }

  lemma SearchFinds(s: string)
    requires Search(s).Some?
    ensures IsItem(s[..Search(s).value])
  {
    var n := Search(s).value;
    var w := s[..n];
    var d := DigitRun(s);
    if d > 0 && EndsAt(s, d) {
      assert Digits(w);
    } else if d > 0 {
      assert w[..d] == s[..d] && w[d + 1..] == s[d + 1..][..n - d - 1];
      assert Digits(w[..d]) && Digits(w[d + 1..]) && w[d] == '-';
    } else {
      assert w[1..n - 1] == s[1..n - 1];
    }
  }

  /** The search finds exactly the matches, and there is at most one: no backtracking order matters. */
  lemma SearchIffMatches(s: string, n: nat)
    ensures Search(s) == Some(n) <==> MatchesAt(s, n)
  {
    if n <= |s| {
      ItemIsItem(s[..n]);
      hide Search, IsRange, IsList, Digits, Matches;
      if Search(s) == Some(n) {
        SearchFinds(s);
      }
      if MatchesAt(s, n) {
        if Digits(s[..n]) {
          DigitsSearch(s, n);
        } else if IsRange(s[..n]) {
          RangeSearch(s, n);
        } else {
          ListSearch(s, n);
        }
      }
    }
  }
}
