/** Parsing a mask of integers: numbers, ranges and lists, separated by commas. */
module MaskParser {
  import opened MaskRegex
  import opened Wrappers

  const INT_MAX: int := 2147483647

  // The two exceptions of std::stoi, and the overflow of a loop counter, which leaves the behaviour undefined.
  datatype Failure = OutOfRange | InvalidArgument | CounterOverflow

  // ---- numbers ----

  predicate DigitsOrNothing(w: string) {
    forall k | 0 <= k < |w| :: IsDigit(w[k])
  }

  function Value(w: string): (n: nat)
    requires DigitsOrNothing(w)
  {
    if w == "" then 0 else 10 * Value(w[..|w| - 1]) + (w[|w| - 1] as int - '0' as int)
  }

  function Power(base: nat, n: nat): (r: nat) {
    if n == 0 then 1 else base * Power(base, n - 1)
  }

  // Digit by digit from the left, each weighted with its power of ten.
  function DigitSum(w: string): (n: int) {
    if w == "" then 0 else (w[0] as int - 48) * Power(10, |w| - 1) + DigitSum(w[1..])
  }

  lemma {:induction false} DigitSumGrows(w: string, c: char)
    ensures DigitSum(w + [c]) == 10 * DigitSum(w) + (c as int - 48)
  {
    if w == "" {
      assert (w + [c])[1..] == "";
      assert Power(10, 0) == 1;
    } else {
      DigitSumGrows(w[1..], c);
      assert (w + [c])[1..] == w[1..] + [c];
      TenTimes(w[0] as int - 48, Power(10, |w| - 1), Power(10, |w|));
    }
  }

  lemma TenTimes(a: int, p: int, q: int)
    requires q == 10 * p
    ensures a * q == 10 * (a * p)
  {}

  /** The value of a text of digits is its value in base ten. */
  lemma {:induction false} ValueIsDecimal(w: string)
    requires DigitsOrNothing(w)
    ensures Value(w) == DigitSum(w)
  {
    if w != "" {
      var last := |w| - 1;
      ValueIsDecimal(w[..last]);
      DigitSumGrows(w[..last], w[last]);
      assert w[..last] + [w[last]] == w;
    }
  }

  lemma LargestInt()
    ensures INT_MAX + 1 == Power(2, 31)
  {
    assert Power(2, 8) == 256;
    assert Power(2, 16) == 65536;
    assert Power(2, 24) == 16777216;
  }

  /** std::stoi for a text of digits. */
  function Stoi(w: string): (r: Result<int, Failure>)
    requires DigitsOrNothing(w)
    ensures r.Ok? ==> 0 <= r.value <= INT_MAX
  {
    if w == "" then Err(InvalidArgument)
    else if Value(w) > INT_MAX then Err(OutOfRange)
    else Ok(Value(w))
  }

  // ---- the three kinds of items ----

  function Interval(lo: int, hi: int): (s: seq<int>)
    requires lo <= hi + 1
    ensures |s| == hi + 1 - lo && forall k | 0 <= k < |s| :: s[k] == lo + k
  {
    seq(hi + 1 - lo, k => lo + k)
  }

  // All numbers between the two, in whatever order the two are given.
  function Between(a: int, b: int): (r: Result<seq<int>, Failure>) {
    var lo, hi := if a > b then b else a, if a > b then a else b;
    if hi >= INT_MAX then Err(CounterOverflow) else Ok(Interval(lo, hi))
  }

  function IndexOf(w: string, c: char): (n: nat)
    ensures n <= |w| && (forall k | 0 <= k < n :: w[k] != c) && (n < |w| ==> w[n] == c)
  {
    if w == "" || w[0] == c then 0 else 1 + IndexOf(w[1..], c)
  }

  // The characters behind the opening brace, with the field that is being read and the numbers read so far.
  function ListFrom(w: string, field: string, done: seq<int>): (r: Result<seq<int>, Failure>)
    requires DigitsOrNothing(field) && forall k | 0 <= k < |w| :: IsDigit(w[k]) || w[k] == ',' || w[k] == '}'
  {
    if w == "" then Ok(done)
    else if w[0] == ',' || w[0] == '}' then
      var n := Stoi(field);
      if n.Err? then Err(n.error) else ListFrom(w[1..], "", done + [n.value])
    else
      ListFrom(w[1..], field + [w[0]], done)
  }

  lemma ListLetters(w: string)
    ensures IsList(w) ==> forall k | 0 < k < |w| :: IsDigit(w[k]) || w[k] == ',' || w[k] == '}'
  {
    if IsList(w) {
      var c := w[1..|w| - 1];
      assert forall k | 0 < k < |w| - 1 :: w[k] == c[k - 1];
    }
  }

  lemma RangeLetters(w: string)
    ensures IsRange(w) ==> IsDigit(w[0]) && IndexOf(w, '-') < |w|
    ensures IsRange(w) ==> Digits(w[..IndexOf(w, '-')]) && Digits(w[IndexOf(w, '-') + 1..])
  {
    if IsRange(w) {
      var i :| 0 < i < |w| && w[i] == '-' && Digits(w[..i]) && Digits(w[i + 1..]);
      assert forall k | 0 <= k < i :: w[k] == w[..i][k];
      assert IndexOf(w, '-') == i;
    }
  }

  lemma RangeParts(w: string)
    requires IsItem(w) && IndexOf(w, '-') < |w|
    ensures Digits(w[..IndexOf(w, '-')]) && Digits(w[IndexOf(w, '-') + 1..])
  {
    ListLetters(w);
    RangeLetters(w);
  }

  lemma ListParts(w: string)
    requires IsItem(w) && w[0] == '{'
    ensures IsList(w)
    ensures forall k | 0 <= k < |w[1..]| :: IsDigit(w[1..][k]) || w[1..][k] == ',' || w[1..][k] == '}'
  {
    ListLetters(w);
    RangeLetters(w);
  }

  lemma NumberParts(w: string)
    requires IsItem(w) && w[0] != '{' && IndexOf(w, '-') == |w|
    ensures Digits(w)
  {}

  /** What an item stands for. */
  function ItemValue(w: string): (r: Result<seq<int>, Failure>)
    requires IsItem(w)
  {
    var i := IndexOf(w, '-');
    if i < |w| then
      RangeParts(w);
      var a, b := Stoi(w[..i]), Stoi(w[i + 1..]);
      if a.Err? then Err(a.error) else if b.Err? then Err(b.error) else Between(a.value, b.value)
    else if w[0] == '{' then
      ListParts(w);
      ListFrom(w[1..], "", [])
    else
      NumberParts(w);
      var n := Stoi(w);
      if n.Err? then Err(n.error) else Ok([n.value])
  }

  /** parseIntRange: nothing without a dash. */
  method ParseIntRange(str: string) returns (r: Result<Option<seq<int>>, Failure>)
    requires IsItem(str)
    ensures IndexOf(str, '-') == |str| ==> r == Ok(None)
    ensures IndexOf(str, '-') < |str| ==>
              r == if ItemValue(str).Ok? then Ok(Some(ItemValue(str).value)) else Err(ItemValue(str).error)
  {
    var separator := IndexOf(str, '-');
    if separator == |str| {
      return Ok(None);
    }
    RangeParts(str);
    var first, second := Stoi(str[..separator]), Stoi(str[separator + 1..]);
    if first.Err? {
      return Err(first.error);
    }
    if second.Err? {
      return Err(second.error);
    }
    var start, end := first.value, second.value;
    if start > end {
      start, end := end, start;
    }
    var integers: seq<int> := [];
    var i := start;
    while i <= end
      invariant start <= i <= end + 1 && end <= INT_MAX && i <= INT_MAX
      invariant integers == Interval(start, i - 1)
      decreases end - i
    {
      integers := integers + [i];
      if i == INT_MAX {
        return Err(CounterOverflow);
      }
      i := i + 1;
    }
    return Ok(Some(integers));
  }

  /** parseIntList: nothing without an opening brace. */
  method ParseIntList(str: string) returns (r: Result<Option<seq<int>>, Failure>)
    requires IsItem(str) && IndexOf(str, '-') == |str|
    ensures str[0] != '{' ==> r == Ok(None)
    ensures str[0] == '{' ==> r == if ItemValue(str).Ok? then Ok(Some(ItemValue(str).value)) else Err(ItemValue(str).error)
  {
    if str[0] != '{' {
      return Ok(None);
    }
    ListParts(str);
    var subStr, integers: seq<int> := "", [];
    var strCopy := str[1..];
    for i := 0 to |strCopy|
      invariant DigitsOrNothing(subStr)
      invariant ListFrom(strCopy, "", []) == ListFrom(strCopy[i..], subStr, integers)
    {
      assert strCopy[i..][1..] == strCopy[i + 1..];
      if strCopy[i] == ',' || strCopy[i] == '}' {
        var n := Stoi(subStr);
        if n.Err? {
          return Err(n.error);
        }
        integers := integers + [n.value];
        subStr := "";
      } else {
        subStr := subStr + [strCopy[i]];
      }
    }
    return Ok(Some(integers));
  }

  // ---- the whole text ----

  function Suffix(s: string, n: nat): (r: string)
    requires n <= |s|
    ensures |r| < |s| || n == 0 || s == ""
  {
    if n < |s| then s[n + 1..] else ""
  }

  /** The items at the start of a text, as far as they go. */
  function Items(s: string): (ws: seq<string>)
    decreases |s|
  {
    if Search(s).None? then [] else [s[..Search(s).value]] + Items(Suffix(s, Search(s).value))
  }

  lemma {:induction false} ItemsAreItems(s: string)
    ensures forall k | 0 <= k < |Items(s)| :: IsItem(Items(s)[k])
    decreases |s|
  {
    if Search(s).Some? {
      SearchFinds(s);
      hide IsItem;
      ItemsAreItems(Suffix(s, Search(s).value));
    }
  }

  // The values of the items in order; the first failure ends it.
  function ItemValues(ws: seq<string>): (r: Result<seq<seq<int>>, Failure>)
    requires forall k | 0 <= k < |ws| :: IsItem(ws[k])
    ensures r.Ok? ==> |r.value| == |ws|
  {
    if ws == [] then Ok([])
    else
      var before := ItemValues(ws[..|ws| - 1]);
      if before.Err? then before
      else
        var last := ItemValue(ws[|ws| - 1]);
        if last.Err? then Err(last.error) else Ok(before.value + [last.value])
  }

  /** What a text stands for: nothing if it does not start with an item. */
  function Meaning(s: string): (r: Result<Option<seq<seq<int>>>, Failure>) {
    ItemsAreItems(s);
    if Items(s) == [] then Ok(None)
    else
      var values := ItemValues(Items(s));
      if values.Err? then Err(values.error) else Ok(Some(values.value))
  }

  lemma ItemsFirst(s: string)
    ensures Search(s).None? ==> Items(s) == []
    ensures Search(s).Some? ==> IsItem(s[..Search(s).value])
    ensures Search(s).Some? ==> Items(s) == [s[..Search(s).value]] + Items(Suffix(s, Search(s).value))
  {
    if Search(s).Some? {
      SearchFinds(s);
    }
  }

  lemma {:induction false} ItemValuesJoin(ws: seq<string>, vs: seq<string>)
    requires forall k | 0 <= k < |ws| :: IsItem(ws[k])
    requires forall k | 0 <= k < |vs| :: IsItem(vs[k])
    ensures ItemValues(ws).Err? ==> ItemValues(ws + vs) == ItemValues(ws)
  {
    hide IsItem, ItemValue;
    if vs == [] {
      assert ws + vs == ws;
    } else {
      ItemValuesJoin(ws, vs[..|vs| - 1]);
      assert (ws + vs)[..|ws + vs| - 1] == ws + vs[..|vs| - 1];
    }
  }

  lemma ItemValuesGrow(ws: seq<string>, w: string)
    requires IsItem(w) && forall k | 0 <= k < |ws| :: IsItem(ws[k])
    ensures ItemValues(ws).Ok? && ItemValue(w).Ok? ==>
              ItemValues(ws + [w]) == Ok(ItemValues(ws).value + [ItemValue(w).value])
    ensures ItemValues(ws).Ok? && ItemValue(w).Err? ==> ItemValues(ws + [w]) == Err(ItemValue(w).error)
  {
    hide IsItem, ItemValue;
    assert (ws + [w])[..|ws|] == ws;
  }

  lemma NothingYet()
    ensures ItemValues([]) == Ok([])
  {}

  lemma MeaningOfItems(s: string, ws: seq<string>)
    requires Items(s) == ws && forall k | 0 <= k < |ws| :: IsItem(ws[k])
    ensures ws == [] ==> Meaning(s) == Ok(None)
    ensures ws != [] && ItemValues(ws).Ok? ==> Meaning(s) == Ok(Some(ItemValues(ws).value))
    ensures ws != [] && ItemValues(ws).Err? ==> Meaning(s) == Err(ItemValues(ws).error)
  {}

  // What the loop of parse does with one match.
  method ParseItem(subString: string) returns (r: Result<seq<int>, Failure>)
    requires IsItem(subString)
    ensures r == ItemValue(subString)
  {
    var intRange := ParseIntRange(subString);
    if intRange.Err? {
      return Err(intRange.error);
    }
    if intRange.value.Some? {
      return Ok(intRange.value.value);
    }
    var intList := ParseIntList(subString);
    if intList.Err? {
      return Err(intList.error);
    }
    if intList.value.Some? {
      return Ok(intList.value.value);
    }
    NumberParts(subString);
    var n := Stoi(subString);
    return if n.Err? then Err(n.error) else Ok([n.value]);
  }

  /** parse: the items are looked for one after the other, and the first that fails ends it. */
  method Parse(maskInput: string) returns (r: Result<Option<seq<seq<int>>>, Failure>)
    ensures r == Meaning(maskInput)
  {
    hide IsItem, ItemValue, Search, Items, ItemValues;
    var resultMask: seq<seq<int>> := [];
    var mask := maskInput;
    ghost var ws: seq<string> := [];
    NothingYet();
    var match0 := Search(mask);
    while match0.Some?
      invariant match0 == Search(mask)
      invariant forall k | 0 <= k < |ws| :: IsItem(ws[k])
      invariant Items(maskInput) == ws + Items(mask) && ItemValues(ws) == Ok(resultMask)
      decreases |mask|
    {
      var subString := mask[..match0.value];
      ghost var mask0 := mask;
      ItemsFirst(mask);
      mask := Suffix(mask, match0.value);
      ItemsAreItems(mask);
      ItemValuesGrow(ws, subString);
      ghost var ws0 := ws;
      ws := ws + [subString];
      assert ws0 + Items(mask0) == ws + Items(mask);
      var value := ParseItem(subString);
      if value.Err? {
        ItemValuesJoin(ws, Items(mask));
        MeaningOfItems(maskInput, ws + Items(mask));
        return Err(value.error);
      }
      resultMask := resultMask + [value.value];
      match0 := Search(mask);
    }
    ItemsFirst(mask);
    assert ws + [] == ws;
    MeaningOfItems(maskInput, ws);
    if resultMask == [] {
      return Ok(None);
    }
    return Ok(Some(resultMask));
  }
}
