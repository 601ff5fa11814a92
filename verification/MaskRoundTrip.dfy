/** What is printed is parsed back, and only the items at the start of a text matter. */
module MaskRoundTrip {
  import opened MaskAcceptance
  import opened MaskRegex
  import opened Wrappers
  import opened MaskParser

  datatype Item = Number(n: nat) | Range(a: nat, b: nat) | List(ns: seq<nat>)

  function DigitOf(n: nat): (c: char)
    requires n < 10
    ensures IsDigit(c) && c as int - '0' as int == n
  {
    '0' + n as char
  }

  function Decimal(n: nat): (w: string)
    ensures Digits(w)
  {
    if n < 10 then [DigitOf(n)] else Decimal(n / 10) + [DigitOf(n % 10)]
  }

  lemma {:induction false} DecimalIsValue(n: nat)
    ensures Value(Decimal(n)) == n
  {
    if n >= 10 {
      DecimalIsValue(n / 10);
      assert Decimal(n)[..|Decimal(n)| - 1] == Decimal(n / 10);
    } else {
      assert Value(Decimal(n)[..0]) == 0;
    }
  }

  function Joined(ns: seq<nat>): (w: string)
    requires ns != []
  {
    if |ns| == 1 then Decimal(ns[0]) else Decimal(ns[0]) + "," + Joined(ns[1..])
  }

  predicate Printable(i: Item) {
    i.List? ==> i.ns != []
  }

  function Print(i: Item): (w: string)
    requires Printable(i)
  {
    match i
    case Number(n) => Decimal(n)
    case Range(a, b) => Decimal(a) + "-" + Decimal(b)
    case List(ns) => "{" + Joined(ns) + "}"
  }

  predicate AllPrintable(items: seq<Item>) {
    forall k | 0 <= k < |items| :: Printable(items[k])
  }

  function PrintAll(items: seq<Item>): (w: string)
    requires items != [] && AllPrintable(items)
  {
    if |items| == 1 then Print(items[0]) else Print(items[0]) + "," + PrintAll(items[1..])
  }

  // ---- what the items stand for ----

  predicate NumbersFit(ns: seq<nat>) {
    forall k | 0 <= k < |ns| :: ns[k] <= INT_MAX
  }

  function Ints(ns: seq<nat>): (s: seq<int>)
    ensures |s| == |ns| && forall k | 0 <= k < |ns| :: s[k] == ns[k]
  {
    seq(|ns|, k requires 0 <= k < |ns| => ns[k])
  }

  /** A range is the full ascending interval, in whatever order its ends are given; its upper end must
      leave room for the loop counter. */
  function Denoted(i: Item): (r: Result<seq<int>, Failure>) {
    match i
    case Number(n) => if n > INT_MAX then Err(OutOfRange) else Ok([n])
    case Range(a, b) =>
      if a > INT_MAX || b > INT_MAX then Err(OutOfRange)
      else if a == INT_MAX || b == INT_MAX then Err(CounterOverflow)
      else if a <= b then Ok(Interval(a, b))
      else Ok(Interval(b, a))
    case List(ns) => if NumbersFit(ns) then Ok(Ints(ns)) else Err(OutOfRange)
  }

  /** The first failure in order, or all lists. */
  function DenotedAll(items: seq<Item>): (r: Result<seq<seq<int>>, Failure>)
    ensures r.Ok? ==> |r.value| == |items|
  {
    if items == [] then Ok([])
    else
      var before, last := DenotedAll(items[..|items| - 1]), Denoted(items[|items| - 1]);
      if before.Err? then before
      else if last.Err? then Err(last.error)
      else Ok(before.value + [last.value])
  }

  // ---- single items ----

  lemma StoiOfDecimal(n: nat)
    ensures Stoi(Decimal(n)) == if n > INT_MAX then Err(OutOfRange) else Ok(n)
  {
    DecimalIsValue(n);
  }

  lemma NoDashInDigits(w: string)
    requires Digits(w)
    ensures IndexOf(w, '-') == |w| && w[0] != '{'
  {}

  lemma NumberPrints(n: nat)
    ensures IsItem(Decimal(n)) && ItemValue(Decimal(n)) == Denoted(Number(n))
  {
    NoDashInDigits(Decimal(n));
    StoiOfDecimal(n);
    hide Stoi, Value, Decimal;
  }

  lemma RangeSplits(u: string, v: string)
    requires Digits(u) && Digits(v)
    ensures var w := u + "-" + v; IsRange(w) && IndexOf(w, '-') == |u| && w[..|u|] == u && w[|u| + 1..] == v
  {
    var w := u + "-" + v;
    assert w[..|u|] == u && w[|u| + 1..] == v && w[|u|] == '-';
    assert forall k | 0 <= k < |u| :: w[k] == u[k];
  }

  lemma RangePrinted(u: string, v: string)
    requires Digits(u) && Digits(v)
    ensures var w := u + "-" + v; IsItem(w) && IndexOf(w, '-') < |w| && Numbers(w) == [u, v]
  {
    RangeSplits(u, v);
    hide IsRange, IsList, IndexOf, Digits;
  }

  lemma RangeDenotes(a: nat, b: nat)
    ensures Print(Range(a, b)) == Decimal(a) + "-" + Decimal(b)
    ensures Denoted(Range(a, b)) == if a > INT_MAX || b > INT_MAX then Err(OutOfRange) else Between(a, b)
  {
    hide Decimal;
  }

  lemma RangePrints(a: nat, b: nat)
    ensures IsItem(Print(Range(a, b))) && ItemValue(Print(Range(a, b))) == Denoted(Range(a, b))
  {
    hide Print, Denoted, Decimal, Value, Numbers, IsItem, IndexOf, ItemValue, Between;
    RangeDenotes(a, b);
    RangePrinted(Decimal(a), Decimal(b));
    DecimalIsValue(a);
    DecimalIsValue(b);
    RangeValue(Print(Range(a, b)));
  }

  lemma {:induction false} JoinedIsContent(ns: seq<nat>)
    requires ns != []
    ensures Content(Joined(ns))
  {
    UnitIsContent(Decimal(ns[0]));
    if |ns| > 1 {
      JoinedIsContent(ns[1..]);
      UnitIsContent(Decimal(ns[0]) + ",");
      ContentJoins(Decimal(ns[0]) + ",", Joined(ns[1..]));
    }
  }

  lemma {:induction false} OneField(d: string)
    requires DigitsOrNothing(d)
    ensures Fields(d) == [d]
  {
    if d != "" {
      OneField(d[1..]);
      assert [d[0]] + d[1..] == d;
    }
  }

  lemma {:induction false} FieldComes(d: string, c: string)
    requires DigitsOrNothing(d)
    ensures Fields(d + "," + c) == [d] + Fields(c)
  {
    var t := d + "," + c;
    if d == "" {
      assert t == [','] + c && t[1..] == c;
    } else {
      FieldComes(d[1..], c);
      assert t[1..] == d[1..] + "," + c && [d[0]] + d[1..] == d;
    }
  }

  function Decimals(ns: seq<nat>): (fs: seq<string>)
    ensures |fs| == |ns| && forall k | 0 <= k < |ns| :: fs[k] == Decimal(ns[k])
  {
    seq(|ns|, k requires 0 <= k < |ns| => Decimal(ns[k]))
  }

  /** The fields of a printed list are its numbers. */
  lemma {:induction false} FieldsOfJoined(ns: seq<nat>)
    requires ns != []
    ensures Fields(Joined(ns)) == Decimals(ns)
  {
    hide Fields, Decimal;
    if |ns| == 1 {
      OneField(Decimal(ns[0]));
      assert Decimals(ns) == [Decimal(ns[0])];
    } else {
      FieldsOfJoined(ns[1..]);
      FieldComes(Decimal(ns[0]), Joined(ns[1..]));
      assert Decimals(ns) == [Decimal(ns[0])] + Decimals(ns[1..]);
    }
  }

  lemma DecimalsValues(ns: seq<nat>)
    ensures AllDigits(Decimals(ns)) && FieldValues(Decimals(ns)) == Ints(ns)
    ensures TooLarge(Decimals(ns)) <==> !NumbersFit(ns)
  {
    forall k | 0 <= k < |ns|
      ensures DigitsOrNothing(Decimals(ns)[k]) && Value(Decimals(ns)[k]) == ns[k]
    {
      DecimalIsValue(ns[k]);
    }
    hide Value, Decimal;
  }

  lemma BracedIsList(content: string)
    requires Content(content)
    ensures var w := "{" + content + "}"; IsList(w) && w[0] == '{' && IndexOf(w, '-') == |w| && w[1..] == content + "}"
  {
    var w := "{" + content + "}";
    assert w[1..|w| - 1] == content;
    ListLetters(w);
  }

  lemma ContentEndsWithDigit(ns: seq<nat>)
    requires ns != []
    ensures var c := Joined(ns); c != "" && IsDigit(c[|c| - 1])
  {
    if |ns| > 1 {
      ContentEndsWithDigit(ns[1..]);
    }
  }

  lemma BracedNumbers(c: string)
    requires Content(c)
    ensures var w := "{" + c + "}";
            IsList(w) && Numbers(w) == Fields(c) && (HasTrailingComma(w) <==> c[|c| - 1] == ',')
  {
    BracedIsList(c);
    var w := "{" + c + "}";
    assert w[1..|w| - 1] == c && w[|w| - 2] == c[|c| - 1];
    hide Content, Fields, IndexOf;
  }

  lemma ListPrints(ns: seq<nat>)
    requires ns != []
    ensures IsItem(Print(List(ns))) && ItemValue(Print(List(ns))) == Denoted(List(ns))
  {
    JoinedIsContent(ns);
    ContentEndsWithDigit(ns);
    BracedNumbers(Joined(ns));
    FieldsOfJoined(ns);
    DecimalsValues(ns);
    ListOutcome("{" + Joined(ns) + "}");
    hide Joined, IsList, Content, Numbers, HasTrailingComma, ItemValue, TooLarge, FieldValues, Fields, Decimals, NumbersFit, Ints;
  }

  /** Every printed item is an item, and stands for what was printed. */
  lemma ItemRoundTrip(i: Item)
    requires Printable(i)
    ensures IsItem(Print(i)) && ItemValue(Print(i)) == Denoted(i)
  {
    match i
    case Number(n) => NumberPrints(n);
    case Range(a, b) => RangePrints(a, b);
    case List(ns) => ListPrints(ns);
  }

  // ---- whole texts ----

  lemma SearchAt(s: string, n: nat)
    requires n <= |s| && IsItem(s[..n]) && EndsAt(s, n)
    ensures Search(s) == Some(n)
  {
    ItemIsItem(s[..n]);
    hide Search, IsItem, Matches;
    SearchIffMatches(s, n);
  }

  function Printed(items: seq<Item>): (ws: seq<string>)
    requires AllPrintable(items)
    ensures |ws| == |items| && forall k | 0 <= k < |items| :: ws[k] == Print(items[k])
  {
    seq(|items|, k requires 0 <= k < |items| => Print(items[k]))
  }

  lemma PrintedStart(items: seq<Item>)
    requires items != [] && AllPrintable(items)
    ensures var s, w := PrintAll(items), Print(items[0]);
            && |w| <= |s| && s[..|w|] == w && EndsAt(s, |w|)
            && (|items| == 1 ==> Suffix(s, |w|) == "")
            && (|items| > 1 ==> Suffix(s, |w|) == PrintAll(items[1..]))
  {
    hide Print;
    var s, w := PrintAll(items), Print(items[0]);
    if |items| > 1 {
      assert s == w + "," + PrintAll(items[1..]);
      assert s[|w| + 1..] == PrintAll(items[1..]);
    }
  }

  lemma PrintedRest(items: seq<Item>)
    requires items != [] && AllPrintable(items)
    ensures AllPrintable(items[1..])
    ensures Printed(items) == [Print(items[0])] + Printed(items[1..])
  {
    hide Print, Printable;
  }

  lemma {:induction false} ItemsOfPrinted(items: seq<Item>)
    requires items != [] && AllPrintable(items)
    ensures Items(PrintAll(items)) == Printed(items)
  {
    PrintedRest(items);
    assert Printable(items[0]);
    hide *;
    var s, w := PrintAll(items), Print(items[0]);
    ItemRoundTrip(items[0]);
    PrintedStart(items);
    SearchAt(s, |w|);
    ItemsFirst(s);
    if |items| == 1 {
      NoItems();
    } else {
      ItemsOfPrinted(items[1..]);
    }
  }

  lemma NoItems()
    ensures Items("") == []
  {}

  lemma {:induction false} ValuesOfPrinted(items: seq<Item>)
    requires AllPrintable(items)
    ensures forall k | 0 <= k < |items| :: IsItem(Printed(items)[k])
    ensures ItemValues(Printed(items)) == DenotedAll(items)
  {
    hide Print, IsItem, ItemValue, Denoted;
    forall k | 0 <= k < |items|
      ensures IsItem(Print(items[k])) && ItemValue(Print(items[k])) == Denoted(items[k])
    {
      ItemRoundTrip(items[k]);
    }
    if items != [] {
      var last := |items| - 1;
      ValuesOfPrinted(items[..last]);
      assert Printed(items)[..last] == Printed(items[..last]);
    }
  }

  /** Printing and parsing: the lists the items stand for, or the first failure among them. */
  lemma RoundTrip(items: seq<Item>)
    requires items != [] && AllPrintable(items)
    ensures DenotedAll(items).Ok? ==> Meaning(PrintAll(items)) == Ok(Some(DenotedAll(items).value))
    ensures DenotedAll(items).Err? ==> Meaning(PrintAll(items)) == Err(DenotedAll(items).error)
  {
    hide PrintAll, Items, IsItem, ItemValues, DenotedAll;
    ItemsOfPrinted(items);
    ValuesOfPrinted(items);
    MeaningOfItems(PrintAll(items), Printed(items));
  }

  // No number is too large, and no range ends at the largest.
  predicate InRange(i: Item) {
    match i
    case Number(n) => n <= INT_MAX
    case Range(a, b) => a < INT_MAX && b < INT_MAX
    case List(ns) => NumbersFit(ns)
  }

  lemma PrintedFits(i: Item)
    requires Printable(i)
    ensures IsItem(Print(i)) && (Fits(Print(i)) <==> InRange(i))
  {
    ItemRoundTrip(i);
    ItemOutcome(Print(i));
    hide Print, IsItem, Fits, ItemValue;
  }

  /** Parsing what was printed succeeds exactly if all items are in range. */
  lemma SucceedsIffInRange(items: seq<Item>)
    requires items != [] && AllPrintable(items)
    ensures Meaning(PrintAll(items)).Ok? <==> forall k | 0 <= k < |items| :: InRange(items[k])
  {
    SucceedsIffItemsFit(PrintAll(items));
    ItemsOfPrinted(items);
    forall k | 0 <= k < |items|
      ensures IsItem(Print(items[k])) && (Fits(Print(items[k])) <==> InRange(items[k]))
    {
      PrintedFits(items[k]);
    }
    hide Print, PrintAll, IsItem, Fits, InRange, Meaning, Items;
  }

  // ---- only the items at the start matter ----

  // The characters up to and including the last item, with its comma.
  function Consumed(s: string): (n: nat)
    ensures n <= |s|
    decreases |s|
  {
    if Search(s).None? then 0
    else
      var n := Search(s).value;
      if n < |s| then n + 1 + Consumed(s[n + 1..]) else n
  }

  lemma SearchIsLocal(s: string, t: string, n: nat)
    requires Search(s) == Some(n) && n < |s|
    ensures s[n] == ',' && Search(s[..n + 1] + t) == Some(n)
  {
    var u := s[..n + 1] + t;
    SearchFinds(s);
    assert u[..n] == s[..n] && u[n] == s[n];
    SearchAt(u, n);
  }

  // The rest of a text is replaced.
  function Replaced(s: string, t: string): (u: string) {
    s[..Consumed(s)] + t
  }

  // t may stand behind what is consumed of s.
  predicate MayFollow(s: string, t: string) {
    Search(t).None? && (t == "" || Consumed(s) == 0 || s[Consumed(s) - 1] == ',')
  }

  lemma ConsumedSplits(s: string, n: nat)
    requires Search(s) == Some(n) && n < |s|
    ensures Consumed(s) == n + 1 + Consumed(s[n + 1..])
  {
    hide Search;
  }

  lemma ReplacedSplits(s: string, t: string, m: nat, c: nat)
    requires m + c <= |s|
    ensures s[..m + c] + t == s[..m] + (s[m..][..c] + t)
  {}

  lemma ConsumedMore(s: string, t: string, n: nat)
    requires Search(s) == Some(n) && n < |s| && MayFollow(s, t)
    ensures Replaced(s, t) == s[..n + 1] + Replaced(s[n + 1..], t)
  {
    hide Search, Consumed;
    ConsumedSplits(s, n);
    ReplacedSplits(s, t, n + 1, Consumed(s[n + 1..]));
  }

  lemma StillMayFollow(s: string, t: string, n: nat)
    requires Search(s) == Some(n) && n < |s| && MayFollow(s, t)
    ensures MayFollow(s[n + 1..], t)
  {
    hide Search, Consumed;
    ConsumedSplits(s, n);
  }

  lemma ReplacedStart(s: string, t: string, n: nat)
    requires n < |s|
    ensures var u := s[..n + 1] + t; u[..n] == s[..n] && Suffix(u, n) == t && Suffix(s, n) == s[n + 1..]
  {}

  lemma NothingConsumed(s: string, t: string)
    requires Search(s).None?
    ensures Replaced(s, t) == t
  {
    assert s[..0] + t == t;
  }

  lemma AllConsumed(s: string, t: string)
    requires Search(s) == Some(|s|) && MayFollow(s, t)
    ensures Replaced(s, t) == s
  {
    EndIsNoComma(s);
    hide Search;
    assert s[..|s|] + "" == s;
  }

  /** Whatever is put in the place of the rest, the items stay, as long as the new rest starts no item. */
  lemma {:induction false} RestIsIgnored(s: string, t: string)
    requires MayFollow(s, t)
    ensures Items(Replaced(s, t)) == Items(s)
    decreases |s|
  {
    NoSearch(s, t);
    hide *;
    ItemsFirst(s);
    if Search(s).None? {
      NothingConsumed(s, t);
      ItemsFirst(t);
    } else {
      var n := Search(s).value;
      if n == |s| {
        AllConsumed(s, t);
      } else {
        var v := s[n + 1..];
        ConsumedMore(s, t, n);
        StillMayFollow(s, t, n);
        SearchIsLocal(s, Replaced(v, t), n);
        ReplacedStart(s, Replaced(v, t), n);
        ItemsFirst(Replaced(s, t));
        RestIsIgnored(v, t);
      }
    }
  }

  lemma NoSearch(s: string, t: string)
    requires MayFollow(s, t)
    ensures Search(t).None?
  {}

  // A text that is one item does not end with a comma.
  lemma EndIsNoComma(s: string)
    requires Search(s) == Some(|s|)
    ensures s[|s| - 1] != ','
  {
    SearchFinds(s);
    assert s[..|s|] == s;
    if IsRange(s) {
      var i :| 0 < i < |s| && s[i] == '-' && Digits(s[..i]) && Digits(s[i + 1..]);
      assert s[i + 1..][|s| - i - 2] == s[|s| - 1];
    }
  }

  // The text starts with these items, each followed by a comma or the end.
  ghost predicate StartsWith(s: string, ws: seq<string>)
    decreases |ws|
  {
    ws == [] || (ws[0] <= s && IsItem(ws[0]) && EndsAt(s, |ws[0]|) && StartsWith(Suffix(s, |ws[0]|), ws[1..]))
  }

  /** The items found are a start of the text, and every list of items the text starts with is among them. */
  lemma {:induction false} ItemsAreLongest(s: string, ws: seq<string>)
    ensures StartsWith(s, Items(s))
    ensures StartsWith(s, ws) ==> ws <= Items(s)
    decreases |s|
  {
    hide Search, IsItem, EndsAt;
    ItemsFirst(s);
    if Search(s).Some? {
      ItemsAreLongest(Suffix(s, Search(s).value), if ws == [] then [] else ws[1..]);
    }
    if StartsWith(s, ws) && ws != [] {
      assert s[..|ws[0]|] == ws[0];
      SearchAt(s, |ws[0]|);
    }
  }

  /** The meaning of a mask depends on its items alone. */
  lemma MeaningOfRest(s: string, t: string)
    requires MayFollow(s, t)
    ensures Meaning(Replaced(s, t)) == Meaning(s)
  {
    RestIsIgnored(s, t);
    hide Search, Items, Consumed, Replaced;
  }
}
