/** Which of the texts that the regular expression accepts the parser turns into lists. */
module MaskAcceptance {
  import opened MaskRegex
  import opened MaskParser
  import opened Wrappers

  // ---- the fields between the commas ----

  // c is split at every comma.
  function Fields(c: string): (fs: seq<string>)
    ensures fs != []
  {
    if c == "" then [""]
    else
      var rest := Fields(c[1..]);
      if c[0] == ',' then [""] + rest else [[c[0]] + rest[0]] + rest[1..]
  }

  predicate DigitsAndCommas(c: string) {
    forall k | 0 <= k < |c| :: IsDigit(c[k]) || c[k] == ','
  }

  predicate AllDigits(fs: seq<string>) {
    forall k | 0 <= k < |fs| :: DigitsOrNothing(fs[k])
  }

  lemma {:induction false} FieldsAreDigits(c: string)
    requires DigitsAndCommas(c)
    ensures AllDigits(Fields(c))
  {
    if c != "" {
      FieldsAreDigits(c[1..]);
    }
  }

  lemma {:induction false} InnerFieldsFilled(c: string)
    requires forall k | 0 < k < |c| :: c[k] == ',' ==> c[k - 1] != ','
    ensures var fs := Fields(c);
            && (fs[0] == "" <==> c == "" || c[0] == ',')
            && (fs[|fs| - 1] == "" <==> c == "" || c[|c| - 1] == ',')
            && (forall k | 0 < k < |fs| - 1 :: fs[k] != "")
  {
    if c != "" {
      InnerFieldsFilled(c[1..]);
    }
  }

  function FieldValues(fs: seq<string>): (vs: seq<int>)
    requires AllDigits(fs)
    ensures |vs| == |fs| && forall k | 0 <= k < |fs| :: vs[k] == Value(fs[k])
  {
    seq(|fs|, k requires 0 <= k < |fs| => Value(fs[k]))
  }

  // The fields are converted in order; the first that fails ends it.
  function ReadAll(fs: seq<string>, done: seq<int>): (r: Result<seq<int>, Failure>)
    requires AllDigits(fs)
  {
    if fs == [] then Ok(done)
    else
      var n := Stoi(fs[0]);
      if n.Err? then Err(n.error) else ReadAll(fs[1..], done + [n.value])
  }

  lemma ReadClosed(field: string, done: seq<int>)
    requires DigitsOrNothing(field)
    ensures ListFrom("}", field, done) == ReadAll([field], done)
  {
    hide Stoi;
    assert "}"[1..] == "" && [field][1..] == [];
  }

  lemma ReadComma(c: string, field: string, done: seq<int>, rest: seq<string>)
    requires DigitsAndCommas(c) && DigitsOrNothing(field) && AllDigits(rest)
    requires forall n :: ListFrom(c + "}", "", done + [n]) == ReadAll(rest, done + [n])
    ensures ListFrom([','] + (c + "}"), field, done) == ReadAll([field] + rest, done)
  {
    hide Stoi;
    assert ([','] + (c + "}"))[1..] == c + "}" && ([field] + rest)[1..] == rest;
  }

  lemma ReadDigit(d: char, c: string, field: string, done: seq<int>)
    requires IsDigit(d) && DigitsAndCommas(c) && DigitsOrNothing(field)
    ensures ListFrom([d] + (c + "}"), field, done) == ListFrom(c + "}", field + [d], done)
  {
    hide Stoi;
    assert ([d] + (c + "}"))[1..] == c + "}";
  }

  // The first field continues what is read already.
  function Onto(field: string, fs: seq<string>): (r: seq<string>)
    requires fs != []
  {
    [field + fs[0]] + fs[1..]
  }

  lemma OntoNothing(field: string, fs: seq<string>)
    requires fs != []
    ensures Onto("", fs) == fs && Onto(field, [""] + fs) == [field] + fs && Onto(field, [""]) == [field]
  {
    assert "" + fs[0] == fs[0] && field + "" == field;
    assert ([""] + fs)[1..] == fs && [fs[0]] + fs[1..] == fs;
  }

  lemma OntoDigit(field: string, d: char, fs: seq<string>)
    requires fs != []
    ensures Onto(field, [[d] + fs[0]] + fs[1..]) == Onto(field + [d], fs)
  {
    assert field + ([d] + fs[0]) == field + [d] + fs[0];
  }

  lemma OntoDigits(field: string, fs: seq<string>)
    requires DigitsOrNothing(field) && AllDigits(fs) && fs != []
    ensures AllDigits(Onto(field, fs))
  {}

  lemma FieldsGrow(c: string)
    ensures c == "" ==> Fields(c) == [""]
    ensures c != "" ==> Fields(c) == if c[0] == ',' then [""] + Fields(c[1..])
                                     else [[c[0]] + Fields(c[1..])[0]] + Fields(c[1..])[1..]
  {}

  /** Character by character, the list is read field by field. */
  lemma {:induction false} ListReadsFields(c: string, field: string, done: seq<int>)
    requires DigitsAndCommas(c) && DigitsOrNothing(field)
    ensures AllDigits(Onto(field, Fields(c)))
    ensures ListFrom(c + "}", field, done) == ReadAll(Onto(field, Fields(c)), done)
    decreases |c|
  {
    hide ListFrom, ReadAll, Stoi, Fields, Onto, AllDigits;
    FieldsAreDigits(c);
    OntoDigits(field, Fields(c));
    FieldsGrow(c);
    if c == "" {
      ReadClosed(field, done);
      OntoNothing(field, [""]);
      assert "" + "}" == "}";
    } else {
      var t, rest := c[1..], Fields(c[1..]);
      assert c + "}" == [c[0]] + (t + "}");
      FieldsAreDigits(t);
      OntoNothing(field, rest);
      if c[0] == ',' {
        forall n
          ensures ListFrom(t + "}", "", done + [n]) == ReadAll(rest, done + [n])
        {
          ListReadsFields(t, "", done + [n]);
        }
        ReadComma(t, field, done, rest);
      } else {
        ListReadsFields(t, field + [c[0]], done);
        ReadDigit(c[0], t, field, done);
        OntoDigit(field, c[0], rest);
      }
    }
  }

  predicate TooLarge(fs: seq<string>)
    requires AllDigits(fs)
  {
    exists k :: 0 <= k < |fs| && Value(fs[k]) > INT_MAX
  }

  lemma TooLargeSplits(fs: seq<string>)
    requires AllDigits(fs) && fs != []
    ensures TooLarge(fs) <==> Value(fs[0]) > INT_MAX || TooLarge(fs[1..])
  {
    hide Value;
    if k :| 0 < k < |fs| && Value(fs[k]) > INT_MAX {
      assert fs[1..][k - 1] == fs[k];
    }
  }

  // Only the last field may be missing.
  predicate Filled(fs: seq<string>) {
    forall k | 0 <= k < |fs| - 1 :: fs[k] != ""
  }

  lemma RestOfFields(fs: seq<string>)
    requires AllDigits(fs) && Filled(fs) && |fs| > 1
    ensures AllDigits(fs[1..]) && Filled(fs[1..]) && fs[0] != "" && fs[1..][|fs| - 2] == fs[|fs| - 1]
  {}

  lemma ValuesSplit(fs: seq<string>, done: seq<int>)
    requires AllDigits(fs) && fs != []
    ensures AllDigits(fs[1..]) && done + FieldValues(fs) == (done + [Value(fs[0])]) + FieldValues(fs[1..])
    ensures |fs| == 1 ==> done + FieldValues(fs) == done + [Value(fs[0])]
  {
    hide Value;
    assert FieldValues(fs) == [Value(fs[0])] + FieldValues(fs[1..]);
  }

  /** A list fails exactly if a field is too large, or, behind all others, the last one is missing. */
  lemma {:induction false} ReadAllOutcome(fs: seq<string>, done: seq<int>)
    requires AllDigits(fs) && fs != [] && Filled(fs)
    ensures TooLarge(fs) ==> ReadAll(fs, done) == Err(OutOfRange)
    ensures !TooLarge(fs) && fs[|fs| - 1] == "" ==> ReadAll(fs, done) == Err(InvalidArgument)
    ensures !TooLarge(fs) && fs[|fs| - 1] != "" ==> ReadAll(fs, done) == Ok(done + FieldValues(fs))
  {
    FirstDigits(fs);
    hide *;
    TooLargeSplits(fs);
    FirstRead(fs, done);
    ValuesSplit(fs, done);
    if |fs| == 1 {
      NothingTooLarge();
      assert fs[1..] == [];
    } else {
      RestOfFields(fs);
      ReadAllOutcome(fs[1..], done + [Value(fs[0])]);
    }
  }

  lemma FirstDigits(fs: seq<string>)
    requires AllDigits(fs) && fs != []
    ensures DigitsOrNothing(fs[0]) && AllDigits(fs[1..])
  {}

  lemma NothingTooLarge()
    ensures !TooLarge([])
  {}

  lemma FirstRead(fs: seq<string>, done: seq<int>)
    requires AllDigits(fs) && fs != []
    ensures fs[0] == "" ==> Value(fs[0]) == 0 && ReadAll(fs, done) == Err(InvalidArgument)
    ensures Value(fs[0]) > INT_MAX ==> ReadAll(fs, done) == Err(OutOfRange)
    ensures fs[0] != "" && Value(fs[0]) <= INT_MAX ==> ReadAll(fs, done) == ReadAll(fs[1..], done + [Value(fs[0])])
    ensures fs[0] != "" && Value(fs[0]) <= INT_MAX && |fs| == 1 ==> ReadAll(fs, done) == Ok(done + [Value(fs[0])])
  {
    assert |fs| == 1 ==> fs[1..] == [];
  }

  // ---- items ----

  // The numbers written in an item, in order; an empty text stands for one that is missing.
  function Numbers(w: string): (fs: seq<string>)
    requires IsItem(w)
    ensures fs != [] && AllDigits(fs)
  {
    var i := IndexOf(w, '-');
    if i < |w| then
      RangeParts(w);
      [w[..i], w[i + 1..]]
    else if w[0] == '{' then
      ListParts(w);
      FieldsAreDigits(w[1..|w| - 1]);
      Fields(w[1..|w| - 1])
    else
      NumberParts(w);
      [w]
  }

  // A comma stands before the closing brace of a list.
  predicate HasTrailingComma(w: string) {
    IsList(w) && w[|w| - 2] == ','
  }

  // A range has an end that leaves no room for the loop counter.
  predicate EndsAtLargest(w: string)
    requires IsItem(w)
  {
    IndexOf(w, '-') < |w| && exists k :: 0 <= k < |Numbers(w)| && Value(Numbers(w)[k]) == INT_MAX
  }

  /** What a caller can check of an accepted item: no number is too large, no list ends with a comma, and
      no range ends at the largest number. */
  predicate Fits(w: string)
    requires IsItem(w)
  {
    !TooLarge(Numbers(w)) && !HasTrailingComma(w) && !EndsAtLargest(w)
  }

  // Why an item fails.
  function Reason(w: string): (r: Failure)
    requires IsItem(w)
  {
    if TooLarge(Numbers(w)) then OutOfRange else if HasTrailingComma(w) then InvalidArgument else CounterOverflow
  }

  lemma NoListHasDash(w: string)
    requires IsList(w)
    ensures IndexOf(w, '-') == |w| && w[0] == '{'
  {
    ListLetters(w);
  }

  lemma ListFields(w: string)
    requires IsList(w)
    ensures DigitsAndCommas(w[1..|w| - 1])
    ensures var fs := Fields(w[1..|w| - 1]);
            fs != [] && AllDigits(fs) && Filled(fs) && (fs[|fs| - 1] == "" <==> HasTrailingComma(w))
  {
    var c := w[1..|w| - 1];
    assert c[|c| - 1] == w[|w| - 2];
    FieldsAreDigits(c);
    InnerFieldsFilled(c);
    hide Fields, AllDigits;
  }

  lemma ListValueIs(w: string)
    requires IsList(w)
    ensures ItemValue(w) == ListFrom(w[1..|w| - 1] + "}", "", []) && Numbers(w) == Fields(w[1..|w| - 1])
  {
    NoListHasDash(w);
    hide Fields, IndexOf, ListFrom, IsList;
    ListParts(w);
    ClosingBrace(w);
  }

  lemma ClosingBrace(w: string)
    requires IsList(w)
    ensures IsItem(w) && |w| > 2 && w[1..] == w[1..|w| - 1] + "}"
  {}

  lemma FieldsAlone(fs: seq<string>)
    requires AllDigits(fs) && fs != []
    ensures Onto("", fs) == fs && [] + FieldValues(fs) == FieldValues(fs)
  {
    OntoNothing("", fs);
  }

  lemma NothingIsNoField()
    ensures DigitsOrNothing("")
  {}

  lemma ListOutcome(w: string)
    requires IsList(w)
    ensures ItemValue(w) == if TooLarge(Numbers(w)) then Err(OutOfRange) else if HasTrailingComma(w) then Err(InvalidArgument)
                            else Ok(FieldValues(Numbers(w)))
  {
    hide *;
    ClosingBrace(w);
    ListFields(w);
    ListValueIs(w);
    NothingIsNoField();
    ListReadsFields(w[1..|w| - 1], "", []);
    FieldsAlone(Numbers(w));
    ReadAllOutcome(Numbers(w), []);
  }

  lemma RangeNumbers(w: string)
    requires IsItem(w) && IndexOf(w, '-') < |w|
    ensures |Numbers(w)| == 2
    ensures var u, v := Value(Numbers(w)[0]), Value(Numbers(w)[1]);
            && (TooLarge(Numbers(w)) <==> u > INT_MAX || v > INT_MAX)
            && (EndsAtLargest(w) <==> u == INT_MAX || v == INT_MAX)
  {
    hide Value, IsItem, IndexOf;
    var fs := Numbers(w);
  }

  lemma RangeValue(w: string)
    requires IsItem(w) && IndexOf(w, '-') < |w|
    ensures |Numbers(w)| == 2
    ensures var u, v := Value(Numbers(w)[0]), Value(Numbers(w)[1]);
            ItemValue(w) == if u > INT_MAX || v > INT_MAX then Err(OutOfRange) else Between(u, v)
  {
    RangeParts(w);
    hide Value, IsItem, IndexOf, Between;
  }

  lemma RangeOutcome(w: string)
    requires IsItem(w) && IndexOf(w, '-') < |w|
    ensures ItemValue(w).Ok? <==> Fits(w)
    ensures !Fits(w) ==> ItemValue(w) == Err(Reason(w))
    ensures |Numbers(w)| == 2
    ensures Fits(w) ==>
              var a, b := Value(Numbers(w)[0]), Value(Numbers(w)[1]);
              ItemValue(w) == Ok(if a > b then Interval(b, a) else Interval(a, b))
  {
    RangeIsNoList(w);
    RangeNumbers(w);
    RangeValue(w);
    hide Numbers, Value, ItemValue, IsItem, IndexOf, IsList, TooLarge, EndsAtLargest, AllDigits;
  }

  lemma RangeIsNoList(w: string)
    requires IndexOf(w, '-') < |w|
    ensures !IsList(w)
  {
    ListLetters(w);
  }

  lemma NumberOutcome(w: string)
    requires Digits(w)
    ensures Numbers(w) == [w] && IndexOf(w, '-') == |w| && w[0] != '{'
    ensures ItemValue(w) == if Value(w) > INT_MAX then Err(OutOfRange) else Ok([Value(w)])
    ensures TooLarge(Numbers(w)) <==> Value(w) > INT_MAX
  {
    hide Value;
  }

  lemma NumberFits(w: string)
    requires Digits(w)
    ensures Fits(w) <==> Value(w) <= INT_MAX
  {
    NumberOutcome(w);
    hide Value, Numbers, TooLarge;
  }

  lemma ListFits(w: string)
    requires IsList(w)
    ensures Fits(w) <==> !TooLarge(Numbers(w)) && !HasTrailingComma(w)
  {
    NoListHasDash(w);
    hide Numbers, TooLarge, IsList;
  }

  lemma ListReason(w: string)
    requires IsList(w)
    ensures Reason(w) == if TooLarge(Numbers(w)) then OutOfRange else if HasTrailingComma(w) then InvalidArgument
                         else CounterOverflow
  {}

  /** Every text the expression accepts: it has a value exactly if it fits, and what it fails with. */
  lemma ItemOutcome(w: string)
    requires IsItem(w)
    ensures ItemValue(w).Ok? <==> Fits(w)
    ensures !Fits(w) ==> ItemValue(w) == Err(Reason(w))
  {
    if Digits(w) {
      NumberOutcome(w);
      NumberFits(w);
      hide Numbers, Value, ItemValue, Fits, Digits, IsItem;
    } else if IsList(w) {
      ListOutcome(w);
      ListFits(w);
      ListReason(w);
      hide *;
    } else {
      RangeHasDash(w);
      RangeOutcome(w);
      hide *;
    }
  }

  lemma RangeHasDash(w: string)
    requires IsItem(w) && !Digits(w) && !IsList(w)
    ensures IndexOf(w, '-') < |w|
  {
    RangeLetters(w);
  }

  /** A comma behind the last number of a list is accepted and fails, however the numbers are written. */
  lemma TrailingCommaFails(w: string)
    requires IsList(w) && w[|w| - 2] == ','
    ensures ItemValue(w) == Err(if TooLarge(Numbers(w)) then OutOfRange else InvalidArgument)
  {
    ListOutcome(w);
    hide Numbers, TooLarge, IsList, ItemValue;
  }

  // ---- whole texts ----

  ghost predicate AreItems(ws: seq<string>) {
    forall k | 0 <= k < |ws| :: IsItem(ws[k])
  }

  // Item k is the first that does not fit.
  ghost predicate FirstUnfit(ws: seq<string>, k: nat)
    requires AreItems(ws)
  {
    k < |ws| && !Fits(ws[k]) && forall i | 0 <= i < k :: Fits(ws[i])
  }

  ghost predicate AllFit(ws: seq<string>)
    requires AreItems(ws)
  {
    forall k | 0 <= k < |ws| :: Fits(ws[k])
  }

  lemma LastFits(ws: seq<string>)
    requires ws != [] && AreItems(ws)
    ensures AreItems(ws[..|ws| - 1])
    ensures AllFit(ws) <==> AllFit(ws[..|ws| - 1]) && Fits(ws[|ws| - 1])
    ensures AllFit(ws[..|ws| - 1]) && !Fits(ws[|ws| - 1]) ==> FirstUnfit(ws, |ws| - 1)
    ensures forall k: nat :: FirstUnfit(ws[..|ws| - 1], k) ==> FirstUnfit(ws, k)
  {
    hide IsItem, Fits;
    assert forall k | 0 <= k < |ws| - 1 :: ws[..|ws| - 1][k] == ws[k];
  }

  lemma {:induction false} ValuesOutcome(ws: seq<string>)
    requires AreItems(ws)
    ensures ItemValues(ws).Ok? <==> AllFit(ws)
    ensures AllFit(ws) ==> forall k | 0 <= k < |ws| :: ItemValue(ws[k]) == Ok(ItemValues(ws).value[k])
    ensures !AllFit(ws) ==> exists k: nat :: FirstUnfit(ws, k) && ItemValues(ws) == Err(Reason(ws[k]))
  {
    hide IsItem, Fits, ItemValue, Reason;
    if ws != [] {
      var last := |ws| - 1;
      LastFits(ws);
      ItemOutcome(ws[last]);
      ValuesOutcome(ws[..last]);
      hide AllFit, FirstUnfit;
      if !AllFit(ws[..last]) {
        var k: nat :| FirstUnfit(ws[..last], k) && ItemValues(ws[..last]) == Err(Reason(ws[..last][k]));
        assert FirstUnfit(ws, k);
      }
    }
  }

  lemma ItemsAre(s: string)
    ensures AreItems(Items(s))
  {
    ItemsAreItems(s);
  }

  /** Every text: parsing succeeds exactly if all items it starts with fit; then it gives nothing, or the
      value of each item, and otherwise it fails with the reason of the first that does not fit. */
  lemma SucceedsIffItemsFit(s: string)
    ensures AreItems(Items(s)) && (Meaning(s).Ok? <==> AllFit(Items(s)))
    ensures AllFit(Items(s)) && Items(s) == [] ==> Meaning(s) == Ok(None)
    ensures AllFit(Items(s)) && Items(s) != [] ==>
              && Meaning(s).value.Some? && |Meaning(s).value.value| == |Items(s)|
              && forall k | 0 <= k < |Items(s)| :: ItemValue(Items(s)[k]) == Ok(Meaning(s).value.value[k])
    ensures !AllFit(Items(s)) ==>
              exists k: nat :: FirstUnfit(Items(s), k) && Meaning(s) == Err(Reason(Items(s)[k]))
  {
    var ws := Items(s);
    ItemsAre(s);
    ValuesOutcome(ws);
    NothingYet();
    MeaningOfItems(s, ws);
    hide Meaning, Items, IsItem, Fits, ItemValue, ItemValues, Reason, AllFit, FirstUnfit;
  }
}
