/**
 The textual form of a selection of messages: decimal UIDs separated by commas.  The check of
 `_selected_message_uid_set` accepts exactly the texts of selections that RuleRun calls
 selectable, and gives them back unchanged.
 */
module UidSelection {
  import opened Options
  import opened MessageWindow
  import opened RuleRun

  // ---------------------------------------------------------------------------------------
  // Decimal numbers
  // ---------------------------------------------------------------------------------------

  predicate IsDigit(c: char) {
    '0' <= c <= '9'
  }

  predicate AllDigits(s: string) {
    forall i :: 0 <= i < |s| ==> IsDigit(s[i])
  }

  function Digit(d: nat): char
    requires d < 10
  {
    '0' + d as char
  }

  function Decimal(n: nat): string {
    if n < 10 then [Digit(n)] else Decimal(n / 10) + [Digit(n % 10)]
  }

  function Value(s: string): nat
    requires AllDigits(s)
  {
    if s == "" then 0 else Value(s[..|s| - 1]) * 10 + (s[|s| - 1] as int - '0' as int)
  }

  lemma {:induction false} ValueMore(s: string, d: nat)
    requires AllDigits(s) && d < 10
    ensures AllDigits(s + [Digit(d)]) && Value(s + [Digit(d)]) == Value(s) * 10 + d
  {
    var t := s + [Digit(d)];
    assert t[..|t| - 1] == s;
  }

  lemma {:induction false} DigitReads(d: nat)
    requires d < 10
    ensures AllDigits([Digit(d)]) && Value([Digit(d)]) == d && ([Digit(d)][0] == '0' <==> d == 0)
  {
    ValueMore("", d);
    assert "" + [Digit(d)] == [Digit(d)];
  }

  /** A number is what its decimal form says, which begins with 0 for 0 only. */
  lemma {:induction false} DecimalReads(n: nat)
    ensures Decimal(n) != "" && AllDigits(Decimal(n)) && Value(Decimal(n)) == n && (Decimal(n)[0] == '0' <==> n == 0)
  {
    if n < 10 {
      DigitReads(n);
    } else {
      var front, d := Decimal(n / 10), n % 10;
      DecimalReads(n / 10);
      ValueMore(front, d);
      assert Decimal(n) == front + [Digit(d)] && Decimal(n)[0] == front[0];
    }
  }

  /** Digits that do not begin with 0 are the decimal form of their value. */
  lemma {:induction false} DigitsAreDecimal(s: string)
    requires AllDigits(s) && s != "" && s[0] != '0'
    ensures Value(s) >= 1 && Decimal(Value(s)) == s
  {
    var n := |s| - 1;
    var d := s[n] as int - '0' as int;
    assert s == s[..n] + [s[n]] && Digit(d) == s[n];
    if n > 0 {
      DigitsAreDecimal(s[..n]);
      assert Value(s) == Value(s[..n]) * 10 + d;
    } else {
      assert s[..n] == "" && s == [s[n]];
    }
  }

  // ---------------------------------------------------------------------------------------
  // Commas
  // ---------------------------------------------------------------------------------------

  function SplitComma(s: string): (items: seq<string>)
    ensures items != []
  {
    if s == "" then [""]
    else
      var rest := SplitComma(s[1..]);
      if s[0] == ',' then [""] + rest else [[s[0]] + rest[0]] + rest[1..]
  }

  function JoinComma(items: seq<string>): string {
    if items == [] then "" else if |items| == 1 then items[0] else items[0] + "," + JoinComma(items[1..])
  }

  lemma {:induction false} JoinFirst(c: char, items: seq<string>)
    requires items != []
    ensures JoinComma([[c] + items[0]] + items[1..]) == [c] + JoinComma(items)
  {
    var more := [[c] + items[0]] + items[1..];
    assert more[1..] == items[1..];
    if |items| > 1 {
      assert ([c] + items[0]) + "," + JoinComma(items[1..]) == [c] + (items[0] + "," + JoinComma(items[1..]));
    }
  }

  lemma {:induction false} JoinSplit(s: string)
    ensures JoinComma(SplitComma(s)) == s
  {
    if s != "" {
      var rest := SplitComma(s[1..]);
      JoinSplit(s[1..]);
      if s[0] == ',' {
        assert ([""] + rest)[1..] == rest;
        assert JoinComma([""] + rest) == "" + "," + s[1..] == s;
      } else {
        JoinFirst(s[0], rest);
        assert [s[0]] + s[1..] == s;
      }
    }
  }

  lemma {:induction false} SplitWord(w: string)
    requires ',' !in w
    ensures SplitComma(w) == [w]
  {
    if w != "" {
      SplitWord(w[1..]);
      assert [w[0]] + w[1..] == w && [w[1..]][1..] == [];
    }
  }

  lemma {:induction false} SplitFirst(w: string, rest: string)
    requires ',' !in w
    ensures SplitComma(w + "," + rest) == [w] + SplitComma(rest)
  {
    var s := w + "," + rest;
    if w == "" {
      assert s[1..] == rest;
    } else {
      SplitFirst(w[1..], rest);
      assert s[1..] == w[1..] + "," + rest;
      var items := [w[1..]] + SplitComma(rest);
      assert items[1..] == SplitComma(rest) && [w[0]] + w[1..] == w;
    }
  }

  lemma {:induction false} SplitJoin(items: seq<string>)
    requires items != [] && forall i :: 0 <= i < |items| ==> ',' !in items[i]
    ensures SplitComma(JoinComma(items)) == items
  {
    if |items| == 1 {
      SplitWord(items[0]);
    } else {
      SplitJoin(items[1..]);
      SplitFirst(items[0], JoinComma(items[1..]));
      assert [items[0]] + items[1..] == items;
    }
  }

  // ---------------------------------------------------------------------------------------
  // Selections
  // ---------------------------------------------------------------------------------------

  function Decimals(uids: seq<nat>): seq<string> {
    seq(|uids|, i requires 0 <= i < |uids| => Decimal(uids[i]))
  }

  /** The text that names these UIDs. */
  function SelectionText(uids: seq<nat>): string {
    JoinComma(Decimals(uids))
  }

  ghost predicate IsSelection(value: string) {
    exists uids: seq<nat> :: Selectable(uids) && SelectionText(uids) == value
  }

  /** The items of the text of a selection. */
  lemma {:induction false} SelectionItems(uids: seq<nat>)
    requires Selectable(uids)
    ensures SplitComma(SelectionText(uids)) == Decimals(uids)
  {
    forall i | 0 <= i < |uids| ensures ',' !in Decimals(uids)[i] {
      DecimalReads(uids[i]);
    }
    SplitJoin(Decimals(uids));
  }

  predicate GoodItem(item: string) {
    item != "" && AllDigits(item) && item[0] != '0' && 1 <= Value(item) <= MAX_UID
  }

  lemma {:induction false} DecimalIsGood(u: nat)
    ensures GoodItem(Decimal(u)) <==> 1 <= u <= MAX_UID
  {
    DecimalReads(u);
  }

  ghost predicate Different(items: seq<string>, i: int, j: int) {
    0 <= i < j < |items| ==> items[i] != items[j]
  }

  ghost predicate AllDifferent(items: seq<string>) {
    forall i, j :: Different(items, i, j)
  }

  /** A text is a selection exactly if its items are between 1 and 50 good ones, all different. */
  lemma {:induction false} SelectionIs(value: string, items: seq<string>)
    requires items == SplitComma(value)
    ensures IsSelection(value) <==>
            |items| <= 50 && (forall i :: 0 <= i < |items| ==> GoodItem(items[i])) && AllDifferent(items)
  {
    if uids :| Selectable(uids) && SelectionText(uids) == value {
      SelectionItems(uids);
      forall i | 0 <= i < |items| ensures GoodItem(items[i]) {
        assert uids[i] in uids;
        DecimalIsGood(uids[i]);
      }
      forall i, j ensures Different(items, i, j) {
        if 0 <= i < j < |items| {
          DecimalReads(uids[i]);
          DecimalReads(uids[j]);
        }
      }
    }
    if |items| <= 50 && (forall i :: 0 <= i < |items| ==> GoodItem(items[i])) && AllDifferent(items) {
      var uids: seq<nat> := seq(|items|, i requires 0 <= i < |items| => Value(items[i]));
      ItemsAreUids(items, uids);
      JoinSplit(value);
    }
  }

  lemma {:induction false} ItemsAreUids(items: seq<string>, uids: seq<nat>)
    requires 1 <= |items| <= 50 && |uids| == |items| && (forall i :: 0 <= i < |items| ==>
        GoodItem(items[i]) && uids[i] == Value(items[i]))
    requires AllDifferent(items)
    ensures Selectable(uids) && Decimals(uids) == items
  {
    forall i | 0 <= i < |items| ensures Decimals(uids)[i] == items[i] {
      DigitsAreDecimal(items[i]);
    }
    forall i, j | 0 <= i < j < |uids| ensures uids[i] != uids[j] {
      assert Different(items, i, j) && Decimals(uids)[i] == items[i] && Decimals(uids)[j] == items[j];
    }
  }

  /** The check: item by item, with the set of those seen. */
  method SelectedMessageUidSet(value: string) returns (r: Option<string>)
    ensures r.Some? <==> IsSelection(value)
    ensures r.Some? ==> r.value == value
  {
    var values := SplitComma(value);
    SelectionIs(value, values);
    if |values| > 50 {
      return None;
    }
    var selected: seq<string> := [];
    var seen: set<string> := {};
    for i := 0 to |values|
      invariant selected == values[..i] && seen == set s | s in values[..i]
      invariant forall j :: 0 <= j < i ==> GoodItem(values[j])
      invariant AllDifferent(values[..i])
    {
      var item := values[i];
      if item == "" || !AllDigits(item) || item[0] == '0' {
        return None;
      }
      var uid := Value(item);
      if !(1 <= uid <= MAX_UID) {
        return None;
      }
      DigitsAreDecimal(item);
      var normalized := Decimal(uid);
      if normalized in seen {
        var j :| 0 <= j < i && values[..i][j] == normalized;
        assert !Different(values, j, i);
        return None;
      }
      seen, selected := seen + {normalized}, selected + [normalized];
      OneMore(values, i);
    }
    assert values[..|values|] == values;
    JoinSplit(value);
    r := Some(JoinComma(selected));
  }

  lemma {:induction false} OneMore(values: seq<string>, i: nat)
    requires i < |values| && values[i] !in values[..i] && AllDifferent(values[..i])
    ensures values[..i + 1] == values[..i] + [values[i]] && AllDifferent(values[..i + 1])
  {
    var front, more := values[..i], values[..i + 1];
    forall j, k ensures Different(more, j, k) {
      assert Different(front, j, k);
      if 0 <= j < k == i {
        assert front[j] == values[j];
      }
    }
  }

  /** The text that a step of the rule run hands to the check is always accepted. */
  lemma {:induction false} StepSelection(start: Start, s: State, matches: string -> bool)
    requires Inv(start, s, matches) && s.run.index < |s.run.sources|
    ensures var found := Matching(Reverse(Batch(start, s.run)), matches);
      found != [] ==> IsSelection(SelectionText(UidList(found)))
  {
    SelectionAccepted(start, s, matches);
  }
}
