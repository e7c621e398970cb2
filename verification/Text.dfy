/** Texts put together from parts: decimal numbers and lists separated by ';'. */
module Text {

  const SEPARATOR := ';'

  /** The items one after another with a separator between them. */
  function Join(items: seq<string>): string {
    if |items| == 0 then ""
    else if |items| == 1 then items[0]
    else Join(items[..|items| - 1]) + [SEPARATOR] + items[|items| - 1]
  }

  /** What a reader gets who cuts a text at every separator. */
  function Split(text: string): (items: seq<string>)
    ensures |items| >= 1
    ensures forall item :: item in items ==> SEPARATOR !in item
  {
    if text == "" then [""]
    else
      var before := Split(text[..|text| - 1]);
      var last := text[|text| - 1];
      if last == SEPARATOR then before + [""]
      else before[|before| - 1 := before[|before| - 1] + [last]]
  }

  lemma {:induction false} SplitAppend(text: string, tail: string)
    requires SEPARATOR !in tail
    ensures var items := Split(text);
            Split(text + tail) == items[|items| - 1 := items[|items| - 1] + tail]
  {
    var items := Split(text);
    if tail == "" {
      assert text + tail == text;
      assert items[|items| - 1] + tail == items[|items| - 1];
    } else {
      var init := tail[..|tail| - 1];
      SplitAppend(text, init);
      assert (text + tail)[..|text + tail| - 1] == text + init;
      assert items[|items| - 1] + tail == items[|items| - 1] + init + [tail[|tail| - 1]];
    }
  }

  lemma SplitNothing()
    ensures Split("") == [""]
  {
  }

  lemma SplitSeparator(text: string)
    ensures Split(text + [SEPARATOR]) == Split(text) + [""]
  {
    assert (text + [SEPARATOR])[..|text|] == text;
  }

  /** Cutting a joined text gives the items back exactly when there are any and none contains the separator. */
  lemma SplitUndoesJoin(items: seq<string>)
    ensures Split(Join(items)) == items <==> items != [] && forall item :: item in items ==> SEPARATOR !in item
  {
    hide Join;
    if items != [] && forall item :: item in items ==> SEPARATOR !in item {
      CleanSplitUndoesJoin(items);
    }
  }

  /** What a reader makes of a list sent as the number of its items and their joined text. */
  function ReadList(count: nat, text: string): seq<string> {
    if count == 0 then [] else Split(text)
  }

  /** Told how many items there are, the reader gets the list, empty or not, exactly when no item contains the
      separator. */
  lemma ListReadsBack(items: seq<string>)
    ensures ReadList(|items|, Join(items)) == items <==> forall item :: item in items ==> SEPARATOR !in item
  {
    SplitUndoesJoin(items);
  }

  lemma {:induction false} CleanSplitUndoesJoin(items: seq<string>)
    requires |items| >= 1
    requires forall item :: item in items ==> SEPARATOR !in item
    ensures Split(Join(items)) == items
  {
    var init, last := items[..|items| - 1], items[|items| - 1];
    SplitNothing();
    hide Split;
    assert "" + last == last;
    if |items| == 1 {
      SplitAppend("", last);
    } else {
      forall item | item in init ensures SEPARATOR !in item { assert item in items; }
      CleanSplitUndoesJoin(init);
      SplitSeparator(Join(init));
      SplitAppend(Join(init) + [SEPARATOR], last);
      assert init + [last] == items;
    }
  }

  /** Adding one item, as a loop that builds the text does it. */
  lemma JoinOneMore(items: seq<string>, item: string)
    ensures Join(items + [item]) == if |items| == 0 then item else Join(items) + [SEPARATOR] + item
  {
    assert (items + [item])[..|items|] == items;
  }

  function Digit(d: int): char
    requires 0 <= d < 10
  {
    "0123456789"[d]
  }

  function NatText(n: nat): (t: string)
    ensures |t| >= 1 && SEPARATOR !in t && '-' !in t
  {
    if n < 10 then [Digit(n)] else NatText(n / 10) + [Digit(n % 10)]
  }

  /** The decimal text of a number. */
  function IntText(n: int): (t: string)
    ensures |t| >= 1 && SEPARATOR !in t
  {
    if n < 0 then "-" + NatText(-n) else NatText(n)
  }

  function NatValue(t: string): int {
    if t == "" then 0 else 10 * NatValue(t[..|t| - 1]) + (t[|t| - 1] as int - '0' as int)
  }

  function IntValue(t: string): int {
    if t != "" && t[0] == '-' then -NatValue(t[1..]) else NatValue(t)
  }

  lemma {:induction false} NatTextReadsBack(n: nat)
    ensures NatValue(NatText(n)) == n
  {
    if n >= 10 {
      NatTextReadsBack(n / 10);
    }
  }

  lemma MinusIsRead(digits: string)
    ensures IntValue("-" + digits) == -NatValue(digits)
  {
    hide NatValue;
    var t := "-" + digits;
    assert t[0] == '-' && t[1..] == digits;
  }

  lemma NegativeTextReadsBack(n: int)
    requires n < 0
    ensures IntValue(IntText(n)) == n
  {
    hide NatText, NatValue, IntValue;
    NatTextReadsBack(-n);
    MinusIsRead(NatText(-n));
  }

  lemma NaturalTextReadsBack(n: nat)
    ensures IntValue(IntText(n)) == n
  {
    hide NatText, NatValue;
    NatTextReadsBack(n);
    assert IntText(n)[0] in IntText(n);
  }

  lemma IntTextReadsBack(n: int)
    ensures IntValue(IntText(n)) == n
  {
    if n < 0 { NegativeTextReadsBack(n); } else { NaturalTextReadsBack(n); }
  }

  /** Decimal digits, the highest first, a minus before them if need be. */
  lemma DigitsAsShown(n: int, d: int)
    requires 0 <= n && 0 <= d < 10
    ensures IntText(d) == ["0123456789"[d]]
    ensures n > 0 ==> IntText(10 * n + d) == IntText(n) + ["0123456789"[d]]
    ensures n > 0 ==> IntText(-n) == "-" + IntText(n)
  {
    assert (10 * n + d) / 10 == n && (10 * n + d) % 10 == d;
  }

  /** Items with semicolons between them. */
  lemma ListsAsShown()
    ensures Join([]) == "" && Join(["ann"]) == "ann" && Join(["ann", "bob"]) == "ann;bob"
  {
    assert ["ann", "bob"][..1] == ["ann"];
  }
}
