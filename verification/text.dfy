/** Text as the service handles it: decimal numbers, joining and splitting of lists. */
module Texts {

  type Text = string

  // ---------------------------------------------------------------- decimal numbers

  predicate IsDigit(c: char) { '0' <= c <= '9' }

  predicate Digits(s: Text) {
    forall i :: 0 <= i < |s| ==> IsDigit(s[i])
  }

  function DigitOf(d: nat): (c: char)
    requires d < 10
    ensures IsDigit(c) && DigitValue(c) == d
  {
    '0' + d as char
  }

  function DigitValue(c: char): (d: nat)
    requires IsDigit(c)
    ensures d < 10
  {
    (c - '0') as nat
  }

  /** `QString::number` on a number that is not negative. */
  function Decimal(n: nat): (s: Text)
    ensures s != [] && Digits(s)
    ensures n > 0 ==> s[0] != '0'
  {
    if n < 10 then [DigitOf(n)] else Decimal(n / 10) + [DigitOf(n % 10)]
  }

  /** The number a row of digits stands for. */
  function Value(s: Text): nat
    requires Digits(s)
  {
    if s == [] then 0 else 10 * Value(s[..|s| - 1]) + DigitValue(s[|s| - 1])
  }

  lemma {:induction false} ValueOfDecimal(n: nat)
    ensures Value(Decimal(n)) == n
  {
    if n >= 10 {
      ValueOfDecimal(n / 10);
      assert Decimal(n)[..|Decimal(n)| - 1] == Decimal(n / 10);
    }
  }

  /** Digits without a leading zero are the decimal form of their value. */
  lemma {:induction false} DecimalOfValue(s: Text)
    requires s != [] && Digits(s) && s[0] != '0'
    ensures Decimal(Value(s)) == s && Value(s) > 0
  {
    var d := DigitValue(s[|s| - 1]);
    assert s == s[..|s| - 1] + [DigitOf(d)];
    if |s| == 1 {
      assert s[..0] == [] && Value(s) == d;
    } else {
      DecimalOfValue(s[..|s| - 1]);
      assert Value(s) / 10 == Value(s[..|s| - 1]) && Value(s) % 10 == d;
    }
  }

  /** `QString::number` and `QString::toInt`; text that is not a number gives 0. */
  function NumberText(n: int): Text {
    if n < 0 then "-" + Decimal(-n) else Decimal(n)
  }

  function ToInt(s: Text): int {
    if s == [] then 0
    else if Digits(s) then Value(s)
    else if s[0] == '-' && |s| > 1 && Digits(s[1..]) then 0 - (Value(s[1..]) as int)
    else 0
  }

  lemma NumberTextRoundTrip(n: int)
    ensures ToInt(NumberText(n)) == n
  {
    if n < 0 {
      ValueOfDecimal(-n);
      assert !IsDigit(NumberText(n)[0]);
      assert NumberText(n)[1..] == Decimal(-n);
    } else {
      ValueOfDecimal(n);
    }
  }

  // ---------------------------------------------------------------- lists in one text

  /** `QStringList::join` with a one-character separator. */
  function Join(items: seq<Text>, sep: char): Text {
    if items == [] then []
    else if |items| == 1 then items[0]
    else items[0] + [sep] + Join(items[1..], sep)
  }

  /** The characters of `s` before its first separator. */
  function Head(s: Text, sep: char): (h: Text)
    ensures |h| <= |s| && h == s[..|h|] && sep !in h
    ensures |h| < |s| ==> s[|h|] == sep
  {
    if s == [] || s[0] == sep then [] else [s[0]] + Head(s[1..], sep)
  }

  /** `QString::split` with `Qt::SkipEmptyParts`. */
  function Split(s: Text, sep: char): (items: seq<Text>)
    ensures forall x :: x in items ==> x != [] && sep !in x
    decreases |s|
  {
    if s == [] then []
    else
      var h := Head(s, sep);
      (if h == [] then [] else [h]) + if |h| == |s| then [] else Split(s[|h| + 1..], sep)
  }

  /** Every item has text, and none holds the separator. */
  predicate Splittable(items: seq<Text>, sep: char) {
    forall x :: x in items ==> x != [] && sep !in x
  }

  lemma {:induction false} HeadStops(x: Text, rest: Text, sep: char)
    requires sep !in x && (rest == [] || rest[0] == sep)
    ensures Head(x + rest, sep) == x
  {
    if x == [] {
      assert x + rest == rest;
    } else {
      assert (x + rest)[1..] == x[1..] + rest;
      HeadStops(x[1..], rest, sep);
    }
  }

  lemma SplitOne(x: Text, sep: char)
    requires x != [] && sep !in x
    ensures Split(x, sep) == [x]
  {
    HeadStops(x, [], sep);
    assert x + [] == x;
  }

  lemma SplitFirst(x: Text, tail: Text, sep: char)
    requires x != [] && sep !in x
    ensures Split(x + [sep] + tail, sep) == [x] + Split(tail, sep)
  {
    var s := x + [sep] + tail;
    assert s == x + ([sep] + tail);
    HeadStops(x, [sep] + tail, sep);
    assert s[|x| + 1..] == tail;
  }

  lemma {:induction false} SplitJoin(items: seq<Text>, sep: char)
    requires Splittable(items, sep)
    ensures Split(Join(items, sep), sep) == items
  {
    hide Split;
    if items == [] {
      SplitNone(sep);
    } else if |items| == 1 {
      assert items[0] in items;
      SplitOne(items[0], sep);
    } else {
      assert items[0] in items && forall x :: x in items[1..] ==> x in items;
      SplitJoin(items[1..], sep);
      SplitFirst(items[0], Join(items[1..], sep), sep);
    }
  }

  lemma SplitNone(sep: char)
    ensures Split([], sep) == []
  {
  }

  /** A list survives joining and splitting exactly when its items are non-empty and free of the separator. */
  lemma SplitJoinIff(items: seq<Text>, sep: char)
    ensures Split(Join(items, sep), sep) == items <==> Splittable(items, sep)
  {
    if Splittable(items, sep) {
      SplitJoin(items, sep);
    }
  }
}
