/** The `objectId` of an entity: a camel-case token, numbered when a round has it more than once. */
module ObjectIds {
  import opened Texts

  // ---------------------------------------------------------------- camel case

  /** `QChar`'s letters (numbers other than the ten digits included) and its case maps. */
  datatype Alphabet = Alphabet(letter: char -> bool, upper: char -> char, lower: char -> char)

  predicate IsLatin(c: char) { 'a' <= c <= 'z' || 'A' <= c <= 'Z' }

  /** What every version of the Unicode tables says; of all other characters nothing is assumed. */
  ghost predicate Proper(a: Alphabet) {
    && (forall c: char :: IsLatin(c) ==> a.letter(c))
    && !a.letter('_') && !a.letter(' ')
    && (forall c: char :: a.letter(c) ==> a.letter(a.upper(c)) && a.letter(a.lower(c)))
    && (forall c: char :: IsDigit(c) ==> a.upper(c) == c && a.lower(c) == c)
  }

  const LatinOnly := Alphabet(
    IsLatin,
    c => if 'a' <= c <= 'z' then c - 'a' + 'A' else c,
    c => if 'A' <= c <= 'Z' then c - 'A' + 'a' else c)

  type Script = a: Alphabet | Proper(a) witness LatinOnly

  /** The tables in use: a parameter of the model, so everything is proved for all of them. */
  const Unicode: Script

  predicate IsLetterOrNumber(c: char) { Unicode.letter(c) || IsDigit(c) }

  function ToUpper(c: char): (u: char)
    ensures IsLetterOrNumber(c) ==> IsLetterOrNumber(u)
  {
    Unicode.upper(c)
  }

  function ToLower(c: char): (l: char)
    ensures IsLetterOrNumber(c) ==> IsLetterOrNumber(l)
  {
    Unicode.lower(c)
  }

  /** The words of a text: its longest runs of letters and digits. */
  function Words(text: Text): (w: seq<Text>)
    ensures forall x :: x in w ==> x != [] && forall i :: 0 <= i < |x| ==> IsLetterOrNumber(x[i])
  {
    if text == [] then []
    else
      var n, w := |text| - 1, Words(text[..|text| - 1]);
      if !IsLetterOrNumber(text[n]) then w
      else if n > 0 && IsLetterOrNumber(text[n - 1]) && w != [] then w[..|w| - 1] + [w[|w| - 1] + [text[n]]]
      else w + [[text[n]]]
  }

  function Lowered(word: Text): (r: Text)
    ensures |r| == |word|
  {
    seq(|word|, i requires 0 <= i < |word| => ToLower(word[i]))
  }

  function Capitalised(word: Text): (r: Text)
    ensures |r| == |word|
  {
    seq(|word|, i requires 0 <= i < |word| => if i == 0 then ToUpper(word[i]) else ToLower(word[i]))
  }

  /** The words in one token, every word but the first with a capital. */
  function CamelCase(words: seq<Text>): Text {
    if words == [] then []
    else if |words| == 1 then Lowered(words[0])
    else CamelCase(words[..|words| - 1]) + Capitalised(words[|words| - 1])
  }

  lemma {:induction false} CamelCaseOfLonger(words: seq<Text>, c: char)
    requires words != [] && words[|words| - 1] != []
    ensures CamelCase(words[..|words| - 1] + [words[|words| - 1] + [c]]) == CamelCase(words) + [ToLower(c)]
  {
    var last := words[|words| - 1];
    var longer := words[..|words| - 1] + [last + [c]];
    assert longer[..|longer| - 1] == words[..|words| - 1];
    assert Lowered(last + [c]) == Lowered(last) + [ToLower(c)];
    assert Capitalised(last + [c]) == Capitalised(last) + [ToLower(c)];
    if |words| > 1 {
      assert CamelCase(longer) == CamelCase(words[..|words| - 1]) + (Capitalised(last) + [ToLower(c)]);
    }
  }

  lemma CamelCaseOfMore(words: seq<Text>, c: char)
    ensures CamelCase(words + [[c]]) == CamelCase(words) + [if words == [] then ToLower(c) else ToUpper(c)]
  {
    assert (words + [[c]])[..|words|] == words;
    assert Lowered([c]) == [ToLower(c)] && Capitalised([c]) == [ToUpper(c)];
  }

  lemma {:induction false} CamelCaseEmpty(words: seq<Text>)
    requires forall x :: x in words ==> x != []
    ensures CamelCase(words) == [] <==> words == []
  {
    if |words| > 1 {
      assert words[|words| - 1] in words;
    } else if |words| == 1 {
      assert words[0] in words;
    }
  }

  /** The positions of the letters and digits of a text. */
  function LettersAt(text: Text): (at: seq<nat>)
    ensures |at| <= |text| && forall k :: 0 <= k < |at| ==> at[k] < |text| && IsLetterOrNumber(text[at[k]])
  {
    if text == [] then []
    else
      var n := |text| - 1;
      LettersAt(text[..n]) + if IsLetterOrNumber(text[n]) then [n] else []
  }

  /** All of them, in order. */
  lemma {:induction false} LettersAll(text: Text)
    ensures forall k, l :: 0 <= k < l < |LettersAt(text)| ==> LettersAt(text)[k] < LettersAt(text)[l]
    ensures forall i :: 0 <= i < |text| && IsLetterOrNumber(text[i]) ==> i in LettersAt(text)
  {
    if text != [] {
      LettersAll(text[..|text| - 1]);
    }
  }

  /** The k-th of them in the case it gets: upper behind something else, except for the very first. */
  function Cased(text: Text, k: nat): char
    requires k < |LettersAt(text)|
  {
    var i := LettersAt(text)[k];
    if k > 0 && i > 0 && !IsLetterOrNumber(text[i - 1]) then Unicode.upper(text[i]) else Unicode.lower(text[i])
  }

  /** Character by character: the letters and digits of the text, in order, each in its case. */
  lemma {:induction false} CamelCaseAt(text: Text)
    ensures |CamelCase(Words(text))| == |LettersAt(text)|
    ensures forall k :: 0 <= k < |LettersAt(text)| ==> CamelCase(Words(text))[k] == Cased(text, k)
  {
    hide Words, CamelCase, Cased, IsLetterOrNumber;
    if text == [] {
      NoWords();
      CamelCaseEmpty([]);
    } else {
      var front, c := text[..|text| - 1], text[|text| - 1];
      assert text == front + [c];
      CamelCaseAt(front);
      CamelNext(front, c);
      CasedNext(front, c);
    }
  }

  lemma CamelNext(front: Text, c: char)
    requires |CamelCase(Words(front))| == |LettersAt(front)|
    ensures CamelCase(Words(front + [c])) ==
            CamelCase(Words(front)) +
            if !IsLetterOrNumber(c) then []
            else if LettersAt(front) != [] && !IsLetterOrNumber(front[|front| - 1]) then [Unicode.upper(c)]
            else [Unicode.lower(c)]
  {
    hide Words, CamelCase, IsLetterOrNumber, LettersAt;
    WordsStep(front, c);
    CamelCaseEmpty(Words(front));
    EndWord(front);
    if IsLetterOrNumber(c) {
      if front != [] && IsLetterOrNumber(front[|front| - 1]) {
        CamelCaseOfLonger(Words(front), c);
      } else {
        CamelCaseOfMore(Words(front), c);
      }
    }
  }

  lemma CasedNext(front: Text, c: char)
    ensures LettersAt(front + [c]) == LettersAt(front) + if IsLetterOrNumber(c) then [|front|] else []
    ensures forall k :: 0 <= k < |LettersAt(front)| ==> Cased(front + [c], k) == Cased(front, k)
    ensures IsLetterOrNumber(c) ==>
              Cased(front + [c], |LettersAt(front)|) ==
              if LettersAt(front) != [] && !IsLetterOrNumber(front[|front| - 1]) then Unicode.upper(c)
              else Unicode.lower(c)
  {
    hide IsLetterOrNumber, LettersAt;
    LettersNext(front, c);
    forall k | 0 <= k < |LettersAt(front)|
      ensures Cased(front + [c], k) == Cased(front, k)
    {
      CasedSame(front, c, k);
    }
  }

  lemma LettersNext(front: Text, c: char)
    ensures LettersAt(front + [c]) == LettersAt(front) + if IsLetterOrNumber(c) then [|front|] else []
  {
    assert (front + [c])[..|front|] == front;
  }

  lemma CasedSame(front: Text, c: char, k: nat)
    requires k < |LettersAt(front)| <= |LettersAt(front + [c])| && LettersAt(front + [c])[k] == LettersAt(front)[k]
    ensures Cased(front + [c], k) == Cased(front, k)
  {
    hide IsLetterOrNumber, LettersAt;
  }

  /** A text that ends in a letter or digit has a last word. */
  lemma EndWord(text: Text)
    ensures text != [] && IsLetterOrNumber(text[|text| - 1]) ==>
              Words(text) != [] && Words(text)[|Words(text)| - 1] != []
    ensures Words(text) != [] ==> Words(text)[|Words(text)| - 1] in Words(text)
  {
    if text != [] {
      WordsStep(text[..|text| - 1], text[|text| - 1]);
      assert text == text[..|text| - 1] + [text[|text| - 1]];
    }
  }

  /** `camelCase`: one pass over the characters. */
  method ToCamelCase(text: Text) returns (result: Text)
    ensures result == CamelCase(Words(text))
  {
    hide Words, CamelCase, LettersAt, IsLetterOrNumber, Cased;
    result := [];
    var capitalizeNext := false;
    NoWords();
    CamelCaseEmpty(Words([]));
    assert text[..0] == [];
    for i := 0 to |text|
      invariant result == CamelCase(Words(text[..i]))
      invariant result != [] ==> i > 0 && (capitalizeNext <==> !IsLetterOrNumber(text[i - 1]))
    {
      var c := text[i];
      assert text[..i + 1] == text[..i] + [c];
      CamelCaseAt(text[..i]);
      CamelNext(text[..i], c);
      if !IsLetterOrNumber(c) {
        capitalizeNext := true;
        continue;
      }
      result := result + [if capitalizeNext && result != [] then ToUpper(c) else ToLower(c)];
      capitalizeNext := false;
    }
    assert text[..|text|] == text;
  }

  /** An id base has letters and digits only; in particular no underscore. */
  lemma {:induction false} CamelCaseAlphanumeric(words: seq<Text>)
    requires forall x :: x in words ==> forall i :: 0 <= i < |x| ==> IsLetterOrNumber(x[i])
    ensures forall i :: 0 <= i < |CamelCase(words)| ==> IsLetterOrNumber(CamelCase(words)[i])
  {
    if words != [] {
      assert words[|words| - 1] in words;
      CamelCaseAlphanumeric(words[..|words| - 1]);
    }
  }

  // ---------------------------------------------------------------- numbering

  /** How often `base` stands in `bases`. */
  function Occurrences(bases: seq<Text>, base: Text): nat {
    if bases == [] then 0
    else Occurrences(bases[..|bases| - 1], base) + if bases[|bases| - 1] == base then 1 else 0
  }

  /** The id of the n-th entity with a base. */
  function IdOf(base: Text, n: nat): Text {
    if n > 1 then base + Decimal(n) else base
  }

  function Id(bases: seq<Text>, i: nat): Text
    requires i < |bases|
  {
    IdOf(bases[i], Occurrences(bases[..i], bases[i]) + 1)
  }

  /** `c` is `b` followed by a number: digits without a leading zero. */
  predicate Continues(b: Text, c: Text) {
    |b| < |c| && c[..|b|] == b && Digits(c[|b|..]) && c[|b|] != '0'
  }

  lemma SuffixShorter(b: Text, s: Text, c: Text, t: Text)
    requires b + s == c + t && |b| < |c| && Digits(s) && (s != [] ==> s[0] != '0')
    ensures Continues(b, c)
  {
    assert c == (b + s)[..|c|];
    assert c[..|b|] == b;
    assert c[|b|..] == s[..|c| - |b|];
    assert c[|b|] == s[0];
  }

  /** A number suffix: empty for the first entity with a base. */
  function Suffix(n: nat): (s: Text)
    ensures Digits(s) && (s != [] ==> s[0] != '0')
    ensures forall b: Text :: IdOf(b, n) == b + s
  {
    if n > 1 then Decimal(n)
    else
      (assert forall b: Text :: b + [] == b; [])
  }

  lemma ContinuesCollides(b: Text, c: Text) returns (m: nat, n: nat)
    requires Continues(b, c)
    ensures m > 0 && n > 0 && IdOf(b, m) == IdOf(c, n)
    ensures var v := Value(c[|b|..]); if v >= 2 then m == v && n == 1 else m == 12 && n == 2
  {
    var d := c[|b|..];
    DecimalOfValue(d);
    assert c == b + d;
    if Value(d) > 1 {
      m, n := Value(d), 1;
    } else {
      m, n := 12, 2;
      assert d == Decimal(1) == ['1'] && Decimal(12) == ['1', '2'] && Decimal(2) == ['2'];
      assert IdOf(b, 12) == b + ['1', '2'] == (b + ['1']) + ['2'];
    }
  }

  /** Two bases can ever give the same id exactly when one is the other followed by a number. */
  lemma BasesCollideIff(b: Text, c: Text)
    requires b != c
    ensures (exists m: nat, n: nat :: m > 0 && n > 0 && IdOf(b, m) == IdOf(c, n)) <==>
            Continues(b, c) || Continues(c, b)
  {
    if m: nat, n: nat :| m > 0 && n > 0 && IdOf(b, m) == IdOf(c, n) {
      SameIdContinues(b, m, c, n);
    }
    if Continues(b, c) {
      var m, n := ContinuesCollides(b, c);
    }
    if Continues(c, b) {
      var n, m := ContinuesCollides(c, b);
      assert IdOf(b, m) == IdOf(c, n);
    }
  }

  lemma SameIdContinues(b: Text, m: nat, c: Text, n: nat)
    requires b != c && IdOf(b, m) == IdOf(c, n)
    ensures Continues(b, c) || Continues(c, b)
  {
    var s, t := Suffix(m), Suffix(n);
    assert b + s == c + t;
    assert b == (b + s)[..|b|] && c == (c + t)[..|c|];
    if |b| < |c| {
      SuffixShorter(b, s, c, t);
    } else if |c| < |b| {
      SuffixShorter(c, t, b, s);
    }
  }

  lemma {:induction false} OccurrencesGrow(bases: seq<Text>, i: nat, j: nat)
    requires i < j <= |bases|
    ensures Occurrences(bases[..i], bases[i]) < Occurrences(bases[..j], bases[i])
    decreases j
  {
    assert bases[..j][..j - 1] == bases[..j - 1];
    if i < j - 1 {
      OccurrencesGrow(bases, i, j - 1);
    }
  }

  /** The n-th entity with a base. */
  lemma {:induction false} NthOccurrence(bases: seq<Text>, b: Text, n: nat) returns (i: nat)
    requires 0 < n <= Occurrences(bases, b)
    ensures i < |bases| && bases[i] == b && Occurrences(bases[..i], b) == n - 1 && Id(bases, i) == IdOf(b, n)
  {
    var front := bases[..|bases| - 1];
    if n <= Occurrences(front, b) {
      i := NthOccurrence(front, b, n);
      assert front[..i] == bases[..i];
    } else {
      i := |bases| - 1;
    }
  }

  /** A number before another makes it no smaller. */
  lemma {:induction false} LongerValue(s: Text, t: Text)
    requires Digits(s) && Digits(t)
    ensures Digits(s + t) && Value(s + t) >= Value(s)
  {
    if t == [] {
      assert s + t == s;
    } else {
      var front := t[..|t| - 1];
      LongerValue(s, front);
      assert (s + t)[..|s + t| - 1] == s + front;
    }
  }

  lemma {:induction false} OneBefore(n: nat)
    requires n > 0
    ensures Digits("1" + Decimal(n)) && Value("1" + Decimal(n)) >= 10 + n
  {
    var s := "1" + Decimal(n);
    if n < 10 {
      assert s[..1] == "1" && s[1] == DigitOf(n);
      assert Value("1") == 10 * Value("1"[..0]) + 1;
    } else {
      OneBefore(n / 10);
      assert s[..|s| - 1] == "1" + Decimal(n / 10);
      assert Value(s) == 10 * Value("1" + Decimal(n / 10)) + n % 10;
    }
  }

  /**
   Base `c` is base `b` followed by a number v, and the round has entities enough: v of base `b`, the
   last of which gets the id of the first with base `c`; or, when v is 1, twelve of base `b` and two of
   base `c`.
   */
  predicate Clashes(bases: seq<Text>, b: Text, c: Text) {
    && Continues(b, c) && c in bases
    && var v := Value(c[|b|..]);
       if v >= 2 then Occurrences(bases, b) >= v else Occurrences(bases, b) >= 12 && Occurrences(bases, c) >= 2
  }

  /** The smallest numbers that give the same id. */
  lemma ClashWitness(bases: seq<Text>, b: Text, c: Text) returns (m: nat, n: nat)
    requires Clashes(bases, b, c)
    ensures 0 < m <= Occurrences(bases, b) && 0 < n <= Occurrences(bases, c) && IdOf(b, m) == IdOf(c, n)
  {
    InBases(bases, c);
    m, n := ContinuesCollides(b, c);
  }

  lemma {:induction false} InBases(bases: seq<Text>, b: Text)
    requires b in bases
    ensures Occurrences(bases, b) > 0
  {
    if bases[|bases| - 1] != b {
      InBases(bases[..|bases| - 1], b);
    }
  }

  /** The number `m` that is `d` followed by the suffix of `n`: it is at least d, and at least 12 when d is 1. */
  lemma SuffixSplit(m: nat, d: Text, n: nat)
    requires m > 0 && n > 0 && d != [] && Digits(d) && d[0] != '0' && Suffix(m) == d + Suffix(n)
    ensures 0 < Value(d) <= m && (Value(d) == 1 ==> m >= 12 && n >= 2)
  {
    hide Decimal, Value, IdOf;
    SuffixNumber(m);
    LongerValue(d, Suffix(n));
    DecimalOfValue(d);
    if Value(d) == 1 {
      OneFirst(m, d, n);
    }
  }

  lemma OneFirst(m: nat, d: Text, n: nat)
    requires m > 0 && n > 0 && Value(Suffix(m)) == (if m > 1 then m else 0) && Digits(d) && Decimal(1) == d
    requires Suffix(m) == d + Suffix(n)
    ensures m >= 12 && n >= 2
  {
    assert d == "1";
    if n > 1 {
      OneBefore(n);
    }
  }

  /** The m-th entity of one base and the n-th of a longer one have the same id in clashing rounds only. */
  lemma SameIdClashes(bases: seq<Text>, b: Text, m: nat, c: Text, n: nat)
    requires 0 < m <= Occurrences(bases, b) && 0 < n <= Occurrences(bases, c) && c in bases
    requires |b| < |c| && IdOf(b, m) == IdOf(c, n)
    ensures Clashes(bases, b, c)
  {
    hide Decimal, Value, Occurrences, Continues, IdOf;
    assert b + Suffix(m) == c + Suffix(n);
    SuffixParts(b, Suffix(m), c, Suffix(n));
    SuffixSplit(m, c[|b|..], n);
  }

  lemma SuffixParts(b: Text, s: Text, c: Text, t: Text)
    requires b + s == c + t && |b| < |c| && Digits(s) && (s != [] ==> s[0] != '0')
    ensures Continues(b, c) && Digits(c[|b|..]) && c[|b|] != '0' && s == c[|b|..] + t
  {
    SuffixShorter(b, s, c, t);
    assert c == b + c[|b|..] && (b + s)[|b|..] == s && (c + t)[|b|..] == c[|b|..] + t;
  }

  /** The ids of a round are pairwise distinct exactly when no two of its bases clash. */
  lemma IdsDistinctIff(bases: seq<Text>)
    ensures (forall i, j :: 0 <= i < j < |bases| ==> Id(bases, i) != Id(bases, j)) <==>
            forall b, c :: b in bases && c in bases ==> !Clashes(bases, b, c)
  {
    hide Clashes, Id, IdOf;
    if b, c :| b in bases && c in bases && Clashes(bases, b, c) {
      var m, n := ClashWitness(bases, b, c);
      var i := NthOccurrence(bases, b, m);
      var j := NthOccurrence(bases, c, n);
      ClashLonger(bases, b, c);
    }
    forall i, j | 0 <= i < j < |bases| && Id(bases, i) == Id(bases, j)
      ensures Clashes(bases, bases[i], bases[j]) || Clashes(bases, bases[j], bases[i])
    {
      SameIdBases(bases, i, j);
    }
  }

  lemma ClashLonger(bases: seq<Text>, b: Text, c: Text)
    requires Clashes(bases, b, c)
    ensures b != c
  {
  }

  lemma SameIdBases(bases: seq<Text>, i: nat, j: nat)
    requires i < j < |bases| && Id(bases, i) == Id(bases, j)
    ensures Clashes(bases, bases[i], bases[j]) || Clashes(bases, bases[j], bases[i])
  {
    hide Clashes, Continues;
    var m, n := Occurrences(bases[..i], bases[i]) + 1, Occurrences(bases[..j], bases[j]) + 1;
    UpTo(bases, i);
    UpTo(bases, j);
    if |bases[i]| < |bases[j]| {
      SameIdClashes(bases, bases[i], m, bases[j], n);
    } else if |bases[j]| < |bases[i]| {
      SameIdClashes(bases, bases[j], n, bases[i], m);
    } else {
      SameBaseNumbers(bases, i, j);
    }
  }

  lemma UpTo(bases: seq<Text>, i: nat)
    requires i < |bases|
    ensures Occurrences(bases[..i], bases[i]) + 1 <= Occurrences(bases, bases[i])
  {
    OccurrencesGrow(bases, i, |bases|);
    assert bases[..|bases|] == bases;
  }

  /** Bases of the same length never give the same id. */
  lemma SameBaseNumbers(bases: seq<Text>, i: nat, j: nat)
    requires i < j < |bases| && |bases[i]| == |bases[j]|
    ensures Id(bases, i) != Id(bases, j)
  {
    hide Occurrences, IdOf;
    var m, n := Occurrences(bases[..i], bases[i]) + 1, Occurrences(bases[..j], bases[j]) + 1;
    if bases[i] == bases[j] {
      OccurrencesGrow(bases, i, j);
    }
    OtherNumber(bases[i], m, bases[j], n);
  }

  lemma OtherNumber(b: Text, m: nat, c: Text, n: nat)
    requires |b| == |c| && m > 0 && n > 0 && (b == c ==> m != n)
    ensures IdOf(b, m) != IdOf(c, n)
  {
    hide IdOf, Decimal;
    var s, t := Suffix(m), Suffix(n);
    assert (b + s)[..|b|] == b && (c + t)[..|c|] == c;
    assert (b + s)[|b|..] == s && (c + t)[|c|..] == t;
    SuffixNumber(m);
    SuffixNumber(n);
  }

  lemma SuffixNumber(n: nat)
    requires n > 0
    ensures Value(Suffix(n)) == if n > 1 then n else 0
  {
    ValueOfDecimal(n);
  }

  lemma WordsStep(text: Text, c: char)
    ensures var w := Words(text);
            Words(text + [c]) ==
            if !IsLetterOrNumber(c) then w
            else if text != [] && IsLetterOrNumber(text[|text| - 1]) && w != [] then w[..|w| - 1] + [w[|w| - 1] + [c]]
            else w + [[c]]
  {
    assert (text + [c])[..|text|] == text;
  }

  predicate Alphanumeric(x: Text) {
    forall i :: 0 <= i < |x| ==> IsLetterOrNumber(x[i])
  }

  lemma {:induction false} OneWord(x: Text)
    requires x != [] && Alphanumeric(x)
    ensures Words(x) == [x]
  {
    hide Words;
    var front, c := x[..|x| - 1], x[|x| - 1];
    assert x == front + [c];
    WordsStep(front, c);
    if front != [] {
      OneWord(front);
      assert [front][..0] == [];
    } else {
      NoWords();
    }
  }

  lemma NoWords()
    ensures Words([]) == []
  {
  }

  /** Two words with a character in between that is neither letter nor number. */
  lemma {:induction false} TwoWords(x: Text, sep: char, y: Text)
    requires x != [] && Alphanumeric(x) && !IsLetterOrNumber(sep) && Alphanumeric(y)
    ensures Words(x + [sep] + y) == if y == [] then [x] else [x, y]
  {
    hide Words, IsLetterOrNumber;
    if y == [] {
      assert x + [sep] + y == x + [sep];
      OneWord(x);
      WordsStep(x, sep);
    } else {
      var front, c := y[..|y| - 1], y[|y| - 1];
      assert x + [sep] + y == (x + [sep] + front) + [c];
      TwoWords(x, sep, front);
      WordsStep(x + [sep] + front, c);
      if front == [] {
        assert y == [c] && x + [sep] + front == x + [sep];
      } else {
        assert [x, front][..1] == [x] && y == front + [c];
      }
    }
  }

  lemma TwoCased(x: Text, c: char)
    requires IsDigit(c)
    ensures CamelCase([x]) == Lowered(x) && CamelCase([x, [c]]) == Lowered(x) + [c]
  {
    assert [x, [c]][..1] == [x];
    assert Capitalised([c]) == [c];
  }

  /** Two entities with the same name, "Temp" say, and one called "Temp 2": the last two get the same id. */
  lemma NamesThatClash(x: Text)
    requires x != [] && Alphanumeric(x)
    ensures var bases := [CamelCase(Words(x)), CamelCase(Words(x)), CamelCase(Words(x + [' '] + ['2']))];
            Id(bases, 1) == Id(bases, 2) == Lowered(x) + ['2']
  {
    hide Words, CamelCase, Lowered, Id;
    OneWord(x);
    TwoWords(x, ' ', ['2']);
    TwoCased(x, '2');
    ThirdClashes(Lowered(x), Lowered(x) + ['2']);
  }

  lemma ThirdClashes(b: Text, c: Text)
    requires c == b + ['2']
    ensures Id([b, b, c], 1) == Id([b, b, c], 2) == c
  {
    var bases := [b, b, c];
    assert bases[..1] == [b] && bases[..2] == [b] + [b] && ([b] + [b])[..1] == [b] && [b][..0] == [];
    assert Occurrences([b], b) == 1 && Occurrences([b], c) == 0 && Occurrences([b] + [b], c) == 0;
    assert Decimal(2) == ['2'];
  }
}
