/**
 The numbers of "special" entities: a persistent map from numbers to names, a set of the numbers
 used in the current round, and a second pass that gives common entities the numbers left over.
 */
module Slots {
  import opened Bytes
  import opened Order
  import opened Texts

  /** What an entity asks for: a stable number under its name, or any number (None). */
  type Ask = Option<Text>

  type SlotMap = map<int, Text>

  /** The state of the first pass: 0 stands for "left to the second pass". */
  datatype Alloc = Alloc(slots: SlotMap, used: set<int>, numbers: seq<int>)

  function Candidates(m: SlotMap, used: set<int>, name: Text): set<int> {
    set k | k in m && m[k] == name && k !in used
  }

  /** The first number, in map order, that the name holds and that is not used yet; 0 if none. */
  function Reserved(m: SlotMap, used: set<int>, name: Text): int {
    if Candidates(m, used, name) == {} then 0 else Least(Candidates(m, used, name))
  }

  function NumberFor(m: SlotMap, used: set<int>, name: Text): int {
    if Reserved(m, used, name) != 0 then Reserved(m, used, name) else FirstFree(m.Keys + used, 1)
  }

  function Give(a: Alloc, ask: Ask): Alloc {
    match ask
    case None => a.(numbers := a.numbers + [0])
    case Some(name) =>
      var n := NumberFor(a.slots, a.used, name);
      Alloc(a.slots[n := name], a.used + {n}, a.numbers + [n])
  }

  /** The first pass over a list of entities. */
  function FirstPass(a: Alloc, asks: seq<Ask>): Alloc {
    if asks == [] then a else Give(FirstPass(a, asks[..|asks| - 1]), asks[|asks| - 1])
  }

  /** One discovery round on the persistent map. */
  function Round(m: SlotMap, asks: seq<Ask>): Alloc {
    FirstPass(Alloc(m, {}, []), asks)
  }

  /** `quint8` of every number. */
  function Cast(numbers: seq<int>): (ids: seq<byte>)
    ensures |ids| == |numbers|
  {
    seq(|numbers|, i requires 0 <= i < |numbers| => numbers[i] % 0x100)
  }

  /** The second pass: every 0 gets the next number that is not used. */
  function Packed(ids: seq<int>, next: int, used: set<int>): (r: seq<int>)
    ensures |r| == |ids|
  {
    if ids == [] then []
    else if ids[0] != 0 then [ids[0]] + Packed(ids[1..], next, used)
    else
      var n := FirstFree(used, next);
      [n] + Packed(ids[1..], n + 1, used + {n})
  }

  /** The endpoint ids of a round. */
  function EndpointIds(m: SlotMap, asks: seq<Ask>): (ids: seq<byte>)
    ensures |ids| == |Round(m, asks).numbers|
  {
    Cast(Packed(Cast(Round(m, asks).numbers), 1, Round(m, asks).used))
  }

  // ---------------------------------------------------------------- the shape of the map

  /** The numbers in use are exactly 1..n. */
  predicate Contiguous(m: SlotMap) {
    m.Keys == Range(1, |m|)
  }

  /** 0 is not in use, and no number is behind the first free one; a database edited by hand may hold negative ones. */
  predicate Gapless(m: SlotMap) {
    0 !in m && forall k :: k in m ==> k < FirstFree(m.Keys, 1)
  }

  predicate Extends(m: SlotMap, m': SlotMap) {
    forall k :: k in m ==> k in m' && m'[k] == m[k]
  }

  /** New entries of `m'` have positive numbers. */
  predicate Grows(m: SlotMap, m': SlotMap) {
    Extends(m, m') && forall k :: k in m' && k !in m ==> k > 0
  }

  /** Without gaps and with positive numbers only: these are the maps with the numbers 1..n. */
  lemma ContiguousIff(m: SlotMap)
    ensures Contiguous(m) <==> Gapless(m) && forall k :: k in m ==> k > 0
    ensures Contiguous(m) ==> FirstFree(m.Keys, 1) == |m| + 1
  {
    var f := FirstFree(m.Keys, 1);
    assert |m| == |m.Keys|;
    if Contiguous(m) {
      assert |m| + 1 !in m.Keys && forall x :: x in m.Keys <==> 1 <= x <= |m|;
    }
    if Gapless(m) && forall k :: k in m ==> k > 0 {
      assert m.Keys == Range(1, f - 1);
    }
  }

  /** First fit on a map without gaps stops one behind its end. */
  lemma FirstFitAppends(m: SlotMap, used: set<int>)
    requires Contiguous(m) && used <= m.Keys
    ensures FirstFree(m.Keys + used, 1) == |m| + 1
  {
    assert m.Keys + used == m.Keys;
    ContiguousIff(m);
  }

  lemma GaplessAppend(m: SlotMap, name: Text)
    requires Gapless(m)
    ensures var f := FirstFree(m.Keys, 1);
            Gapless(m[f := name]) && Grows(m, m[f := name]) && (Contiguous(m) ==> Contiguous(m[f := name]))
  {
    hide Contiguous;
    var f := FirstFree(m.Keys, 1);
    var m' := m[f := name];
    NextFree(m.Keys);
    assert m'.Keys == m.Keys + {f};
    ContiguousIff(m);
    ContiguousIff(m');
  }

  /** Once the first free number is taken the next one is behind it. */
  lemma NextFree(s: set<int>)
    ensures FirstFree(s, 1) < FirstFree(s + {FirstFree(s, 1)}, 1)
  {
    var f' := FirstFree(s + {FirstFree(s, 1)}, 1);
    assert f' !in s;
  }

  // ---------------------------------------------------------------- the number of the j-th entity of a name

  /** The numbers below `k` that `name` holds. */
  function Before(m: SlotMap, name: Text, k: int): set<int> {
    set x | x in m && x < k && m[x] == name
  }

  /** `k` is the j-th smallest number that `name` holds. */
  predicate IsNth(m: SlotMap, name: Text, j: nat, k: int) {
    k in m && m[k] == name && |Before(m, name, k)| == j
  }

  /** How many of the asks are for `name`. */
  function Count(asks: seq<Ask>, name: Text): nat {
    if asks == [] then 0 else Count(asks[..|asks| - 1], name) + if asks[|asks| - 1] == Some(name) then 1 else 0
  }

  function UsedBy(a: Alloc, name: Text): set<int> {
    set k | k in a.used && k in a.slots && a.slots[k] == name
  }

  /** The used numbers are an initial part of each name's numbers. */
  predicate UsedInOrder(a: Alloc) {
    forall k, l :: k in a.used && l in a.slots && l < k && k in a.slots && a.slots[l] == a.slots[k] ==> l in a.used
  }

  /** Each name has as many used numbers as it has been asked for. */
  ghost predicate UsedOnce(a: Alloc, done: seq<Ask>) {
    forall name :: |UsedBy(a, name)| == Count(done, name)
  }

  /** Every ask for a name has got the number of its rank, every other ask 0. */
  predicate Ranked(a: Alloc, done: seq<Ask>) {
    && |a.numbers| == |done|
    && forall i :: 0 <= i < |done| ==> RankedAt(a, done, i)
  }

  predicate RankedAt(a: Alloc, done: seq<Ask>, i: nat)
    requires i < |a.numbers| == |done|
  {
    match done[i]
    case None => a.numbers[i] == 0
    case Some(name) => a.numbers[i] in a.used && IsNth(a.slots, name, Count(done[..i], name), a.numbers[i])
  }

  /** The first pass after `done`. */
  ghost predicate PassInv(a: Alloc, done: seq<Ask>) {
    Gapless(a.slots) && a.used <= a.slots.Keys && UsedInOrder(a) && UsedOnce(a, done) && Ranked(a, done)
  }

  /** Numbers already given keep their rank when the map grows at its end. */
  lemma NthStable(m: SlotMap, m': SlotMap, name: Text, j: nat, k: int)
    requires Gapless(m) && Grows(m, m') && IsNth(m, name, j, k)
    ensures IsNth(m', name, j, k)
  {
    assert forall x :: 1 <= x < k ==> x in m.Keys;
    assert Before(m', name, k) == Before(m, name, k);
  }

  lemma NthUnique(m: SlotMap, name: Text, j: nat, k: int, l: int)
    requires IsNth(m, name, j, k) && IsNth(m, name, j, l)
    ensures k == l
  {
    if k < l {
      SubsetSize(Before(m, name, k) + {k}, Before(m, name, l));
    } else if l < k {
      SubsetSize(Before(m, name, l) + {l}, Before(m, name, k));
    }
  }

  lemma ReservedStep(a: Alloc, done: seq<Ask>, name: Text)
    requires PassInv(a, done) && Candidates(a.slots, a.used, name) != {}
    ensures var n := NumberFor(a.slots, a.used, name);
            n in a.slots && n !in a.used && a.slots[n] == name && n != 0
            && Before(a.slots, name, n) == UsedBy(a, name)
  {
    var n := Least(Candidates(a.slots, a.used, name));
    forall x | x in Before(a.slots, name, n)
      ensures x in a.used
    {
      assert x !in Candidates(a.slots, a.used, name);
    }
    assert Before(a.slots, name, n) == UsedBy(a, name);
  }

  lemma NewStep(a: Alloc, done: seq<Ask>, name: Text)
    requires PassInv(a, done) && Candidates(a.slots, a.used, name) == {}
    ensures var n := NumberFor(a.slots, a.used, name);
            n == FirstFree(a.slots.Keys, 1) && n !in a.slots
            && Before(a.slots[n := name], name, n) == UsedBy(a, name)
  {
    assert a.slots.Keys + a.used == a.slots.Keys;
    var n := FirstFree(a.slots.Keys, 1);
    forall k | k in a.slots && a.slots[k] == name
      ensures k in a.used
    {
      assert k !in Candidates(a.slots, a.used, name);
    }
    assert Before(a.slots[n := name], name, n) == UsedBy(a, name);
  }

  /** `b` is `a` after the number `n`, free so far, has been taken for `name`. */
  predicate Taken(a: Alloc, b: Alloc, name: Text, n: int) {
    && b == Alloc(a.slots[n := name], a.used + {n}, a.numbers + [n])
    && n !in a.used && (n in a.slots ==> a.slots[n] == name)
    && Before(b.slots, name, n) == UsedBy(a, name)
  }

  lemma TakenUsedOnce(a: Alloc, b: Alloc, done: seq<Ask>, name: Text, n: int)
    requires UsedOnce(a, done) && Taken(a, b, name, n)
    ensures UsedOnce(b, done + [Some(name)])
  {
    var done' := done + [Some(name)];
    assert done'[..|done|] == done;
    forall other: Text
      ensures |UsedBy(b, other)| == Count(done', other)
    {
      if other == name {
        assert UsedBy(b, other) == UsedBy(a, other) + {n};
      } else {
        assert UsedBy(b, other) == UsedBy(a, other);
      }
    }
  }

  lemma TakenInOrder(a: Alloc, b: Alloc, name: Text, n: int)
    requires UsedInOrder(a) && a.used <= a.slots.Keys && Taken(a, b, name, n)
    requires n in a.slots || forall k :: k in a.slots ==> k < n
    ensures UsedInOrder(b)
  {
    forall k, l | k in b.used && l in b.slots && l < k && k in b.slots && b.slots[l] == b.slots[k]
      ensures l in b.used
    {
      if k == n {
        assert l in Before(b.slots, name, n);
      }
    }
  }

  lemma TakenRanked(a: Alloc, b: Alloc, done: seq<Ask>, name: Text, n: int)
    requires Ranked(a, done) && UsedOnce(a, done) && Taken(a, b, name, n)
    requires Gapless(a.slots) && Grows(a.slots, b.slots)
    ensures Ranked(b, done + [Some(name)])
  {
    var done' := done + [Some(name)];
    forall i | 0 <= i < |done'|
      ensures RankedAt(b, done', i)
    {
      if i < |done| {
        assert done'[..i] == done[..i] && RankedAt(a, done, i);
        if done[i].Some? {
          NthStable(a.slots, b.slots, done[i].value, Count(done[..i], done[i].value), a.numbers[i]);
        }
      } else {
        assert done'[..i] == done;
      }
    }
  }

  lemma TakenKeeps(a: Alloc, done: seq<Ask>, name: Text)
    requires PassInv(a, done)
    ensures PassInv(Give(a, Some(name)), done + [Some(name)]) && Grows(a.slots, Give(a, Some(name)).slots)
    ensures Taken(a, Give(a, Some(name)), name, NumberFor(a.slots, a.used, name))
    ensures Contiguous(a.slots) ==> Contiguous(Give(a, Some(name)).slots)
  {
    var b, n := Give(a, Some(name)), NumberFor(a.slots, a.used, name);
    if Candidates(a.slots, a.used, name) != {} {
      ReservedStep(a, done, name);
      assert a.slots[n := name] == a.slots;
    } else {
      NewStep(a, done, name);
      GaplessAppend(a.slots, name);
    }
    TakenUsedOnce(a, b, done, name, n);
    TakenInOrder(a, b, name, n);
    TakenRanked(a, b, done, name, n);
  }

  lemma SkipKeeps(a: Alloc, done: seq<Ask>)
    requires PassInv(a, done)
    ensures PassInv(Give(a, None), done + [None])
  {
    var b, done' := Give(a, None), done + [None];
    assert done'[..|done|] == done;
    forall name: Text
      ensures |UsedBy(b, name)| == Count(done', name)
    {
      assert UsedBy(b, name) == UsedBy(a, name);
    }
    forall i | 0 <= i < |done'|
      ensures RankedAt(b, done', i)
    {
      if i < |done| {
        assert done'[..i] == done[..i] && RankedAt(a, done, i);
      }
    }
  }

  lemma {:induction false} FirstPassInv(m: SlotMap, asks: seq<Ask>)
    requires Gapless(m)
    ensures PassInv(Round(m, asks), asks) && Grows(m, Round(m, asks).slots)
    ensures Contiguous(m) ==> Contiguous(Round(m, asks).slots)
  {
    if asks == [] {
      forall name: Text
        ensures |UsedBy(Round(m, asks), name)| == Count(asks, name)
      {
        assert UsedBy(Round(m, asks), name) == {};
      }
    } else {
      var done := asks[..|asks| - 1];
      FirstPassInv(m, done);
      match asks[|asks| - 1] {
        case None => SkipKeeps(Round(m, done), done);
        case Some(name) => TakenKeeps(Round(m, done), done, name);
      }
      assert done + [asks[|asks| - 1]] == asks;
    }
  }

  /** A round keeps the map without gaps, changes no entry, and uses only numbers of the map. */
  lemma RoundShape(m: SlotMap, asks: seq<Ask>)
    requires Contiguous(m)
    ensures Contiguous(Round(m, asks).slots) && Extends(m, Round(m, asks).slots)
    ensures Round(m, asks).used <= Round(m, asks).slots.Keys
  {
    ContiguousIff(m);
    FirstPassInv(m, asks);
  }

  /** The j-th ask for a name gets the j-th smallest number the name holds after the round. */
  lemma NthAskGetsNthNumber(m: SlotMap, asks: seq<Ask>, i: nat)
    requires Gapless(m) && i < |asks| && asks[i].Some?
    ensures |Round(m, asks).numbers| == |asks|
    ensures IsNth(Round(m, asks).slots, asks[i].value, Count(asks[..i], asks[i].value), Round(m, asks).numbers[i])
  {
    FirstPassInv(m, asks);
    assert RankedAt(Round(m, asks), asks, i);
  }

  // ---------------------------------------------------------------- stability over every run

  /** The map after any number of rounds. */
  function After(m: SlotMap, rounds: seq<seq<Ask>>): SlotMap {
    if rounds == [] then m
    else Round(After(m, rounds[..|rounds| - 1]), rounds[|rounds| - 1]).slots
  }

  lemma {:induction false} AfterShape(m: SlotMap, rounds: seq<seq<Ask>>, r: nat)
    requires Gapless(m) && r <= |rounds|
    ensures Gapless(After(m, rounds)) && Gapless(After(m, rounds[..r]))
    ensures Grows(After(m, rounds[..r]), After(m, rounds))
    decreases |rounds|
  {
    if |rounds| == 0 {
      assert rounds[..r] == rounds;
    } else {
      var most := rounds[..|rounds| - 1];
      AfterShape(m, most, 0);
      FirstPassInv(After(m, most), rounds[|rounds| - 1]);
      if r < |rounds| {
        AfterShape(m, most, r);
        assert most[..r] == rounds[..r];
      } else {
        assert rounds[..r] == rounds;
      }
    }
  }

  /** The number round `r` gives to its entity `i`. */
  function NumberIn(m: SlotMap, rounds: seq<seq<Ask>>, r: nat, i: nat): int
    requires r < |rounds|
  {
    var numbers := Round(After(m, rounds[..r]), rounds[r]).numbers;
    if i < |numbers| then numbers[i] else 0
  }

  lemma NumberInIsNth(m: SlotMap, rounds: seq<seq<Ask>>, r: nat, i: nat)
    requires Gapless(m) && r < |rounds| && i < |rounds[r]| && rounds[r][i].Some?
    ensures IsNth(After(m, rounds), rounds[r][i].value, Count(rounds[r][..i], rounds[r][i].value),
                  NumberIn(m, rounds, r, i))
  {
    var before := After(m, rounds[..r]);
    AfterShape(m, rounds, r);
    AfterShape(m, rounds, r + 1);
    assert rounds[..r + 1][..r] == rounds[..r];
    FirstPassInv(before, rounds[r]);
    NthAskGetsNthNumber(before, rounds[r], i);
    NthStable(Round(before, rounds[r]).slots, After(m, rounds), rounds[r][i].value,
              Count(rounds[r][..i], rounds[r][i].value), NumberIn(m, rounds, r, i));
  }

  /**
   Two special entities of any two rounds get the same number exactly when they have the same name
   and the same rank among the entities of that name: numbers are stable and never change hands.
   */
  lemma SameNumberIff(m: SlotMap, rounds: seq<seq<Ask>>, r: nat, i: nat, s: nat, j: nat)
    requires Gapless(m)
    requires r < |rounds| && i < |rounds[r]| && rounds[r][i].Some?
    requires s < |rounds| && j < |rounds[s]| && rounds[s][j].Some?
    ensures NumberIn(m, rounds, r, i) == NumberIn(m, rounds, s, j) <==>
            && rounds[r][i] == rounds[s][j]
            && Count(rounds[r][..i], rounds[r][i].value) == Count(rounds[s][..j], rounds[s][j].value)
  {
    NumberInIsNth(m, rounds, r, i);
    NumberInIsNth(m, rounds, s, j);
    if rounds[r][i] == rounds[s][j] &&
       Count(rounds[r][..i], rounds[r][i].value) == Count(rounds[s][..j], rounds[s][j].value) {
      NthUnique(After(m, rounds), rounds[r][i].value, Count(rounds[r][..i], rounds[r][i].value),
                NumberIn(m, rounds, r, i), NumberIn(m, rounds, s, j));
    }
  }

  /**
   The same over any history of the map: once it has grown from a round on `m`, whatever happened in
   between, a later round gives two entities the same number exactly when name and rank agree.
   */
  lemma SameNumberLaterIff(m: SlotMap, asks: seq<Ask>, i: nat, m': SlotMap, asks': seq<Ask>, j: nat)
    requires Contiguous(m) && Contiguous(m') && Extends(Round(m, asks).slots, m')
    requires i < |asks| && asks[i].Some? && j < |asks'| && asks'[j].Some?
    ensures |Round(m, asks).numbers| == |asks| && |Round(m', asks').numbers| == |asks'|
    ensures Round(m, asks).numbers[i] == Round(m', asks').numbers[j] <==>
            asks[i] == asks'[j] && Count(asks[..i], asks[i].value) == Count(asks'[..j], asks'[j].value)
  {
    var last := Round(m', asks').slots;
    ContiguousIff(m);
    ContiguousIff(m');
    FirstPassInv(m, asks);
    FirstPassInv(m', asks');
    ContiguousIff(last);
    NthAskGetsNthNumber(m, asks, i);
    NthAskGetsNthNumber(m', asks', j);
    NthStable(Round(m, asks).slots, last, asks[i].value, Count(asks[..i], asks[i].value), Round(m, asks).numbers[i]);
    if asks[i] == asks'[j] && Count(asks[..i], asks[i].value) == Count(asks'[..j], asks'[j].value) {
      NthUnique(last, asks[i].value, Count(asks[..i], asks[i].value),
                Round(m, asks).numbers[i], Round(m', asks').numbers[j]);
    }
  }

  /** A map with a gap loses this: the first "A" gets 2, then 1 once a second "A" has filled the gap. */
  lemma GapMovesNumbers(name: Text)
    ensures
      var m: SlotMap := map[2 := name];
      Round(m, [Some(name)]).numbers == [2]
          && Round(Round(m, [Some(name), Some(name)]).slots, [Some(name)]).numbers == [1]
  {
    var m: SlotMap := map[2 := name];
    assert Candidates(m, {}, name) == {2};
    assert Candidates(m, {2}, name) == {};
    var one, two := [Some(name)], [Some(name), Some(name)];
    assert one[..0] == [] && two[..1] == one;
    assert FirstPass(Alloc(m, {}, []), []) == Alloc(m, {}, []);
    assert Round(m, one) == Alloc(m[2 := name], {2}, [2]);
    assert m[2 := name] == m;
    assert FirstFree(m.Keys + {2}, 1) == 1;
    assert Round(m, two) == Give(Round(m, one), Some(name));
    var m' := m[1 := name];
    assert Round(m, two).slots == m';
    assert Candidates(m', {}, name) == {1, 2};
    assert FirstPass(Alloc(m', {}, []), one[..0]) == Alloc(m', {}, []);
    assert Round(m', one) == Give(Alloc(m', {}, []), Some(name));
  }

  // ---------------------------------------------------------------- stability needs a map without gaps

  /** The numbers that `name` holds. */
  function Held(m: SlotMap, name: Text): set<int> {
    set k | k in m && m[k] == name
  }

  function Repeated(name: Text, n: nat): (asks: seq<Ask>)
    ensures |asks| == n && forall i :: 0 <= i < n ==> asks[i] == Some(name)
  {
    seq(n, i => Some(name))
  }

  /** After `n` asks for a name that holds as many numbers: the n smallest are used, in order. */
  ghost predicate TakenInTurn(m: SlotMap, name: Text, a: Alloc, n: nat) {
    && a.slots == m && |a.used| == n && a.used <= Held(m, name) && |a.numbers| == n
    && (forall k, l :: k in a.used && l in Held(m, name) && l < k ==> l in a.used)
    && (forall i :: 0 <= i < n ==> IsNth(m, name, i, a.numbers[i]))
  }

  lemma TurnStep(m: SlotMap, name: Text, a: Alloc, n: nat)
    requires TakenInTurn(m, name, a, n) && n < |Held(m, name)|
    requires 0 in Held(m, name) ==> n < |Before(m, name, 0)|
    ensures TakenInTurn(m, name, Give(a, Some(name)), n + 1)
  {
    var rest := Candidates(m, a.used, name);
    assert rest == Held(m, name) - a.used;
    SubsetSize(Held(m, name), a.used + rest);
    assert rest == {} ==> a.used + rest == a.used;
    TurnNext(m, name, a, n);
    var c := Least(rest);
    assert NumberFor(m, a.used, name) == c && m[c := name] == m;
  }

  /** The used numbers are those below the next one. */
  lemma TurnNext(m: SlotMap, name: Text, a: Alloc, n: nat)
    requires TakenInTurn(m, name, a, n) && Candidates(m, a.used, name) != {}
    ensures Before(m, name, Least(Candidates(m, a.used, name))) == a.used
  {
    var c := Least(Candidates(m, a.used, name));
    forall x | x in Before(m, name, c)
      ensures x in a.used
    {
      assert x in Held(m, name) && (x !in a.used ==> x in Candidates(m, a.used, name));
    }
  }

  lemma {:induction false} InTurn(m: SlotMap, name: Text, n: nat)
    requires n <= |Held(m, name)| && (0 in Held(m, name) ==> n <= |Before(m, name, 0)|)
    ensures TakenInTurn(m, name, Round(m, Repeated(name, n)), n)
  {
    hide TakenInTurn, Give;
    if n == 0 {
      NoTurns(m, name);
    } else {
      InTurn(m, name, n - 1);
      TurnStep(m, name, Round(m, Repeated(name, n - 1)), n - 1);
      assert Repeated(name, n)[..n - 1] == Repeated(name, n - 1);
    }
  }

  lemma NoTurns(m: SlotMap, name: Text)
    ensures TakenInTurn(m, name, Round(m, Repeated(name, 0)), 0)
  {
  }

  /** One ask more than the name holds takes the first number that is free, gap or not. */
  lemma OneTooMany(m: SlotMap, name: Text)
    requires 0 !in Held(m, name)
    ensures var n, a := |Held(m, name)|, Round(m, Repeated(name, |Held(m, name)| + 1));
            && a.slots == m[FirstFree(m.Keys, 1) := name] && |a.numbers| == n + 1
            && forall i :: 0 <= i < n ==> IsNth(m, name, i, a.numbers[i])
  {
    var n := |Held(m, name)|;
    InTurn(m, name, n);
    var a := Round(m, Repeated(name, n));
    SubsetSize(a.used, Held(m, name));
    assert Repeated(name, n + 1)[..n] == Repeated(name, n);
    assert Candidates(m, a.used, name) == {} && m.Keys + a.used == m.Keys;
  }

  /** With `k` behind a gap, two rounds of as many asks as this move the number of its rank. */
  lemma GapMoves(m: SlotMap, k: int)
    requires 0 !in m && k in m && FirstFree(m.Keys, 1) < k
    ensures var name, j := m[k], |Before(m, m[k], k)|;
            var asks := Repeated(name, |Held(m, name)| + 1);
            && j < |asks| && asks[j] == Some(name)
            && NumberIn(m, [asks, asks], 0, j) == k && NumberIn(m, [asks, asks], 1, j) != k
  {
    hide Round, Repeated;
    var name, j, f := m[k], |Before(m, m[k], k)|, FirstFree(m.Keys, 1);
    var asks, m' := Repeated(name, |Held(m, name)| + 1), m[f := name];
    RankBelow(m, name, k);
    OneTooMany(m, name);
    assert Held(m', name) == Held(m, name) + {f} && f !in Held(m, name);
    InTurn(m', name, |asks|);
    assert [asks, asks][..0] == [] && [asks, asks][..1] == [asks] && [asks][..0] == [];
    assert After(m, [asks]) == Round(m, asks).slots == m';
    NthUnique(m, name, j, k, Round(m, asks).numbers[j]);
    assert Before(m', name, k) == Before(m, name, k) + {f};
  }

  lemma RankBelow(m: SlotMap, name: Text, k: int)
    requires k in m && m[k] == name
    ensures |Before(m, name, k)| < |Held(m, name)|
  {
    SubsetSize(Before(m, name, k) + {k}, Held(m, name));
  }

  /** A number 0 in the map is never reused: the entity of its rank gets a new number in every round. */
  lemma ZeroMoves(m: SlotMap)
    requires 0 in m
    ensures var name, j := m[0], |Before(m, m[0], 0)|;
            var asks := Repeated(name, j + 1);
            NumberIn(m, [asks, asks], 0, j) == FirstFree(m.Keys, 1) < NumberIn(m, [asks, asks], 1, j)
  {
    hide Round, Repeated;
    var name, j, f := m[0], |Before(m, m[0], 0)|, FirstFree(m.Keys, 1);
    var asks, m' := Repeated(name, j + 1), m[f := name];
    ZeroTurn(m, name);
    assert Before(m', name, 0) == Before(m, name, 0);
    ZeroTurn(m', name);
    assert [asks, asks][..0] == [] && [asks, asks][..1] == [asks] && [asks][..0] == [];
    assert After(m, [asks]) == Round(m, asks).slots == m';
    assert m'.Keys == m.Keys + {f};
    NextFree(m.Keys);
  }

  /** When all numbers below it are used, 0 is passed over for the first free number. */
  lemma ZeroTurn(m: SlotMap, name: Text)
    requires 0 in m && m[0] == name
    ensures var j, f := |Before(m, name, 0)|, FirstFree(m.Keys, 1);
            var a := Round(m, Repeated(name, j + 1));
            a.slots == m[f := name] && |a.numbers| == j + 1 && a.numbers[j] == f
  {
    var j := |Before(m, name, 0)|;
    RankBelow(m, name, 0);
    InTurn(m, name, j);
    var a := Round(m, Repeated(name, j));
    assert Repeated(name, j + 1)[..j] == Repeated(name, j);
    UsedBelow(m, name, a);
    assert 0 in Candidates(m, a.used, name);
    assert m.Keys + a.used == m.Keys;
  }

  lemma UsedBelow(m: SlotMap, name: Text, a: Alloc)
    requires 0 in m && m[0] == name && TakenInTurn(m, name, a, |Before(m, name, 0)|)
    ensures a.used == Before(m, name, 0)
  {
    var b := Before(m, name, 0);
    if x :| x in a.used && x >= 0 {
      forall y | y in b + {0}
        ensures y in a.used
      {
        assert y in Held(m, name);
      }
      SubsetSize(b + {0}, a.used);
    }
    SubsetSize(a.used, b);
  }

  /** What stability means: over every sequence of rounds, same number if and only if same name and rank. */
  ghost predicate Stable(m: SlotMap) {
    forall rounds: seq<seq<Ask>>, r: nat, i: nat, s: nat, j: nat ::
      r < |rounds| && i < |rounds[r]| && rounds[r][i].Some? && s < |rounds| && j < |rounds[s]| && rounds[s][j].Some? ==>
        (NumberIn(m, rounds, r, i) == NumberIn(m, rounds, s, j) <==>
         && rounds[r][i] == rounds[s][j]
         && Count(rounds[r][..i], rounds[r][i].value) == Count(rounds[s][..j], rounds[s][j].value))
  }

  /**
   A map gives stable numbers exactly when 0 is not in use and no number is behind the first free one;
   of the maps with positive numbers these are the ones with the numbers 1..n (`ContiguousIff`).
   */
  lemma StableIff(m: SlotMap)
    ensures Stable(m) <==> Gapless(m)
  {
    hide NumberIn, Gapless;
    if Gapless(m) {
      forall rounds: seq<seq<Ask>>, r: nat, i: nat, s: nat, j: nat
        | r < |rounds| && i < |rounds[r]| && rounds[r][i].Some? && s < |rounds| && j < |rounds[s]| && rounds[s][j].Some?
        ensures NumberIn(m, rounds, r, i) == NumberIn(m, rounds, s, j) <==>
                && rounds[r][i] == rounds[s][j]
                && Count(rounds[r][..i], rounds[r][i].value) == Count(rounds[s][..j], rounds[s][j].value)
      {
        SameNumberIff(m, rounds, r, i, s, j);
      }
    } else {
      var asks, j := Moves(m);
      var rounds := [asks, asks];
      assert NumberIn(m, rounds, 0, j) != NumberIn(m, rounds, 1, j) && rounds[0][j] == rounds[1][j];
    }
  }

  /** In any other map some round, performed twice, moves a number. */
  lemma Moves(m: SlotMap) returns (asks: seq<Ask>, j: nat)
    requires !Gapless(m)
    ensures j < |asks| && asks[j].Some?
    ensures NumberIn(m, [asks, asks], 0, j) != NumberIn(m, [asks, asks], 1, j)
  {
    hide NumberIn;
    if 0 in m {
      ZeroMoves(m);
      j := |Before(m, m[0], 0)|;
      asks := Repeated(m[0], j + 1);
    } else {
      var k :| k in m && FirstFree(m.Keys, 1) <= k;
      assert k != FirstFree(m.Keys, 1);
      GapMoves(m, k);
      j := |Before(m, m[k], k)|;
      asks := Repeated(m[k], |Held(m, m[k])| + 1);
    }
  }

  // ---------------------------------------------------------------- the ids of a round

  /** The second pass keeps what is not 0 and gives new, unused, increasing numbers to the rest. */
  lemma {:induction false} PackedNew(ids: seq<int>, next: int, used: set<int>)
    requires next >= 1
    ensures forall i :: 0 <= i < |ids| && ids[i] != 0 ==> Packed(ids, next, used)[i] == ids[i]
    ensures forall i :: 0 <= i < |ids| && ids[i] == 0 ==>
              next <= Packed(ids, next, used)[i] && Packed(ids, next, used)[i] !in used
    ensures forall i, j :: 0 <= i < j < |ids| && ids[i] == 0 && ids[j] == 0 ==>
              Packed(ids, next, used)[i] < Packed(ids, next, used)[j]
    decreases |ids|
  {
    if ids != [] {
      var n := FirstFree(used, next);
      var all, rest := Packed(ids, next, used), ids[1..];
      assert forall i :: 0 < i < |ids| ==> ids[i] == rest[i - 1];
      if ids[0] != 0 {
        PackedNew(rest, next, used);
        assert all == [ids[0]] + Packed(rest, next, used);
      } else {
        PackedNew(rest, n + 1, used + {n});
        assert all == [n] + Packed(rest, n + 1, used + {n});
      }
    }
  }

  function Zeros(ids: seq<int>): nat {
    if ids == [] then 0 else Zeros(ids[1..]) + if ids[0] == 0 then 1 else 0
  }

  /** Below the number the second pass goes on from everything is used, so its numbers stay small. */
  lemma {:induction false} PackedBound(ids: seq<int>, next: int, used: set<int>)
    requires next >= 1 && Range(1, next - 1) <= used
    ensures forall i :: 0 <= i < |ids| && ids[i] == 0 ==> Packed(ids, next, used)[i] <= |used| + Zeros(ids)
    decreases |ids|
  {
    if ids != [] {
      if ids[0] != 0 {
        PackedBound(ids[1..], next, used);
      } else {
        var n := FirstFree(used, next);
        forall x | x in Range(1, n)
          ensures x in used + {n}
        {
          assert x < next ==> x in Range(1, next - 1);
        }
        SubsetSize(Range(1, n - 1), used);
        PackedBound(ids[1..], n + 1, used + {n});
      }
      assert forall i :: 0 < i < |ids| ==> ids[i] == ids[1..][i - 1];
      assert forall i :: 0 < i < |ids| ==> Packed(ids, next, used)[i] == Packed(ids, next, used)[1..][i - 1];
    }
  }

  lemma {:induction false} ZerosSnoc(ids: seq<int>, n: int)
    ensures Zeros(ids + [n]) == Zeros(ids) + if n == 0 then 1 else 0
  {
    if ids != [] {
      assert (ids + [n])[1..] == ids[1..] + [n];
      ZerosSnoc(ids[1..], n);
    }
  }

  /**
   Exactly the special entities have a number, no two the same; used numbers and common entities add
   up to all.
   */
  ghost predicate Counted(a: Alloc, done: seq<Ask>) {
    && |a.used| + Zeros(a.numbers) == |done| == |a.numbers|
    && (forall i :: 0 <= i < |done| ==> (a.numbers[i] == 0 <==> done[i].None?))
    && (forall i :: 0 <= i < |done| ==> a.numbers[i] != 0 ==> a.numbers[i] in a.used)
    && (forall i, j :: 0 <= i < j < |done| && a.numbers[i] != 0 ==> a.numbers[i] != a.numbers[j])
  }

  lemma CountedStep(a: Alloc, done: seq<Ask>, name: Text, n: int)
    requires Counted(a, done) && n != 0 && n !in a.used
    ensures Counted(Alloc(a.slots[n := name], a.used + {n}, a.numbers + [n]), done + [Some(name)])
    ensures Counted(a.(numbers := a.numbers + [0]), done + [None])
  {
    ZerosSnoc(a.numbers, n);
    ZerosSnoc(a.numbers, 0);
  }

  /** This holds on every map, with gaps or without. */
  lemma {:induction false} RoundCounted(m: SlotMap, asks: seq<Ask>)
    ensures Counted(Round(m, asks), asks)
  {
    if asks != [] {
      var done, last := asks[..|asks| - 1], asks[|asks| - 1];
      var a := Round(m, done);
      RoundCounted(m, done);
      assert done + [last] == asks;
      var name := if last.Some? then last.value else "";
      hide Counted;
      CountedStep(a, done, name, NumberFor(a.slots, a.used, name));
    }
  }

  lemma SpecialCastIff(numbers: seq<int>, used: set<int>, i: nat)
    requires i < |numbers| && numbers[i] != 0
    ensures Cast(Packed(Cast(numbers), 1, used))[i] == numbers[i] <==> 1 <= numbers[i] <= 0xFF
  {
    PackedNew(Cast(numbers), 1, used);
  }

  /** The cast of a special entity's number is that number exactly when it fits eight bits. */
  lemma SpecialIdIff(m: SlotMap, asks: seq<Ask>, i: nat)
    requires i < |asks| && asks[i].Some?
    ensures |EndpointIds(m, asks)| == |asks| == |Round(m, asks).numbers|
    ensures EndpointIds(m, asks)[i] == Round(m, asks).numbers[i] <==> 1 <= Round(m, asks).numbers[i] <= 0xFF
  {
    RoundCounted(m, asks);
    SpecialCastIff(Round(m, asks).numbers, Round(m, asks).used, i);
  }

  /**
   The 256th number is cast to 0, which stands for a common entity: the id is the first number not used
   in this round, which here is that of another name.
   */
  lemma NumberTooLarge(m: SlotMap, name: Text)
    requires m.Keys == Range(1, 0xFF) && forall k :: k in m ==> m[k] != name
    ensures Round(m, [Some(name)]).numbers == [0x100] && EndpointIds(m, [Some(name)]) == [1] && m[1] != name
  {
    hide Packed, FirstFree, NumberFor, Cast;
    var a, one := Alloc(m, {}, []), [Some(name)];
    assert one[..0] == [] && FirstPass(a, []) == a;
    NewNumber(m, name);
    assert Round(m, one) == Give(a, Some(name));
    assert 1 in m.Keys;
    OnlyTooLarge(0x100);
  }

  lemma NewNumber(m: SlotMap, name: Text)
    requires m.Keys == Range(1, 0xFF) && forall k :: k in m ==> m[k] != name
    ensures NumberFor(m, {}, name) == 0x100
  {
    assert Candidates(m, {}, name) == {} && m.Keys + {} == m.Keys && 0x100 !in m.Keys;
  }

  lemma OnlyTooLarge(n: int)
    requires n == 0x100
    ensures Cast(Packed(Cast([n]), 1, {n})) == [1]
  {
    assert Cast([n]) == [0];
    assert FirstFree({n}, 1) == 1;
    PackedOne({n});
  }

  /** A name asked for once that holds one number gets it, as its id too. */
  lemma OnlyNumber(m: SlotMap, name: Text, k: int)
    requires Held(m, name) == {k} && 1 <= k <= 0xFF
    ensures Round(m, [Some(name)]).numbers == [k] && EndpointIds(m, [Some(name)]) == [k] && Fits(m, [Some(name)])
  {
    hide Packed, FirstFree, Cast;
    var a, one := Alloc(m, {}, []), [Some(name)];
    assert one[..0] == [] && FirstPass(a, []) == a;
    assert Candidates(m, {}, name) == {k};
    assert Round(m, one) == Give(a, Some(name));
    assert Round(m, one).numbers == [k] && Round(m, one).used == {k};
    OnlySmall(k);
  }

  lemma OnlySmall(k: int)
    requires 1 <= k <= 0xFF
    ensures Cast(Packed(Cast([k]), 1, {k})) == [k]
  {
    assert Cast([k]) == [k] && [k][1..] == [];
    assert Packed([k], 1, {k}) == [k] + Packed([], 1, {k});
  }

  lemma PackedOne(used: set<int>)
    ensures Packed([0], 1, used) == [FirstFree(used, 1)]
  {
    assert [0][1..] == [];
  }

  lemma CastSame(ids: seq<int>)
    requires forall i :: 0 <= i < |ids| ==> 0 <= ids[i] <= 0xFF
    ensures Cast(ids) == ids
  {
  }

  lemma CastInjective(a: Alloc, done: seq<Ask>)
    requires Counted(a, done) && |done| <= 0xFF
    requires forall i :: 0 <= i < |done| ==> 0 <= a.numbers[i] <= 0xFF
    ensures var ids := Cast(Packed(Cast(a.numbers), 1, a.used));
            && |ids| == |done|
            && (forall i :: 0 <= i < |done| ==> ids[i] > 0)
            && (forall i :: 0 <= i < |done| && a.numbers[i] == 0 ==> ids[i] <= |done|)
            && (forall i :: 0 <= i < |done| && a.numbers[i] != 0 ==> ids[i] == a.numbers[i])
            && (forall i, j :: 0 <= i < j < |done| ==> ids[i] != ids[j])
  {
    hide Cast, Packed;
    CastSame(a.numbers);
    PackedNew(a.numbers, 1, a.used);
    PackedBound(a.numbers, 1, a.used);
    var p := Packed(a.numbers, 1, a.used);
    assert forall i :: 0 <= i < |done| ==> 0 < p[i] <= 0xFF;
    CastSame(p);
  }

  /** A round has at most 255 entities, and the numbers of its special ones fit eight bits. */
  predicate Fits(m: SlotMap, asks: seq<Ask>) {
    |asks| <= 0xFF && forall n :: n in Round(m, asks).numbers ==> 0 <= n <= 0xFF
  }

  predicate Distinct(ids: seq<int>) {
    forall i, j :: 0 <= i < j < |ids| ==> ids[i] != ids[j]
  }

  function Elements(ids: seq<int>): (s: set<int>)
    ensures forall x :: x in s <==> x in ids
  {
    set x | x in ids
  }

  lemma {:induction false} DistinctSizeIff(ids: seq<int>)
    ensures |Elements(ids)| <= |ids|
    ensures |Elements(ids)| == |ids| <==> Distinct(ids)
  {
    if ids != [] {
      var front, last := ids[..|ids| - 1], ids[|ids| - 1];
      DistinctSizeIff(front);
      assert Elements(ids) == Elements(front) + {last};
      if last in front {
        var i :| 0 <= i < |front| && front[i] == last;
        assert ids[i] == ids[|ids| - 1];
      }
    }
  }

  /** Every special entity has its stable number as its id. */
  predicate Faithful(ids: seq<int>, numbers: seq<int>) {
    |ids| == |numbers| && forall i :: 0 <= i < |ids| && numbers[i] != 0 ==> ids[i] == numbers[i]
  }

  /** Without overflow common entities get ids up to the number of entities, and all ids are right. */
  lemma FittingIds(m: SlotMap, asks: seq<Ask>)
    requires Fits(m, asks)
    ensures |EndpointIds(m, asks)| == |asks| == |Round(m, asks).numbers|
    ensures 0 !in EndpointIds(m, asks) && Distinct(EndpointIds(m, asks))
    ensures Faithful(EndpointIds(m, asks), Round(m, asks).numbers)
    ensures forall i :: 0 <= i < |asks| && asks[i].None? ==> EndpointIds(m, asks)[i] <= |asks|
    ensures forall i :: 0 <= i < |asks| ==> (asks[i].None? <==> Round(m, asks).numbers[i] == 0)
  {
    var a := Round(m, asks);
    RoundCounted(m, asks);
    assert forall i :: 0 <= i < |asks| ==> a.numbers[i] in a.numbers;
    CastInjective(a, asks);
  }

  /**
   On every slot map: the ids of a round are pairwise distinct, not 0, and the stable number of every
   special entity, exactly when the round has at most 255 entities and its numbers fit eight bits.
   */
  lemma EndpointIdsIff(m: SlotMap, asks: seq<Ask>)
    ensures |EndpointIds(m, asks)| == |asks| == |Round(m, asks).numbers|
    ensures (&& 0 !in EndpointIds(m, asks) && Distinct(EndpointIds(m, asks))
             && Faithful(EndpointIds(m, asks), Round(m, asks).numbers)) <==> Fits(m, asks)
  {
    hide Round, EndpointIds, Distinct, Faithful;
    RoundCounted(m, asks);
    if Fits(m, asks) {
      FittingIds(m, asks);
    } else if 0 !in EndpointIds(m, asks) && Distinct(EndpointIds(m, asks)) {
      if Faithful(EndpointIds(m, asks), Round(m, asks).numbers) {
        FaithfulFits(EndpointIds(m, asks), Round(m, asks).numbers);
      }
    }
  }

  lemma FaithfulFits(ids: seq<byte>, numbers: seq<int>)
    requires 0 !in ids && Distinct(ids) && Faithful(ids, numbers)
    ensures |numbers| <= 0xFF && forall n :: n in numbers ==> 0 <= n <= 0xFF
  {
    forall n | n in numbers
      ensures 0 <= n <= 0xFF
    {
      var i :| 0 <= i < |numbers| && numbers[i] == n;
      assert n != 0 ==> ids[i] == n;
    }
    BoundedSize(ids, 0xFF);
  }

  lemma BoundedSize(ids: seq<int>, hi: nat)
    requires Distinct(ids) && forall id :: id in ids ==> 1 <= id <= hi
    ensures |ids| <= hi
  {
    DistinctSizeIff(ids);
    SubsetSize(Elements(ids), Range(1, hi));
  }

  /** Without overflow the ids are 1..n exactly when no special number exceeds the number of entities. */
  lemma CountsUpIff(m: SlotMap, asks: seq<Ask>)
    requires Fits(m, asks)
    ensures Elements(EndpointIds(m, asks)) == Range(1, |asks|) <==>
            forall n :: n in Round(m, asks).numbers ==> n <= |asks|
  {
    hide Round, EndpointIds, Distinct, Fits;
    var ids, numbers := EndpointIds(m, asks), Round(m, asks).numbers;
    FittingIds(m, asks);
    if Elements(ids) == Range(1, |asks|) {
      forall n | n in numbers
        ensures n <= |asks|
      {
        var i :| 0 <= i < |numbers| && numbers[i] == n;
        assert n != 0 ==> ids[i] == n && ids[i] in Range(1, |asks|);
      }
    }
    if forall n :: n in numbers ==> n <= |asks| {
      forall x | x in ids
        ensures x in Range(1, |asks|)
      {
        var i :| 0 <= i < |ids| && ids[i] == x;
        assert numbers[i] in numbers;
      }
      DistinctSizeIff(ids);
      SubsetSize(Elements(ids), Range(1, |asks|));
    }
  }
}
