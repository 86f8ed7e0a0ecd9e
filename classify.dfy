/**
 * The hand classifier of the Dou Dizhu engine (src/app/game/Core.ts:23-210):
 * one judge per pattern, and judgeCardType, which tries them in a fixed order
 * and returns the first pattern that matches.
 *
 * Several judges sort the caller's array in place before they scan it; they
 * are methods on arrays here. The others only read the hand, and take its
 * contents as a sequence. Each judge is proved against a specification
 * predicate on the hand's contents; the lemmas state what those predicates
 * mean and that none of them depends on the order of the cards.
 */
module DdzClassify {
  import opened DdzCards

  /** The hand types, in the order of the CardType enum (src/app/game/const.ts). */
  datatype CardType =
    | Invalid | Single | Pair | Three | ThreeWithOne | ThreeWithTwo | Rocket | Bomb
    | FourWithTwo | FourWithOne | PairSequence | Straight | Airplane | AirplaneWithOne | AirplaneWithTwo

  // ---------------------------------------------------------------------------
  // Judges built on `new Set(hands).size === 1`.
  // ---------------------------------------------------------------------------

  /** `new Set(hands)`: the distinct values of a hand. */
  function Distinct(h: seq<Val>): set<Val> {
    set v | v in h
  }

  /** A non-empty hand has one distinct value exactly when all its cards equal the first. */
  lemma DistinctOne(h: seq<Val>)
    requires |h| > 0
    ensures |Distinct(h)| == 1 <==> forall i :: 0 <= i < |h| ==> h[i] == h[0]
  {
    if forall i :: 0 <= i < |h| ==> h[i] == h[0] {
      assert Distinct(h) == {h[0]};
    } else {
      var i :| 0 <= i < |h| && h[i] != h[0];
      var rest := Distinct(h) - {h[0]};
      assert h[i] in rest;
      assert Distinct(h) == rest + {h[0]};
      assert rest * {h[0]} == {};
    }
  }

  /** judgeTwoHands (Core.ts:23-28): a pair is two cards of one value. */
  function JudgeTwoHands(hands: seq<Val>): (r: bool)
    ensures r <==> |hands| == 2 && hands[0] == hands[1]
  {
    if |hands| != 2 then false
    else
      DistinctOne(hands);
      |Distinct(hands)| == 1
  }

  /** judgeThreehands (Core.ts:38-43): a triple is three cards of one value. */
  function JudgeThreehands(hands: seq<Val>): (r: bool)
    ensures r <==> |hands| == 3 && hands[0] == hands[1] == hands[2]
  {
    if |hands| != 3 then false
    else
      DistinctOne(hands);
      |Distinct(hands)| == 1
  }

  /** judgeBomb (Core.ts:45-50): a bomb is four cards of one value. */
  function JudgeBomb(hands: seq<Val>): (r: bool)
    ensures r <==> |hands| == 4 && hands[0] == hands[1] == hands[2] == hands[3]
  {
    if |hands| != 4 then false
    else
      DistinctOne(hands);
      |Distinct(hands)| == 1
  }

  // ---------------------------------------------------------------------------
  // Judges that sort the hand first.
  // ---------------------------------------------------------------------------

  /** What judgeRocket accepts: two cards that sort to w1, w2. */
  ghost predicate IsRocket(h: seq<Val>) {
    |h| == 2 && SortVals(h) == [W1, W2]
  }

  /** judgeRocket (Core.ts:30-36): sorts a two-card hand in place and looks for w1, w2. */
  method JudgeRocket(hands: array<Val>) returns (r: bool)
    modifies hands
    ensures r == IsRocket(old(hands[..]))
    ensures hands[..] == if hands.Length == 2 then SortVals(old(hands[..])) else old(hands[..])
  {
    if hands.Length != 2 {
      return false;
    }
    SortInPlace(hands);
    return hands[0] == W1 && hands[1] == W2;
  }

  /** The rocket is exactly the two jokers. */
  lemma RocketIff(h: seq<Val>)
    ensures IsRocket(h) <==> multiset(h) == multiset{W1, W2}
  {
    assert multiset([W1, W2]) == multiset{W1, W2};
    if multiset(h) == multiset{W1, W2} {
      assert |h| == |multiset(h)| == 2;
      SortValsSorted(h);
      SortedUnique(SortVals(h), [W1, W2]);
    }
  }

  /** What judgeThreeOne accepts: four cards whose sorted first three or last three agree and differ from the fourth. */
  ghost predicate IsThreeOne(h: seq<Val>) {
    |h| == 4 &&
    var s := SortVals(h);
    (s[0] == s[1] && s[1] == s[2] && s[2] != s[3]) || (s[1] == s[2] && s[2] == s[3] && s[0] != s[1])
  }

  /** judgeThreeOne (Core.ts:52-65): sorts a four-card hand in place and tests both placements of the single. */
  method JudgeThreeOne(hands: array<Val>) returns (r: bool)
    modifies hands
    ensures r == IsThreeOne(old(hands[..]))
    ensures hands[..] == if hands.Length == 4 then SortVals(old(hands[..])) else old(hands[..])
  {
    if hands.Length != 4 {
      return false;
    }
    SortInPlace(hands);
    return (hands[0] == hands[1] && hands[1] == hands[2] && hands[2] != hands[3]) ||
           (hands[1] == hands[2] && hands[2] == hands[3] && hands[0] != hands[1]);
  }

  /** On four ascending values, "the first three or the last three agree, the fourth differs" means "some value occurs three times". */
  lemma ThreeOfFour(a: Val, b: Val, c: Val, d: Val)
    requires Ord(a) <= Ord(b) <= Ord(c) <= Ord(d)
    ensures ((a == b && b == c && c != d) || (b == c && c == d && a != b)) <==>
            exists v :: multiset{a, b, c, d}[v] == 3
  {
    var m := multiset{a, b, c, d};
    if a == b && b == c && c != d {
      assert m[a] == 3;
    } else if b == c && c == d && a != b {
      assert m[b] == 3;
    } else {
      forall v ensures m[v] != 3 {
        assert m[v] == (if a == v then 1 else 0) + (if b == v then 1 else 0) +
                       (if c == v then 1 else 0) + (if d == v then 1 else 0);
        assert a == v && c == v ==> b == v by {
          if a == v && c == v {
            assert Ord(b) == Ord(a);
          }
        }
        assert b == v && d == v ==> c == v by {
          if b == v && d == v {
            assert Ord(c) == Ord(b);
          }
        }
      }
    }
  }

  /** Three with one is four cards, three of one value (the fourth then differs). */
  lemma ThreeOneIff(h: seq<Val>)
    ensures IsThreeOne(h) <==> |h| == 4 && exists v :: Count(h, v) == 3
  {
    if |h| == 4 {
      var s := SortVals(h);
      assert s == [s[0], s[1], s[2], s[3]];
      assert multiset(h) == multiset(s) == multiset{s[0], s[1], s[2], s[3]};
      SortValsSorted(h);
      assert Ord(s[0]) <= Ord(s[1]) <= Ord(s[2]) <= Ord(s[3]);
      ThreeOfFour(s[0], s[1], s[2], s[3]);
      assert forall v :: Count(h, v) == multiset{s[0], s[1], s[2], s[3]}[v];
    }
  }

  // ---------------------------------------------------------------------------
  // Judges built on a count map.
  // ---------------------------------------------------------------------------

  /** What judgeThreeTwo accepts: five cards, a value held three times, and a pair or the two single jokers. */
  ghost predicate IsThreeTwo(h: seq<Val>) {
    |h| == 5 &&
    (exists v :: Count(h, v) == 3) &&
    ((exists v :: Count(h, v) == 2) || (Count(h, W1) == 1 && Count(h, W2) == 1))
  }

  /** `Object.values(countMap).includes(c)`. */
  predicate HasCount(countMap: map<Val, nat>, c: nat) {
    exists k | k in countMap :: countMap[k] == c
  }

  /** A count map of the hand holds a value c exactly when some value occurs c times (c > 0). */
  lemma HasCountIff(h: seq<Val>, countMap: map<Val, nat>, c: nat)
    requires c > 0
    requires forall v :: v in countMap <==> v in h
    requires forall v :: v in countMap ==> countMap[v] == Count(h, v)
    ensures HasCount(countMap, c) <==> exists v :: Count(h, v) == c
  {
    if exists v :: Count(h, v) == c {
      var v :| Count(h, v) == c;
      assert v in multiset(h);
      assert v in countMap;
    }
  }

  /** judgeThreeTwo (Core.ts:67-80): counts the cards, then looks for a three and a pair or both jokers once. */
  method JudgeThreeTwo(hands: seq<Val>) returns (r: bool)
    ensures r == IsThreeTwo(hands)
  {
    if |hands| != 5 {
      return false;
    }
    var countMap := GetCountMap(hands);
    HasCountIff(hands, countMap, 3);
    HasCountIff(hands, countMap, 2);
    var hasThree := HasCount(countMap, 3);
    var hasTwo := HasCount(countMap, 2);
    var hasJokers := W1 in countMap && countMap[W1] == 1 && W2 in countMap && countMap[W2] == 1;
    assert W1 !in countMap ==> Count(hands, W1) == 0;
    assert W2 !in countMap ==> Count(hands, W2) == 0;
    return hasThree && (hasTwo || hasJokers);
  }

  /** What judgeFourTwo accepts: six cards and a value held four times. */
  ghost predicate IsFourTwo(h: seq<Val>) {
    |h| == 6 && exists v :: Count(h, v) == 4
  }

  /** judgeFourTwo (Core.ts:98-108): counts the cards and looks for a four. */
  method JudgeFourTwo(hands: seq<Val>) returns (r: bool)
    ensures r == IsFourTwo(hands)
  {
    if |hands| != 6 {
      return false;
    }
    var countMap := GetCountMap(hands);
    HasCountIff(hands, countMap, 4);
    return HasCount(countMap, 4);
  }

  // ---------------------------------------------------------------------------
  // Run patterns: no Two, no joker, sorted values climbing by one.
  // ---------------------------------------------------------------------------

  /** `!(hands.includes(15) || hands.includes('w1') || hands.includes('w2'))`. */
  predicate NoRunBreaker(h: seq<Val>) {
    Num(15) !in h && W1 !in h && W2 !in h
  }

  /** The sorted cards of a hand without a run breaker are ranks 3..14. */
  lemma SortedNoBreaker(h: seq<Val>)
    requires NoRunBreaker(h)
    ensures forall i :: 0 <= i < |SortVals(h)| ==> SortVals(h)[i].Num? && SortVals(h)[i].n <= 14
  {
    var s := SortVals(h);
    forall i | 0 <= i < |s| ensures s[i].Num? && s[i].n <= 14 {
      assert s[i] in multiset(s);
    }
  }

  /** The straight loop's test at index i (Core.ts:91): the card is one above the one before. */
  predicate StepAt(s: seq<Val>, i: int)
    requires 1 <= i < |s|
  {
    Ord(s[i]) == Ord(s[i - 1]) + 1
  }

  /** The pair-sequence loop's test at index i (Core.ts:119-122): a pair, one above the pair before. */
  predicate PairAt(s: seq<Val>, i: int)
    requires 0 <= i && i + 1 < |s| && i % 2 == 0
  {
    s[i] == s[i + 1] && (i > 0 ==> Ord(s[i]) == Ord(s[i - 2]) + 1)
  }

  /** The plane loop's test at index i (Core.ts:138-142): a triple, one above the triple before. */
  predicate TripleAt(s: seq<Val>, i: int)
    requires 0 <= i && i + 2 < |s| && i % 3 == 0
  {
    s[i] == s[i + 1] && s[i] == s[i + 2] && (i > 0 ==> Ord(s[i]) == Ord(s[i - 3]) + 1)
  }

  ghost predicate RisesByOne(s: seq<Val>) {
    forall i :: 1 <= i < |s| ==> StepAt(s, i)
  }

  ghost predicate PairsRise(s: seq<Val>) {
    forall i :: 0 <= i && i + 1 < |s| && i % 2 == 0 ==> PairAt(s, i)
  }

  ghost predicate TriplesRise(s: seq<Val>) {
    forall i :: 0 <= i && i + 2 < |s| && i % 3 == 0 ==> TripleAt(s, i)
  }

  ghost predicate IsStraight(h: seq<Val>) {
    |h| >= 5 && NoRunBreaker(h) && RisesByOne(SortVals(h))
  }

  ghost predicate IsPairSequence(h: seq<Val>) {
    |h| >= 6 && |h| % 2 == 0 && NoRunBreaker(h) && PairsRise(SortVals(h))
  }

  ghost predicate IsPlane(h: seq<Val>) {
    |h| >= 6 && |h| % 3 == 0 && NoRunBreaker(h) && TriplesRise(SortVals(h))
  }

  /** In cards that rise by one at every step, the k-th card is k above the first. */
  lemma {:induction false} RisesFromFirst(s: seq<Val>, k: nat)
    requires RisesByOne(s) && k < |s|
    ensures Ord(s[k]) == Ord(s[0]) + k
  {
    if k > 0 {
      RisesFromFirst(s, k - 1);
      assert StepAt(s, k);
    }
  }

  /**
   * A straight is a run of consecutive ranks from its lowest card, none above
   * the Ace and none repeated.
   */
  lemma StraightIsRun(h: seq<Val>)
    requires IsStraight(h)
    ensures var s := SortVals(h);
      && (forall k :: 0 <= k < |s| ==> s[k].Num? && Ord(s[k]) == Ord(s[0]) + k)
      && (forall i, j :: 0 <= i < j < |s| ==> s[i] != s[j])
      && Ord(s[0]) + |s| - 1 <= 14
  {
    var s := SortVals(h);
    SortedNoBreaker(h);
    forall k | 0 <= k < |s| ensures s[k].Num? && Ord(s[k]) == Ord(s[0]) + k {
      RisesFromFirst(s, k);
    }
    forall i, j | 0 <= i < j < |s| ensures s[i] != s[j] {
      RisesFromFirst(s, i);
      RisesFromFirst(s, j);
    }
    RisesFromFirst(s, |s| - 1);
  }

  /** judgeStraight (Core.ts:82-96): at least five cards, no breaker; sorts in place and checks each step. */
  method JudgeStraight(hands: array<Val>) returns (r: bool)
    modifies hands
    ensures r == IsStraight(old(hands[..]))
    ensures hands[..] ==
      if hands.Length >= 5 && NoRunBreaker(old(hands[..])) then SortVals(old(hands[..])) else old(hands[..])
  {
    if hands.Length < 5 {
      return false;
    }
    if Num(15) in hands[..] || W1 in hands[..] || W2 in hands[..] {
      return false;
    }
    SortNoBreakerInPlace(hands);
    ghost var s := hands[..];
    for i := 1 to hands.Length
      invariant forall k :: 1 <= k < i ==> StepAt(s, k)
    {
      if hands[i] != Num(hands[i - 1].n + 1) {
        assert !StepAt(s, i);
        return false;
      }
      assert StepAt(s, i);
    }
    return true;
  }

  /** The in-place sort of the run judges, which also records that every card is a rank 3..14. */
  method SortNoBreakerInPlace(hands: array<Val>)
    requires NoRunBreaker(hands[..])
    modifies hands
    ensures hands[..] == SortVals(old(hands[..]))
    ensures forall i :: 0 <= i < hands.Length ==> hands[i].Num? && hands[i].n <= 14
  {
    SortedNoBreaker(hands[..]);
    SortInPlace(hands);
  }

  /** judgeConsecutivePairs (Core.ts:110-127): an even number (at least six) of cards, no breaker; sorts and checks pair by pair. */
  method JudgeConsecutivePairs(hands: array<Val>) returns (r: bool)
    modifies hands
    ensures r == IsPairSequence(old(hands[..]))
    ensures hands[..] ==
      if hands.Length >= 6 && hands.Length % 2 == 0 && NoRunBreaker(old(hands[..]))
      then SortVals(old(hands[..])) else old(hands[..])
  {
    if hands.Length < 6 || hands.Length % 2 != 0 {
      return false;
    }
    if Num(15) in hands[..] || W1 in hands[..] || W2 in hands[..] {
      return false;
    }
    SortNoBreakerInPlace(hands);
    ghost var s := hands[..];
    var i := 0;
    while i < hands.Length
      invariant 0 <= i <= hands.Length && i % 2 == 0
      invariant forall k :: 0 <= k && k + 1 < i && k % 2 == 0 ==> PairAt(s, k)
    {
      assert i + 1 < hands.Length;
      if hands[i] != hands[i + 1] || (i > 0 && hands[i] != Num(hands[i - 2].n + 1)) {
        assert !PairAt(s, i);
        return false;
      }
      assert PairAt(s, i);
      i := i + 2;
    }
    return true;
  }

  /** judgePlane (Core.ts:129-147): a multiple of three (at least six) cards, no breaker; sorts and checks triple by triple. */
  method JudgePlane(hands: array<Val>) returns (r: bool)
    modifies hands
    ensures r == IsPlane(old(hands[..]))
    ensures hands[..] ==
      if hands.Length >= 6 && hands.Length % 3 == 0 && NoRunBreaker(old(hands[..]))
      then SortVals(old(hands[..])) else old(hands[..])
  {
    if hands.Length < 6 || hands.Length % 3 != 0 {
      return false;
    }
    if Num(15) in hands[..] || W1 in hands[..] || W2 in hands[..] {
      return false;
    }
    SortNoBreakerInPlace(hands);
    ghost var s := hands[..];
    var i := 0;
    while i < hands.Length
      invariant 0 <= i <= hands.Length && i % 3 == 0
      invariant forall k :: 0 <= k && k + 2 < i && k % 3 == 0 ==> TripleAt(s, k)
    {
      assert i + 2 < hands.Length;
      if hands[i] != hands[i + 1] || hands[i] != hands[i + 2] || (i > 0 && hands[i] != Num(hands[i - 3].n + 1)) {
        assert !TripleAt(s, i);
        return false;
      }
      assert TripleAt(s, i);
      i := i + 3;
    }
    return true;
  }

  // ---------------------------------------------------------------------------
  // Plane with wings (Core.ts:149-180).
  // ---------------------------------------------------------------------------

  /** The values that give a main: those held three or four times. */
  function MainKeys(h: seq<Val>): set<Val> {
    set v | v in h && (Count(h, v) == 3 || Count(h, v) == 4)
  }

  /** The values that leave cards over: all but those held exactly three times. */
  function WingKeys(h: seq<Val>): set<Val> {
    set v | v in h && Count(h, v) != 3
  }

  /**
   * What judgePlaneWithWings accepts. Every main takes three cards and every
   * other card is left over, so the ÷4 test "as many mains as leftover cards"
   * is 4 * #mains == |h|; the ÷5 test compares the mains with the distinct
   * leftover values. The ÷4 test is tried first, and the mains need not be
   * consecutive.
   */
  ghost predicate IsPlaneWithWings(h: seq<Val>) {
    |h| >= 8 && (|h| % 4 == 0 || |h| % 5 == 0) &&
    if |h| % 4 == 0 then 4 * |MainKeys(h)| == |h| else |MainKeys(h)| == |WingKeys(h)|
  }

  /** How many cards of the hand have a value in S. */
  function CardsIn(h: seq<Val>, S: set<Val>): nat {
    if h == [] then 0 else (if h[0] in S then 1 else 0) + CardsIn(h[1..], S)
  }

  lemma {:induction false} CardsInAdd(h: seq<Val>, S: set<Val>, k: Val)
    requires k !in S
    ensures CardsIn(h, S + {k}) == CardsIn(h, S) + Count(h, k)
  {
    if h != [] {
      CardsInAdd(h[1..], S, k);
      assert h == [h[0]] + h[1..];
      assert multiset(h) == multiset{h[0]} + multiset(h[1..]);
    }
  }

  lemma {:induction false} CardsInNone(h: seq<Val>)
    ensures CardsIn(h, {}) == 0
  {
    if h != [] {
      CardsInNone(h[1..]);
    }
  }

  lemma {:induction false} CardsInAll(h: seq<Val>, S: set<Val>)
    requires forall v :: v in h ==> v in S
    ensures CardsIn(h, S) == |h|
  {
    if h != [] {
      assert forall v :: v in h[1..] ==> v in h;
      CardsInAll(h[1..], S);
    }
  }

  lemma DistinctAppend(s: seq<Val>, t: seq<Val>)
    ensures Distinct(s + t) == Distinct(s) + Distinct(t)
  {
    forall v ensures v in Distinct(s + t) <==> v in Distinct(s) + Distinct(t) {
      assert v in s + t <==> v in s || v in t;
    }
  }

  lemma DistinctRep(x: Val, n: nat)
    requires n > 0
    ensures Distinct(seq(n, _ => x)) == {x}
  {
    assert seq(n, _ => x)[0] == x;
  }

  lemma PrefixStep(keys: seq<Val>, i: int)
    requires 0 <= i < |keys|
    ensures Distinct(keys[..i + 1]) == Distinct(keys[..i]) + {keys[i]}
  {
    assert keys[..i + 1] == keys[..i] + [keys[i]];
    DistinctAppend(keys[..i], [keys[i]]);
  }

  /** An entry of a strictly ascending sequence does not occur before its position. */
  lemma AscendingFresh(keys: seq<Val>, i: int)
    requires StrictlyAscending(keys) && 0 <= i < |keys|
    ensures keys[i] !in Distinct(keys[..i])
  {
    forall k | 0 <= k < i ensures keys[..i][k] != keys[i] {
      assert Ord(keys[k]) < Ord(keys[i]);
    }
  }

  /** What one more key of the walk adds: a main for a count of three or four, a leftover value for any count but three, and its cards. */
  lemma PlaneStep(h: seq<Val>, done: set<Val>, key: Val)
    requires key in h && key !in done
    ensures |MainKeys(h) * (done + {key})| ==
            |MainKeys(h) * done| + (if Count(h, key) == 3 || Count(h, key) == 4 then 1 else 0)
    ensures WingKeys(h) * (done + {key}) == WingKeys(h) * done + (if Count(h, key) != 3 then {key} else {})
    ensures CardsIn(h, done + {key}) == CardsIn(h, done) + Count(h, key)
  {
    MainKeysStep(h, done, key);
    WingKeysStep(h, done, key);
    CardsInAdd(h, done, key);
  }

  lemma MainKeysStep(h: seq<Val>, done: set<Val>, key: Val)
    requires key in h && key !in done
    ensures |MainKeys(h) * (done + {key})| ==
            |MainKeys(h) * done| + (if Count(h, key) == 3 || Count(h, key) == 4 then 1 else 0)
  {
    var m0 := MainKeys(h) * done;
    if Count(h, key) == 3 || Count(h, key) == 4 {
      assert MainKeys(h) * (done + {key}) == m0 + {key};
      assert key !in m0;
    } else {
      assert MainKeys(h) * (done + {key}) == m0;
    }
  }

  lemma WingKeysStep(h: seq<Val>, done: set<Val>, key: Val)
    requires key in h && key !in done
    ensures WingKeys(h) * (done + {key}) == WingKeys(h) * done + (if Count(h, key) != 3 then {key} else {})
  {
  }

  /** The inner loop of judgePlaneWithWings (Core.ts:169-171): pushes len copies of key. */
  method PushCopies(remains: seq<Val>, key: Val, len: nat) returns (r: seq<Val>)
    ensures r == remains + seq(len, _ => key)
  {
    r := remains;
    for i := 0 to len
      invariant r == remains + seq(i, _ => key)
    {
      r := r + [key];
    }
  }

  /**
   * The body of judgePlaneWithWings' walk over the count map (Core.ts:162-172)
   * for one key held `count` times.
   */
  method VisitKey(key: Val, count: nat, mains: seq<Val>, remains: seq<Val>)
    returns (mains': seq<Val>, remains': seq<Val>)
    requires count >= 1
    ensures |mains'| == |mains| + (if count == 3 || count == 4 then 1 else 0)
    ensures |remains'| == |remains| + (if count == 4 then 1 else if count == 3 then 0 else count)
    ensures Distinct(remains') == Distinct(remains) + (if count != 3 then {key} else {})
  {
    if count == 4 {
      mains' := mains + [key];
      remains' := remains + [key];
      DistinctAppend(remains, [key]);
      assert Distinct([key]) == {key};
    } else if count == 3 {
      mains' := mains + [key];
      remains' := remains;
    } else {
      mains' := mains;
      remains' := PushCopies(remains, key, count);
      DistinctAppend(remains, seq(count, _ => key));
      DistinctRep(key, count);
    }
  }

  /**
   * The walk of judgePlaneWithWings over the count map's keys
   * (Core.ts:159-173): mains get one entry per value held three or four
   * times, remains get every other card plus one per value held four times.
   */
  method WalkCountMap(hands: seq<Val>, countMap: map<Val, nat>, keys: seq<Val>)
    returns (mains: seq<Val>, remains: seq<Val>)
    requires StrictlyAscending(keys)
    requires forall k :: k in keys ==> k in hands && k in countMap && countMap[k] == Count(hands, k)
    ensures |mains| == |MainKeys(hands) * Distinct(keys)|
    ensures |remains| + 3 * |mains| == CardsIn(hands, Distinct(keys))
    ensures Distinct(remains) == WingKeys(hands) * Distinct(keys)
  {
    mains := [];
    remains := [];
    ghost var done: set<Val> := {};
    CardsInNone(hands);
    for i := 0 to |keys|
      invariant done == Distinct(keys[..i])
      invariant |mains| == |MainKeys(hands) * done|
      invariant |remains| + 3 * |mains| == CardsIn(hands, done)
      invariant Distinct(remains) == WingKeys(hands) * done
    {
      var key := keys[i];
      AscendingFresh(keys, i);
      PlaneStep(hands, done, key);
      ghost var c := Count(hands, key);
      ghost var r0 := remains;
      ghost var m0 := mains;
      mains, remains := VisitKey(key, countMap[key], mains, remains);
      assert |remains| + 3 * |mains| == |r0| + 3 * |m0| + c;
      PrefixStep(keys, i);
      done := done + {key};
    }
    assert keys[..|keys|] == keys;
  }

  /** A walk over every value of the hand has seen all its mains, all its cards and all its wing values. */
  lemma WalkCoversHand(hands: seq<Val>, keys: seq<Val>, mains: seq<Val>, remains: seq<Val>)
    requires Distinct(keys) == Distinct(hands)
    requires |mains| == |MainKeys(hands) * Distinct(keys)|
    requires |remains| + 3 * |mains| == CardsIn(hands, Distinct(keys))
    requires Distinct(remains) == WingKeys(hands) * Distinct(keys)
    ensures |mains| == |MainKeys(hands)| && |remains| + 3 * |mains| == |hands|
    ensures Distinct(remains) == WingKeys(hands)
  {
    CardsInAll(hands, Distinct(hands));
    assert MainKeys(hands) * Distinct(hands) == MainKeys(hands);
    assert WingKeys(hands) * Distinct(hands) == WingKeys(hands);
  }

  /**
   * judgePlaneWithWings (Core.ts:149-180): counts the cards, then walks the
   * count map's keys; a count of four gives a main and a leftover, a count of
   * three a main, and any other count that many leftovers. (The source pushes
   * the property-name strings; only the lengths of mains and remains matter.)
   */
  method JudgePlaneWithWings(hands: seq<Val>) returns (r: bool)
    ensures r == IsPlaneWithWings(hands)
  {
    var withOne := |hands| % 4 == 0;
    var withTwo := |hands| % 5 == 0;
    if |hands| < 8 || !(withOne || withTwo) {
      return false;
    }
    var countMap := GetCountMap(hands);
    var keys := InKeyOrder(countMap.Keys);
    InKeyOrderAscending(countMap.Keys);
    assert forall k :: k in keys ==> k in hands && countMap[k] == Count(hands, k);
    var mains, remains := WalkCountMap(hands, countMap, keys);
    assert Distinct(keys) == Distinct(hands);
    WalkCoversHand(hands, keys, mains, remains);
    if withOne {
      return |mains| == |remains|;
    } else {
      // withTwo holds here: the length passed the test above
      return |mains| == |Distinct(remains)|;
    }
  }

  // ---------------------------------------------------------------------------
  // judgeCardType (Core.ts:182-210).
  // ---------------------------------------------------------------------------

  /** The type judgeCardType gives a hand: the first pattern that matches, in the source's order. */
  ghost function CardTypeOf(h: seq<Val>): (r: CardType)
    ensures r != AirplaneWithTwo && r != FourWithOne
    ensures r == Single <==> |h| == 1
  {
    if IsRocket(h) then Rocket
    else if JudgeBomb(h) then Bomb
    else if IsPlaneWithWings(h) then AirplaneWithOne
    else if IsPlane(h) then Airplane
    else if IsFourTwo(h) then FourWithTwo
    else if IsThreeTwo(h) then ThreeWithTwo
    else if IsPairSequence(h) then PairSequence
    else if IsStraight(h) then Straight
    else if IsThreeOne(h) then ThreeWithOne
    else if JudgeThreehands(h) then Three
    else if JudgeTwoHands(h) then Pair
    else if |h| == 1 then Single
    else Invalid
  }

  /** Whether judging the hand reaches one of the in-place sorts (every later sort then finds it sorted already). */
  ghost predicate JudgingSorts(h: seq<Val>) {
    |h| == 2 ||
    (!JudgeBomb(h) && !IsPlaneWithWings(h) &&
     ((|h| >= 6 && |h| % 3 == 0 && NoRunBreaker(h)) ||
      (!IsPlane(h) && !IsFourTwo(h) && !IsThreeTwo(h) &&
       ((|h| >= 6 && |h| % 2 == 0 && NoRunBreaker(h)) ||
        (!IsPairSequence(h) &&
         ((|h| >= 5 && NoRunBreaker(h)) || (!IsStraight(h) && |h| == 4)))))))
  }

  /** Two hands with the same multiset have the same length, members and counts. */
  lemma SameMembers(a: seq<Val>, b: seq<Val>)
    requires multiset(a) == multiset(b)
    ensures |a| == |b|
    ensures Distinct(a) == Distinct(b) && SortVals(a) == SortVals(b)
    ensures MainKeys(a) == MainKeys(b) && WingKeys(a) == WingKeys(b)
    ensures NoRunBreaker(a) == NoRunBreaker(b)
    ensures forall v :: Count(a, v) == Count(b, v)
  {
    assert |a| == |multiset(a)| == |multiset(b)| == |b|;
    forall v ensures v in a <==> v in b {
      assert v in a <==> v in multiset(a);
      assert v in b <==> v in multiset(b);
    }
    assert Distinct(a) == Distinct(b);
    assert MainKeys(a) == MainKeys(b);
    assert WingKeys(a) == WingKeys(b);
    SortValsCanonical(a, b);
  }

  /** The same-value judges depend on the distinct values and the length only. */
  lemma SameValueJudgesInvariant(a: seq<Val>, b: seq<Val>)
    requires |a| == |b| && Distinct(a) == Distinct(b)
    ensures JudgeBomb(a) == JudgeBomb(b)
    ensures JudgeThreehands(a) == JudgeThreehands(b)
    ensures JudgeTwoHands(a) == JudgeTwoHands(b)
  {
    if |a| > 0 {
      DistinctOne(a);
      DistinctOne(b);
    }
  }

  /** Every judge depends on the multiset of values only. */
  lemma JudgesInvariant(a: seq<Val>, b: seq<Val>)
    requires multiset(a) == multiset(b)
    ensures |a| == |b| && SortVals(a) == SortVals(b) && NoRunBreaker(a) == NoRunBreaker(b)
    ensures IsRocket(a) == IsRocket(b) && JudgeBomb(a) == JudgeBomb(b)
    ensures IsPlaneWithWings(a) == IsPlaneWithWings(b) && IsPlane(a) == IsPlane(b)
    ensures IsFourTwo(a) == IsFourTwo(b) && IsThreeTwo(a) == IsThreeTwo(b)
    ensures IsPairSequence(a) == IsPairSequence(b) && IsStraight(a) == IsStraight(b)
    ensures IsThreeOne(a) == IsThreeOne(b) && JudgeThreehands(a) == JudgeThreehands(b)
    ensures JudgeTwoHands(a) == JudgeTwoHands(b)
  {
    SameMembers(a, b);
    SameValueJudgesInvariant(a, b);
  }

  /** The type of a hand does not depend on the order of its cards. */
  lemma CardTypePermutation(a: seq<Val>, b: seq<Val>)
    requires multiset(a) == multiset(b)
    ensures CardTypeOf(a) == CardTypeOf(b)
  {
    JudgesInvariant(a, b);
  }

  /**
   * judgeCardType (Core.ts:182-210): runs the judges in order and returns the
   * first match. The caller's array ends up sorted if one of the sorting
   * judges was reached, and is unchanged otherwise.
   */
  method JudgeCardType(hands: array<Val>) returns (t: CardType)
    modifies hands
    ensures t == CardTypeOf(old(hands[..]))
    ensures hands[..] == if JudgingSorts(old(hands[..])) then SortVals(old(hands[..])) else old(hands[..])
  {
    ghost var h := hands[..];
    var isRocket := JudgeRocket(hands);
    if isRocket {
      return Rocket;
    }
    SortValsIdempotent(h);
    JudgesInvariant(hands[..], h);
    ghost var sorted := |h| == 2;
    assert hands[..] == if sorted then SortVals(h) else h;
    if JudgeBomb(hands[..]) {
      return Bomb;
    }
    var pww := JudgePlaneWithWings(hands[..]);
    if pww {
      return AirplaneWithOne;
    }
    var plane := JudgePlane(hands);
    sorted := sorted || (|h| >= 6 && |h| % 3 == 0 && NoRunBreaker(h));
    assert hands[..] == if sorted then SortVals(h) else h;
    if plane {
      return Airplane;
    }
    JudgesInvariant(hands[..], h);
    var fourTwo := JudgeFourTwo(hands[..]);
    if fourTwo {
      return FourWithTwo;
    }
    var threeTwo := JudgeThreeTwo(hands[..]);
    if threeTwo {
      return ThreeWithTwo;
    }
    var pairs := JudgeConsecutivePairs(hands);
    sorted := sorted || (|h| >= 6 && |h| % 2 == 0 && NoRunBreaker(h));
    assert hands[..] == if sorted then SortVals(h) else h;
    if pairs {
      return PairSequence;
    }
    JudgesInvariant(hands[..], h);
    var straight := JudgeStraight(hands);
    sorted := sorted || (|h| >= 5 && NoRunBreaker(h));
    assert hands[..] == if sorted then SortVals(h) else h;
    if straight {
      return Straight;
    }
    JudgesInvariant(hands[..], h);
    var threeOne := JudgeThreeOne(hands);
    sorted := sorted || |h| == 4;
    assert hands[..] == if sorted then SortVals(h) else h;
    if threeOne {
      return ThreeWithOne;
    }
    JudgesInvariant(hands[..], h);
    if JudgeThreehands(hands[..]) {
      return Three;
    } else if JudgeTwoHands(hands[..]) {
      return Pair;
    } else if hands.Length == 1 {
      return Single;
    } else {
      return Invalid;
    }
  }

  // ---------------------------------------------------------------------------
  // What the type of a short hand is.
  // ---------------------------------------------------------------------------

  /** No card is no hand. */
  lemma EmptyIsInvalid()
    ensures CardTypeOf([]) == Invalid
  {
  }

  /** Two cards are a rocket (the two jokers), a pair (equal values) or invalid. */
  lemma TwoCardTypes(h: seq<Val>)
    requires |h| == 2
    ensures CardTypeOf(h) == Rocket <==> multiset(h) == multiset{W1, W2}
    ensures CardTypeOf(h) == Pair <==> h[0] == h[1]
    ensures CardTypeOf(h) == Invalid <==> h[0] != h[1] && multiset(h) != multiset{W1, W2}
  {
    RocketIff(h);
    assert !JudgeBomb(h) && !IsPlaneWithWings(h) && !IsPlane(h) && !IsFourTwo(h) && !IsThreeTwo(h);
    assert !IsPairSequence(h) && !IsStraight(h) && !IsThreeOne(h) && !JudgeThreehands(h);
    assert h == [h[0], h[1]];
    if h[0] == h[1] {
      assert multiset(h)[h[0]] == 2;
      assert multiset(h) != multiset{W1, W2};
    }
  }

  /** Three cards are a triple (one value) or invalid; in particular a Two with both jokers is invalid. */
  lemma ThreeCardTypes(h: seq<Val>)
    requires |h| == 3
    ensures CardTypeOf(h) == Three <==> h[0] == h[1] == h[2]
    ensures CardTypeOf(h) == Invalid <==> !(h[0] == h[1] == h[2])
  {
  }

  /** Four equal cards hold no value three times. */
  lemma BombHasNoThree(h: seq<Val>)
    requires |h| == 4 && h[0] == h[1] == h[2] == h[3]
    ensures forall v :: Count(h, v) != 3
  {
    assert h == [h[0], h[0], h[0], h[0]];
    assert multiset(h) == multiset{h[0], h[0], h[0], h[0]};
    forall v ensures Count(h, v) != 3 {
      assert multiset(h)[v] == if v == h[0] then 4 else 0;
    }
  }

  /** Of the judges, only the bomb and three-with-one ones can accept four cards. */
  lemma FourCardChain(h: seq<Val>)
    requires |h| == 4
    ensures CardTypeOf(h) == if JudgeBomb(h) then Bomb else if IsThreeOne(h) then ThreeWithOne else Invalid
  {
    assert !IsRocket(h) && !IsPlaneWithWings(h) && !IsPlane(h) && !IsFourTwo(h) && !IsThreeTwo(h);
    assert !IsPairSequence(h) && !IsStraight(h) && !JudgeThreehands(h) && !JudgeTwoHands(h);
  }

  /** Four cards are a bomb (one value), three with one (some value three times) or invalid. */
  lemma FourCardTypes(h: seq<Val>)
    requires |h| == 4
    ensures CardTypeOf(h) == Bomb <==> h[0] == h[1] == h[2] == h[3]
    ensures CardTypeOf(h) == ThreeWithOne <==> exists v :: Count(h, v) == 3
    ensures CardTypeOf(h) == Invalid <==> !(h[0] == h[1] == h[2] == h[3]) && forall v :: Count(h, v) != 3
  {
    ThreeOneIff(h);
    FourCardChain(h);
    if h[0] == h[1] == h[2] == h[3] {
      BombHasNoThree(h);
    }
  }

  /** Five cards are a three with two, a straight, or invalid; the three with two is tried first. */
  lemma FiveCardTypes(h: seq<Val>)
    requires |h| == 5
    ensures CardTypeOf(h) == if IsThreeTwo(h) then ThreeWithTwo else if IsStraight(h) then Straight else Invalid
  {
    assert !IsRocket(h) && !JudgeBomb(h) && !IsPlaneWithWings(h) && !IsPlane(h) && !IsFourTwo(h);
    assert !IsPairSequence(h) && !IsThreeOne(h) && !JudgeThreehands(h) && !JudgeTwoHands(h);
  }

  /** Six cards are a plane, a four with two, a pair sequence, a straight, or invalid, tried in that order. */
  lemma SixCardTypes(h: seq<Val>)
    requires |h| == 6
    ensures CardTypeOf(h) ==
      if IsPlane(h) then Airplane
      else if IsFourTwo(h) then FourWithTwo
      else if IsPairSequence(h) then PairSequence
      else if IsStraight(h) then Straight
      else Invalid
  {
    assert !IsRocket(h) && !JudgeBomb(h) && !IsPlaneWithWings(h) && !IsThreeTwo(h);
    assert !IsThreeOne(h) && !JudgeThreehands(h) && !JudgeTwoHands(h);
  }

  // ---------------------------------------------------------------------------
  // Concrete hands.
  // ---------------------------------------------------------------------------

  /** Three 3s and a 4 are a three with one. */
  lemma ThreeThreesAndFour(h: seq<Val>)
    requires h == [Num(3), Num(3), Num(3), Num(4)]
    ensures CardTypeOf(h) == ThreeWithOne
  {
    FourCardTypes(h);
    assert Count(h, Num(3)) == 3;
  }

  /** Four aces are a bomb. */
  lemma FourAcesBomb(h: seq<Val>)
    requires h == [Num(14), Num(14), Num(14), Num(14)]
    ensures CardTypeOf(h) == Bomb
  {
    FourCardTypes(h);
  }

  /** A Two with both jokers is no pattern. */
  lemma TwoAndJokersInvalid(h: seq<Val>)
    requires h == [Num(15), W1, W2]
    ensures CardTypeOf(h) == Invalid
  {
    ThreeCardTypes(h);
  }

  lemma SevensToNinesFacts(h: seq<Val>)
    requires |h| == 6 && h[0] == h[1] == Num(7) && h[2] == h[3] == Num(8) && h[4] == h[5] == Num(9)
    ensures !TripleAt(h, 0) && PairsRise(h)
    ensures forall v :: Count(h, v) != 4
  {
    assert h == [h[0], h[1], h[2], h[3], h[4], h[5]];
    forall v ensures Count(h, v) != 4 {
      assert Count(h, v) == if v == Num(7) || v == Num(8) || v == Num(9) then 2 else 0;
    }
    forall i | 0 <= i && i + 1 < |h| && i % 2 == 0 ensures PairAt(h, i) {
      assert i == 0 || i == 2 || i == 4;
    }
  }

  /** A hand listed in ascending order is its own sorted form. */
  lemma AscendingLiteral(h: seq<Val>)
    requires forall i :: 0 < i < |h| ==> Ord(h[i - 1]) <= Ord(h[i])
    ensures SortVals(h) == h
  {
    AdjacentSorted(h);
    SortedFixpoint(h);
  }

  lemma {:induction false} AdjacentSorted(h: seq<Val>)
    requires forall i :: 0 < i < |h| ==> Ord(h[i - 1]) <= Ord(h[i])
    ensures SortedBy(h, Self)
    decreases |h|
  {
    if |h| > 1 {
      AdjacentSorted(h[1..]);
      forall i, j | 0 <= i < j < |h| ensures Ord(h[i]) <= Ord(h[j]) {
        if i > 0 {
          assert h[i] == h[1..][i - 1] && h[j] == h[1..][j - 1];
        } else {
          assert h[1] == h[1..][0];
          if j > 1 {
            assert h[j] == h[1..][j - 1];
          }
        }
      }
    }
  }

  /** 7 7 8 8 9 9, in any order, is a pair sequence. */
  lemma SevensToNinesPairSequence(h: seq<Val>)
    requires multiset(h) == multiset{Num(7), Num(7), Num(8), Num(8), Num(9), Num(9)}
    ensures CardTypeOf(h) == PairSequence
  {
    var sorted := [Num(7), Num(7), Num(8), Num(8), Num(9), Num(9)];
    SevensToNinesInOrder(sorted);
    CardTypePermutation(h, sorted);
  }

  lemma SevensToNinesInOrder(h: seq<Val>)
    requires |h| == 6 && h[0] == h[1] == Num(7) && h[2] == h[3] == Num(8) && h[4] == h[5] == Num(9)
    ensures CardTypeOf(h) == PairSequence
  {
    SixCardTypes(h);
    AscendingLiteral(h);
    SevensToNinesFacts(h);
    assert NoRunBreaker(h);
    assert !TriplesRise(SortVals(h));
    assert !IsFourTwo(h);
    assert PairsRise(SortVals(h));
  }

  lemma SevensToNinesOddFacts(h: seq<Val>)
    requires |h| == 5 && h[0] == h[1] == Num(7) && h[2] == h[3] == Num(8) && h[4] == Num(9)
    ensures !StepAt(h, 1)
    ensures forall v :: Count(h, v) != 3
  {
    assert h == [h[0], h[1], h[2], h[3], h[4]];
    forall v ensures Count(h, v) != 3 {
      assert Count(h, v) == if v == Num(7) || v == Num(8) then 2 else if v == Num(9) then 1 else 0;
    }
  }

  /** Dropping one 9 leaves no pattern. */
  lemma OddPairSequenceInvalid(h: seq<Val>)
    requires |h| == 5 && h[0] == h[1] == Num(7) && h[2] == h[3] == Num(8) && h[4] == Num(9)
    ensures CardTypeOf(h) == Invalid
  {
    FiveCardTypes(h);
    AscendingLiteral(h);
    SevensToNinesOddFacts(h);
    assert !IsStraight(h);
  }

  /** Eight cards with two mains pass the ÷4 test, and no earlier judge in judgeCardType claims them. */
  lemma EightWithTwoMains(h: seq<Val>)
    requires |h| == 8 && |MainKeys(h)| == 2
    ensures CardTypeOf(h) == AirplaneWithOne
  {
    assert !IsRocket(h) && !JudgeBomb(h) && IsPlaneWithWings(h);
  }

  /** Two consecutive triples with two single cards are a plane with wings. */
  lemma PlaneWithTwoSingles(h: seq<Val>)
    requires h == [Num(3), Num(3), Num(3), Num(4), Num(4), Num(4), Num(5), Num(6)]
    ensures CardTypeOf(h) == AirplaneWithOne
  {
    assert Count(h, Num(3)) == 3 && Count(h, Num(4)) == 3;
    assert MainKeys(h) == {Num(3), Num(4)} by {
      forall v ensures v in MainKeys(h) <==> v == Num(3) || v == Num(4) {
        assert Count(h, v) == if v == Num(3) || v == Num(4) then 3 else if v == Num(5) || v == Num(6) then 1 else 0;
      }
    }
    EightWithTwoMains(h);
  }

  /** Two fours of a kind also pass the plane-with-wings test: each gives a main and a leftover. */
  lemma TwoFoursArePlaneWithWings(h: seq<Val>)
    requires h == [Num(3), Num(3), Num(3), Num(3), Num(4), Num(4), Num(4), Num(4)]
    ensures CardTypeOf(h) == AirplaneWithOne
  {
    assert Count(h, Num(3)) == 4 && Count(h, Num(4)) == 4;
    assert MainKeys(h) == {Num(3), Num(4)} by {
      forall v ensures v in MainKeys(h) <==> v == Num(3) || v == Num(4) {
        assert Count(h, v) == if v == Num(3) || v == Num(4) then 4 else 0;
      }
    }
    EightWithTwoMains(h);
  }

  /** The mains of a plane with wings need not be consecutive: 333 555 with 7 and 8 passes. */
  lemma GappedPlaneWithWings(h: seq<Val>)
    requires h == [Num(3), Num(3), Num(3), Num(5), Num(5), Num(5), Num(7), Num(8)]
    ensures CardTypeOf(h) == AirplaneWithOne
  {
    assert Count(h, Num(3)) == 3 && Count(h, Num(5)) == 3;
    assert MainKeys(h) == {Num(3), Num(5)} by {
      forall v ensures v in MainKeys(h) <==> v == Num(3) || v == Num(5) {
        assert Count(h, v) == if v == Num(3) || v == Num(5) then 3 else if v == Num(7) || v == Num(8) then 1 else 0;
      }
    }
    EightWithTwoMains(h);
  }
}
