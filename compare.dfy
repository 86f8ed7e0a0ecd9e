/**
 * Comparing two Dou Dizhu hands (src/app/game/Core.ts:212-473).
 *
 * compareHands classifies both hands, so both of the caller's arrays may end
 * up sorted; it is a method on arrays. The per-type comparators never see
 * anything but those classified contents and are methods (those with loops
 * or a count map) or functions over sequences. Each is proved against a
 * specification function; the specification takes a KeyMode, because
 * getFour, getThree and getPair hand back count-map keys, which JavaScript
 * holds as strings: StringKeys is the code as written, NumericKeys the
 * evidently intended numeric ranking.
 */
module DdzCompare {
  import opened Options
  import opened DdzCards
  import opened DdzClassify

  /** The errors the comparators throw, one per message. */
  datatype CompareError =
    | InvalidHands | InvalidBombHands | InvalidPlaneHands | InvalidFourWithWingsHands
    | InvalidThreeWithWingsHands | InvalidStraightHands | InvalidPairSequenceHands
    | InvalidThreeHands | InvalidPairHands | InvalidSingleHands

  /** A comparison either returns a number (its sign says which hand is higher) or throws. */
  datatype Verdict = Ok(value: int) | Fail(error: CompareError)

  /** The verdict with the hands swapped, if comparing is antisymmetric. */
  function Negate(v: Verdict): Verdict {
    if v.Ok? then Ok(-v.value) else v
  }

  /** How a value taken from a count-map key reaches compareCards. */
  datatype KeyMode = StringKeys | NumericKeys

  /** StringKeys: the key itself, a string ("10", "w1"); NumericKeys: the value it names. */
  function HandKey(v: Val, mode: KeyMode): JsVal {
    if mode == StringKeys then JsStr(Key(v)) else ToJs(v)
  }

  /** A comparison result r ranks a against b by game strength. */
  predicate Agrees(r: int, a: Val, b: Val) {
    (r < 0 <==> Ord(a) < Ord(b)) && (r == 0 <==> a == b) && (r > 0 <==> Ord(a) > Ord(b))
  }

  lemma OrdInjective(a: Val, b: Val)
    ensures Ord(a) == Ord(b) ==> a == b
  {
  }

  lemma CompareValAgrees(a: Val, b: Val)
    ensures Agrees(CompareVal(a, b), a, b)
    ensures CompareVal(b, a) == -CompareVal(a, b)
  {
    CompareJsAntisymmetric(ToJs(a), ToJs(b));
  }

  // ---------------------------------------------------------------------------
  // Reading the count map: getMains and getFour / getThree / getPair.
  // ---------------------------------------------------------------------------

  /** The keys of the list, in its order, whose count is c. */
  function KeysWithCount(keys: seq<Val>, countMap: map<Val, nat>, c: nat): (r: seq<Val>)
    ensures forall v {:trigger v in r} :: v in r <==> v in keys && v in countMap && countMap[v] == c
  {
    if keys == [] then []
    else
      var last := keys[|keys| - 1];
      assert keys == keys[..|keys| - 1] + [last];
      KeysWithCount(keys[..|keys| - 1], countMap, c) + (if last in countMap && countMap[last] == c then [last] else [])
  }

  /** Selecting from a list extended by one key extends the selection by that key, if its count is c. */
  lemma KeysWithCountSnoc(keys: seq<Val>, key: Val, countMap: map<Val, nat>, c: nat)
    ensures KeysWithCount(keys + [key], countMap, c) ==
            KeysWithCount(keys, countMap, c) + (if key in countMap && countMap[key] == c then [key] else [])
  {
    assert (keys + [key])[..|keys|] == keys;
  }

  /** Selecting from a strictly ascending list keeps it strictly ascending. */
  lemma {:induction false} KeysWithCountAscending(keys: seq<Val>, countMap: map<Val, nat>, c: nat)
    requires StrictlyAscending(keys)
    ensures StrictlyAscending(KeysWithCount(keys, countMap, c))
  {
    if keys != [] {
      var n := |keys| - 1;
      var init := keys[..n];
      var r := KeysWithCount(init, countMap, c);
      KeysWithCountAscending(init, countMap, c);
      forall i | 0 <= i < |r| ensures Ord(r[i]) < Ord(keys[n]) {
        assert r[i] in r;
        var j :| 0 <= j < n && init[j] == r[i];
      }
    }
  }

  /** The mains of a hand, in the order getMains pushes them: its values held exactly three times. */
  function Mains(h: seq<Val>): (r: seq<Val>)
    ensures forall v {:trigger v in r} :: v in r <==> v in h && Count(h, v) == 3
  {
    var countMap := CountOf(h);
    KeysWithCount(InKeyOrder(countMap.Keys), countMap, 3)
  }

  /** The mains come out in ascending order, each value once, because the for-in walk visits the keys that way. */
  lemma MainsAscending(h: seq<Val>)
    ensures StrictlyAscending(Mains(h))
  {
    var countMap := CountOf(h);
    InKeyOrderAscending(countMap.Keys);
    KeysWithCountAscending(InKeyOrder(countMap.Keys), countMap, 3);
  }

  /** getMains (Core.ts:406-414): walks the count map and keeps the count-3 keys, as values. */
  method GetMains(countMap: map<Val, nat>) returns (mains: seq<Val>)
    ensures mains == KeysWithCount(InKeyOrder(countMap.Keys), countMap, 3)
  {
    mains := SelectWithCount(InKeyOrder(countMap.Keys), countMap, 3);
  }

  /** The loop of getMains over the keys in for-in order. */
  method SelectWithCount(keys: seq<Val>, countMap: map<Val, nat>, c: nat) returns (selected: seq<Val>)
    requires forall k :: k in keys ==> k in countMap
    ensures selected == KeysWithCount(keys, countMap, c)
  {
    selected := [];
    for i := 0 to |keys|
      invariant selected == KeysWithCount(keys[..i], countMap, c)
    {
      var key := keys[i];
      assert keys[..i + 1] == keys[..i] + [key];
      KeysWithCountSnoc(keys[..i], key, countMap, c);
      if countMap[key] == c {
        selected := selected + [key];
      }
    }
    assert keys[..|keys|] == keys;
  }

  /** The first key of the list, in its order, whose count is c. */
  function FirstWithCount(keys: seq<Val>, countMap: map<Val, nat>, c: nat): (r: Option<Val>)
    ensures r.Some? ==> r.value in keys && r.value in countMap && countMap[r.value] == c
    ensures r.None? <==> forall v :: v in keys && v in countMap ==> countMap[v] != c
  {
    if keys == [] then None
    else if keys[0] in countMap && countMap[keys[0]] == c then Some(keys[0])
    else
      assert forall v :: v in keys ==> v == keys[0] || v in keys[1..];
      FirstWithCount(keys[1..], countMap, c)
  }

  /** One step of the walk: the key at i is taken if it has the count, else the walk goes on. */
  lemma FirstWithCountAt(keys: seq<Val>, countMap: map<Val, nat>, c: nat, i: nat)
    requires i < |keys| && keys[i] in countMap
    ensures FirstWithCount(keys[i..], countMap, c)
      == if countMap[keys[i]] == c then Some(keys[i]) else FirstWithCount(keys[i + 1..], countMap, c)
  {
    assert keys[i..][1..] == keys[i + 1..];
  }

  /** The key getFour / getThree / getPair stop at: the first, in for-in order, held `size` times. */
  function GroupKey(countMap: map<Val, nat>, size: nat): (r: Option<Val>)
    ensures r.Some? ==> r.value in countMap && countMap[r.value] == size
    ensures r.None? <==> forall v :: v in countMap ==> countMap[v] != size
  {
    FirstWithCount(InKeyOrder(countMap.Keys), countMap, size)
  }

  /**
   * What getFour / getThree / getPair return for a group of `size` cards: the
   * group's key `size` times over, or nothing.
   */
  function Group(countMap: map<Val, nat>, size: nat, mode: KeyMode): (r: seq<JsVal>)
    ensures r == [] <==> size == 0 || GroupKey(countMap, size).None?
    ensures r != [] ==> |r| == size && forall i :: 0 <= i < |r| ==> r[i] == HandKey(GroupKey(countMap, size).value, mode)
  {
    match GroupKey(countMap, size)
    case None => []
    case Some(v) => seq(size, _ => HandKey(v, mode))
  }

  lemma GroupOfKey(countMap: map<Val, nat>, size: nat, key: Val, group: seq<JsVal>)
    requires GroupKey(countMap, size) == Some(key)
    requires |group| == size && forall i :: 0 <= i < size ==> group[i] == JsStr(Key(key))
    ensures group == Group(countMap, size, StringKeys)
  {
    var r := Group(countMap, size, StringKeys);
    assert |r| == size;
    forall i | 0 <= i < size ensures r[i] == group[i] {
    }
  }

  /** The for-in walk of getFour / getThree / getPair: it stops at the first key held `size` times. */
  method FindGroupKey(countMap: map<Val, nat>, size: nat) returns (found: Option<Val>)
    ensures found == GroupKey(countMap, size)
  {
    var keys := InKeyOrder(countMap.Keys);
    for i := 0 to |keys|
      invariant FirstWithCount(keys, countMap, size) == FirstWithCount(keys[i..], countMap, size)
    {
      var key := keys[i];
      assert key in keys;
      FirstWithCountAt(keys, countMap, size, i);
      if countMap[key] == size {
        return Some(key);
      }
    }
    assert keys[|keys|..] == [];
    return None;
  }

  /** The walk and its early return, shared by getFour, getThree and getPair. */
  method GetGroup(countMap: map<Val, nat>, size: nat) returns (group: seq<JsVal>)
    ensures group == Group(countMap, size, StringKeys)
  {
    var found := FindGroupKey(countMap, size);
    match found {
      case None =>
        group := [];
      case Some(key) =>
        group := seq(size, _ => JsStr(Key(key)));
        GroupOfKey(countMap, size, key, group);
    }
  }

  /** getFour (Core.ts:416-423). */
  method GetFour(countMap: map<Val, nat>) returns (four: seq<JsVal>)
    ensures four == Group(countMap, 4, StringKeys)
  {
    four := GetGroup(countMap, 4);
  }

  /** getThree (Core.ts:425-432). */
  method GetThree(countMap: map<Val, nat>) returns (three: seq<JsVal>)
    ensures three == Group(countMap, 3, StringKeys)
  {
    three := GetGroup(countMap, 3);
  }

  /** getPair (Core.ts:434-441). */
  method GetPair(countMap: map<Val, nat>) returns (pair: seq<JsVal>)
    ensures pair == Group(countMap, 2, StringKeys)
  {
    pair := GetGroup(countMap, 2);
  }

  // ---------------------------------------------------------------------------
  // The per-type comparators.
  // ---------------------------------------------------------------------------

  /** The first non-zero comparison of a[j] with b[j], for j from i up, or 0. */
  function FirstDiffFrom(a: seq<Val>, b: seq<Val>, i: nat): (r: int)
    requires |a| == |b| && i <= |a|
    ensures r == 0 <==> forall j :: i <= j < |a| ==> a[j] == b[j]
    decreases |a| - i
  {
    if i == |a| then 0
    else
      var c := CompareVal(a[i], b[i]);
      if c != 0 then c else FirstDiffFrom(a, b, i + 1)
  }

  /** The first non-zero comparison of a[j] with b[j], from the left, or 0. */
  function FirstDiff(a: seq<Val>, b: seq<Val>): (r: int)
    requires |a| == |b|
    ensures r == 0 <==> a == b
  {
    var r := FirstDiffFrom(a, b, 0);
    assert r == 0 ==> a == b by {
      if r == 0 {
        assert forall j :: 0 <= j < |a| ==> a[j] == b[j];
      }
    }
    r
  }

  /** compareBombs (Core.ts:260-267): two four-card hands, ranked by their first cards. */
  function CompareBombs(hands1: seq<Val>, hands2: seq<Val>): (r: Verdict)
    ensures r.Fail? <==> |hands1| != 4 || |hands2| != 4
    ensures r.Fail? ==> r.error == InvalidBombHands
    ensures r.Ok? ==> Agrees(r.value, hands1[0], hands2[0])
  {
    if |hands1| != 4 || |hands2| != 4 then Fail(InvalidBombHands)
    else
      CompareValAgrees(hands1[0], hands2[0]);
      Ok(CompareVal(hands1[0], hands2[0]))
  }

  /** compareSingles (Core.ts:390-396): two one-card hands, ranked by their cards. */
  function CompareSingles(hands1: seq<Val>, hands2: seq<Val>): (r: Verdict)
    ensures r.Fail? <==> |hands1| != 1 || |hands2| != 1
    ensures r.Fail? ==> r.error == InvalidSingleHands
    ensures r.Ok? ==> Agrees(r.value, hands1[0], hands2[0])
  {
    if |hands1| != 1 || |hands2| != 1 then Fail(InvalidSingleHands)
    else
      CompareValAgrees(hands1[0], hands2[0]);
      Ok(CompareVal(hands1[0], hands2[0]))
  }

  /**
   * compareStraights (Core.ts:327-336): sorts both hands and compares their
   * first cards; hands of different lengths throw. Two empty hands compare
   * `undefined` with `undefined`, which compareCards answers with 1.
   */
  function CompareStraights(hands1: seq<Val>, hands2: seq<Val>): (r: Verdict)
    ensures r.Fail? <==> |hands1| != |hands2|
    ensures r.Fail? ==> r.error == InvalidStraightHands
    ensures r.Ok? && |hands1| > 0 ==> Agrees(r.value, SortVals(hands1)[0], SortVals(hands2)[0])
  {
    var sorted1 := SortVals(hands1);
    var sorted2 := SortVals(hands2);
    if |sorted1| != |sorted2| then Fail(InvalidStraightHands)
    else
      assert |sorted1| > 0 ==> Agrees(CompareVal(sorted1[0], sorted2[0]), sorted1[0], sorted2[0]) by {
        if |sorted1| > 0 {
          CompareValAgrees(sorted1[0], sorted2[0]);
        }
      }
      Ok(CompareJs(At(sorted1, 0), At(sorted2, 0)))
  }

  /** What comparePlanes computes: the sorted mains, compared from the lowest up. */
  function PlanesVerdict(hands1: seq<Val>, hands2: seq<Val>): (r: Verdict)
    ensures r.Fail? <==> |Mains(hands1)| != |Mains(hands2)|
    ensures r.Fail? ==> r.error == InvalidPlaneHands
    ensures r == Ok(0) <==> Mains(hands1) == Mains(hands2)
  {
    var mains1 := SortVals(Mains(hands1));
    var mains2 := SortVals(Mains(hands2));
    MainsAscending(hands1);
    MainsAscending(hands2);
    SortedFixpoint(Mains(hands1));
    SortedFixpoint(Mains(hands2));
    if |mains1| != |mains2| then Fail(InvalidPlaneHands) else Ok(FirstDiff(mains1, mains2))
  }

  /** comparePlanes (Core.ts:269-291): counts both hands, takes their mains, sorts them and compares them pairwise. */
  method ComparePlanes(hands1: seq<Val>, hands2: seq<Val>) returns (r: Verdict)
    ensures r == PlanesVerdict(hands1, hands2)
  {
    var countMap1 := GetCountMap(hands1);
    var countMap2 := GetCountMap(hands2);
    var mains1 := GetMains(countMap1);
    var mains2 := GetMains(countMap2);
    if |mains1| != |mains2| {
      return Fail(InvalidPlaneHands);
    }
    var sortedMains1 := SortVals(mains1);
    var sortedMains2 := SortVals(mains2);
    var result := CompareInOrder(sortedMains1, sortedMains2);
    return Ok(result);
  }

  /** The loop of comparePlanes: the first non-zero compareCards of equal positions. */
  method CompareInOrder(sorted1: seq<Val>, sorted2: seq<Val>) returns (r: int)
    requires |sorted1| == |sorted2|
    ensures r == FirstDiff(sorted1, sorted2)
  {
    for i := 0 to |sorted1|
      invariant FirstDiff(sorted1, sorted2) == FirstDiffFrom(sorted1, sorted2, i)
    {
      var result := CompareJs(ToJs(sorted1[i]), ToJs(sorted2[i]));
      if result != 0 {
        return result;
      }
    }
    return 0;
  }

  /** The value of every second card: the pairs of a sorted pair sequence. */
  function EverySecond(s: seq<Val>): (r: seq<Val>)
    ensures |r| == (|s| + 1) / 2
    ensures forall k :: 0 <= k < |r| ==> r[k] == s[2 * k]
  {
    seq((|s| + 1) / 2, k requires 0 <= k < (|s| + 1) / 2 => s[2 * k])
  }

  /** What comparePairSequences computes: the sorted hands, compared pair by pair from the lowest. */
  function PairSequencesVerdict(hands1: seq<Val>, hands2: seq<Val>): (r: Verdict)
    ensures r.Fail? <==> |hands1| != |hands2|
    ensures r.Fail? ==> r.error == InvalidPairSequenceHands
  {
    var sorted1 := SortVals(hands1);
    var sorted2 := SortVals(hands2);
    if |sorted1| != |sorted2| then Fail(InvalidPairSequenceHands) else Ok(FirstDiff(EverySecond(sorted1), EverySecond(sorted2)))
  }

  /** comparePairSequences (Core.ts:338-354): sorts both hands and compares every second card. */
  method ComparePairSequences(hands1: seq<Val>, hands2: seq<Val>) returns (r: Verdict)
    ensures r == PairSequencesVerdict(hands1, hands2)
  {
    var sortedHands1 := SortVals(hands1);
    var sortedHands2 := SortVals(hands2);
    if |sortedHands1| != |sortedHands2| {
      return Fail(InvalidPairSequenceHands);
    }
    var result := CompareEverySecond(sortedHands1, sortedHands2);
    return Ok(result);
  }

  /** The loop of comparePairSequences: compareCards at positions 0, 2, 4, ..., the first non-zero wins. */
  method CompareEverySecond(sorted1: seq<Val>, sorted2: seq<Val>) returns (r: int)
    requires |sorted1| == |sorted2|
    ensures r == FirstDiff(EverySecond(sorted1), EverySecond(sorted2))
  {
    ghost var pairs1, pairs2 := EverySecond(sorted1), EverySecond(sorted2);
    var i := 0;
    while i < |sorted1|
      invariant i % 2 == 0 && 0 <= i <= |sorted1| + 1
      invariant FirstDiff(pairs1, pairs2) == FirstDiffFrom(pairs1, pairs2, i / 2)
    {
      var result := CompareJs(ToJs(sorted1[i]), ToJs(sorted2[i]));
      assert pairs1[i / 2] == sorted1[i] && pairs2[i / 2] == sorted2[i];
      if result != 0 {
        return result;
      }
      i := i + 2;
    }
    return 0;
  }

  /**
   * What compareFourWithWings, compareThreeWithWings, compareThrees and
   * comparePairs compute: the first group of `size` cards of each hand,
   * ranked by its first element; a hand without such a group throws.
   */
  function GroupsVerdict(hands1: seq<Val>, hands2: seq<Val>, size: nat, err: CompareError, mode: KeyMode): (r: Verdict)
    requires size > 0
    ensures r.Fail? <==> Group(CountOf(hands1), size, mode) == [] || Group(CountOf(hands2), size, mode) == []
    ensures r.Fail? ==> r.error == err
  {
    var group1 := Group(CountOf(hands1), size, mode);
    var group2 := Group(CountOf(hands2), size, mode);
    if |group1| != size || |group2| != size then Fail(err) else Ok(CompareJs(group1[0], group2[0]))
  }

  /** The body shared by the four count-map comparators. */
  method CompareGroups(hands1: seq<Val>, hands2: seq<Val>, size: nat, err: CompareError) returns (r: Verdict)
    requires size > 0
    ensures r == GroupsVerdict(hands1, hands2, size, err, StringKeys)
  {
    var countMap1 := GetCountMap(hands1);
    var countMap2 := GetCountMap(hands2);
    var group1 := GetGroup(countMap1, size);
    var group2 := GetGroup(countMap2, size);
    if |group1| != size || |group2| != size {
      return Fail(err);
    }
    return Ok(CompareJs(group1[0], group2[0]));
  }

  /** compareFourWithWings (Core.ts:293-308). */
  method CompareFourWithWings(hands1: seq<Val>, hands2: seq<Val>) returns (r: Verdict)
    ensures r == GroupsVerdict(hands1, hands2, 4, InvalidFourWithWingsHands, StringKeys)
  {
    r := CompareGroups(hands1, hands2, 4, InvalidFourWithWingsHands);
  }

  /** compareThreeWithWings (Core.ts:310-325). */
  method CompareThreeWithWings(hands1: seq<Val>, hands2: seq<Val>) returns (r: Verdict)
    ensures r == GroupsVerdict(hands1, hands2, 3, InvalidThreeWithWingsHands, StringKeys)
  {
    r := CompareGroups(hands1, hands2, 3, InvalidThreeWithWingsHands);
  }

  /** compareThrees (Core.ts:356-371). */
  method CompareThrees(hands1: seq<Val>, hands2: seq<Val>) returns (r: Verdict)
    ensures r == GroupsVerdict(hands1, hands2, 3, InvalidThreeHands, StringKeys)
  {
    r := CompareGroups(hands1, hands2, 3, InvalidThreeHands);
  }

  /** comparePairs (Core.ts:373-388). */
  method ComparePairs(hands1: seq<Val>, hands2: seq<Val>) returns (r: Verdict)
    ensures r == GroupsVerdict(hands1, hands2, 2, InvalidPairHands, StringKeys)
  {
    r := CompareGroups(hands1, hands2, 2, InvalidPairHands);
  }

  /** The size of the group a type is compared by. */
  function GroupSize(t: CardType): (size: nat)
    ensures size >= 2
  {
    if t == FourWithTwo || t == FourWithOne then 4 else if t == Pair then 2 else 3
  }

  /** The error a type's comparator throws when a hand has no such group. */
  function GroupError(t: CardType): CompareError {
    if t == FourWithTwo || t == FourWithOne then InvalidFourWithWingsHands
    else if t == ThreeWithTwo || t == ThreeWithOne then InvalidThreeWithWingsHands
    else if t == Three then InvalidThreeHands
    else InvalidPairHands
  }

  /** The types compareHandsByType compares by their mains. */
  predicate ComparedAsPlane(t: CardType) {
    t == AirplaneWithOne || t == AirplaneWithTwo || t == Airplane
  }

  /** The types compareHandsByType compares through a count-map group. */
  predicate ComparedByGroup(t: CardType) {
    t == Pair || t == Three || t == ThreeWithOne || t == ThreeWithTwo || t == FourWithTwo || t == FourWithOne
  }

  /** Of those, the ones judgeCardType can give (it never answers FourWithOne). */
  predicate IsGroupType(t: CardType) {
    ComparedByGroup(t) && t != FourWithOne
  }

  /** What the count-map comparator of a group type returns. */
  function GroupTypeVerdict(hands1: seq<Val>, hands2: seq<Val>, t: CardType, mode: KeyMode): (r: Verdict)
    requires ComparedByGroup(t)
    ensures r.Fail? ==> r.error == GroupError(t)
  {
    GroupsVerdict(hands1, hands2, GroupSize(t), GroupError(t), mode)
  }

  /**
   * What compareHandsByType (Core.ts:225-258) returns for two hands taken to
   * be of type t; the fifteen cases of its switch are grouped by the
   * comparator they call.
   */
  function ByTypeVerdict(hands1: seq<Val>, hands2: seq<Val>, t: CardType, mode: KeyMode): (r: Verdict)
    ensures r != Fail(InvalidHands)
    ensures t == Rocket || t == Invalid ==> r == Ok(0)
  {
    if ComparedAsPlane(t) then PlanesVerdict(hands1, hands2)
    else if ComparedByGroup(t) then GroupTypeVerdict(hands1, hands2, t, mode)
    else match t
      case Bomb => CompareBombs(hands1, hands2)
      case Straight => CompareStraights(hands1, hands2)
      case PairSequence => PairSequencesVerdict(hands1, hands2)
      case Single => CompareSingles(hands1, hands2)
      case _ => Ok(0)
  }

  /** The six count-map cases of compareHandsByType. */
  method CompareGroupType(hands1: seq<Val>, hands2: seq<Val>, t: CardType) returns (r: Verdict)
    requires ComparedByGroup(t)
    ensures r == GroupTypeVerdict(hands1, hands2, t, StringKeys)
  {
    ghost var size, err := GroupSize(t), GroupError(t);
    match t {
      case FourWithTwo | FourWithOne =>
        assert size == 4 && err == InvalidFourWithWingsHands;
        r := CompareFourWithWings(hands1, hands2);
      case ThreeWithTwo | ThreeWithOne =>
        assert size == 3 && err == InvalidThreeWithWingsHands;
        r := CompareThreeWithWings(hands1, hands2);
      case Three =>
        assert size == 3 && err == InvalidThreeHands;
        r := CompareThrees(hands1, hands2);
      case Pair =>
        assert size == 2 && err == InvalidPairHands;
        r := ComparePairs(hands1, hands2);
    }
  }

  // Each case of ByTypeVerdict on its own, so that a proof about one case
  // does not have to unfold the others.

  lemma NeitherPlaneNorGroup(t: CardType)
    requires t == Bomb || t == Single || t == Straight || t == PairSequence
    ensures !ComparedAsPlane(t) && !ComparedByGroup(t)
  {
  }

  lemma ByTypeBombs(hands1: seq<Val>, hands2: seq<Val>, t: CardType, mode: KeyMode)
    requires t == Bomb
    ensures ByTypeVerdict(hands1, hands2, t, mode) == CompareBombs(hands1, hands2)
  {
    NeitherPlaneNorGroup(t);
  }

  lemma ByTypeSingles(hands1: seq<Val>, hands2: seq<Val>, t: CardType, mode: KeyMode)
    requires t == Single
    ensures ByTypeVerdict(hands1, hands2, t, mode) == CompareSingles(hands1, hands2)
  {
    NeitherPlaneNorGroup(t);
  }

  lemma ByTypePlanes(hands1: seq<Val>, hands2: seq<Val>, t: CardType, mode: KeyMode)
    requires ComparedAsPlane(t)
    ensures ByTypeVerdict(hands1, hands2, t, mode) == PlanesVerdict(hands1, hands2)
  {
  }

  lemma ByTypeGroups(hands1: seq<Val>, hands2: seq<Val>, t: CardType, mode: KeyMode)
    requires ComparedByGroup(t)
    ensures ByTypeVerdict(hands1, hands2, t, mode) == GroupTypeVerdict(hands1, hands2, t, mode)
  {
    assert !ComparedAsPlane(t);
  }

  lemma ByTypeStraights(hands1: seq<Val>, hands2: seq<Val>, t: CardType, mode: KeyMode)
    requires t == Straight
    ensures ByTypeVerdict(hands1, hands2, t, mode) == CompareStraights(hands1, hands2)
  {
    NeitherPlaneNorGroup(t);
  }

  lemma ByTypePairSequences(hands1: seq<Val>, hands2: seq<Val>, t: CardType, mode: KeyMode)
    requires t == PairSequence
    ensures ByTypeVerdict(hands1, hands2, t, mode) == PairSequencesVerdict(hands1, hands2)
  {
    NeitherPlaneNorGroup(t);
  }

  /** compareHandsByType (Core.ts:225-258): dispatches on the type to its comparator. */
  method CompareHandsByType(hands1: seq<Val>, hands2: seq<Val>, t: CardType) returns (r: Verdict)
    ensures r == ByTypeVerdict(hands1, hands2, t, StringKeys)
  {
    match t {
      case Rocket | Invalid =>
        r := Ok(0);
      case Bomb =>
        r := CompareBombs(hands1, hands2);
        ByTypeBombs(hands1, hands2, t, StringKeys);
      case AirplaneWithOne | AirplaneWithTwo | Airplane =>
        r := ComparePlanes(hands1, hands2);
        ByTypePlanes(hands1, hands2, t, StringKeys);
      case FourWithTwo | FourWithOne | ThreeWithTwo | ThreeWithOne | Three | Pair =>
        r := CompareGroupType(hands1, hands2, t);
        ByTypeGroups(hands1, hands2, t, StringKeys);
      case Straight =>
        r := CompareStraights(hands1, hands2);
        ByTypeStraights(hands1, hands2, t, StringKeys);
      case PairSequence =>
        r := ComparePairSequences(hands1, hands2);
        ByTypePairSequences(hands1, hands2, t, StringKeys);
      case Single =>
        r := CompareSingles(hands1, hands2);
        ByTypeSingles(hands1, hands2, t, StringKeys);
    }
  }

  // ---------------------------------------------------------------------------
  // compareHands (Core.ts:447-473).
  // ---------------------------------------------------------------------------

  /** The contents of a hand's array once judgeCardType has run on it. */
  ghost function Judged(h: seq<Val>): (r: seq<Val>)
    ensures multiset(r) == multiset(h)
  {
    if JudgingSorts(h) then SortVals(h) else h
  }

  /** Judging an array a second time leaves it as the first time did. */
  lemma JudgedIdempotent(h: seq<Val>)
    ensures Judged(Judged(h)) == Judged(h)
    ensures CardTypeOf(Judged(h)) == CardTypeOf(h)
  {
    JudgesInvariant(Judged(h), h);
    CardTypePermutation(Judged(h), h);
    SortValsIdempotent(h);
  }

  /**
   * What compareHands returns: invalid hands throw; hands of one type go to
   * that type's comparator (on the contents judging left); a rocket beats
   * any other type, then a bomb does; any other mismatch gives 0.
   */
  ghost function HandsVerdict(hands1: seq<Val>, hands2: seq<Val>, mode: KeyMode): (r: Verdict)
    ensures r == Fail(InvalidHands) <==> CardTypeOf(hands1) == Invalid || CardTypeOf(hands2) == Invalid
  {
    var type1 := CardTypeOf(hands1);
    var type2 := CardTypeOf(hands2);
    if type1 == Invalid || type2 == Invalid then Fail(InvalidHands)
    else if type1 == type2 then ByTypeVerdict(Judged(hands1), Judged(hands2), type1, mode)
    else if type1 == Rocket then Ok(1)
    else if type2 == Rocket then Ok(-1)
    else if type1 == Bomb then Ok(1)
    else if type2 == Bomb then Ok(-1)
    else Ok(0)
  }

  /**
   * compareHands (Core.ts:447-473). Both arrays are left as judging leaves
   * them; the same array may be passed twice.
   */
  method CompareHands(hands1: array<Val>, hands2: array<Val>) returns (r: Verdict)
    modifies hands1, hands2
    ensures r == HandsVerdict(old(hands1[..]), old(hands2[..]), StringKeys)
    ensures hands1[..] == Judged(old(hands1[..]))
    ensures hands2[..] == Judged(old(hands2[..]))
  {
    ghost var h1, h2 := hands1[..], hands2[..];
    var type1 := JudgeCardType(hands1);
    assert hands1[..] == Judged(h1);
    if hands1 == hands2 {
      JudgedIdempotent(h1);
    }
    assert hands2[..] == if hands1 == hands2 then Judged(h2) else h2;
    var type2 := JudgeCardType(hands2);
    JudgedIdempotent(h2);
    assert type2 == CardTypeOf(h2);
    assert hands1[..] == Judged(h1) && hands2[..] == Judged(h2);
    if type1 == Invalid || type2 == Invalid {
      return Fail(InvalidHands);
    }
    if type1 == type2 {
      r := CompareHandsByType(hands1[..], hands2[..], type1);
      return;
    }
    if type1 == Rocket {
      return Ok(1);
    }
    if type2 == Rocket {
      return Ok(-1);
    }
    if type1 == Bomb {
      return Ok(1);
    }
    if type2 == Bomb {
      return Ok(-1);
    }
    return Ok(0);
  }

  // ---------------------------------------------------------------------------
  // What compareHands decides.
  // ---------------------------------------------------------------------------

  /** A rocket beats every other valid hand, in either position. */
  lemma RocketWins(hands1: seq<Val>, hands2: seq<Val>, mode: KeyMode)
    requires CardTypeOf(hands1) == Rocket
    requires CardTypeOf(hands2) != Invalid && CardTypeOf(hands2) != Rocket
    ensures HandsVerdict(hands1, hands2, mode) == Ok(1)
    ensures HandsVerdict(hands2, hands1, mode) == Ok(-1)
  {
  }

  /** Two rockets tie. */
  lemma RocketsTie(hands1: seq<Val>, hands2: seq<Val>, mode: KeyMode)
    requires CardTypeOf(hands1) == Rocket && CardTypeOf(hands2) == Rocket
    ensures HandsVerdict(hands1, hands2, mode) == Ok(0)
  {
  }

  /** A bomb beats every valid hand but a rocket or another bomb, in either position. */
  lemma BombWins(hands1: seq<Val>, hands2: seq<Val>, mode: KeyMode)
    requires CardTypeOf(hands1) == Bomb
    requires CardTypeOf(hands2) !in {Invalid, Rocket, Bomb}
    ensures HandsVerdict(hands1, hands2, mode) == Ok(1)
    ensures HandsVerdict(hands2, hands1, mode) == Ok(-1)
  {
  }

  /** Two valid hands of different types, neither a rocket nor a bomb, cannot be compared: 0. */
  lemma MismatchTies(hands1: seq<Val>, hands2: seq<Val>, mode: KeyMode)
    requires CardTypeOf(hands1) != CardTypeOf(hands2)
    requires CardTypeOf(hands1) !in {Invalid, Rocket, Bomb} && CardTypeOf(hands2) !in {Invalid, Rocket, Bomb}
    ensures HandsVerdict(hands1, hands2, mode) == Ok(0)
  {
  }

  /** Only a rocket or a bomb wins against a hand of another type. */
  lemma OnlyRocketOrBombBeatsOtherTypes(hands1: seq<Val>, hands2: seq<Val>, mode: KeyMode)
    requires CardTypeOf(hands1) != CardTypeOf(hands2)
    requires HandsVerdict(hands1, hands2, mode).Ok? && HandsVerdict(hands1, hands2, mode).value > 0
    ensures CardTypeOf(hands1) == Rocket || (CardTypeOf(hands1) == Bomb && CardTypeOf(hands2) != Rocket)
  {
  }

  lemma {:induction false} FirstDiffFromAntisymmetric(a: seq<Val>, b: seq<Val>, i: nat)
    requires |a| == |b| && i <= |a|
    ensures FirstDiffFrom(b, a, i) == -FirstDiffFrom(a, b, i)
    decreases |a| - i
  {
    if i < |a| {
      CompareValAgrees(a[i], b[i]);
      FirstDiffFromAntisymmetric(a, b, i + 1);
    }
  }

  lemma FirstDiffAntisymmetric(a: seq<Val>, b: seq<Val>)
    requires |a| == |b|
    ensures FirstDiff(b, a) == -FirstDiff(a, b)
  {
    FirstDiffFromAntisymmetric(a, b, 0);
  }

  lemma StraightsAntisymmetric(hands1: seq<Val>, hands2: seq<Val>)
    requires |hands1| > 0 && |hands2| > 0
    ensures CompareStraights(hands2, hands1) == Negate(CompareStraights(hands1, hands2))
  {
    CompareValAgrees(SortVals(hands1)[0], SortVals(hands2)[0]);
  }

  lemma PlanesAntisymmetric(hands1: seq<Val>, hands2: seq<Val>)
    ensures PlanesVerdict(hands2, hands1) == Negate(PlanesVerdict(hands1, hands2))
  {
    if |Mains(hands1)| == |Mains(hands2)| {
      FirstDiffAntisymmetric(SortVals(Mains(hands1)), SortVals(Mains(hands2)));
    }
  }

  lemma PairSequencesAntisymmetric(hands1: seq<Val>, hands2: seq<Val>)
    ensures PairSequencesVerdict(hands2, hands1) == Negate(PairSequencesVerdict(hands1, hands2))
  {
    if |hands1| == |hands2| {
      FirstDiffAntisymmetric(EverySecond(SortVals(hands1)), EverySecond(SortVals(hands2)));
    }
  }

  lemma GroupsAntisymmetric(hands1: seq<Val>, hands2: seq<Val>, size: nat, err: CompareError, mode: KeyMode)
    requires size > 0
    ensures GroupsVerdict(hands2, hands1, size, err, mode) == Negate(GroupsVerdict(hands1, hands2, size, err, mode))
  {
    var group1, group2 := Group(CountOf(hands1), size, mode), Group(CountOf(hands2), size, mode);
    if |group1| == size && |group2| == size {
      assert group1[0] != JsUndefined && group2[0] != JsUndefined;
      CompareJsAntisymmetric(group1[0], group2[0]);
    }
  }

  /** Swapping the hands of one type negates the comparator's verdict (valid hands are never empty). */
  lemma ByTypeAntisymmetric(hands1: seq<Val>, hands2: seq<Val>, t: CardType, mode: KeyMode)
    requires |hands1| > 0 && |hands2| > 0
    ensures ByTypeVerdict(hands2, hands1, t, mode) == Negate(ByTypeVerdict(hands1, hands2, t, mode))
  {
    match t
    case Bomb =>
      ByTypeBombs(hands1, hands2, t, mode);
      ByTypeBombs(hands2, hands1, t, mode);
      CompareValAgrees(hands1[0], hands2[0]);
    case Single =>
      ByTypeSingles(hands1, hands2, t, mode);
      ByTypeSingles(hands2, hands1, t, mode);
      CompareValAgrees(hands1[0], hands2[0]);
    case AirplaneWithOne | AirplaneWithTwo | Airplane =>
      ByTypePlanes(hands1, hands2, t, mode);
      ByTypePlanes(hands2, hands1, t, mode);
      PlanesAntisymmetric(hands1, hands2);
    case FourWithTwo | FourWithOne | ThreeWithTwo | ThreeWithOne | Three | Pair =>
      ByTypeGroups(hands1, hands2, t, mode);
      ByTypeGroups(hands2, hands1, t, mode);
      GroupsAntisymmetric(hands1, hands2, GroupSize(t), GroupError(t), mode);
    case Straight =>
      ByTypeStraights(hands1, hands2, t, mode);
      ByTypeStraights(hands2, hands1, t, mode);
      StraightsAntisymmetric(hands1, hands2);
    case PairSequence =>
      ByTypePairSequences(hands1, hands2, t, mode);
      ByTypePairSequences(hands2, hands1, t, mode);
      PairSequencesAntisymmetric(hands1, hands2);
    case Rocket | Invalid =>
  }

  /** Hands of one type: the by-type verdict, which is antisymmetric. */
  lemma SameTypeAntisymmetric(hands1: seq<Val>, hands2: seq<Val>, mode: KeyMode)
    requires CardTypeOf(hands1) == CardTypeOf(hands2) != Invalid
    ensures HandsVerdict(hands2, hands1, mode) == Negate(HandsVerdict(hands1, hands2, mode))
  {
    TypedNonEmpty(hands1);
    TypedNonEmpty(hands2);
    SameTypeVerdict(hands1, hands2, mode);
    SameTypeVerdict(hands2, hands1, mode);
    ByTypeAntisymmetric(Judged(hands1), Judged(hands2), CardTypeOf(hands1), mode);
  }

  /** Only hands with cards have a type. */
  lemma TypedNonEmpty(h: seq<Val>)
    requires CardTypeOf(h) != Invalid
    ensures |h| > 0
  {
  }

  /** compareHands is antisymmetric: swapping the hands negates the result, and the same errors are thrown. */
  lemma CompareHandsAntisymmetric(hands1: seq<Val>, hands2: seq<Val>, mode: KeyMode)
    ensures HandsVerdict(hands2, hands1, mode) == Negate(HandsVerdict(hands1, hands2, mode))
  {
    var type1, type2 := CardTypeOf(hands1), CardTypeOf(hands2);
    if type1 != Invalid && type2 != Invalid && type1 == type2 {
      SameTypeAntisymmetric(hands1, hands2, mode);
    }
  }

  // ---------------------------------------------------------------------------
  // Ranking hands of one type.
  // ---------------------------------------------------------------------------

  /** Two different values together are held at most |h| times. */
  lemma {:induction false} TwoCounts(h: seq<Val>, v: Val, w: Val)
    requires v != w
    ensures Count(h, v) + Count(h, w) <= |h|
  {
    if h != [] {
      assert h == [h[0]] + h[1..];
      assert multiset(h) == multiset{h[0]} + multiset(h[1..]);
      TwoCounts(h[1..], v, w);
    }
  }

  lemma CountOfPermutation(a: seq<Val>, b: seq<Val>)
    requires multiset(a) == multiset(b)
    ensures CountOf(a) == CountOf(b)
  {
    forall v ensures v in a <==> v in b {
      assert v in a <==> v in multiset(a);
      assert v in b <==> v in multiset(b);
    }
  }

  /** When a value is held `size` times and no other value can be, that is the group found. */
  lemma GroupOf(h: seq<Val>, v: Val, size: nat, mode: KeyMode)
    requires size > 0 && Count(h, v) == size && 2 * size > |h|
    ensures Group(CountOf(h), size, mode) == seq(size, _ => HandKey(v, mode))
  {
    assert v in multiset(h);
    var countMap := CountOf(h);
    assert v in countMap && countMap[v] == size;
    var first := GroupKey(countMap, size);
    assert first.Some?;
    if first.value != v {
      TwoCounts(h, v, first.value);
    }
  }

  /** A group type's hands are short enough that only one value can be held GroupSize times. */
  lemma GroupTypeLength(h: seq<Val>)
    requires IsGroupType(CardTypeOf(h))
    ensures 2 * GroupSize(CardTypeOf(h)) > |h|
  {
    GroupTypeMeans(h);
  }

  lemma GroupsVerdictValue(hands1: seq<Val>, hands2: seq<Val>, size: nat, err: CompareError, mode: KeyMode, v1: Val, v2: Val)
    requires size > 0 && 2 * size > |hands1| && 2 * size > |hands2|
    requires Count(hands1, v1) == size && Count(hands2, v2) == size
    ensures GroupsVerdict(hands1, hands2, size, err, mode) == Ok(CompareJs(HandKey(v1, mode), HandKey(v2, mode)))
  {
    GroupOf(hands1, v1, size, mode);
    GroupOf(hands2, v2, size, mode);
  }

  /** Hands of a count-map type are ranked by the key of their group (the value held GroupSize times). */
  lemma GroupsVerdictOf(hands1: seq<Val>, hands2: seq<Val>, t: CardType, mode: KeyMode, v1: Val, v2: Val)
    requires IsGroupType(t) && CardTypeOf(hands1) == t && CardTypeOf(hands2) == t
    requires Count(hands1, v1) == GroupSize(t) && Count(hands2, v2) == GroupSize(t)
    ensures HandsVerdict(hands1, hands2, mode) == Ok(CompareJs(HandKey(v1, mode), HandKey(v2, mode)))
  {
    var size := GroupSize(t);
    var judged1, judged2 := Judged(hands1), Judged(hands2);
    SameTypeVerdict(hands1, hands2, mode);
    ByTypeGroups(judged1, judged2, t, mode);
    assert HandsVerdict(hands1, hands2, mode) == GroupsVerdict(judged1, judged2, size, GroupError(t), mode);
    GroupTypeLength(hands1);
    GroupTypeLength(hands2);
    assert Count(judged1, v1) == size by {
      assert multiset(judged1) == multiset(hands1);
    }
    assert Count(judged2, v2) == size by {
      assert multiset(judged2) == multiset(hands2);
    }
    GroupsVerdictValue(judged1, judged2, size, GroupError(t), mode, v1, v2);
  }

  /** As written: the groups are ranked by their decimal keys as strings. */
  lemma GroupsRankAsWritten(hands1: seq<Val>, hands2: seq<Val>, t: CardType, v1: Val, v2: Val)
    requires IsGroupType(t) && CardTypeOf(hands1) == t && CardTypeOf(hands2) == t
    requires Count(hands1, v1) == GroupSize(t) && Count(hands2, v2) == GroupSize(t)
    ensures HandsVerdict(hands1, hands2, StringKeys) == Ok(LexCompare(Key(v1), Key(v2)))
  {
    GroupsVerdictOf(hands1, hands2, t, StringKeys, v1, v2);
    StringKeysCompare(v1, v2);
  }

  /** String keys compare as strings: the joker rule of compareFn gives the same order on "w1" and "w2". */
  lemma StringKeysCompare(v1: Val, v2: Val)
    ensures CompareJs(HandKey(v1, StringKeys), HandKey(v2, StringKeys)) == LexCompare(Key(v1), Key(v2))
  {
  }

  /** Corrected: with numeric keys the group with the stronger value wins. */
  lemma GroupsRankNumerically(hands1: seq<Val>, hands2: seq<Val>, t: CardType, v1: Val, v2: Val)
    requires IsGroupType(t) && CardTypeOf(hands1) == t && CardTypeOf(hands2) == t
    requires Count(hands1, v1) == GroupSize(t) && Count(hands2, v2) == GroupSize(t)
    ensures HandsVerdict(hands1, hands2, NumericKeys).Ok?
    ensures Agrees(HandsVerdict(hands1, hands2, NumericKeys).value, v1, v2)
  {
    GroupsVerdictOf(hands1, hands2, t, NumericKeys, v1, v2);
    CompareValAgrees(v1, v2);
  }

  /**
   * The string order of keys agrees with the game order except between a
   * one-digit rank (3..9) and a two-digit one (10..15).
   */
  lemma KeyOrderAgrees(a: Val, b: Val)
    ensures Agrees(LexCompare(Key(a), Key(b)), a, b) <==> !(a.Num? && b.Num? && (a.n < 10 <==> b.n >= 10))
  {
  }

  /** Two equal cards are a pair, and their value is the one held twice. */
  lemma PairHand(h: seq<Val>)
    requires |h| == 2 && h[0] == h[1]
    ensures CardTypeOf(h) == Pair && Count(h, h[0]) == 2
  {
    TwoCardTypes(h);
    assert h == [h[0], h[1]];
  }

  /** Three equal cards and a different fourth are a three with one. */
  lemma ThreeWithOneHand(h: seq<Val>)
    requires |h| == 4 && h[0] == h[1] == h[2] != h[3]
    ensures CardTypeOf(h) == ThreeWithOne && Count(h, h[0]) == 3
  {
    assert h == [h[0], h[1], h[2], h[3]];
    assert Count(h, h[0]) == 3;
    FourCardTypes(h);
  }

  /** As written, a pair of 10s loses to a pair of 9s, because "10" sorts before "9"; with numeric keys it wins. */
  lemma TenPairLosesToNinePair(hands1: seq<Val>, hands2: seq<Val>)
    requires |hands1| == 2 && hands1[0] == hands1[1] == Num(10)
    requires |hands2| == 2 && hands2[0] == hands2[1] == Num(9)
    ensures HandsVerdict(hands1, hands2, StringKeys) == Ok(-1)
    ensures HandsVerdict(hands1, hands2, NumericKeys) == Ok(1)
  {
    PairHand(hands1);
    PairHand(hands2);
    GroupsRankAsWritten(hands1, hands2, Pair, Num(10), Num(9));
    GroupsVerdictOf(hands1, hands2, Pair, NumericKeys, Num(10), Num(9));
  }

  /** Three 3s with a 4 lose to three 5s with a 6, whichever way the keys are compared. */
  lemma ThreeWithOneLoses(hands1: seq<Val>, hands2: seq<Val>, mode: KeyMode)
    requires |hands1| == 4 && hands1[0] == hands1[1] == hands1[2] == Num(3) && hands1[3] == Num(4)
    requires |hands2| == 4 && hands2[0] == hands2[1] == hands2[2] == Num(5) && hands2[3] == Num(6)
    ensures HandsVerdict(hands1, hands2, mode).Ok? && HandsVerdict(hands1, hands2, mode).value < 0
  {
    ThreeWithOneHand(hands1);
    ThreeWithOneHand(hands2);
    GroupsVerdictOf(hands1, hands2, ThreeWithOne, mode, Num(3), Num(5));
    ThreeKeyBelowFive(mode);
  }

  lemma ThreeKeyBelowFive(mode: KeyMode)
    ensures CompareJs(HandKey(Num(3), mode), HandKey(Num(5), mode)) < 0
  {
    assert Key(Num(3)) == "3" && Key(Num(5)) == "5";
  }

  /** Two single cards are ranked by their values. */
  lemma SinglesRank(hands1: seq<Val>, hands2: seq<Val>, mode: KeyMode)
    requires |hands1| == 1 && |hands2| == 1
    ensures HandsVerdict(hands1, hands2, mode).Ok?
    ensures Agrees(HandsVerdict(hands1, hands2, mode).value, hands1[0], hands2[0])
  {
    assert Judged(hands1) == hands1 && Judged(hands2) == hands2;
  }

  /** A bomb is left as it is by judging. */
  lemma BombLeftAsIs(h: seq<Val>)
    requires CardTypeOf(h) == Bomb
    ensures JudgeBomb(h) && Judged(h) == h
  {
    assert !JudgingSorts(h);
  }

  /** Two bombs are ranked by their values. */
  lemma BombsRank(hands1: seq<Val>, hands2: seq<Val>, mode: KeyMode)
    requires CardTypeOf(hands1) == Bomb && CardTypeOf(hands2) == Bomb
    ensures HandsVerdict(hands1, hands2, mode).Ok?
    ensures Agrees(HandsVerdict(hands1, hands2, mode).value, hands1[0], hands2[0])
  {
    BombLeftAsIs(hands1);
    BombLeftAsIs(hands2);
    assert HandsVerdict(hands1, hands2, mode) == CompareBombs(hands1, hands2);
  }

  /** A straight is left sorted by judging. */
  lemma StraightLeftSorted(h: seq<Val>)
    requires CardTypeOf(h) == Straight
    ensures Judged(h) == SortVals(h)
  {
    assert JudgingSorts(h);
  }

  /** A pair sequence is left sorted by judging. */
  lemma PairSequenceLeftSorted(h: seq<Val>)
    requires CardTypeOf(h) == PairSequence
    ensures Judged(h) == SortVals(h)
  {
    assert JudgingSorts(h);
  }

  /** A plane without wings is left sorted by judging. */
  lemma AirplaneLeftSorted(h: seq<Val>)
    requires CardTypeOf(h) == Airplane
    ensures Judged(h) == SortVals(h)
  {
    assert JudgingSorts(h);
  }

  /** The classifier leaves the runs sorted, so the comparators' own sorts change nothing. */
  lemma RunsLeftSorted(h: seq<Val>)
    requires CardTypeOf(h) == Straight || CardTypeOf(h) == PairSequence || CardTypeOf(h) == Airplane
    ensures Judged(h) == SortVals(h)
    ensures SortVals(Judged(h)) == Judged(h)
  {
    var t := CardTypeOf(h);
    if t == Straight {
      StraightLeftSorted(h);
    } else if t == PairSequence {
      PairSequenceLeftSorted(h);
    } else {
      AirplaneLeftSorted(h);
    }
    SortValsIdempotent(h);
  }

  /** v is a card of h no card of h is below. */
  ghost predicate IsLowest(v: Val, h: seq<Val>) {
    v in h && forall x :: x in h ==> Ord(v) <= Ord(x)
  }

  lemma SortedHeadIsLowest(h: seq<Val>, lo: Val)
    requires IsLowest(lo, h)
    ensures SortVals(h)[0] == lo
  {
    var s := SortVals(h);
    assert lo in multiset(s);
    SortValsSorted(h);
    SortedHeadLeast(s, lo);
    assert s[0] in multiset(h);
    OrdInjective(s[0], lo);
  }

  /** Two valid hands of one type go to that type's comparator, on the contents judging left. */
  lemma SameTypeVerdict(hands1: seq<Val>, hands2: seq<Val>, mode: KeyMode)
    requires CardTypeOf(hands1) == CardTypeOf(hands2) != Invalid
    ensures HandsVerdict(hands1, hands2, mode) == ByTypeVerdict(Judged(hands1), Judged(hands2), CardTypeOf(hands1), mode)
  {
  }

  /** Two straights are compared on their sorted contents. */
  lemma StraightsVerdictIs(hands1: seq<Val>, hands2: seq<Val>, mode: KeyMode)
    requires CardTypeOf(hands1) == Straight && CardTypeOf(hands2) == Straight
    ensures HandsVerdict(hands1, hands2, mode) == CompareStraights(SortVals(hands1), SortVals(hands2))
  {
    StraightLeftSorted(hands1);
    StraightLeftSorted(hands2);
    SameTypeVerdict(hands1, hands2, mode);
    ByTypeStraights(Judged(hands1), Judged(hands2), Straight, mode);
  }

  /** Two straights of one length are ranked by their lowest cards; straights of different lengths throw. */
  lemma StraightsRank(hands1: seq<Val>, hands2: seq<Val>, mode: KeyMode, lo1: Val, lo2: Val)
    requires CardTypeOf(hands1) == Straight && CardTypeOf(hands2) == Straight
    requires IsLowest(lo1, hands1) && IsLowest(lo2, hands2)
    ensures |hands1| != |hands2| ==> HandsVerdict(hands1, hands2, mode) == Fail(InvalidStraightHands)
    ensures |hands1| == |hands2| ==>
      HandsVerdict(hands1, hands2, mode).Ok? && Agrees(HandsVerdict(hands1, hands2, mode).value, lo1, lo2)
  {
    StraightsVerdictIs(hands1, hands2, mode);
    SortValsIdempotent(hands1);
    SortValsIdempotent(hands2);
    SortedHeadIsLowest(hands1, lo1);
    SortedHeadIsLowest(hands2, lo2);
  }

  /** In a sorted pair sequence the k-th pair is k above the lowest. */
  lemma {:induction false} PairRun(s: seq<Val>, k: nat)
    requires PairsRise(s) && |s| % 2 == 0 && 2 * k < |s|
    ensures Ord(s[2 * k]) == Ord(s[0]) + k
  {
    if k > 0 {
      PairRun(s, k - 1);
      assert PairAt(s, 2 * k);
    }
  }

  /** What each run type says about the hand. */
  lemma RunTypeMeans(h: seq<Val>)
    ensures CardTypeOf(h) == Straight ==> IsStraight(h)
    ensures CardTypeOf(h) == PairSequence ==> IsPairSequence(h)
    ensures CardTypeOf(h) == Airplane ==> IsPlane(h)
  {
  }

  /** Two pair sequences are compared on their sorted contents. */
  lemma PairSequencesVerdictIs(hands1: seq<Val>, hands2: seq<Val>, mode: KeyMode)
    requires CardTypeOf(hands1) == PairSequence && CardTypeOf(hands2) == PairSequence
    ensures HandsVerdict(hands1, hands2, mode) == PairSequencesVerdict(SortVals(hands1), SortVals(hands2))
  {
    PairSequenceLeftSorted(hands1);
    PairSequenceLeftSorted(hands2);
    SameTypeVerdict(hands1, hands2, mode);
    ByTypePairSequences(Judged(hands1), Judged(hands2), PairSequence, mode);
  }

  /** Two pair sequences of one length are ranked by their lowest pairs; sequences of different lengths throw. */
  lemma PairSequencesRank(hands1: seq<Val>, hands2: seq<Val>, mode: KeyMode, lo1: Val, lo2: Val)
    requires CardTypeOf(hands1) == PairSequence && CardTypeOf(hands2) == PairSequence
    requires IsLowest(lo1, hands1) && IsLowest(lo2, hands2)
    ensures |hands1| != |hands2| ==> HandsVerdict(hands1, hands2, mode) == Fail(InvalidPairSequenceHands)
    ensures |hands1| == |hands2| ==>
      HandsVerdict(hands1, hands2, mode).Ok? && Agrees(HandsVerdict(hands1, hands2, mode).value, lo1, lo2)
  {
    PairSequencesVerdictIs(hands1, hands2, mode);
    if |hands1| == |hands2| {
      SameLengthPairSequencesRank(hands1, hands2, lo1, lo2);
    }
  }

  lemma SameLengthPairSequencesRank(hands1: seq<Val>, hands2: seq<Val>, lo1: Val, lo2: Val)
    requires CardTypeOf(hands1) == PairSequence && CardTypeOf(hands2) == PairSequence && |hands1| == |hands2|
    requires IsLowest(lo1, hands1) && IsLowest(lo2, hands2)
    ensures PairSequencesVerdict(SortVals(hands1), SortVals(hands2)).Ok?
    ensures Agrees(PairSequencesVerdict(SortVals(hands1), SortVals(hands2)).value, lo1, lo2)
  {
    RunTypeMeans(hands1);
    RunTypeMeans(hands2);
    var s1, s2 := SortVals(hands1), SortVals(hands2);
    SortValsIdempotent(hands1);
    SortValsIdempotent(hands2);
    SortedHeadIsLowest(hands1, lo1);
    SortedHeadIsLowest(hands2, lo2);
    assert PairSequencesVerdict(s1, s2) == Ok(FirstDiff(EverySecond(s1), EverySecond(s2)));
    PairSequenceRankHelper(s1, s2, lo1, lo2);
  }

  lemma PairSequenceRankHelper(s1: seq<Val>, s2: seq<Val>, lo1: Val, lo2: Val)
    requires |s1| == |s2| >= 2 && |s1| % 2 == 0 && PairsRise(s1) && PairsRise(s2)
    requires s1[0] == lo1 && s2[0] == lo2
    ensures Agrees(FirstDiff(EverySecond(s1), EverySecond(s2)), lo1, lo2)
  {
    var pairs1, pairs2 := EverySecond(s1), EverySecond(s2);
    if lo1 == lo2 {
      forall k | 0 <= k < |pairs1| ensures pairs1[k] == pairs2[k] {
        PairRun(s1, k);
        PairRun(s2, k);
      }
      assert pairs1 == pairs2;
    } else {
      CompareValAgrees(lo1, lo2);
      assert FirstDiff(pairs1, pairs2) == CompareVal(lo1, lo2);
    }
  }

  /** A non-zero FirstDiffFrom is decided at the first position, from i on, where the sequences differ. */
  lemma {:induction false} FirstDiffFromDecides(a: seq<Val>, b: seq<Val>, i: nat)
    requires |a| == |b| && i <= |a| && a[..i] == b[..i]
    ensures FirstDiffFrom(a, b, i) != 0 ==>
      exists j :: i <= j < |a| && a[..j] == b[..j] && Agrees(FirstDiffFrom(a, b, i), a[j], b[j])
    decreases |a| - i
  {
    if i < |a| {
      CompareValAgrees(a[i], b[i]);
      if a[i] == b[i] {
        assert a[..i + 1] == a[..i] + [a[i]] && b[..i + 1] == b[..i] + [b[i]];
        FirstDiffFromDecides(a, b, i + 1);
      }
    }
  }

  /** A non-zero FirstDiff is decided at the first position where the sequences differ. */
  lemma FirstDiffDecides(a: seq<Val>, b: seq<Val>)
    requires |a| == |b|
    ensures FirstDiff(a, b) != 0 ==>
      exists j :: 0 <= j < |a| && a[..j] == b[..j] && Agrees(FirstDiff(a, b), a[j], b[j])
  {
    assert a[..0] == b[..0];
    FirstDiffFromDecides(a, b, 0);
  }

  /** Two plane hands of one type are compared on their mains, which judging does not change. */
  lemma PlanesVerdictIs(hands1: seq<Val>, hands2: seq<Val>, mode: KeyMode)
    requires CardTypeOf(hands1) == CardTypeOf(hands2) && ComparedAsPlane(CardTypeOf(hands1))
    ensures HandsVerdict(hands1, hands2, mode) == PlanesVerdict(hands1, hands2)
  {
    SameTypeVerdict(hands1, hands2, mode);
    ByTypePlanes(Judged(hands1), Judged(hands2), CardTypeOf(hands1), mode);
    CountOfPermutation(Judged(hands1), hands1);
    CountOfPermutation(Judged(hands2), hands2);
  }

  /** With equal main counts, the plane verdict compares the mains from the lowest up. */
  lemma PlanesVerdictOk(hands1: seq<Val>, hands2: seq<Val>)
    requires |Mains(hands1)| == |Mains(hands2)|
    ensures PlanesVerdict(hands1, hands2) == Ok(FirstDiff(Mains(hands1), Mains(hands2)))
  {
    MainsAscending(hands1);
    MainsAscending(hands2);
    SortedFixpoint(Mains(hands1));
    SortedFixpoint(Mains(hands2));
  }

  /**
   * Planes (with or without wings) rank by their mains, which come out
   * ascending: different main counts throw, equal mains tie, and otherwise
   * the lowest main where the two hands differ decides.
   */
  lemma PlanesRank(hands1: seq<Val>, hands2: seq<Val>, mode: KeyMode)
    requires CardTypeOf(hands1) == CardTypeOf(hands2) && ComparedAsPlane(CardTypeOf(hands1))
    ensures StrictlyAscending(Mains(hands1)) && StrictlyAscending(Mains(hands2))
    ensures |Mains(hands1)| != |Mains(hands2)| ==> HandsVerdict(hands1, hands2, mode) == Fail(InvalidPlaneHands)
    ensures |Mains(hands1)| == |Mains(hands2)| ==> HandsVerdict(hands1, hands2, mode).Ok?
    ensures HandsVerdict(hands1, hands2, mode) == Ok(0) <==> Mains(hands1) == Mains(hands2)
    ensures HandsVerdict(hands1, hands2, mode).Ok? && HandsVerdict(hands1, hands2, mode).value != 0 ==>
      exists j :: 0 <= j < |Mains(hands1)| && Mains(hands1)[..j] == Mains(hands2)[..j] &&
        Agrees(HandsVerdict(hands1, hands2, mode).value, Mains(hands1)[j], Mains(hands2)[j])
  {
    PlanesVerdictIs(hands1, hands2, mode);
    MainsAscending(hands1);
    MainsAscending(hands2);
    if |Mains(hands1)| == |Mains(hands2)| {
      PlanesVerdictOk(hands1, hands2);
      FirstDiffDecides(Mains(hands1), Mains(hands2));
    }
  }

  /** In a sorted plane the card at i belongs to the (i/3)-th triple, i/3 above the lowest. */
  lemma {:induction false} TripleRun(s: seq<Val>, i: nat)
    requires TriplesRise(s) && |s| % 3 == 0 && i < |s|
    ensures Ord(s[i]) == Ord(s[0]) + i / 3
  {
    var k := i / 3;
    assert TripleAt(s, 3 * k);
    if k > 0 {
      TripleRun(s, 3 * (k - 1));
    }
  }

  /** Every third card of a sorted hand: the triples of a sorted plane. */
  function EveryThird(s: seq<Val>): (r: seq<Val>)
    ensures |r| == |s| / 3
    ensures forall k :: 0 <= k < |r| ==> r[k] == s[3 * k]
  {
    seq(|s| / 3, k requires 0 <= k < |s| / 3 => s[3 * k])
  }

  /** Each value of a sorted plane is held exactly three times. */
  lemma TripleCount(s: seq<Val>, k: nat)
    requires TriplesRise(s) && |s| % 3 == 0 && 3 * k < |s|
    ensures Count(s, s[3 * k]) == 3
  {
    var x := s[3 * k];
    assert TripleAt(s, 3 * k);
    TripleRun(s, 3 * k);
    var pre, mid, post := s[..3 * k], s[3 * k..3 * k + 3], s[3 * k + 3..];
    assert s == pre + mid + post;
    forall i | 0 <= i < |pre| ensures pre[i] != x {
      TripleRun(s, i);
    }
    forall i | 0 <= i < |post| ensures post[i] != x {
      TripleRun(s, 3 * k + 3 + i);
    }
    assert x !in multiset(pre) && x !in multiset(post);
    assert mid == [x, x, x];
    assert multiset(s) == multiset(pre) + multiset(mid) + multiset(post);
  }

  lemma HeadIn(s: seq<Val>)
    ensures |s| > 0 ==> s[0] in s
  {
  }

  /** Two ascending sequences holding the same values are equal. */
  lemma {:induction false} AscendingUnique(a: seq<Val>, b: seq<Val>)
    requires StrictlyAscending(a) && StrictlyAscending(b)
    requires forall v :: v in a <==> v in b
    ensures a == b
  {
    if |a| == 0 {
      if |b| > 0 {
        HeadIn(b);
        assert false;
      }
    } else {
      assert a[0] in b && b[0] in a;
      OrdInjective(a[0], b[0]);
      forall v ensures v in a[1..] <==> v in b[1..] {
        assert v in a <==> v in a[1..] || v == a[0];
        assert v in b <==> v in b[1..] || v == b[0];
        assert v in a[1..] ==> v != a[0];
        assert v in b[1..] ==> v != b[0];
      }
      AscendingUnique(a[1..], b[1..]);
      assert a == [a[0]] + a[1..] && b == [b[0]] + b[1..];
    }
  }

  /** The mains of a plane without wings are its triples, from the lowest up. */
  lemma PlaneMains(h: seq<Val>)
    requires CardTypeOf(h) == Airplane
    ensures Mains(h) == EveryThird(SortVals(h))
  {
    RunTypeMeans(h);
    var s := SortVals(h);
    var t := EveryThird(s);
    forall i, j | 0 <= i < j < |t| ensures Ord(t[i]) < Ord(t[j]) {
      TripleRun(s, 3 * i);
      TripleRun(s, 3 * j);
    }
    forall v ensures v in Mains(h) <==> v in t {
      assert Count(h, v) == Count(s, v);
      if v in t {
        var k :| 0 <= k < |t| && t[k] == v;
        TripleCount(s, k);
      }
      if v in h {
        assert v in multiset(s);
        var i :| 0 <= i < |s| && s[i] == v;
        var k := i / 3;
        TripleRun(s, i);
        TripleRun(s, 3 * k);
        OrdInjective(s[i], s[3 * k]);
        assert t[k] == v;
      }
    }
    MainsAscending(h);
    AscendingUnique(Mains(h), t);
  }

  /** A plane without wings has one main per three cards. */
  lemma AirplaneMainCount(h: seq<Val>)
    requires CardTypeOf(h) == Airplane
    ensures |h| % 3 == 0 && |Mains(h)| == |h| / 3
  {
    RunTypeMeans(h);
    PlaneMains(h);
  }

  /** Two planes without wings of one length rank by their lowest cards; planes of different lengths throw. */
  lemma AirplanesRank(hands1: seq<Val>, hands2: seq<Val>, mode: KeyMode, lo1: Val, lo2: Val)
    requires CardTypeOf(hands1) == Airplane && CardTypeOf(hands2) == Airplane
    requires IsLowest(lo1, hands1) && IsLowest(lo2, hands2)
    ensures |hands1| != |hands2| ==> HandsVerdict(hands1, hands2, mode) == Fail(InvalidPlaneHands)
    ensures |hands1| == |hands2| ==>
      HandsVerdict(hands1, hands2, mode).Ok? && Agrees(HandsVerdict(hands1, hands2, mode).value, lo1, lo2)
  {
    PlanesVerdictIs(hands1, hands2, mode);
    AirplaneMainCount(hands1);
    AirplaneMainCount(hands2);
    if |hands1| == |hands2| {
      SameLengthAirplanesRank(hands1, hands2, lo1, lo2);
    }
  }

  lemma SameLengthAirplanesRank(hands1: seq<Val>, hands2: seq<Val>, lo1: Val, lo2: Val)
    requires CardTypeOf(hands1) == Airplane && CardTypeOf(hands2) == Airplane && |hands1| == |hands2|
    requires IsLowest(lo1, hands1) && IsLowest(lo2, hands2)
    ensures PlanesVerdict(hands1, hands2).Ok? && Agrees(PlanesVerdict(hands1, hands2).value, lo1, lo2)
  {
    RunTypeMeans(hands1);
    RunTypeMeans(hands2);
    PlaneMains(hands1);
    PlaneMains(hands2);
    PlanesVerdictOk(hands1, hands2);
    SortedHeadIsLowest(hands1, lo1);
    SortedHeadIsLowest(hands2, lo2);
    AirplaneRankHelper(SortVals(hands1), SortVals(hands2), lo1, lo2);
  }

  lemma AirplaneRankHelper(s1: seq<Val>, s2: seq<Val>, lo1: Val, lo2: Val)
    requires |s1| == |s2| >= 3 && |s1| % 3 == 0 && TriplesRise(s1) && TriplesRise(s2)
    requires s1[0] == lo1 && s2[0] == lo2
    ensures Agrees(FirstDiff(EveryThird(s1), EveryThird(s2)), lo1, lo2)
  {
    var mains1, mains2 := EveryThird(s1), EveryThird(s2);
    if lo1 == lo2 {
      forall k | 0 <= k < |mains1| ensures mains1[k] == mains2[k] {
        TripleRun(s1, 3 * k);
        TripleRun(s2, 3 * k);
        OrdInjective(s1[3 * k], s2[3 * k]);
      }
      assert mains1 == mains2;
    } else {
      CompareValAgrees(lo1, lo2);
      assert FirstDiff(mains1, mains2) == CompareVal(lo1, lo2);
    }
  }

  /** What each count-map type says about the hand. */
  lemma GroupTypeMeans(h: seq<Val>)
    ensures CardTypeOf(h) == Pair ==> JudgeTwoHands(h)
    ensures CardTypeOf(h) == Three ==> JudgeThreehands(h)
    ensures CardTypeOf(h) == ThreeWithOne ==> IsThreeOne(h)
    ensures CardTypeOf(h) == ThreeWithTwo ==> IsThreeTwo(h)
    ensures CardTypeOf(h) == FourWithTwo ==> IsFourTwo(h)
  {
    match CardTypeOf(h)
    case Pair => PairTypeMeans(h);
    case Three => ThreeTypeMeans(h);
    case ThreeWithOne => ThreeWithOneTypeMeans(h);
    case ThreeWithTwo => ThreeWithTwoTypeMeans(h);
    case FourWithTwo => FourWithTwoTypeMeans(h);
    case _ =>
  }

  lemma PairTypeMeans(h: seq<Val>)
    requires CardTypeOf(h) == Pair
    ensures JudgeTwoHands(h)
  {
  }

  lemma ThreeTypeMeans(h: seq<Val>)
    requires CardTypeOf(h) == Three
    ensures JudgeThreehands(h)
  {
  }

  lemma ThreeWithOneTypeMeans(h: seq<Val>)
    requires CardTypeOf(h) == ThreeWithOne
    ensures IsThreeOne(h)
  {
  }

  lemma ThreeWithTwoTypeMeans(h: seq<Val>)
    requires CardTypeOf(h) == ThreeWithTwo
    ensures IsThreeTwo(h)
  {
  }

  lemma FourWithTwoTypeMeans(h: seq<Val>)
    requires CardTypeOf(h) == FourWithTwo
    ensures IsFourTwo(h)
  {
  }

  /** Every hand of a count-map type holds a value GroupSize times. */
  lemma GroupTypeHasGroup(h: seq<Val>) returns (v: Val)
    requires IsGroupType(CardTypeOf(h))
    ensures Count(h, v) == GroupSize(CardTypeOf(h))
  {
    var t := CardTypeOf(h);
    GroupTypeMeans(h);
    if t == Pair {
      PairHand(h);
      v := h[0];
    } else if t == Three {
      assert h == [h[0], h[0], h[0]];
      v := h[0];
    } else if t == ThreeWithOne {
      ThreeOneIff(h);
      v :| Count(h, v) == 3;
    } else if t == ThreeWithTwo {
      v :| Count(h, v) == 3;
    } else {
      v :| Count(h, v) == 4;
    }
  }

  /** A hand compared with itself by its type's comparator ties, unless the comparator rejects its shape. */
  lemma ByTypeSelf(h: seq<Val>, t: CardType, mode: KeyMode)
    requires |h| > 0 && !ComparedByGroup(t)
    requires t == Bomb ==> |h| == 4
    requires t == Single ==> |h| == 1
    ensures ByTypeVerdict(h, h, t, mode) == Ok(0)
  {
    if t == Bomb || t == Single {
      CompareValAgrees(h[0], h[0]);
    } else if t == Straight {
      CompareValAgrees(SortVals(h)[0], SortVals(h)[0]);
    }
  }

  /** A valid hand ties with itself. */
  lemma CompareSelf(h: seq<Val>, mode: KeyMode)
    requires CardTypeOf(h) != Invalid
    ensures HandsVerdict(h, h, mode) == Ok(0)
  {
    if IsGroupType(CardTypeOf(h)) {
      GroupSelf(h, mode);
    } else {
      OtherSelf(h, mode);
    }
  }

  lemma GroupSelf(h: seq<Val>, mode: KeyMode)
    requires IsGroupType(CardTypeOf(h))
    ensures HandsVerdict(h, h, mode) == Ok(0)
  {
    var v := GroupTypeHasGroup(h);
    var k := HandKey(v, mode);
    CompareJsAntisymmetric(k, k);
    assert CompareJs(k, k) == 0;
    GroupsVerdictOf(h, h, CardTypeOf(h), mode, v, v);
  }

  lemma OtherSelf(h: seq<Val>, mode: KeyMode)
    requires CardTypeOf(h) != Invalid && !IsGroupType(CardTypeOf(h))
    ensures HandsVerdict(h, h, mode) == Ok(0)
  {
    var t := CardTypeOf(h);
    assert t == Bomb ==> |h| == 4;
    ByTypeSelf(Judged(h), t, mode);
  }
}
