/** A small Option type shared by the modules of this project. */
module Options {
  datatype Option<+T> = None | Some(value: T)
}

/**
 * The card values of the Dou Dizhu engine (src/app/game/Core.ts) and the
 * orders it puts them in.
 *
 * A card value is a number or one of the strings 'w1' (little joker) and 'w2'
 * (big joker). Numbers are the ranks 3..10, J = 11, Q = 12, K = 13, A = 14 and
 * the Two = 15. The engine compares values with `compareFn` / `compareCards`,
 * which take JavaScript numbers and strings; the count maps it builds are keyed
 * by property-name strings, so both worlds appear here.
 */
module DdzCards {
  import opened Options

  /** The numeric ranks 3..15 (J..A = 11..14, the Two = 15). */
  type Rank = n: int | 3 <= n <= 15 witness 3

  /** A card value: a numeric rank or one of the two jokers, w1 < w2. */
  datatype Val = Num(n: Rank) | W1 | W2

  /** The game strength of a value: the ranks, then w1, then w2. */
  function Ord(v: Val): int {
    match v
    case Num(n) => n
    case W1 => 16
    case W2 => 17
  }

  /** An operand of compareFn / compareCards: a number, a string, or undefined (a missing array slot). */
  datatype JsVal = JsNum(x: int) | JsStr(s: string) | JsUndefined

  /** A card value as JavaScript holds it: ranks are numbers, jokers are the strings "w1" and "w2". */
  function ToJs(v: Val): JsVal {
    match v
    case Num(n) => JsNum(n)
    case W1 => JsStr("w1")
    case W2 => JsStr("w2")
  }

  /** JavaScript reading of `s[i]`: undefined past the end. */
  function At(s: seq<Val>, i: nat): JsVal {
    if i < |s| then ToJs(s[i]) else JsUndefined
  }

  function Digit(d: int): char
    requires 0 <= d <= 9
  {
    "0123456789"[d]
  }

  /** The property name `countMap[card]` files a value under: the decimal numeral, or "w1" / "w2". */
  function Key(v: Val): (k: string)
    ensures |k| == 1 || |k| == 2
  {
    match v
    case Num(n) => if n < 10 then [Digit(n)] else ['1', Digit(n - 10)]
    case W1 => "w1"
    case W2 => "w2"
  }

  /** Distinct values are filed under distinct keys. */
  lemma KeyInjective(a: Val, b: Val)
    ensures Key(a) == Key(b) ==> a == b
  {
  }

  /**
   * Stand-in for `String.prototype.localeCompare` on the keys above: code-point
   * lexicographic order, a proper prefix first. On digit strings and "w1"/"w2"
   * it agrees with the usual collation (digits before letters, character by
   * character).
   */
  function LexCompare(a: string, b: string): (r: int)
    ensures -1 <= r <= 1
    ensures r == 0 <==> a == b
  {
    if a == [] && b == [] then 0
    else if a == [] then -1
    else if b == [] then 1
    else if a[0] < b[0] then -1
    else if a[0] > b[0] then 1
    else
      var r := LexCompare(a[1..], b[1..]);
      assert r == 0 ==> a == [a[0]] + a[1..] == [b[0]] + b[1..] == b;
      r
  }

  lemma {:induction false} LexCompareAntisymmetric(a: string, b: string)
    ensures LexCompare(a, b) == -LexCompare(b, a)
  {
    if a != [] && b != [] && a[0] == b[0] {
      LexCompareAntisymmetric(a[1..], b[1..]);
    }
  }

  /**
   * compareFn (Core.ts:6-22) and compareCards (Core.ts:212-223): the two test
   * the same four cases in a different order and so compute the same function.
   * Numbers compare by subtraction, strings w1 < w2 and otherwise by
   * localeCompare, a number is below a string, and anything else (undefined)
   * is above whatever it is compared with.
   */
  function CompareJs(a: JsVal, b: JsVal): int {
    if a.JsNum? && b.JsNum? then a.x - b.x
    else if a.JsStr? && b.JsStr? then
      if a.s == "w1" && b.s == "w2" then -1
      else if a.s == "w2" && b.s == "w1" then 1
      else LexCompare(a.s, b.s)
    else if a.JsNum? then -1
    else 1
  }

  /** On defined operands the comparator is antisymmetric. */
  lemma CompareJsAntisymmetric(a: JsVal, b: JsVal)
    requires a != JsUndefined && b != JsUndefined
    ensures CompareJs(a, b) == -CompareJs(b, a)
    ensures CompareJs(a, b) == 0 <==> a == b
  {
    if a.JsStr? && b.JsStr? {
      LexCompareAntisymmetric(a.s, b.s);
    }
  }

  /**
   * compareFn on card values: numbers by subtraction, every number below
   * every joker, w1 below w2. Its sign is the game order Ord.
   */
  function CompareVal(a: Val, b: Val): (r: int)
    ensures a.Num? && b.Num? ==> r == a.n - b.n
    ensures a.Num? && !b.Num? ==> r == -1
    ensures !a.Num? && b.Num? ==> r == 1
    ensures a == W1 && b == W2 ==> r == -1
    ensures r < 0 <==> Ord(a) < Ord(b)
    ensures r == 0 <==> a == b
  {
    CompareJs(ToJs(a), ToJs(b))
  }

  // ---------------------------------------------------------------------------
  // Sorting. `Array.prototype.sort` with a consistent comparator is a stable
  // sort; Insert/SortBy is the stable insertion sort that yields the same array.
  // ---------------------------------------------------------------------------

  /** The identity key, for sorting bare values. */
  function Self(v: Val): Val { v }

  ghost predicate SortedBy<T>(s: seq<T>, key: T -> Val) {
    forall i, j :: 0 <= i < j < |s| ==> Ord(key(s[i])) <= Ord(key(s[j]))
  }

  /** Inserts x before the first element it does not exceed (so after its equals: stable). */
  function Insert<T>(x: T, s: seq<T>, key: T -> Val): (r: seq<T>)
    ensures |r| == |s| + 1
    ensures multiset(r) == multiset{x} + multiset(s)
  {
    if s == [] || CompareVal(key(x), key(s[0])) <= 0 then [x] + s
    else
      assert s == [s[0]] + s[1..];
      [s[0]] + Insert(x, s[1..], key)
  }

  /** compareFn puts a before b only when a is the stronger value. */
  lemma CompareValAbove(a: Val, b: Val)
    requires CompareVal(a, b) > 0
    ensures Ord(a) > Ord(b)
  {
  }

  /** Every element of Insert(x, s) is at least any bound that x and all of s respect. */
  lemma {:induction false} InsertBounded<T>(x: T, s: seq<T>, key: T -> Val, b: int)
    requires b <= Ord(key(x))
    requires forall i :: 0 <= i < |s| ==> b <= Ord(key(s[i]))
    ensures forall i :: 0 <= i < |Insert(x, s, key)| ==> b <= Ord(key(Insert(x, s, key)[i]))
  {
    if s != [] && CompareVal(key(x), key(s[0])) > 0 {
      InsertBounded(x, s[1..], key, b);
    }
  }

  lemma {:induction false} InsertSorted<T>(x: T, s: seq<T>, key: T -> Val)
    requires SortedBy(s, key)
    ensures SortedBy(Insert(x, s, key), key)
  {
    if s != [] && CompareVal(key(x), key(s[0])) > 0 {
      var t := Insert(x, s[1..], key);
      InsertSorted(x, s[1..], key);
      CompareValAbove(key(x), key(s[0]));
      InsertBounded(x, s[1..], key, Ord(key(s[0])));
      ConsSorted(s[0], t, key);
    }
  }

  /** A sorted sequence stays sorted under a head no greater than any of its elements. */
  lemma ConsSorted<T>(a: T, t: seq<T>, key: T -> Val)
    requires SortedBy(t, key)
    requires forall i :: 0 <= i < |t| ==> Ord(key(a)) <= Ord(key(t[i]))
    ensures SortedBy([a] + t, key)
  {
    var r := [a] + t;
    forall i, j | 0 <= i < j < |r| ensures Ord(key(r[i])) <= Ord(key(r[j])) {
      assert r[j] == t[j - 1];
      if i > 0 {
        assert r[i] == t[i - 1];
      }
    }
  }

  lemma MultisetMembers<T>(t: seq<T>, m: multiset<T>)
    requires multiset(t) == m
    ensures forall y :: y in t <==> y in m
  {
    forall y ensures y in t <==> y in m {
      assert y in t <==> y in multiset(t);
    }
  }

  /** The stable sort of s by the order compareFn gives the keys. */
  function SortBy<T>(s: seq<T>, key: T -> Val): (r: seq<T>)
    ensures |r| == |s|
    ensures multiset(r) == multiset(s)
  {
    if s == [] then []
    else
      assert s == [s[0]] + s[1..];
      Insert(s[0], SortBy(s[1..], key), key)
  }

  /** The stable sort leaves its result ascending by key. */
  lemma {:induction false} SortBySorted<T>(s: seq<T>, key: T -> Val)
    ensures SortedBy(SortBy(s, key), key)
  {
    if s != [] {
      SortBySorted(s[1..], key);
      InsertSorted(s[0], SortBy(s[1..], key), key);
    }
  }

  /** `hands.sort(compareFn)` on bare card values. */
  function SortVals(h: seq<Val>): (r: seq<Val>)
    ensures |r| == |h|
    ensures multiset(r) == multiset(h)
  {
    SortBy(h, Self)
  }

  /** The sorted hand is ascending. */
  lemma SortValsSorted(h: seq<Val>)
    ensures SortedBy(SortVals(h), Self)
  {
    SortBySorted(h, Self);
  }

  /** `hands.sort(compareFn)` on an array of card values: the array now holds its sorted contents. */
  method SortInPlace(a: array<Val>)
    modifies a
    ensures a[..] == SortVals(old(a[..]))
  {
    var s := SortVals(a[..]);
    forall i | 0 <= i < a.Length {
      a[i] := s[i];
    }
    assert a[..] == s;
  }

  /** Two ascending sequences of values with the same multiset are equal. */
  lemma {:induction false} SortedUnique(a: seq<Val>, b: seq<Val>)
    requires SortedBy(a, Self) && SortedBy(b, Self)
    requires multiset(a) == multiset(b)
    ensures a == b
    decreases |a|
  {
    assert |a| == |multiset(a)| == |multiset(b)| == |b|;
    if a != [] {
      SortedHeadLeast(a, b[0]);
      SortedHeadLeast(b, a[0]);
      assert Ord(a[0]) == Ord(b[0]);
      assert a[0] == b[0];
      SortedTail(a);
      SortedTail(b);
      SortedUnique(a[1..], b[1..]);
    }
  }

  /** The head of an ascending sequence is no higher than any of its values. */
  lemma SortedHeadLeast(a: seq<Val>, x: Val)
    requires SortedBy(a, Self) && x in multiset(a)
    ensures |a| > 0 && Ord(a[0]) <= Ord(x)
  {
    var j :| 0 <= j < |a| && a[j] == x;
    if j > 0 {
      assert Ord(Self(a[0])) <= Ord(Self(a[j]));
    }
  }

  /** Dropping the head of an ascending sequence leaves it ascending and removes one copy of the head. */
  lemma SortedTail(a: seq<Val>)
    requires SortedBy(a, Self) && |a| > 0
    ensures SortedBy(a[1..], Self)
    ensures multiset(a[1..]) == multiset(a) - multiset{a[0]}
  {
    assert a == [a[0]] + a[1..];
    forall i, j | 0 <= i < j < |a[1..]| ensures Ord(Self(a[1..][i])) <= Ord(Self(a[1..][j])) {
      assert a[1..][i] == a[i + 1] && a[1..][j] == a[j + 1];
    }
  }

  /** The sorted order depends on the multiset of values only. */
  lemma SortValsCanonical(a: seq<Val>, b: seq<Val>)
    requires multiset(a) == multiset(b)
    ensures SortVals(a) == SortVals(b)
  {
    SortValsSorted(a);
    SortValsSorted(b);
    SortedUnique(SortVals(a), SortVals(b));
  }

  /** Sorting an ascending sequence leaves it as it is; in particular sorting twice is sorting once. */
  lemma SortedFixpoint(s: seq<Val>)
    requires SortedBy(s, Self)
    ensures SortVals(s) == s
  {
    SortValsSorted(s);
    SortedUnique(SortVals(s), s);
  }

  lemma SortValsIdempotent(s: seq<Val>)
    ensures SortVals(SortVals(s)) == SortVals(s)
  {
    SortValsSorted(s);
    SortedFixpoint(SortVals(s));
  }

  // ---------------------------------------------------------------------------
  // Count maps (getCountMap, Core.ts:398-404) and their for-in key order.
  // ---------------------------------------------------------------------------

  /** How many cards of value v the hand holds. */
  function Count(h: seq<Val>, v: Val): nat {
    multiset(h)[v]
  }

  /** The count map of a hand: every value present, with its number of cards. */
  function CountOf(h: seq<Val>): map<Val, nat> {
    map v | v in h :: multiset(h)[v]
  }

  /** getCountMap (Core.ts:398-404): one pass over the hand, incrementing the value's entry. */
  method GetCountMap(hands: seq<Val>) returns (countMap: map<Val, nat>)
    ensures countMap == CountOf(hands)
    ensures forall v :: v in countMap <==> v in hands
    ensures forall v :: v in countMap ==> 1 <= countMap[v] == Count(hands, v)
  {
    countMap := map[];
    for i := 0 to |hands|
      invariant countMap == CountOf(hands[..i])
    {
      var card := hands[i];
      countMap := countMap[card := (if card in countMap then countMap[card] else 0) + 1];
      assert hands[..i + 1] == hands[..i] + [card];
    }
    assert hands[..|hands|] == hands;
  }

  ghost predicate StrictlyAscending(s: seq<Val>) {
    forall i, j :: 0 <= i < j < |s| ==> Ord(s[i]) < Ord(s[j])
  }

  /** v is the weakest value of the set. */
  predicate IsLeast(v: Val, keys: set<Val>) {
    v in keys && forall x :: x in keys ==> Ord(v) <= Ord(x)
  }

  lemma {:induction false} LeastExists(keys: set<Val>)
    requires keys != {}
    ensures exists v :: IsLeast(v, keys)
    decreases |keys|
  {
    var x :| x in keys;
    if keys != {x} {
      LeastExists(keys - {x});
      var m :| IsLeast(m, keys - {x});
      if Ord(x) < Ord(m) {
        assert IsLeast(x, keys);
      } else {
        assert IsLeast(m, keys);
      }
    } else {
      assert IsLeast(x, keys);
    }
  }

  /** The weakest value of a non-empty set. */
  function Least(keys: set<Val>): (v: Val)
    requires keys != {}
    ensures IsLeast(v, keys)
  {
    LeastExists(keys);
    var v :| IsLeast(v, keys);
    v
  }

  /**
   * The keys of a count map in the order `for (const key in countMap)` visits
   * them: integer-like property names ascend numerically, so the ranks come in
   * ascending order; the two joker names come last (w1 before w2 here).
   */
  function InKeyOrder(keys: set<Val>): (r: seq<Val>)
    ensures forall v {:trigger v in r} :: v in r <==> v in keys
    decreases |keys|
  {
    if keys == {} then []
    else
      var v := Least(keys);
      [v] + InKeyOrder(keys - {v})
  }

  /** The walk visits the keys in ascending game order, each once. */
  lemma {:induction false} InKeyOrderAscending(keys: set<Val>)
    ensures StrictlyAscending(InKeyOrder(keys))
    decreases |keys|
  {
    if keys != {} {
      var v := Least(keys);
      var rest := InKeyOrder(keys - {v});
      InKeyOrderAscending(keys - {v});
      var r := [v] + rest;
      forall i, j | 0 <= i < j < |r| ensures Ord(r[i]) < Ord(r[j]) {
        assert r[j] == rest[j - 1] && rest[j - 1] in rest;
        if i > 0 {
          assert r[i] == rest[i - 1];
        }
      }
    }
  }
}
