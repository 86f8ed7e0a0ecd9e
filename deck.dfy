/**
 * The Dou Dizhu deck pipeline (src/app/game/Core.ts:475-538): the 54-card
 * deck, its Fisher-Yates shuffle and the 17/17/17/3 deal.
 *
 * The random index of each shuffle step is a parameter (`picks`), so the
 * shuffle is proved to be a permutation for every sequence of choices.
 */
module DdzDeck {
  import opened DdzCards

  /** The suits; None belongs to the jokers only. */
  datatype CardColor = None | Hearts | Diamonds | Clubs | Spades

  /** A card: a suit and a value. */
  datatype CardModel = CardModel(color: CardColor, value: Val)

  /** `Object.values(CardColor).filter(color => color !== CardColor.None)`. */
  const AllColors: seq<CardColor> := [Hearts, Diamonds, Clubs, Spades]

  /** The thirteen cards of one suit, 3 up to the Two, in the order generateDeck pushes them. */
  function SuitCards(color: CardColor): (r: seq<CardModel>)
    ensures |r| == 13
    ensures forall k :: 0 <= k < 13 ==> r[k] == CardModel(color, Num(k + 3))
  {
    seq(13, k requires 0 <= k < 13 => CardModel(color, Num(k + 3)))
  }

  /** The suits from the i-th on, each as SuitCards. */
  function SuitsFrom(i: nat): (r: seq<CardModel>)
    requires i <= 4
    ensures |r| == 13 * (4 - i)
    decreases 4 - i
  {
    if i == 4 then [] else SuitCards(AllColors[i]) + SuitsFrom(i + 1)
  }

  /** The deck generateDeck returns: the four suits in turn, then the little and the big joker. */
  function StandardDeck(): (r: seq<CardModel>)
    ensures |r| == 54
  {
    SuitsFrom(0) + [CardModel(None, W1), CardModel(None, W2)]
  }

  /** Where card (color, rank) of a suited deck sits. */
  function SuitIndex(color: CardColor): (i: nat)
    requires color != None
    ensures i < 4 && AllColors[i] == color
  {
    match color
    case Hearts => 0
    case Diamonds => 1
    case Clubs => 2
    case Spades => 3
  }

  lemma {:induction false} SuitsFromAt(i: nat, k: nat)
    requires i <= 4 && k < 13 * (4 - i)
    ensures SuitsFrom(i)[k] == CardModel(AllColors[i + k / 13], Num(k % 13 + 3))
    decreases 4 - i
  {
    if k >= 13 {
      SuitsFromAt(i + 1, k - 13);
    }
  }

  /** Card k of the standard deck. */
  lemma StandardDeckAt(k: nat)
    requires k < 54
    ensures StandardDeck()[k] ==
      if k < 52 then CardModel(AllColors[k / 13], Num(k % 13 + 3))
      else if k == 52 then CardModel(None, W1) else CardModel(None, W2)
  {
    if k < 52 {
      SuitsFromAt(0, k);
    }
  }

  /** The position of a card in the standard deck. */
  function Position(c: CardModel): (k: nat)
    requires c.color == None <==> !c.value.Num?
    ensures k < 54
  {
    if c.value == W1 then 52
    else if c.value == W2 then 53
    else 13 * SuitIndex(c.color) + c.value.n - 3
  }

  /** Every card of a suit with a rank, and each joker without a suit, is in the deck, at its Position. */
  lemma StandardDeckComplete(c: CardModel)
    requires c.color == None <==> !c.value.Num?
    ensures StandardDeck()[Position(c)] == c
  {
    StandardDeckAt(Position(c));
  }

  /** The generated deck holds no card twice. */
  lemma StandardDeckDistinct()
    ensures forall i, j :: 0 <= i < j < 54 ==> StandardDeck()[i] != StandardDeck()[j]
  {
    forall i, j | 0 <= i < j < 54 ensures StandardDeck()[i] != StandardDeck()[j] {
      StandardDeckAt(i);
      StandardDeckAt(j);
    }
  }

  /** In the generated deck exactly the jokers have no suit. */
  lemma StandardDeckColors()
    ensures forall k :: 0 <= k < 54 ==> (StandardDeck()[k].color == None <==> !StandardDeck()[k].value.Num?)
  {
    forall k | 0 <= k < 54 ensures StandardDeck()[k].color == None <==> !StandardDeck()[k].value.Num? {
      StandardDeckAt(k);
    }
  }

  /** generateDeck (Core.ts:475-499): per suit, ranks 3..10 then J, Q, K, A, Two; then the two jokers. */
  method GenerateDeck() returns (deck: seq<CardModel>)
    ensures deck == StandardDeck()
  {
    deck := [];
    for i := 0 to 4
      invariant deck + SuitsFrom(i) == SuitsFrom(0)
    {
      var color := AllColors[i];
      ghost var before := deck;
      deck := PushSuit(deck, color);
      assert deck + SuitsFrom(i + 1) == before + (SuitCards(color) + SuitsFrom(i + 1));
    }
    assert deck == SuitsFrom(0);
    deck := deck + [CardModel(None, W1)];
    deck := deck + [CardModel(None, W2)];
  }

  /** The body of generateDeck's loop over the suits (Core.ts:483-492): 3 to 10, then J, Q, K, A and Two. */
  method PushSuit(deck: seq<CardModel>, color: CardColor) returns (deck': seq<CardModel>)
    ensures deck' == deck + SuitCards(color)
  {
    deck' := deck;
    for value := 3 to 11
      invariant deck' == deck + SuitCards(color)[..value - 3]
    {
      deck' := deck' + [CardModel(color, Num(value))];
    }
    deck' := deck' + [CardModel(color, Num(11))];
    deck' := deck' + [CardModel(color, Num(12))];
    deck' := deck' + [CardModel(color, Num(13))];
    deck' := deck' + [CardModel(color, Num(14))];
    deck' := deck' + [CardModel(color, Num(15))];
  }

  // ---------------------------------------------------------------------------
  // shuffleDeck (Core.ts:506-512).
  // ---------------------------------------------------------------------------

  /** Valid choices for a shuffle of n cards: step i swaps slot i with slot picks[i] in [0, i]. */
  predicate ValidPicks(picks: seq<nat>, n: nat) {
    |picks| == n && forall i :: 0 <= i < n ==> picks[i] <= i
  }

  /** Slots i and j exchanged. */
  function Swap<T>(s: seq<T>, i: nat, j: nat): (r: seq<T>)
    requires i < |s| && j < |s|
    ensures |r| == |s| && r[i] == s[j] && r[j] == s[i]
  {
    s[i := s[j]][j := s[i]]
  }

  /** Exchanging two slots keeps the cards. */
  lemma SwapPermutes<T>(s: seq<T>, i: nat, j: nat)
    requires i < |s| && j < |s|
    ensures multiset(Swap(s, i, j)) == multiset(s)
  {
  }

  /** The shuffle's steps i, i - 1, ..., 1 applied to s. */
  function FisherYates<T>(s: seq<T>, picks: seq<nat>, i: nat): (r: seq<T>)
    requires ValidPicks(picks, |s|) && (i < |s| || i == 0)
    ensures |r| == |s|
    decreases i
  {
    if i == 0 then s else FisherYates(Swap(s, i, picks[i]), picks, i - 1)
  }

  /** Each step swaps two cards, so the steps together permute the deck. */
  lemma {:induction false} FisherYatesPermutes<T>(s: seq<T>, picks: seq<nat>, i: nat)
    requires ValidPicks(picks, |s|) && (i < |s| || i == 0)
    ensures multiset(FisherYates(s, picks, i)) == multiset(s)
    decreases i
  {
    if i > 0 {
      SwapPermutes(s, i, picks[i]);
      FisherYatesPermutes(Swap(s, i, picks[i]), picks, i - 1);
    }
  }

  /** The whole shuffle of a deck. */
  function Shuffled<T>(s: seq<T>, picks: seq<nat>): (r: seq<T>)
    requires ValidPicks(picks, |s|)
    ensures |r| == |s|
  {
    FisherYates(s, picks, if |s| == 0 then 0 else |s| - 1)
  }

  /** One step of the loop: swap slot i, then go on with the steps below it. */
  lemma FisherYatesStep<T>(s: seq<T>, picks: seq<nat>, i: nat)
    requires ValidPicks(picks, |s|) && 0 < i < |s|
    ensures FisherYates(s, picks, i) == FisherYates(Swap(s, i, picks[i]), picks, i - 1)
  {
  }

  /** shuffleDeck: from the last index down to 1, swap slot i with slot picks[i]; returns the same array. */
  method ShuffleDeck(deck: array<CardModel>, picks: seq<nat>) returns (shuffled: array<CardModel>)
    requires ValidPicks(picks, deck.Length)
    modifies deck
    ensures shuffled == deck
    ensures deck[..] == Shuffled(old(deck[..]), picks)
  {
    if deck.Length == 0 {
      return deck;
    }
    ghost var goal := Shuffled(deck[..], picks);
    var i := deck.Length - 1;
    while i > 0
      invariant 0 <= i < deck.Length
      invariant goal == FisherYates(deck[..], picks, i)
    {
      var j := picks[i];
      FisherYatesStep(deck[..], picks, i);
      SwapSlots(deck, i, j);
      i := i - 1;
    }
    return deck;
  }

  /** `[deck[i], deck[j]] = [deck[j], deck[i]]`. */
  method SwapSlots<T>(a: array<T>, i: nat, j: nat)
    requires i < a.Length && j < a.Length
    modifies a
    ensures a[..] == Swap(old(a[..]), i, j)
  {
    a[i], a[j] := a[j], a[i];
  }

  /** A shuffle is a permutation: the same cards, each as often as before. */
  lemma ShufflePermutes<T>(s: seq<T>, picks: seq<nat>)
    requires ValidPicks(picks, |s|)
    ensures multiset(Shuffled(s, picks)) == multiset(s)
    ensures forall x :: x in Shuffled(s, picks) <==> x in s
  {
    FisherYatesPermutes(s, picks, if |s| == 0 then 0 else |s| - 1);
    var r := Shuffled(s, picks);
    assert |r| == |multiset(r)| == |multiset(s)| == |s|;
    forall x ensures x in r <==> x in s {
      assert x in r <==> x in multiset(r);
      assert x in s <==> x in multiset(s);
    }
  }

  // ---------------------------------------------------------------------------
  // dealCards (Core.ts:515-538).
  // ---------------------------------------------------------------------------

  function Min(a: int, b: int): int { if a < b then a else b }

  /** The cards of the deck at positions [lo, hi), cut off at its end. */
  function Block(deck: seq<CardModel>, lo: nat, hi: nat): (r: seq<CardModel>)
    requires lo <= hi
    ensures |r| == Min(hi, |deck|) - Min(lo, |deck|)
  {
    deck[Min(lo, |deck|)..Min(hi, |deck|)]
  }

  /** Dealing card i adds it to the block whose range holds i, and to no other. */
  lemma BlockStep(deck: seq<CardModel>, i: nat, lo: nat, hi: nat)
    requires i < |deck| && lo <= hi
    ensures Block(deck[..i + 1], lo, hi) == if lo <= i < hi then Block(deck[..i], lo, hi) + [deck[i]] else Block(deck[..i], lo, hi)
  {
    assert deck[..i + 1] == deck[..i] + [deck[i]];
  }

  /** Dealing card i adds it to the bottom exactly when i is past the players' cards. */
  lemma BottomStep(deck: seq<CardModel>, i: nat)
    requires i < |deck|
    ensures deck[..i + 1][Min(51, i + 1)..] == if 51 <= i then deck[..i][Min(51, i)..] + [deck[i]] else deck[..i][Min(51, i)..]
  {
    assert deck[..i + 1] == deck[..i] + [deck[i]];
  }

  /** compareFn on the card values. */
  function ValueOf(c: CardModel): Val { c.value }

  /** The result of dealCards: three sorted hands and the bottom cards. */
  datatype Deal = Deal(playerCards: seq<seq<CardModel>>, bottomCards: seq<CardModel>)

  /** dealCards: positions [0,17), [17,34), [34,51) to the players, each sorted by value; the rest is the bottom. */
  method DealCards(deck: seq<CardModel>) returns (info: Deal)
    ensures |info.playerCards| == 3
    ensures info.playerCards[0] == SortBy(Block(deck, 0, 17), ValueOf)
    ensures info.playerCards[1] == SortBy(Block(deck, 17, 34), ValueOf)
    ensures info.playerCards[2] == SortBy(Block(deck, 34, 51), ValueOf)
    ensures info.bottomCards == deck[Min(51, |deck|)..]
  {
    var player1, player2, player3, bottomCards := [], [], [], [];
    for i := 0 to |deck|
      invariant player1 == Block(deck[..i], 0, 17) && player2 == Block(deck[..i], 17, 34)
      invariant player3 == Block(deck[..i], 34, 51) && bottomCards == deck[..i][Min(51, i)..]
    {
      BlockStep(deck, i, 0, 17);
      BlockStep(deck, i, 17, 34);
      BlockStep(deck, i, 34, 51);
      BottomStep(deck, i);
      if i < 17 {
        player1 := player1 + [deck[i]];
      } else if i < 34 {
        player2 := player2 + [deck[i]];
      } else if i < 51 {
        player3 := player3 + [deck[i]];
      } else {
        bottomCards := bottomCards + [deck[i]];
      }
    }
    assert deck[..|deck|] == deck;
    player1 := SortBy(player1, ValueOf);
    player2 := SortBy(player2, ValueOf);
    player3 := SortBy(player3, ValueOf);
    return Deal([player1, player2, player3], bottomCards);
  }

  /** The four parts of a deal hold exactly the cards of the deck. */
  lemma DealPartitions(deck: seq<CardModel>)
    ensures multiset(SortBy(Block(deck, 0, 17), ValueOf)) + multiset(SortBy(Block(deck, 17, 34), ValueOf)) +
            multiset(SortBy(Block(deck, 34, 51), ValueOf)) + multiset(deck[Min(51, |deck|)..]) == multiset(deck)
  {
    var n := |deck|;
    assert deck == Block(deck, 0, 17) + Block(deck, 17, 34) + Block(deck, 34, 51) + deck[Min(51, n)..];
  }

  /** Dealing a 54-card deck gives 17, 17 and 17 cards, each hand sorted by value, and a bottom of 3. */
  lemma DealSizes(deck: seq<CardModel>)
    requires |deck| == 54
    ensures |SortBy(Block(deck, 0, 17), ValueOf)| == 17 && |SortBy(Block(deck, 17, 34), ValueOf)| == 17
    ensures |SortBy(Block(deck, 34, 51), ValueOf)| == 17 && |deck[Min(51, |deck|)..]| == 3
    ensures SortedBy(SortBy(Block(deck, 0, 17), ValueOf), ValueOf)
    ensures SortedBy(SortBy(Block(deck, 17, 34), ValueOf), ValueOf)
    ensures SortedBy(SortBy(Block(deck, 34, 51), ValueOf), ValueOf)
  {
    SortBySorted(Block(deck, 0, 17), ValueOf);
    SortBySorted(Block(deck, 17, 34), ValueOf);
    SortBySorted(Block(deck, 34, 51), ValueOf);
  }

  /** The shuffled generated deck deals into the 54 generated cards, 17/17/17/3, with nothing lost or repeated. */
  lemma DealOfShuffledDeck(picks: seq<nat>)
    requires ValidPicks(picks, 54)
    ensures var deck := Shuffled(StandardDeck(), picks);
      |deck| == 54 &&
      multiset(SortBy(Block(deck, 0, 17), ValueOf)) + multiset(SortBy(Block(deck, 17, 34), ValueOf)) +
      multiset(SortBy(Block(deck, 34, 51), ValueOf)) + multiset(deck[51..]) == multiset(StandardDeck())
  {
    var deck := Shuffled(StandardDeck(), picks);
    ShufflePermutes(StandardDeck(), picks);
    DealPartitions(deck);
  }
}
