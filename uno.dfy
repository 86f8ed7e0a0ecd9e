/**
 * The UNO game (src/app/game/UnoGame.ts with src/app/game/Player.ts): a draw
 * pile shared by reference between the game and its players, a discard pile,
 * the players' hands, a turn index and a direction of play.
 *
 * Every operation that changes the table is tied to a function on a value
 * snapshot of it (`Table`), and the accounting facts (cards are conserved, the
 * turn index stays a seat, the direction stays +1 or -1) are proved about those
 * functions.
 */
module Uno {
  import opened Options
  import opened UnoCards
  import DdzDeck

  // ---------------------------------------------------------------------------
  // Hands and the draw rule (Player.ts).
  // ---------------------------------------------------------------------------

  /** `hand.indexOf(card)`: the first position of `x` in `s`, or -1. */
  function IndexOf(s: seq<UnoCard>, x: UnoCard): (r: int)
    ensures -1 <= r < |s|
    ensures r == -1 <==> x !in s
    ensures r >= 0 ==> s[r] == x && x !in s[..r]
  {
    if s == [] then -1
    else if s[0] == x then 0
    else
      var i := IndexOf(s[1..], x);
      assert i >= 0 ==> s[1..][..i] == s[1..i + 1];
      if i == -1 then -1 else i + 1
  }

  /** The hand after `splice(indexOf(card), 1)`: the first occurrence of `x` removed. */
  function RemoveFirst(s: seq<UnoCard>, x: UnoCard): (r: seq<UnoCard>)
    requires x in s
    ensures |r| == |s| - 1
    ensures multiset(r) == multiset(s) - multiset{x}
    ensures exists i :: 0 <= i < |s| && s[i] == x && x !in s[..i] && r == s[..i] + s[i + 1..]
  {
    var i := IndexOf(s, x);
    assert s == s[..i] + [s[i]] + s[i + 1..];
    s[..i] + s[i + 1..]
  }

  /**
   * `drawCard`: the draw pile and the hand after the hand takes the pile's last
   * card; nothing moves when the pile is empty.
   */
  function Drawn(deck: seq<UnoCard>, hand: seq<UnoCard>): (seq<UnoCard>, seq<UnoCard>) {
    if |deck| > 0 then (deck[..|deck| - 1], hand + [deck[|deck| - 1]]) else (deck, hand)
  }

  /**
   * A draw only moves a card: the pile keeps its bottom part in order, the hand
   * keeps its cards in order, and together they hold the same cards as before.
   */
  lemma DrawnConserves(deck: seq<UnoCard>, hand: seq<UnoCard>)
    ensures var r := Drawn(deck, hand);
      && |r.0| + |r.1| == |deck| + |hand|
      && multiset(r.0) + multiset(r.1) == multiset(deck) + multiset(hand)
      && r.0 == deck[..|r.0|] && r.1[..|hand|] == hand
      && (|deck| > 0 <==> |r.1| == |hand| + 1)
  {
    if |deck| > 0 {
      assert deck == deck[..|deck| - 1] + [deck[|deck| - 1]];
      assert (hand + [deck[|deck| - 1]])[..|hand|] == hand;
    }
  }

  // ---------------------------------------------------------------------------
  // The table as a value and the rules that change it (UnoGame.ts).
  // ---------------------------------------------------------------------------

  /** All cards in the hands. */
  function Sum(hs: seq<seq<UnoCard>>): multiset<UnoCard>
    decreases |hs|
  {
    if hs == [] then multiset{} else Sum(hs[..|hs| - 1]) + multiset(hs[|hs| - 1])
  }

  /** Multiset bookkeeping: adding the same cards to both sides of an equation. */
  lemma Rebalance<T>(a: multiset<T>, b: multiset<T>, c: multiset<T>, d: multiset<T>, e: multiset<T>)
    requires a + c == d + e
    ensures a + b + c == d + b + e
  {
    forall x ensures (a + b + c)[x] == (d + b + e)[x] {
      assert (a + c)[x] == (d + e)[x];
    }
  }

  /** Multiset bookkeeping: chaining two exchanges that trade the same cards. */
  lemma Cancel<T>(a: multiset<T>, c: multiset<T>, d: multiset<T>, e: multiset<T>, f: multiset<T>, g: multiset<T>)
    requires a + c == d + e
    requires f + e == g + c
    ensures a + f == d + g
  {
    forall x ensures (a + f)[x] == (d + g)[x] {
      assert (a + c)[x] == (d + e)[x];
      assert (f + e)[x] == (g + c)[x];
    }
  }

  /** Replacing one hand changes the cards in the hands by exactly that hand's difference. */
  lemma {:induction false} SumUpdate(hs: seq<seq<UnoCard>>, k: nat, h: seq<UnoCard>)
    requires k < |hs|
    ensures Sum(hs[k := h]) + multiset(hs[k]) == Sum(hs) + multiset(h)
    decreases |hs|
  {
    var n := |hs|;
    var hs' := hs[k := h];
    if k == n - 1 {
      assert hs'[..n - 1] == hs[..n - 1];
    } else {
      assert hs'[..n - 1] == hs[..n - 1][k := h];
      assert hs'[n - 1] == hs[n - 1];
      assert hs[..n - 1][k] == hs[k];
      SumUpdate(hs[..n - 1], k, h);
      Rebalance(Sum(hs[..n - 1][k := h]), multiset(hs[n - 1]), multiset(hs[k]), Sum(hs[..n - 1]), multiset(h));
    }
  }

  /**
   * A snapshot of a game: the draw pile (top at the end), the discard pile
   * (top at the end), the hands of the seated players, the turn index and the
   * direction of play.
   */
  datatype Table = Table(deck: seq<UnoCard>, discardPile: seq<UnoCard>, hands: seq<seq<UnoCard>>,
                         index: nat, direction: int)

  /** All cards on the table. */
  function Cards(t: Table): multiset<UnoCard> {
    multiset(t.deck) + multiset(t.discardPile) + Sum(t.hands)
  }

  /** At least one player, the turn index is a seat and the direction is +1 or -1. */
  predicate Seated(t: Table) {
    |t.hands| > 0 && t.index < |t.hands| && (t.direction == 1 || t.direction == -1)
  }

  /**
   * `nextPlayer`: `(index + direction + n) % n`. The sum is never negative, so
   * the JavaScript remainder and Dafny's agree.
   */
  function Advance(t: Table): (r: Table)
    requires Seated(t)
    ensures Seated(r) && r == t.(index := r.index)
    ensures r.index == if t.direction == 1 then (if t.index + 1 == |t.hands| then 0 else t.index + 1)
                       else (if t.index == 0 then |t.hands| - 1 else t.index - 1)
  {
    var n := |t.hands|;
    var i := (t.index + t.direction + n) % n;
    ModWrap(t.index + t.direction + n, n);
    t.(index := i)
  }

  lemma ModWrap(s: int, n: int)
    requires n > 0 && 0 <= s <= 2 * n
    ensures s % n == if s < n then s else if s < 2 * n then s - n else 0
  {
    if s < n {
    } else if s < 2 * n {
      assert s == 1 * n + (s - n);
    } else {
      assert s == 2 * n + 0;
    }
  }

  /** Turning round and moving on leads back to the seat one started from. */
  lemma AdvanceBack(t: Table)
    requires Seated(t)
    ensures Advance(Advance(t).(direction := -t.direction)).index == t.index
  {
  }

  /** The player in seat `k` draws one card from the draw pile, if any is left. */
  function Draw(t: Table, k: nat): (r: Table)
    requires k < |t.hands|
    ensures r == t.(deck := r.deck, hands := r.hands) && |r.hands| == |t.hands|
  {
    var d := Drawn(t.deck, t.hands[k]);
    t.(deck := d.0, hands := t.hands[k := d.1])
  }

  /** A draw loses and makes no card. */
  lemma DrawConserves(t: Table, k: nat)
    requires k < |t.hands|
    ensures Cards(Draw(t, k)) == Cards(t)
  {
    var d := Drawn(t.deck, t.hands[k]);
    DrawnConserves(t.deck, t.hands[k]);
    SumUpdate(t.hands, k, d.1);
    Cancel(Sum(t.hands[k := d.1]), multiset(t.hands[k]), Sum(t.hands), multiset(d.1), multiset(d.0), multiset(t.deck));
    forall x ensures Cards(Draw(t, k))[x] == Cards(t)[x] {
      assert (Sum(t.hands[k := d.1]) + multiset(d.0))[x] == (Sum(t.hands) + multiset(t.deck))[x];
    }
  }

  /** A draw moves the last card of the draw pile into hand `k` and nowhere else; no card is lost or made. */
  lemma DrawMoves(t: Table, k: nat)
    requires k < |t.hands|
    ensures var r := Draw(t, k);
      && (forall i :: 0 <= i < |t.hands| && i != k ==> r.hands[i] == t.hands[i])
      && (r.deck, r.hands[k]) == Drawn(t.deck, t.hands[k])
      && Cards(r) == Cards(t)
  {
    DrawConserves(t, k);
  }

  /**
   * `applyCardEffect`, as written: Skip passes over a player, Reverse turns
   * round, DrawTwo and DrawFour make the player at the turn index (the one who
   * is playing) draw two or four cards and then pass over a player; Wild and the
   * numbers change nothing.
   */
  function Effect(t: Table, v: UnoValue): (r: Table)
    requires Seated(t)
    ensures Seated(r) && |r.hands| == |t.hands| && r.discardPile == t.discardPile
  {
    match v
    case Skip => Advance(t)
    case Reverse => t.(direction := -t.direction)
    case DrawTwo => Advance(Penalty(t, t.index, 2))
    case DrawFour => Advance(Penalty(t, t.index, 4))
    case _ => t
  }

  /** No effect loses or makes a card. */
  lemma EffectConserves(t: Table, v: UnoValue)
    requires Seated(t)
    ensures Cards(Effect(t, v)) == Cards(t)
  {
    if v == DrawTwo || v == DrawFour {
      PenaltyConserves(t, t.index, if v == DrawTwo then 2 else 4);
    }
  }

  /** The player in seat `k` draws `count` cards, one after the other. */
  function Penalty(t: Table, k: nat, count: nat): (r: Table)
    requires k < |t.hands|
    ensures r == t.(deck := r.deck, hands := r.hands) && |r.hands| == |t.hands|
  {
    if count == 0 then t else Draw(Penalty(t, k, count - 1), k)
  }

  /** Drawing `a` cards and then `b` more is drawing `a + b`. */
  lemma {:induction false} PenaltySplit(t: Table, k: nat, a: nat, b: nat)
    requires k < |t.hands|
    ensures Penalty(Penalty(t, k, a), k, b) == Penalty(t, k, a + b)
  {
    if b > 0 {
      PenaltySplit(t, k, a, b - 1);
    }
  }

  /** The four cards of a DrawFour, drawn two at a time. */
  lemma DrawFourSplit(t: Table, u: Table)
    requires t.index < |t.hands| && u == Penalty(Penalty(t, t.index, 2), t.index, 2)
    ensures u == Penalty(t, t.index, 4)
  {
    PenaltySplit(t, t.index, 2, 2);
  }

  /**
   * While the draw pile holds enough cards, a penalty of `count` cards moves
   * the last `count` cards of the pile onto hand `k`; `PenaltyConserves` says
   * they are the cards the pile lost.
   */
  lemma {:induction false} PenaltyTakes(t: Table, k: nat, count: nat)
    requires k < |t.hands| && count <= |t.deck|
    ensures var r := Penalty(t, k, count);
      && r.deck == t.deck[..|t.deck| - count]
      && |r.hands[k]| == |t.hands[k]| + count
  {
    if count > 0 {
      var p := Penalty(t, k, count - 1);
      PenaltyTakes(t, k, count - 1);
      DrawnConserves(p.deck, p.hands[k]);
      var d := Drawn(p.deck, p.hands[k]);
      assert d.0 == t.deck[..|t.deck| - count + 1][..|t.deck| - count];
    }
  }

  /** A penalty on seat `k` leaves every other hand alone. */
  lemma {:induction false} PenaltyOthers(t: Table, k: nat, count: nat)
    requires k < |t.hands|
    ensures forall i :: 0 <= i < |t.hands| && i != k ==> Penalty(t, k, count).hands[i] == t.hands[i]
  {
    if count > 0 {
      PenaltyOthers(t, k, count - 1);
    }
  }

  /** A penalty loses and makes no card. */
  lemma {:induction false} PenaltyConserves(t: Table, k: nat, count: nat)
    requires k < |t.hands|
    ensures Cards(Penalty(t, k, count)) == Cards(t)
  {
    if count > 0 {
      var p := Penalty(t, k, count - 1);
      var c := Cards(t);
      PenaltyConserves(t, k, count - 1);
      assert Cards(p) == c;
      DrawConserves(p, k);
      assert Cards(Draw(p, k)) == c;
    }
  }

  /** `playCard` once the card has left the hand: discard it, apply its effect, move the turn on. */
  function AfterPlay(t: Table, card: UnoCard): (r: Table)
    requires Seated(t)
    ensures Seated(r) && |r.hands| == |t.hands| && r.discardPile == t.discardPile + [card]
  {
    Advance(Effect(t.(discardPile := t.discardPile + [card]), card.value))
  }

  /** After the play the table holds the cards it held, together with the played one. */
  lemma AfterPlayConserves(t: Table, card: UnoCard)
    requires Seated(t)
    ensures Cards(AfterPlay(t, card)) == Cards(t) + multiset{card}
  {
    var t1 := t.(discardPile := t.discardPile + [card]);
    assert Cards(t1) == Cards(t) + multiset{card};
    EffectConserves(t1, card.value);
  }

  /**
   * Playing a card from the hand in seat `k` keeps every card on the table: it
   * only moves from the hand to the discard pile (and penalty cards from the
   * draw pile to a hand).
   */
  lemma PlayConserves(t: Table, k: nat, card: UnoCard)
    requires Seated(t) && k < |t.hands| && card in t.hands[k]
    ensures Cards(AfterPlay(t.(hands := t.hands[k := RemoveFirst(t.hands[k], card)]), card)) == Cards(t)
  {
    var h := RemoveFirst(t.hands[k], card);
    var t1 := t.(hands := t.hands[k := h]);
    assert Cards(t1) + multiset{card} == Cards(t) by {
      SumUpdate(t.hands, k, h);
      assert multiset(t.hands[k]) == multiset(h) + multiset{card};
      forall x ensures (Cards(t1) + multiset{card})[x] == Cards(t)[x] {
        assert (Sum(t1.hands) + multiset(t.hands[k]))[x] == (Sum(t.hands) + multiset(h))[x];
      }
    }
    AfterPlayConserves(t1, card);
  }

  /** `canPlayCard`: same colour or same value as the discard top, or a Black card. */
  predicate Playable(top: UnoCard, card: UnoCard) {
    card.color == top.color || card.value == top.value || card.color == Black
  }

  /**
   * A Black card can always be played, and while a Black card is on top only
   * Black cards can follow: choosing a colour for Wild and DrawFour is not
   * implemented, so the top keeps the colour Black.
   */
  lemma PlayableOnBlack(top: UnoCard, card: UnoCard)
    requires Face(top.color, top.value) in DeckFaces() && Face(card.color, card.value) in DeckFaces()
    ensures card.color == Black ==> Playable(top, card)
    ensures top.color == Black ==> (Playable(top, card) <==> card.color == Black)
  {
    BlackIffWild(Face(top.color, top.value));
    BlackIffWild(Face(card.color, card.value));
  }

  /** The first seat whose hand is empty (`players.find(...)`). */
  function FirstEmpty(hs: seq<seq<UnoCard>>): (r: Option<nat>)
    ensures r.None? <==> forall i :: 0 <= i < |hs| ==> hs[i] != []
    ensures r.Some? ==> r.value < |hs| && hs[r.value] == [] && forall i :: 0 <= i < r.value ==> hs[i] != []
  {
    if hs == [] then None
    else if hs[0] == [] then Some(0)
    else
      var r := FirstEmpty(hs[1..]);
      assert forall i :: 1 <= i < |hs| ==> hs[i] == hs[1..][i - 1];
      if r.None? then None else Some(r.value + 1)
  }

  /** Whether some hand is empty (`players.some(...)`). */
  function SomeEmpty(hs: seq<seq<UnoCard>>): (r: bool)
    ensures r <==> exists i :: 0 <= i < |hs| && hs[i] == []
    ensures r <==> FirstEmpty(hs).Some?
  {
    if hs == [] then false
    else
      assert forall i :: 1 <= i < |hs| ==> hs[i] == hs[1..][i - 1];
      hs[0] == [] || SomeEmpty(hs[1..])
  }

  /** Seats `0` to `j - 1` each draw one card, in seat order. */
  function DealTo(t: Table, j: nat): (r: Table)
    requires j <= |t.hands|
    ensures r == t.(deck := r.deck, hands := r.hands) && |r.hands| == |t.hands|
  {
    if j == 0 then t else Draw(DealTo(t, j - 1), j - 1)
  }

  /** `rounds` rounds of dealing one card to every seat. */
  function Deal(t: Table, rounds: nat): (r: Table)
    ensures r == t.(deck := r.deck, hands := r.hands) && |r.hands| == |t.hands|
  {
    if rounds == 0 then t else DealTo(Deal(t, rounds - 1), |t.hands|)
  }

  /** While the pile lasts, a part-round takes the last `j` cards and gives one to each of the first `j` seats. */
  lemma {:induction false} DealToTakes(t: Table, j: nat)
    requires j <= |t.hands| && j <= |t.deck|
    ensures var r := DealTo(t, j);
      && r.deck == t.deck[..|t.deck| - j]
      && forall k :: 0 <= k < |t.hands| ==> |r.hands[k]| == |t.hands[k]| + (if k < j then 1 else 0)
  {
    if j > 0 {
      var p := DealTo(t, j - 1);
      DealToTakes(t, j - 1);
      DrawMoves(p, j - 1);
      DrawnConserves(p.deck, p.hands[j - 1]);
      assert DealTo(t, j).deck == t.deck[..|t.deck| - j + 1][..|t.deck| - j];
    }
  }

  /** While the pile lasts, `rounds` rounds take the last `rounds * n` cards and give each seat `rounds` cards. */
  lemma {:induction false} DealTakes(t: Table, rounds: nat)
    requires rounds * |t.hands| <= |t.deck|
    ensures var r := Deal(t, rounds);
      && r.deck == t.deck[..|t.deck| - rounds * |t.hands|]
      && forall k :: 0 <= k < |t.hands| ==> |r.hands[k]| == |t.hands[k]| + rounds
  {
    if rounds > 0 {
      var n := |t.hands|;
      var p := Deal(t, rounds - 1);
      var taken := (rounds - 1) * n;
      assert rounds * n == taken + n;
      DealTakes(t, rounds - 1);
      DealToTakes(p, n);
      var r := DealTo(p, n);
      assert Deal(t, rounds) == r;
      assert r.deck == t.deck[..|t.deck| - taken][..|t.deck| - taken - n];
    }
  }

  /** Dealing loses and makes no card. */
  lemma {:induction false} DealToConserves(t: Table, j: nat)
    requires j <= |t.hands|
    ensures Cards(DealTo(t, j)) == Cards(t)
  {
    if j > 0 {
      var p := DealTo(t, j - 1);
      var q := Draw(p, j - 1);
      assert DealTo(t, j) == q;
      DealToConserves(t, j - 1);
      DrawConserves(p, j - 1);
    }
  }

  lemma {:induction false} DealConserves(t: Table, rounds: nat)
    ensures Cards(Deal(t, rounds)) == Cards(t)
  {
    if rounds > 0 {
      DealConserves(t, rounds - 1);
      DealToConserves(Deal(t, rounds - 1), |t.hands|);
    }
  }

  /** `startGame`: the last card of the draw pile becomes the first discard; nothing moves when the pile is empty. */
  function Begin(t: Table): (r: Table)
    ensures r.hands == t.hands && r.index == t.index && r.direction == t.direction
  {
    if |t.deck| > 0 then t.(deck := t.deck[..|t.deck| - 1], discardPile := t.discardPile + [t.deck[|t.deck| - 1]])
    else t
  }

  /** Turning up the first discard loses and makes no card. */
  lemma BeginConserves(t: Table)
    ensures Cards(Begin(t)) == Cards(t)
    ensures |t.deck| > 0 ==> |Begin(t).deck| == |t.deck| - 1 && |Begin(t).discardPile| == |t.discardPile| + 1
  {
    if |t.deck| > 0 {
      assert t.deck == t.deck[..|t.deck| - 1] + [t.deck[|t.deck| - 1]];
    }
  }

  /**
   * The table the constructor sets up for players holding `hands`: the created
   * deck shuffled with `picks`, seven rounds dealt, the first discard turned up,
   * the turn with seat 0 and play clockwise.
   */
  function Initial(hands: seq<seq<UnoCard>>, picks: seq<nat>): Table
    requires DdzDeck.ValidPicks(picks, 108)
  {
    DeckSize();
    Begin(Deal(Table(DdzDeck.Shuffled(Created(), picks), [], hands, 0, 1), 7))
  }

  /**
   * A new game holds the 108 created cards besides what the players already
   * held; with at most 15 players (so that the deck lasts) each player has
   * seven more cards, one card is face up and the rest are in the draw pile.
   */
  lemma InitialDeal(hands: seq<seq<UnoCard>>, picks: seq<nat>)
    requires DdzDeck.ValidPicks(picks, 108)
    ensures var t := Initial(hands, picks);
      && Seated(t) == (|hands| > 0) && t.index == 0 && t.direction == 1
      && Cards(t) == multiset(Created()) + Sum(hands)
      && (|hands| <= 15 ==>
        && |t.discardPile| == 1 && |t.deck| == 108 - 7 * |hands| - 1
        && forall k :: 0 <= k < |hands| ==> |t.hands[k]| == |hands[k]| + 7)
  {
    DeckSize();
    var t0 := Table(DdzDeck.Shuffled(Created(), picks), [], hands, 0, 1);
    DdzDeck.ShufflePermutes(Created(), picks);
    DealConserves(t0, 7);
    BeginConserves(Deal(t0, 7));
    if |hands| <= 15 {
      DealTakes(t0, 7);
    }
  }

  // ---------------------------------------------------------------------------
  // The penalty as written and as evidently intended.
  // ---------------------------------------------------------------------------

  /** The number of cards a DrawTwo or a DrawFour makes a player draw. */
  function PenaltySize(v: UnoValue): (n: nat)
    requires v == DrawTwo || v == DrawFour
    ensures n == 2 || n == 4
  {
    if v == DrawTwo then 2 else 4
  }

  /**
   * As written, a DrawTwo or DrawFour played by the player whose turn it is
   * makes that same player draw the two or four cards; the player after them
   * is passed over and nobody else's hand changes. With two players the one
   * who played it is to play again.
   */
  lemma DrawPenaltyHitsPlayer(t: Table, card: UnoCard)
    requires Seated(t) && (card.value == DrawTwo || card.value == DrawFour)
    requires |t.deck| >= PenaltySize(card.value)
    ensures var r := AfterPlay(t, card);
      && |r.hands[t.index]| == |t.hands[t.index]| + PenaltySize(card.value)
      && (forall i :: 0 <= i < |t.hands| && i != t.index ==> r.hands[i] == t.hands[i])
      && (|t.hands| == 2 ==> r.index == t.index)
  {
    var n := PenaltySize(card.value);
    var t1 := t.(discardPile := t.discardPile + [card]);
    assert AfterPlay(t, card) == Advance(Advance(Penalty(t1, t.index, n)));
    PenaltyTakes(t1, t.index, n);
    PenaltyOthers(t1, t.index, n);
  }

  /**
   * The effects as the UNO rules have them: DrawTwo and DrawFour make the next
   * player in the direction of play draw, and that player loses the turn.
   */
  function EffectIntended(t: Table, v: UnoValue): (r: Table)
    requires Seated(t)
    ensures Seated(r) && |r.hands| == |t.hands| && r.discardPile == t.discardPile
  {
    var victim := Advance(t).index;
    match v
    case Skip => Advance(t)
    case Reverse => t.(direction := -t.direction)
    case DrawTwo => Advance(Penalty(t, victim, 2))
    case DrawFour => Advance(Penalty(t, victim, 4))
    case _ => t
  }

  function AfterPlayIntended(t: Table, card: UnoCard): (r: Table)
    requires Seated(t)
    ensures Seated(r) && |r.hands| == |t.hands| && r.discardPile == t.discardPile + [card]
  {
    Advance(EffectIntended(t.(discardPile := t.discardPile + [card]), card.value))
  }

  /**
   * Under the intended rule the next player draws the two or four cards, the
   * player who played keeps their hand, and the turn goes to the player after
   * the one who drew.
   */
  lemma DrawPenaltyHitsNext(t: Table, card: UnoCard)
    requires Seated(t) && (card.value == DrawTwo || card.value == DrawFour)
    requires |t.deck| >= PenaltySize(card.value) && |t.hands| >= 2
    ensures var victim := Advance(t).index;
      var r := AfterPlayIntended(t, card);
      && |r.hands[victim]| == |t.hands[victim]| + PenaltySize(card.value)
      && r.hands[t.index] == t.hands[t.index]
      && (forall i :: 0 <= i < |t.hands| && i != victim ==> r.hands[i] == t.hands[i])
      && r.index == Advance(Advance(t)).index
      && Cards(r) == Cards(t) + multiset{card}
  {
    var n := PenaltySize(card.value);
    var t1 := t.(discardPile := t.discardPile + [card]);
    var victim := Advance(t).index;
    assert Advance(t1).index == victim;
    assert AfterPlayIntended(t, card) == Advance(Advance(Penalty(t1, victim, n)));
    PenaltyTakes(t1, victim, n);
    PenaltyOthers(t1, victim, n);
    IntendedPenaltyConserves(t, card);
  }

  /** Under the intended rule a DrawTwo or DrawFour also neither makes nor loses a card. */
  lemma IntendedPenaltyConserves(t: Table, card: UnoCard)
    requires Seated(t) && (card.value == DrawTwo || card.value == DrawFour)
    ensures Cards(AfterPlayIntended(t, card)) == Cards(t) + multiset{card}
  {
    var n := PenaltySize(card.value);
    var t1 := t.(discardPile := t.discardPile + [card]);
    var victim := Advance(t).index;
    var p := Penalty(t1, victim, n);
    var r := Advance(Advance(p));
    assert AfterPlayIntended(t, card) == r;
    PenaltyConserves(t1, victim, n);
    var c := Cards(t1);
    assert c == Cards(t) + multiset{card};
    assert Cards(p) == c;
    assert Cards(r) == c;
  }

  // ---------------------------------------------------------------------------
  // The objects.
  // ---------------------------------------------------------------------------

  /** A JavaScript `Card[]` holding the draw pile; the game and its players share it by reference. */
  class CardPile {
    var cards: seq<UnoCard>

    constructor(cards: seq<UnoCard>)
      ensures this.cards == cards
    {
      this.cards := cards;
    }

    /** `pop()` on a non-empty array. */
    method Pop() returns (c: UnoCard)
      requires |cards| > 0
      modifies this
      ensures old(cards) == cards + [c]
    {
      c := cards[|cards| - 1];
      cards := cards[..|cards| - 1];
    }
  }

  class Player {
    const name: string
    var hand: seq<UnoCard>

    /** A new player holds no cards. */
    constructor(name: string)
      ensures this.name == name && hand == []
    {
      this.name := name;
      hand := [];
    }

    /** Takes the last card of the draw pile onto the end of the hand; an empty pile is left alone. */
    method DrawCard(deck: CardPile)
      modifies this, deck
      ensures (deck.cards, hand) == Drawn(old(deck.cards), old(hand))
    {
      if |deck.cards| > 0 {
        var c := deck.Pop();
        hand := hand + [c];
      }
    }

    /** Removes the first occurrence of `card` and reports whether there was one. */
    method PlayCard(card: UnoCard) returns (played: bool)
      modifies this
      ensures played <==> card in old(hand)
      ensures hand == if played then RemoveFirst(old(hand), card) else old(hand)
    {
      var index := IndexOf(hand, card);
      if index != -1 {
        hand := hand[..index] + hand[index + 1..];
        return true;
      }
      return false;
    }

    function HasUno(): (r: bool)
      reads this
      ensures r <==> |hand| == 1
    {
      |hand| == 1
    }

    function GetHand(): (r: seq<UnoCard>)
      reads this
      ensures r == hand
    {
      hand
    }
  }

  /** The hands of the players, seat by seat. */
  function HandsOf(ps: seq<Player>): (r: seq<seq<UnoCard>>)
    reads ps
    ensures |r| == |ps| && forall i :: 0 <= i < |ps| ==> r[i] == ps[i].hand
  {
    if ps == [] then [] else [ps[0].hand] + HandsOf(ps[1..])
  }

  /** The hands after player `p`'s hand became `h` (and nobody else's changed). */
  function Rehand(hs: seq<seq<UnoCard>>, ps: seq<Player>, p: Player, h: seq<UnoCard>): (r: seq<seq<UnoCard>>)
    requires |hs| == |ps|
    ensures |r| == |hs|
    ensures forall i :: 0 <= i < |hs| ==> r[i] == if ps[i] == p then h else hs[i]
  {
    seq(|hs|, i requires 0 <= i < |hs| => if ps[i] == p then h else hs[i])
  }

  /** When only player `p`'s hand changed since `before`, the hands are `before` with `p`'s replaced. */
  lemma HandsAfter(ps: seq<Player>, p: Player, before: seq<seq<UnoCard>>)
    requires |before| == |ps| && forall i :: 0 <= i < |ps| && ps[i] != p ==> before[i] == ps[i].hand
    ensures HandsOf(ps) == Rehand(before, ps, p, p.hand)
  {
    var r := Rehand(before, ps, p, p.hand);
    forall i | 0 <= i < |ps| ensures HandsOf(ps)[i] == r[i] {
    }
  }

  /** With every player seated once, replacing the hand of the player at seat k updates position k. */
  lemma RehandAt(hs: seq<seq<UnoCard>>, ps: seq<Player>, k: nat, h: seq<UnoCard>)
    requires |hs| == |ps| && k < |ps| && forall i, j :: 0 <= i < j < |ps| ==> ps[i] != ps[j]
    ensures Rehand(hs, ps, ps[k], h) == hs[k := h]
  {
  }

  /**
   * The table that `UnoGame.PlayCard` leaves after a seated player plays a
   * held card holds the same cards as before.
   */
  lemma SeatedPlayConserves(t: Table, ps: seq<Player>, k: nat, card: UnoCard)
    requires Seated(t) && |t.hands| == |ps| && k < |ps| && forall i, j :: 0 <= i < j < |ps| ==> ps[i] != ps[j]
    requires card in t.hands[k]
    ensures Cards(AfterPlay(t.(hands := Rehand(t.hands, ps, ps[k], RemoveFirst(t.hands[k], card))), card)) == Cards(t)
  {
    RehandAt(t.hands, ps, k, RemoveFirst(t.hands[k], card));
    PlayConserves(t, k, card);
  }

  class UnoGame {
    var players: seq<Player>
    var deck: CardPile
    var discardPile: seq<UnoCard>
    var currentPlayerIndex: nat
    var direction: int

    /** At least one player, no player seated twice, the index on a seat and the direction +1 or -1. */
    ghost predicate Valid()
      reads this
    {
      |players| > 0 && currentPlayerIndex < |players| && (direction == 1 || direction == -1)
      && forall i, j :: 0 <= i < j < |players| ==> players[i] != players[j]
    }

    /** The game as a value. */
    ghost function TableOf(): (r: Table)
      reads this, deck, players
      ensures Valid() ==> Seated(r)
    {
      Table(deck.cards, discardPile, HandsOf(players), currentPlayerIndex, direction)
    }

    /**
     * Creates the deck, shuffles it with the given choices, deals seven cards
     * to each player and turns up the first discard.
     */
    constructor(players: seq<Player>, picks: seq<nat>)
      requires |players| > 0 && forall i, j :: 0 <= i < j < |players| ==> players[i] != players[j]
      requires DdzDeck.ValidPicks(picks, 108)
      modifies players
      ensures Valid() && fresh(deck) && this.players == players
      ensures TableOf() == Initial(old(HandsOf(players)), picks)
    {
      ghost var hands := HandsOf(players);
      this.players := players;
      var cards := CreateDeck();
      CreatedDeck(cards);
      deck := new CardPile(cards);
      discardPile := [];
      currentPlayerIndex := 0;
      direction := 1;
      new;
      assert HandsOf(players) == hands;
      ghost var t0 := Table(DdzDeck.Shuffled(Created(), picks), [], hands, 0, 1);
      ShuffleDeck(picks);
      assert TableOf() == t0;
      DealCards();
      assert TableOf() == Deal(t0, 7);
      StartGame();
    }

    /** `shuffleDeck`: from the last slot down to 1, swap slot i with slot picks[i]. */
    method ShuffleDeck(picks: seq<nat>)
      requires DdzDeck.ValidPicks(picks, |deck.cards|)
      modifies deck
      ensures deck.cards == DdzDeck.Shuffled(old(deck.cards), picks)
    {
      if |deck.cards| == 0 {
        return;
      }
      ghost var goal := DdzDeck.Shuffled(deck.cards, picks);
      var i := |deck.cards| - 1;
      while i > 0
        invariant 0 <= i < |deck.cards|
        invariant DdzDeck.ValidPicks(picks, |deck.cards|)
        invariant goal == DdzDeck.FisherYates(deck.cards, picks, i)
      {
        var j := picks[i];
        DdzDeck.FisherYatesStep(deck.cards, picks, i);
        deck.cards := DdzDeck.Swap(deck.cards, i, j);
        i := i - 1;
      }
    }

    /** `this.players[k].drawCard(this.deck)`. */
    method DrawFor(k: nat)
      requires Valid() && k < |players|
      modifies players[k], deck
      ensures TableOf() == Draw(old(TableOf()), k)
    {
      ghost var before := HandsOf(players);
      players[k].DrawCard(deck);
      assert HandsOf(players) == before[k := players[k].hand];
    }

    /** `dealCards`: seven rounds of one card from the end of the draw pile to each player in seat order. */
    method DealCards()
      requires Valid()
      modifies deck, players
      ensures TableOf() == Deal(old(TableOf()), 7)
    {
      ghost var t0 := TableOf();
      for i := 0 to 7
        invariant TableOf() == Deal(t0, i)
      {
        DealRound();
      }
    }

    /** One round of `dealCards`' outer loop: a card to each player in seat order. */
    method DealRound()
      requires Valid()
      modifies deck, players
      ensures TableOf() == DealTo(old(TableOf()), |players|)
    {
      ghost var t := TableOf();
      for j := 0 to |players|
        invariant TableOf() == DealTo(t, j)
      {
        DrawFor(j);
      }
    }

    /** `startGame`: the table after `Begin`. */
    method StartGame()
      modifies this, deck
      ensures players == old(players) && deck == old(deck)
      ensures TableOf() == Begin(old(TableOf()))
    {
      if |deck.cards| > 0 {
        var top := deck.Pop();
        discardPile := discardPile + [top];
      }
    }

    function GetCurrentPlayer(): (r: Player)
      reads this, players
      requires Valid()
      ensures r in players && r == players[currentPlayerIndex]
      ensures r.hand == HandsOf(players)[currentPlayerIndex]
    {
      players[currentPlayerIndex]
    }

    /** Moves the turn one seat on in the direction of play. */
    method NextPlayer()
      requires Valid()
      modifies this
      ensures Valid() && players == old(players) && deck == old(deck)
      ensures TableOf() == Advance(old(TableOf()))
    {
      currentPlayerIndex := (currentPlayerIndex + direction + |players|) % |players|;
    }

    function CanPlayCard(card: UnoCard): (r: bool)
      reads this
      requires |discardPile| > 0
      ensures r <==> Playable(discardPile[|discardPile| - 1], card)
    {
      Playable(discardPile[|discardPile| - 1], card)
    }

    /** `applyCardEffect`: the table after `Effect`. */
    method ApplyCardEffect(card: UnoCard)
      requires Valid()
      modifies this, deck, players
      ensures Valid() && players == old(players) && deck == old(deck)
      ensures TableOf() == Effect(old(TableOf()), card.value)
    {
      ghost var t := TableOf();
      match card.value {
        case Skip =>
          NextPlayer();
        case Reverse =>
          direction := -direction;
          assert TableOf() == t.(direction := -t.direction);
        case DrawTwo =>
          DrawTwoCards();
          NextPlayer();
        case DrawFour =>
          DrawFourCards();
          NextPlayer();
        case _ =>
      }
    }

    /** The four `this.getCurrentPlayer().drawCard(this.deck)` calls of a DrawFour. */
    method DrawFourCards()
      requires Valid()
      modifies deck, players
      ensures TableOf() == Penalty(old(TableOf()), currentPlayerIndex, 4)
    {
      ghost var t := TableOf();
      DrawTwoCards();
      DrawTwoCards();
      DrawFourSplit(t, TableOf());
    }

    /** Two of the `this.getCurrentPlayer().drawCard(this.deck)` calls of a penalty. */
    method DrawTwoCards()
      requires Valid()
      modifies deck, players
      ensures TableOf() == Penalty(old(TableOf()), currentPlayerIndex, 2)
    {
      ghost var t := TableOf();
      DrawFor(currentPlayerIndex);
      assert TableOf() == Penalty(t, currentPlayerIndex, 1);
      DrawFor(currentPlayerIndex);
    }

    /**
     * `playCard`: an unplayable card, or one the player does not hold, changes
     * nothing; otherwise the card leaves the player's hand, lands on the discard
     * pile, takes effect, and the turn moves on.
     */
    method PlayCard(player: Player, card: UnoCard)
      requires Valid() && |discardPile| > 0
      modifies this, deck, player, players
      ensures Valid() && players == old(players) && deck == old(deck)
      ensures !(old(CanPlayCard(card)) && card in old(player.hand)) ==>
        TableOf() == old(TableOf()) && player.hand == old(player.hand)
      ensures old(CanPlayCard(card)) && card in old(player.hand) ==>
        var rest := RemoveFirst(old(player.hand), card);
        && TableOf() == AfterPlay(old(TableOf()).(hands := Rehand(old(HandsOf(players)), players, player, rest)), card)
        && (player !in players ==> player.hand == rest)
    {
      ghost var t := TableOf();
      if CanPlayCard(card) {
        var played := player.PlayCard(card);
        HandsAfter(players, player, t.hands);
        if played {
          ghost var t1 := t.(hands := Rehand(t.hands, players, player, player.hand));
          assert TableOf() == t1;
          PlayOut(card);
        } else {
          assert HandsOf(players) == t.hands;
        }
      }
    }

    /** What follows a successful `player.playCard(card)`: the card is discarded, takes effect, and the turn moves on. */
    method PlayOut(card: UnoCard)
      requires Valid()
      modifies this, deck, players
      ensures Valid() && players == old(players) && deck == old(deck)
      ensures TableOf() == AfterPlay(old(TableOf()), card)
    {
      ghost var t := TableOf();
      discardPile := discardPile + [card];
      assert TableOf() == t.(discardPile := t.discardPile + [card]);
      ApplyCardEffect(card);
      NextPlayer();
    }

    /** Whether some player has no cards left. */
    function IsGameOver(): (r: bool)
      reads this, players
      ensures r <==> exists i :: 0 <= i < |players| && players[i].hand == []
    {
      SomeEmpty(HandsOf(players))
    }

    /** The first player with no cards left, if any. */
    function GetWinner(): (r: Option<Player>)
      reads this, players
      ensures r.Some? <==> IsGameOver()
      ensures r.Some? ==> r.value in players && r.value.hand == []
      ensures r.Some? ==> exists i :: (0 <= i < |players| && players[i] == r.value
        && forall j :: 0 <= j < i ==> players[j].hand != [])
    {
      var w := FirstEmpty(HandsOf(players));
      if w.None? then None else Some(players[w.value])
    }
  }

  /** Two decks numbered by the same faces are the same deck. */
  lemma NumberedUnique(a: seq<UnoCard>, b: seq<UnoCard>, faces: seq<Face>)
    requires Numbered(a, faces) && Numbered(b, faces)
    ensures a == b
  {
  }

  /** A deck numbered in creation order is the created deck, of 108 cards. */
  lemma CreatedDeck(cards: seq<UnoCard>)
    requires Numbered(cards, DeckFaces())
    ensures cards == Created() && |cards| == 108
  {
    NumberedUnique(cards, Created(), DeckFaces());
    DeckSize();
  }

  /** The deck `createDeck` returns. */
  function Created(): (r: seq<UnoCard>)
    ensures Numbered(r, DeckFaces())
  {
    var faces := DeckFaces();
    seq(|faces|, i requires 0 <= i < |faces| => UnoCard(i, faces[i].color, faces[i].value))
  }
}
