# pixi-card rules engine in Dafny

pixi-card is a browser card game built on pixi.js. Beneath its screens it has a
small rules engine, and this project models that engine:

- **Dou Dizhu hand engine** (`src/app/game/Core.ts`), in four modules:
  - `DdzCards`: card values and their orders.
  - `DdzClassify`: the `judge*` pattern tests and `judgeCardType`.
  - `DdzCompare`: `compareHands` and the per-type comparators.
  - `DdzDeck`: the 54-card deck, the Fisher–Yates shuffle and the 17/17/17/3 deal.

  A card value is a rank 3..15 (J..A = 11..14, the Two = 15) or one of the jokers
  `w1` < `w2`. Judges that sort the caller's array in place are methods on
  arrays. Each judge is proved against a predicate on the hand's contents, and
  lemmas say what each predicate means. A throw becomes a `Fail` verdict.
- **Turn queue** (`src/app/game/PlayerQueue.ts`), module `TurnQueue`: a circular
  cursor over the players with an ACTIVE/SKIPPED status map.
- **State machine** (`src/app/game/GameMachine.ts`), module `GameMachine`:
  handlers and guarded transitions per state. Handler calls are recorded in a
  log field.
- **UNO** (`src/app/game/UnoGame.ts`, `src/app/game/Player.ts`), modules
  `UnoCards` and `Uno`:
  - the 108-card deck;
  - players who draw from the end of the pile and play by first occurrence;
  - the game's turn index, direction, playability rule and card effects.

  The classes are proved against a value-level `Table` model. On that model,
  lemmas prove that cards are conserved and that the effects do what they are
  meant to do.
- **Event registry** (`src/app/utils/EventManager.ts`), module `Events`: event
  names map to lists of listeners, and the listener calls are recorded in a
  log field. The registry is a plain object, so a name it inherits from
  `Object.prototype` (`toString`, `constructor`, `__proto__`, ...) makes
  `on`, `emit` and `off` throw; the methods report that as `threw`.

Randomness is a parameter. A shuffle takes `picks`, where `picks[i] <= i` is
the index that `Math.random` would have chosen at step `i`.

## Model

| member | source | states |
|---|---|---|
| DdzCards.CompareVal | src/app/game/Core.ts:6-22 | compareFn on card values: two numbers compare by subtraction, every number is below every joker, and w1 is below w2. The result is negative, zero or positive exactly when the first card is weaker, equal or stronger. |
| DdzCards.CompareJsAntisymmetric | src/app/game/Core.ts:212-223 | compareCards on numbers and strings is antisymmetric, and it is zero only for equal operands. |
| DdzCards.LexCompare | src/app/game/Core.ts:16 | The string order that stands in for localeCompare gives -1, 0 or 1, and gives 0 only for equal strings. |
| DdzCards.LexCompareAntisymmetric | src/app/game/Core.ts:16 | Swapping the strings negates the string order. |
| DdzCards.SortInPlace | src/app/game/Core.ts:443-445 | Sorting an array with compareFn leaves in it the stable sorted permutation of its old contents. |
| DdzCards.SortValsSorted | src/app/game/Core.ts:443-445 | The sorted hand is ascending by card strength. |
| DdzCards.SortValsCanonical | src/app/game/Core.ts:443-445 | Two hands holding the same cards sort to the same sequence. |
| DdzCards.SortValsIdempotent | src/app/game/Core.ts:443-445 | Sorting a sorted hand again changes nothing. |
| DdzCards.GetCountMap | src/app/game/Core.ts:398-404 | The count map holds exactly the values in the hand, each with its number of cards, which is at least 1. |
| DdzCards.InKeyOrderAscending | src/app/game/Core.ts:406-414 | A for-in walk over a count map visits the keys in strictly ascending order. |
| DdzClassify.JudgeTwoHands | src/app/game/Core.ts:23-28 | True iff the hand is two cards of one value. |
| DdzClassify.JudgeThreehands | src/app/game/Core.ts:38-43 | True iff the hand is three cards of one value. |
| DdzClassify.JudgeBomb | src/app/game/Core.ts:45-50 | True iff the hand is four cards of one value. |
| DdzClassify.JudgeRocket | src/app/game/Core.ts:30-36 | Decides IsRocket. A two-card array is left sorted; any other array is unchanged. |
| DdzClassify.RocketIff | src/app/game/Core.ts:30-36 | A rocket is exactly the two jokers, in either order. |
| DdzClassify.JudgeThreeOne | src/app/game/Core.ts:52-65 | Decides IsThreeOne. A four-card array is left sorted. |
| DdzClassify.ThreeOneIff | src/app/game/Core.ts:52-65 | Three with one holds iff the hand has four cards and one value appears three times. |
| DdzClassify.JudgeThreeTwo | src/app/game/Core.ts:67-80 | True iff: five cards; some value three times; and either some value twice or each joker once. |
| DdzClassify.JudgeFourTwo | src/app/game/Core.ts:98-108 | True iff six cards and some value four times. |
| DdzClassify.JudgeStraight | src/app/game/Core.ts:82-96 | Decides IsStraight: five or more cards, no Two or joker, and the sorted cards rise by one at every step. The array is sorted only when the loop is reached. |
| DdzClassify.StraightIsRun | src/app/game/Core.ts:82-96 | A straight is consecutive ranks starting from its lowest card. No rank repeats and none is above the Ace. |
| DdzClassify.JudgeConsecutivePairs | src/app/game/Core.ts:110-127 | Decides IsPairSequence: an even count of six or more, no Two or joker, and sorted equal pairs each one above the last. |
| DdzClassify.JudgePlane | src/app/game/Core.ts:129-147 | Decides IsPlane: a multiple of three, six or more, no Two or joker, and sorted equal triples each one above the last. |
| DdzClassify.WalkCountMap | src/app/game/Core.ts:159-173 | After the count-map walk: `mains` has one entry per value held three or four times; `remains` plus three per main accounts for every card; the distinct `remains` are the values not held exactly three times. |
| DdzClassify.WalkCoversHand | src/app/game/Core.ts:159-173 | Once every key of the hand is walked, there is one main per value held three or four times, the leftovers hold exactly the values not held three times, and three cards per main plus the leftovers make up the whole hand. |
| DdzClassify.JudgePlaneWithWings | src/app/game/Core.ts:149-180 | Decides IsPlaneWithWings: eight or more cards, divisible by 4 or 5. The divisible-by-4 test, tried first, is 4 × #mains = #cards. Otherwise #mains = #distinct leftover values. Consecutiveness is not checked. |
| DdzClassify.CardTypeOf | src/app/game/Core.ts:182-210 | The first pattern that matches, in the source's order. It is never AirplaneWithTwo or FourWithOne, and it is Single iff the hand has one card. |
| DdzClassify.JudgeCardType | src/app/game/Core.ts:182-210 | Returns CardTypeOf of the original cards. The array is left sorted iff one of the sorting judges was reached, and is unchanged otherwise. |
| DdzClassify.JudgesInvariant | src/app/game/Core.ts:23-180 | Every judge's verdict depends only on the multiset of cards. |
| DdzClassify.CardTypePermutation | src/app/game/Core.ts:182-210 | The type of a hand does not depend on the order of its cards. |
| DdzClassify.TwoCardTypes | src/app/game/Core.ts:182-210 | Two cards are a rocket iff they are the jokers, a pair iff equal, and invalid otherwise. |
| DdzClassify.ThreeCardTypes | src/app/game/Core.ts:182-210 | Three cards are a triple iff all are equal, and invalid otherwise. |
| DdzClassify.FourCardTypes | src/app/game/Core.ts:182-210 | Four cards are a bomb iff all are equal, three with one iff some value appears three times, and invalid otherwise. |
| DdzClassify.FiveCardTypes | src/app/game/Core.ts:182-210 | Five cards are three with two, else a straight, else invalid. |
| DdzClassify.SixCardTypes | src/app/game/Core.ts:182-210 | Six cards are tried as plane, four with two, pair sequence, then straight; otherwise invalid. |
| DdzClassify.ThreeThreesAndFour | src/app/game/Core.ts:52-65 | 3 3 3 4 is three with one. |
| DdzClassify.FourAcesBomb | src/app/game/Core.ts:45-50 | Four Aces are a bomb. |
| DdzClassify.TwoAndJokersInvalid | src/app/game/Core.ts:182-210 | A Two with both jokers is invalid. |
| DdzClassify.SevensToNinesPairSequence | src/app/game/Core.ts:110-127 | 77 88 99, in any order, is a pair sequence. |
| DdzClassify.OddPairSequenceInvalid | src/app/game/Core.ts:110-127 | 77 88 9 is invalid. |
| DdzClassify.PlaneWithTwoSingles | src/app/game/Core.ts:149-180 | 333 444 5 6 is a plane with wings. |
| DdzClassify.TwoFoursArePlaneWithWings | src/app/game/Core.ts:160-164 | 3333 4444 passes as a plane with wings, because each four counts as a main plus a leftover. |
| DdzClassify.GappedPlaneWithWings | src/app/game/Core.ts:174-179 | 333 555 7 8 passes as a plane with wings, although the mains are not consecutive. |
| DdzCompare.CompareBombs | src/app/game/Core.ts:260-267 | Throws iff either hand is not four cards. Otherwise the hands rank by their first cards. |
| DdzCompare.CompareSingles | src/app/game/Core.ts:390-396 | Throws iff either hand is not one card. Otherwise the hands rank by their cards. |
| DdzCompare.CompareStraights | src/app/game/Core.ts:327-336 | Throws iff the lengths differ. Otherwise the hands rank by their lowest sorted cards. |
| DdzCompare.GetMains | src/app/game/Core.ts:406-414 | The main values are the count-map keys held three times, in key order. |
| DdzCompare.GetFour | src/app/game/Core.ts:416-423 | Four copies of the first key held four times, as a string, or empty if there is none. |
| DdzCompare.GetThree | src/app/game/Core.ts:425-432 | Three copies of the first key held three times, as a string, or empty if there is none. |
| DdzCompare.GetPair | src/app/game/Core.ts:434-441 | Two copies of the first key held twice, as a string, or empty if there is none. |
| DdzCompare.PlanesVerdict | src/app/game/Core.ts:269-291 | Throws iff the two hands' main counts differ. It is 0 iff the mains are equal. |
| DdzCompare.ComparePlanes | src/app/game/Core.ts:269-291 | The loop computes PlanesVerdict. |
| DdzCompare.FirstDiffDecides | src/app/game/Core.ts:283-290 | A nonzero result of the pairwise loop comes from the first position where the two sequences differ, and its sign follows the strength of the two cards there. |
| DdzCompare.PlanesRank | src/app/game/Core.ts:269-291 | Two planes of one type (with or without wings) rank by their mains, which are ascending. Different main counts throw, equal mains tie, and otherwise the lowest main where the hands differ decides. |
| DdzCompare.PlaneMains | src/app/game/Core.ts:406-414 | The mains of a plane without wings are its triples, from the lowest up. |
| DdzCompare.AirplanesRank | src/app/game/Core.ts:269-291 | Planes without wings of one length rank by their lowest cards. Planes of different lengths throw. |
| DdzCompare.CompareInOrder | src/app/game/Core.ts:283-290 | The loop returns the first nonzero compareCards result, or 0 when the sequences are equal. |
| DdzCompare.PairSequencesVerdict | src/app/game/Core.ts:338-354 | Throws iff the lengths differ. |
| DdzCompare.ComparePairSequences | src/app/game/Core.ts:338-354 | The loop computes PairSequencesVerdict. |
| DdzCompare.CompareEverySecond | src/app/game/Core.ts:346-353 | Compares pair by pair from the bottom. The first nonzero result decides, and the result is 0 iff every pair agrees. |
| DdzCompare.GroupsVerdict | src/app/game/Core.ts:293-388 | A group comparator throws iff either hand has no group of its size. |
| DdzCompare.CompareFourWithWings | src/app/game/Core.ts:293-308 | Compares the fours with the getFour keys. |
| DdzCompare.CompareThreeWithWings | src/app/game/Core.ts:310-325 | Compares the threes with the getThree keys. |
| DdzCompare.CompareThrees | src/app/game/Core.ts:356-371 | Compares the threes with the getThree keys. |
| DdzCompare.ComparePairs | src/app/game/Core.ts:373-388 | Compares the pairs with the getPair keys. |
| DdzCompare.ByTypeVerdict | src/app/game/Core.ts:225-258 | Dispatch by type. Rocket and the default case give 0, and the dispatch never gives the "Invalid hands" error. |
| DdzCompare.CompareHandsByType | src/app/game/Core.ts:225-258 | The switch computes ByTypeVerdict with string keys. |
| DdzCompare.HandsVerdict | src/app/game/Core.ts:447-473 | Throws "Invalid hands" iff either hand is invalid. |
| DdzCompare.CompareHands | src/app/game/Core.ts:447-473 | Returns HandsVerdict of the original cards. Each array is left as judgeCardType leaves it. |
| DdzCompare.RocketWins | src/app/game/Core.ts:459-464 | A rocket beats any other valid hand (+1 / −1). |
| DdzCompare.RocketsTie | src/app/game/Core.ts:231-232 | Rocket against rocket is 0. |
| DdzCompare.BombWins | src/app/game/Core.ts:465-470 | A bomb beats any valid hand except a rocket or a bomb (+1 / −1). |
| DdzCompare.MismatchTies | src/app/game/Core.ts:472 | Two different types, neither a rocket nor a bomb, compare as 0. |
| DdzCompare.OnlyRocketOrBombBeatsOtherTypes | src/app/game/Core.ts:455-472 | A hand wins against a different type only as a rocket, or as a bomb against a non-rocket. |
| DdzCompare.CompareHandsAntisymmetric | src/app/game/Core.ts:447-473 | Swapping the hands negates the verdict, and errors stay errors. |
| DdzCompare.SameTypeAntisymmetric | src/app/game/Core.ts:225-258 | Two valid hands of the same type: swapping them negates the verdict. |
| DdzCompare.CompareSelf | src/app/game/Core.ts:447-473 | Every valid hand ties with itself. |
| DdzCompare.SinglesRank | src/app/game/Core.ts:390-396 | Two singles rank by card strength. |
| DdzCompare.BombsRank | src/app/game/Core.ts:260-267 | Two bombs rank by card strength. |
| DdzCompare.StraightsRank | src/app/game/Core.ts:327-336 | Straights of one length rank by their lowest cards. Straights of different lengths throw. |
| DdzCompare.PairSequencesRank | src/app/game/Core.ts:338-354 | Pair sequences of one length rank by their lowest pairs. Different lengths throw. |
| DdzCompare.SameLengthPairSequencesRank | src/app/game/Core.ts:338-354 | Sorted pair sequences of one length never throw, and rank by their lowest pairs. |
| DdzCompare.RunsLeftSorted | src/app/game/Core.ts:182-210 | Straights, pair sequences and planes come out of judgeCardType sorted. |
| DdzCompare.GroupsRankAsWritten | src/app/game/Core.ts:416-441 | As written, pairs, threes, three-with-wings and four-with-two rank by the string order of their group values' keys. |
| DdzCompare.GroupsRankNumerically | src/app/game/Core.ts:293-388 | With numeric keys, those hands rank by the strength of their group values. |
| DdzCompare.KeyOrderAgrees | src/app/game/Core.ts:212-223 | The string order of two keys agrees with card strength unless exactly one of the two ranks is 10 or above. |
| DdzCompare.TenPairLosesToNinePair | src/app/game/Core.ts:373-388 | As written, a pair of 10s loses to a pair of 9s. With numeric keys it wins. |
| DdzCompare.ThreeWithOneLoses | src/app/game/Core.ts:310-325 | 333+4 loses to 555+6. |
| DdzDeck.StandardDeck | src/app/game/Core.ts:475-499 | The deck has 54 cards. |
| DdzDeck.StandardDeckAt | src/app/game/Core.ts:475-499 | Card k is suit k/13 at rank k%13+3 for k < 52; then w1, then w2, both without a suit. |
| DdzDeck.StandardDeckComplete | src/app/game/Core.ts:475-499 | Every suited rank card and every unsuited joker is in the deck. |
| DdzDeck.StandardDeckDistinct | src/app/game/Core.ts:475-499 | No card appears twice. |
| DdzDeck.GenerateDeck | src/app/game/Core.ts:475-499 | The loops build StandardDeck. |
| DdzDeck.PushSuit | src/app/game/Core.ts:483-492 | One pass of the value loop appends the suit's thirteen cards, 3 up to the Two. |
| DdzDeck.ShuffleDeck | src/app/game/Core.ts:506-512 | The in-place Fisher–Yates loop leaves the array equal to Shuffled of its old contents, and returns the same array. |
| DdzDeck.ShufflePermutes | src/app/game/Core.ts:506-512 | A shuffle is a permutation. |
| DdzDeck.DealCards | src/app/game/Core.ts:515-538 | Positions [0,17), [17,34) and [34,51) go to the three players, each sorted by compareFn. The rest is the unsorted bottom. |
| DdzDeck.DealPartitions | src/app/game/Core.ts:515-538 | The three hands and the bottom together are a permutation of the deck. |
| DdzDeck.DealSizes | src/app/game/Core.ts:515-538 | From 54 cards, the hands get 17, 17 and 17 cards, each sorted by value, and the bottom gets 3. |
| DdzDeck.DealOfShuffledDeck | src/app/game/Core.ts:506-538 | Dealing a shuffled standard deck hands out exactly the standard deck. |
| TurnQueue.SomeActiveIff | src/app/game/PlayerQueue.ts:30-37 | The search for an active player ends within one lap iff some player is active. |
| TurnQueue.PlayerQueue.constructor | src/app/game/PlayerQueue.ts:14-23 | The queue copies the players, the cursor starts at 0, and every player is ACTIVE. |
| TurnQueue.PlayerQueue.CurrentPlayer | src/app/game/PlayerQueue.ts:69-71 | The player at the cursor, read without any change. |
| TurnQueue.PlayerQueue.IsEmpty | src/app/game/PlayerQueue.ts:62-66 | True iff every player is SKIPPED, which is also when the search would find nobody. |
| TurnQueue.PlayerQueue.GetNextPlayer | src/app/game/PlayerQueue.ts:26-44 | Returns the first non-SKIPPED player at or after the cursor, circularly, and leaves the cursor just past that player. It never returns a SKIPPED player, and the queue and statuses do not change. |
| TurnQueue.PlayerQueue.SkipCurrentPlayer | src/app/game/PlayerQueue.ts:47-51 | Marks the player at the cursor SKIPPED; the cursor and queue stay. |
| TurnQueue.PlayerQueue.ResetPlayerStatus | src/app/game/PlayerQueue.ts:54-59 | Every player becomes ACTIVE, the cursor stays, and the queue is empty only if there are no players. |
| GameMachine.FirstFiring | src/app/game/GameMachine.ts:66-74 | The target of the first transition whose guard holds, or none if no guard holds. |
| GameMachine.FirstFiringConcat | src/app/game/GameMachine.ts:53-62 | Transitions added later fire only when no earlier guard holds. |
| GameMachine.StateMachine.constructor | src/app/game/GameMachine.ts:35-39 | Starts in the initial state with no pending state, empty tables and no handler call. |
| GameMachine.StateMachine.AddState | src/app/game/GameMachine.ts:41-51 | Registers the handler. It runs the handler at once (with null input) iff `immediate` is set and the state is the current one. |
| GameMachine.StateMachine.AddTransition | src/app/game/GameMachine.ts:53-62 | Appends to the state's transition list, so earlier transitions keep priority. |
| GameMachine.StateMachine.Update | src/app/game/GameMachine.ts:64-81 | At most one transition fires, the first whose guard holds. Its target's handler, if any, runs once while the old state is still current. Then the target becomes current. If no guard holds, nothing changes. |
| GameMachine.StateMachine.TransitionTo | src/app/game/GameMachine.ts:83-86 | Records the pending state only. |
| GameMachine.StateMachine.HandleState | src/app/game/GameMachine.ts:88-95 | Runs the registered handler, if any, and sets the current state in either case. |
| GameMachine.StateMachine.GetCurrentState | src/app/game/GameMachine.ts:97-99 | The current state. |
| Events.Without | src/app/utils/EventManager.ts:25-27 | The filter drops every occurrence of the listener and keeps all others with their counts. |
| Events.WithoutConcat | src/app/utils/EventManager.ts:25-27 | The filter keeps order: filtering a concatenation filters each part. |
| Events.WithoutAbsent | src/app/utils/EventManager.ts:23-29 | Removing an absent listener changes nothing. |
| Events.WithoutIdempotent | src/app/utils/EventManager.ts:23-29 | Removing twice is removing once. |
| Events.OnThenOff | src/app/utils/EventManager.ts:10-29 | Adding then removing a listener leaves the list as removing it alone would. |
| Events.Deliveries | src/app/utils/EventManager.ts:17-21 | One call per listener, in registration order, with the given data. |
| Events.EventManager.constructor | src/app/utils/EventManager.ts:6-8 | No events are registered, and no inherited member name is a key. |
| Events.EventManager.On | src/app/utils/EventManager.ts:5-15 | Throws iff the name is an `Object.prototype` member, then changes nothing. Otherwise appends the listener to the event's list, creating the list if needed. Other events are untouched. |
| Events.EventManager.Emit | src/app/utils/EventManager.ts:17-21 | Throws iff the name is an `Object.prototype` member, before calling anyone. Otherwise calls the event's listeners once each, in order. For an unknown event it calls nobody. |
| Events.EventManager.Off | src/app/utils/EventManager.ts:23-29 | Throws iff the name is an `Object.prototype` member, then changes nothing. Otherwise filters the listener out of a known event's list. An unknown event is untouched. |
| UnoCards.CreateDeck | src/app/game/UnoGame.ts:22-58 | The deck is the creation-order faces, each card numbered by its position. |
| UnoCards.PushColor | src/app/game/UnoGame.ts:42-48 | One colour's pass appends one 0 and two of each other value. |
| UnoCards.DeckSize | src/app/game/UnoGame.ts:22-58 | The created deck has 108 cards. |
| UnoCards.DeckComposition | src/app/game/UnoGame.ts:22-58 | Per colour: one 0 and two of each of the other twelve values. Also 4 Wild and 4 DrawFour, all Black, and nothing else. |
| UnoCards.BlackIffWild | src/app/game/UnoGame.ts:51-55 | A created card is Black iff it is Wild or DrawFour. |
| UnoCards.NumberedDistinct | src/app/game/UnoGame.ts:43-54 | The created cards are pairwise distinct objects. |
| Uno.IndexOf | src/app/game/Player.ts:20 | indexOf: the first position of the card, or −1 iff it is absent. |
| Uno.RemoveFirst | src/app/game/Player.ts:20-23 | splice at indexOf removes exactly the first occurrence. |
| Uno.DrawnConserves | src/app/game/Player.ts:12-16 | A draw moves the pile's last card to the end of the hand iff the pile is non-empty. Card counts are preserved. |
| Uno.DrawConserves | src/app/game/Player.ts:12-16 | One draw by any seated player neither creates nor loses a card on the table. |
| Uno.Advance | src/app/game/UnoGame.ts:84-88 | nextPlayer moves one seat in the direction, wrapping at both ends, and stays in range. |
| Uno.AdvanceBack | src/app/game/UnoGame.ts:84-88 | Advancing with the direction reversed undoes an advance. |
| Uno.DrawMoves | src/app/game/Player.ts:12-16 | A player's draw changes only that hand and the pile, and conserves the cards on the table. |
| Uno.EffectConserves | src/app/game/UnoGame.ts:118-142 | No effect creates or loses a card. |
| Uno.PenaltyTakes | src/app/game/UnoGame.ts:126-137 | With enough cards, a penalty of n moves the pile's last n cards to the hand. |
| Uno.PenaltyOthers | src/app/game/UnoGame.ts:126-137 | A penalty touches no other hand. |
| Uno.DrawFourSplit | src/app/game/UnoGame.ts:131-136 | Four single draws are two penalties of two, which are one penalty of four. |
| Uno.PlayConserves | src/app/game/UnoGame.ts:99-103 | Playing a held card moves it from the hand to the discard pile and conserves the cards on the table. |
| Uno.RehandAt | src/app/game/Player.ts:18-26 | With no player seated twice, changing one player's hand changes only their seat's hand. |
| Uno.SeatedPlayConserves | src/app/game/UnoGame.ts:99-108 | When a seated player plays a held card, the table keeps its cards. |
| Uno.PlayableOnBlack | src/app/game/UnoGame.ts:90-97 | A Black card is always playable. On a Black top, only Black cards are playable. |
| Uno.FirstEmpty | src/app/game/UnoGame.ts:154-158 | The first seat with an empty hand, or none. |
| Uno.SomeEmpty | src/app/game/UnoGame.ts:144-147 | Some hand is empty iff FirstEmpty finds a seat. |
| Uno.DealTakes | src/app/game/UnoGame.ts:67-73 | With enough cards, n rounds give every player n cards from the pile's end. |
| Uno.DealConserves | src/app/game/UnoGame.ts:67-73 | Dealing conserves the cards on the table. |
| Uno.BeginConserves | src/app/game/UnoGame.ts:75-78 | Turning up the first discard moves one card from the pile. |
| Uno.InitialDeal | src/app/game/UnoGame.ts:11-20 | A new game holds the 108 created cards plus earlier hands. With at most 15 players, each gets seven cards, one card is face up and the rest are in the pile. |
| Uno.DrawPenaltyHitsPlayer | src/app/game/UnoGame.ts:126-136 | As written, a DrawTwo or DrawFour makes the player who played it draw two or four, and no other hand changes. With two players, that player moves again. |
| Uno.DrawPenaltyHitsNext | src/app/game/UnoGame.ts:126-136 | As intended, the next player draws two or four and is passed over, the player who played keeps their hand, and the cards are conserved. |
| Uno.IntendedPenaltyConserves | src/app/game/UnoGame.ts:126-136 | Under the intended rule, a DrawTwo or DrawFour neither makes nor loses a card. |
| Uno.Player.constructor | src/app/game/Player.ts:7-10 | A new player has an empty hand. |
| Uno.Player.DrawCard | src/app/game/Player.ts:12-16 | Pops the pile's last card onto the hand. Nothing changes on an empty pile. |
| Uno.Player.PlayCard | src/app/game/Player.ts:18-26 | True iff the card is held. Then exactly its first occurrence is removed; otherwise the hand is unchanged. |
| Uno.Player.HasUno | src/app/game/Player.ts:28-30 | True iff exactly one card is held. |
| Uno.Player.GetHand | src/app/game/Player.ts:32-34 | The hand. |
| Uno.UnoGame.constructor | src/app/game/UnoGame.ts:11-20 | Sets up the table that Initial describes: created deck, shuffle, seven rounds, first discard, seat 0, clockwise. |
| Uno.UnoGame.ShuffleDeck | src/app/game/UnoGame.ts:60-65 | The pile becomes its Fisher–Yates shuffle under the picks. |
| Uno.UnoGame.DealCards | src/app/game/UnoGame.ts:67-73 | The table becomes Deal of seven rounds. |
| Uno.UnoGame.StartGame | src/app/game/UnoGame.ts:75-78 | The pile's last card moves onto the discard pile. |
| Uno.UnoGame.GetCurrentPlayer | src/app/game/UnoGame.ts:80-82 | The player at the turn index, whose hand is that seat's hand on the table. |
| Uno.UnoGame.NextPlayer | src/app/game/UnoGame.ts:84-88 | The index advances as Advance says, and nothing else changes. |
| Uno.UnoGame.CanPlayCard | src/app/game/UnoGame.ts:90-97 | True iff the card matches the top's colour or value, or is Black. |
| Uno.UnoGame.ApplyCardEffect | src/app/game/UnoGame.ts:118-142 | The table becomes Effect of the card's value. |
| Uno.UnoGame.DrawTwoCards | src/app/game/UnoGame.ts:127-128 | The player at the turn index draws two. |
| Uno.UnoGame.DrawFourCards | src/app/game/UnoGame.ts:131-135 | The four draws of a DrawFour are one penalty of four on the player at the turn index. |
| Uno.UnoGame.PlayCard | src/app/game/UnoGame.ts:99-116 | An unplayable or unheld card changes nothing. Otherwise the first occurrence leaves the hand, goes on the discard pile, its effect applies, and the turn advances once more. |
| Uno.UnoGame.PlayOut | src/app/game/UnoGame.ts:102-108 | A card already taken from the hand goes on the discard pile, its effect applies and the turn advances, as AfterPlay says. |
| Uno.UnoGame.IsGameOver | src/app/game/UnoGame.ts:144-152 | True iff some player's hand is empty. |
| Uno.UnoGame.GetWinner | src/app/game/UnoGame.ts:154-158 | The first player with an empty hand, or none iff the game is not over. |

## Left out

- TurnQueue.PlayerQueue.GetNextPlayer requires an active player whenever the queue is non-empty, because with every player SKIPPED the source's do-while loop never ends.
- TurnQueue.PlayerQueue.GetNextPlayer on an empty queue returns `None` and keeps the cursor at 0. The source first sets the cursor to NaN (`(0 + 1) % 0`) and then throws.
- TurnQueue.PlayerQueue.SkipCurrentPlayer on an empty queue changes nothing. The source records SKIPPED for `undefined`, and its log line then fails.
- Console logging in PlayerQueue, StateMachine, UnoGame and Player is not modelled.
- DdzCards.LexCompare orders strings by code point in place of the locale collation of `localeCompare`, which cannot be modelled. It matters only for count-map keys, which are decimal digits or `w1`/`w2`.
- DdzCards.InKeyOrder puts `w1` before `w2`. JavaScript orders integer-like keys ascending and then string keys by insertion, so a hand that meets `w2` first walks them the other way. The only result that could depend on this is which key `getFour`/`getThree`/`getPair` find first, and a judged hand has at most one value of a given group size.
- DdzDeck.ShuffleDeck and Uno.UnoGame.ShuffleDeck take the random choices as a `picks` parameter instead of calling `Math.random`. Uniformity is not modelled.
- DdzDeck: the `CardColor`, `CardModel`, `NormalCard` and `SpecialCard` declarations imported by Core.ts are not part of this model. The suits are four colours plus None for jokers, and the values are J..Two = 11..15, `w1` and `w2`. The 54-card deck assumes `CardColor` is a string-valued enum, so that `Object.values(CardColor)` (Core.ts:478-480) yields exactly those five colours. For a numeric enum it would also yield the member names, and the deck would be larger.
- DdzCompare.CompareHands: both arrays are left as `judgeCardType` leaves them. The later in-place sorts in `compareStraights`/`comparePairSequences` reach only hands that are already sorted, so they change nothing.
- DdzCompare.ComparePairSequences and DdzCompare.ComparePlanes take the hands as values. Their own sorts are in-place sorts of fresh arrays or of already sorted hands.
- GameMachine.StateMachine: handlers and guards are opaque values. A handler call is appended to the `handled` log and cannot call back into the machine. Guards are pure functions of the input.
- Events.EventManager.Emit: listeners are opaque identities whose calls are appended to a log. A listener that calls `on`/`off` on the same event while it is being emitted is not modelled.
- Uno.UnoGame.constructor requires at least one player and no player seated twice. With no players, the source's `nextPlayer` computes `% 0`.
- Uno.UnoGame.StartGame on an empty pile leaves the table unchanged. The source pushes `undefined` onto the discard pile, but that cannot happen after a deal to at most 15 players.
- Uno.UnoGame.CanPlayCard requires a non-empty discard pile. The source reads `.color` of `undefined` and throws.
- Uno.UnoGame.PlayCard requires a non-empty discard pile for the same reason: `playCard` reaches that throw through its call of `canPlayCard` (UnoGame.ts:100).
- Uno.Player.PlayCard finds the card by value. Each created card carries its creation index, so value equality is the object identity the source uses.
- UnoGame's own listener registry and its `uno`, `nextPlayer` and `gameOver` events (UnoGame.ts:104-109, 149, 161-175) are not modelled.
- Choosing a colour for Wild and DrawFour is not implemented in the source, and the model does the same.
- The GameManager and MainScreen classes (pixi sprites, tweens, timers, audio) are not part of this model.

## Findings

| source | as written | input that shows it | evidently intended | confidence | as-written member | corrected member |
|---|---|---|---|---|---|---|
| src/app/game/Core.ts:416-441 | `getFour`/`getThree`/`getPair` return the count-map key, a string, so `compareCards` ranks groups with `localeCompare` | a pair of 10s against a pair of 9s: "10" < "9", so the 10s lose (also J = "11" loses to 9) | groups rank by the numeric value of the card | high; not executed | DdzCompare.TenPairLosesToNinePair | DdzCompare.GroupsRankNumerically |
| src/app/game/UnoGame.ts:126-136 | DrawTwo/DrawFour make `getCurrentPlayer()` draw before `nextPlayer`, so the player who played the card draws | two players, seat 0 plays a DrawTwo (or DrawFour): seat 0 draws two (or four) and has the turn again | the next player draws and loses the turn | high; not executed | Uno.DrawPenaltyHitsPlayer | Uno.DrawPenaltyHitsNext |
