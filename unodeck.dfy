/**
 * UNO cards and the 108-card deck `createDeck` builds: per colour one 0 and
 * two of each of 1-9, Skip, Reverse and DrawTwo, then four Wild and four
 * DrawFour, all Black.
 *
 * Cards are objects compared by identity; the model gives each created card a
 * serial number, its position in creation order, so equal faces stay distinct
 * cards.
 */
module UnoCards {

  datatype UnoColor = Red | Yellow | Green | Blue | Black

  type Digit = n: nat | n <= 9

  datatype UnoValue = Number(n: Digit) | Skip | Reverse | DrawTwo | Wild | DrawFour

  datatype Face = Face(color: UnoColor, value: UnoValue)

  datatype UnoCard = UnoCard(serial: nat, color: UnoColor, value: UnoValue)

  const Colors: seq<UnoColor> := [Red, Yellow, Green, Blue]

  const Values: seq<UnoValue> :=
    [Number(0), Number(1), Number(2), Number(3), Number(4), Number(5), Number(6),
     Number(7), Number(8), Number(9), Skip, Reverse, DrawTwo]

  /** The copies of one coloured value: a single 0, two of everything else. */
  function Copies(c: UnoColor, v: UnoValue): (r: seq<Face>)
    ensures |r| == (if v == Number(0) then 1 else 2)
    ensures forall f :: f in r <==> f == Face(c, v)
  {
    if v == Number(0) then [Face(c, v)] else [Face(c, v), Face(c, v)]
  }

  /** The faces the inner loop produces for colour `c` over the values `vs`. */
  function ColorFaces(c: UnoColor, vs: seq<UnoValue>): seq<Face>
    decreases |vs|
  {
    if vs == [] then [] else ColorFaces(c, vs[..|vs| - 1]) + Copies(c, vs[|vs| - 1])
  }

  /** The faces the nested loops produce for the colours `cs`. */
  function AllColorFaces(cs: seq<UnoColor>): seq<Face>
    decreases |cs|
  {
    if cs == [] then [] else AllColorFaces(cs[..|cs| - 1]) + ColorFaces(cs[|cs| - 1], Values)
  }

  /** The faces of the first `k` rounds of the Black loop: Wild, DrawFour, Wild, ... */
  function BlackFaces(k: nat): seq<Face> {
    if k == 0 then [] else BlackFaces(k - 1) + [Face(Black, Wild), Face(Black, DrawFour)]
  }

  /** The faces of the created deck, in creation order. */
  function DeckFaces(): seq<Face> {
    AllColorFaces(Colors) + BlackFaces(4)
  }

  /** `deck` is the cards with `faces`, each numbered by its position. */
  ghost predicate Numbered(deck: seq<UnoCard>, faces: seq<Face>) {
    |deck| == |faces| && forall i :: 0 <= i < |deck| ==> deck[i] == UnoCard(i, faces[i].color, faces[i].value)
  }

  /** How often `createDeck` produces face `f`. */
  function FaceCount(f: Face): nat {
    if f.value == Wild || f.value == DrawFour then (if f.color == Black then 4 else 0)
    else if f.color == Black then 0
    else if f.value == Number(0) then 1
    else 2
  }

  lemma ColorsFacts()
    ensures forall i, j :: 0 <= i < j < |Colors| ==> Colors[i] != Colors[j]
    ensures forall c :: c in Colors <==> c != Black
  {
  }

  lemma ValuesDistinct()
    ensures forall i, j :: 0 <= i < j < |Values| ==> Values[i] != Values[j]
  {
  }

  /** Every coloured value (anything but Wild and DrawFour) is in the value list. */
  lemma InValues(v: UnoValue)
    ensures v in Values <==> !(v == Wild || v == DrawFour)
  {
    if v.Number? {
      assert Values[v.n] == v;
    } else if v == Skip {
      assert Values[10] == v;
    } else if v == Reverse {
      assert Values[11] == v;
    } else if v == DrawTwo {
      assert Values[12] == v;
    }
  }

  lemma {:induction false} ColorFacesCount(c: UnoColor, vs: seq<UnoValue>, f: Face)
    requires forall i, j :: 0 <= i < j < |vs| ==> vs[i] != vs[j]
    ensures multiset(ColorFaces(c, vs))[f]
      == if f.color == c && f.value in vs then (if f.value == Number(0) then 1 else 2) else 0
    decreases |vs|
  {
    if vs != [] {
      var init, last := vs[..|vs| - 1], vs[|vs| - 1];
      assert vs == init + [last];
      assert f.value in vs <==> f.value in init || f.value == last;
      ColorFacesCount(c, init, f);
      CopiesCount(c, last, f);
      assert multiset(ColorFaces(c, vs)) == multiset(ColorFaces(c, init)) + multiset(Copies(c, last));
      if f == Face(c, last) {
        assert last !in init;
      }
    }
  }

  /** How often the copies of one coloured value hold face `f`. */
  lemma CopiesCount(c: UnoColor, v: UnoValue, f: Face)
    ensures multiset(Copies(c, v))[f] == if f == Face(c, v) then (if v == Number(0) then 1 else 2) else 0
  {
    if v == Number(0) {
      assert Copies(c, v) == [Face(c, v)];
    } else {
      assert Copies(c, v) == [Face(c, v), Face(c, v)];
    }
  }

  lemma {:induction false} ColorFacesLength(c: UnoColor, vs: seq<UnoValue>)
    requires forall i, j :: 0 <= i < j < |vs| ==> vs[i] != vs[j]
    ensures |ColorFaces(c, vs)| == 2 * |vs| - (if Number(0) in vs then 1 else 0)
    decreases |vs|
  {
    if vs != [] {
      var init := vs[..|vs| - 1];
      ColorFacesLength(c, init);
      assert vs == init + [vs[|vs| - 1]];
    }
  }

  lemma {:induction false} AllColorFacesCount(cs: seq<UnoColor>, f: Face)
    requires forall i, j :: 0 <= i < j < |cs| ==> cs[i] != cs[j]
    ensures multiset(AllColorFaces(cs))[f]
      == if f.color in cs && f.value in Values then (if f.value == Number(0) then 1 else 2) else 0
    decreases |cs|
  {
    if cs != [] {
      var init, last := cs[..|cs| - 1], cs[|cs| - 1];
      assert cs == init + [last];
      AllColorFacesCount(init, f);
      ValuesDistinct();
      ColorFacesCount(last, Values, f);
      if f.color == last {
        assert last !in init;
      }
    }
  }

  lemma {:induction false} AllColorFacesLength(cs: seq<UnoColor>)
    ensures |AllColorFaces(cs)| == 25 * |cs|
    decreases |cs|
  {
    if cs != [] {
      AllColorFacesLength(cs[..|cs| - 1]);
      ValuesDistinct();
      ColorFacesLength(cs[|cs| - 1], Values);
      assert Values[0] == Number(0);
    }
  }

  lemma {:induction false} BlackFacesCount(k: nat, f: Face)
    ensures multiset(BlackFaces(k))[f] == if f == Face(Black, Wild) || f == Face(Black, DrawFour) then k else 0
    ensures |BlackFaces(k)| == 2 * k
  {
    if k > 0 {
      BlackFacesCount(k - 1, f);
    }
  }

  /** The deck has 108 cards: 25 per colour and 8 Black ones. */
  lemma DeckSize()
    ensures |DeckFaces()| == 108
  {
    AllColorFacesLength(Colors);
    BlackFacesCount(4, Face(Black, Wild));
  }

  /** Each face occurs exactly as often as the UNO rules of `createDeck` say. */
  lemma DeckComposition(f: Face)
    ensures multiset(DeckFaces())[f] == FaceCount(f)
  {
    assert multiset(DeckFaces())[f] == multiset(AllColorFaces(Colors))[f] + multiset(BlackFaces(4))[f];
    ColorsFacts();
    AllColorFacesCount(Colors, f);
    BlackFacesCount(4, f);
    InValues(f.value);
  }

  /** Wild and DrawFour are exactly the Black cards of the deck. */
  lemma BlackIffWild(f: Face)
    requires f in DeckFaces()
    ensures f.color == Black <==> (f.value == Wild || f.value == DrawFour)
  {
    DeckComposition(f);
    assert multiset(DeckFaces())[f] > 0;
  }

  lemma ColorFacesSnoc(c: UnoColor, vs: seq<UnoValue>, k: nat)
    requires k < |vs|
    ensures ColorFaces(c, vs[..k + 1]) == ColorFaces(c, vs[..k]) + Copies(c, vs[k])
  {
    assert vs[..k + 1][..k] == vs[..k];
  }

  /** Pushing a card numbered by its position keeps the numbering. */
  lemma NumberedSnoc(deck: seq<UnoCard>, faces: seq<Face>, f: Face)
    requires Numbered(deck, faces)
    ensures Numbered(deck + [UnoCard(|deck|, f.color, f.value)], faces + [f])
  {
  }

  /** createDeck: the four colours in order, each over the thirteen values, then four Wild/DrawFour pairs. */
  method CreateDeck() returns (deck: seq<UnoCard>)
    ensures Numbered(deck, DeckFaces())
  {
    deck := [];
    ghost var faces: seq<Face> := [];
    for ci := 0 to |Colors|
      invariant faces == AllColorFaces(Colors[..ci])
      invariant Numbered(deck, faces)
    {
      assert Colors[..ci + 1][..ci] == Colors[..ci];
      deck := PushColor(deck, faces, Colors[ci]);
      faces := faces + ColorFaces(Colors[ci], Values);
    }
    assert Colors[..|Colors|] == Colors;
    for i := 0 to 4
      invariant faces == AllColorFaces(Colors) + BlackFaces(i)
      invariant Numbered(deck, faces)
    {
      NumberedSnoc(deck, faces, Face(Black, Wild));
      deck := deck + [UnoCard(|deck|, Black, Wild)];
      faces := faces + [Face(Black, Wild)];
      NumberedSnoc(deck, faces, Face(Black, DrawFour));
      deck := deck + [UnoCard(|deck|, Black, DrawFour)];
      faces := faces + [Face(Black, DrawFour)];
    }
  }

  /** The inner loop of createDeck for one colour: each value once, and once more unless it is 0. */
  method PushColor(deck: seq<UnoCard>, ghost faces: seq<Face>, color: UnoColor) returns (r: seq<UnoCard>)
    requires Numbered(deck, faces)
    ensures Numbered(r, faces + ColorFaces(color, Values))
  {
    r := deck;
    for vi := 0 to |Values|
      invariant Numbered(r, faces + ColorFaces(color, Values[..vi]))
    {
      var value := Values[vi];
      PushValueStep(r, faces, color, Values, vi);
      r := r + [UnoCard(|r|, color, value)];
      if value != Number(0) {
        r := r + [UnoCard(|r|, color, value)];
      }
    }
    assert Values[..|Values|] == Values;
  }

  /** One round of the inner loop: the value's copies are pushed, each numbered by its position. */
  lemma PushValueStep(r: seq<UnoCard>, faces: seq<Face>, c: UnoColor, vs: seq<UnoValue>, k: nat)
    requires k < |vs| && Numbered(r, faces + ColorFaces(c, vs[..k]))
    ensures var r1 := r + [UnoCard(|r|, c, vs[k])];
            Numbered(if vs[k] == Number(0) then r1 else r1 + [UnoCard(|r1|, c, vs[k])], faces + ColorFaces(c, vs[..k + 1]))
  {
    var f := Face(c, vs[k]);
    ColorFacesSnoc(c, vs, k);
    NumberedSnoc(r, faces + ColorFaces(c, vs[..k]), f);
    if vs[k] != Number(0) {
      NumberedSnoc(r + [UnoCard(|r|, c, vs[k])], faces + ColorFaces(c, vs[..k]) + [f], f);
      assert faces + ColorFaces(c, vs[..k + 1]) == faces + ColorFaces(c, vs[..k]) + [f] + [f];
    } else {
      assert faces + ColorFaces(c, vs[..k + 1]) == faces + ColorFaces(c, vs[..k]) + [f];
    }
  }

  /** The cards of a created deck are pairwise distinct (distinct serials). */
  lemma NumberedDistinct(deck: seq<UnoCard>, faces: seq<Face>)
    requires Numbered(deck, faces)
    ensures forall i, j :: 0 <= i < j < |deck| ==> deck[i] != deck[j]
  {
    forall i, j | 0 <= i < j < |deck| ensures deck[i] != deck[j] {
      assert deck[i].serial == i && deck[j].serial == j;
    }
  }
}
