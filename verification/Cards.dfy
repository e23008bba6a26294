/** Cards, the canonical 94-card deck and counting cards in a sequence. */
module Cards {
  import opened Numbers

  const ALPHA: Byte := 0
  const PROTOCOL: Byte := 1
  const MULTIPLIER: Byte := 2

  const RUG_PULL: Byte := 0
  const AIRDROP: Byte := 1
  const VAMPIRE_ATTACK: Byte := 2

  const DECK_SIZE := 94

  datatype Card = Card(value: Byte, cardType: Byte, suit: Byte)

  predicate IsAlpha(c: Card) {
    c.cardType == ALPHA
  }

  /** Recognises the Alpha cards of value `v`. */
  function AlphaOf(v: Byte): Card -> bool {
    (c: Card) => c.cardType == ALPHA && c.value == v
  }

  // ---------------------------------------------------------------------
  // Counting
  // ---------------------------------------------------------------------

  function CountIf<T>(s: seq<T>, p: T -> bool): nat {
    if s == [] then 0 else (if p(s[0]) then 1 else 0) + CountIf(s[1..], p)
  }

  lemma {:induction false} CountIfConcat<T>(a: seq<T>, b: seq<T>, p: T -> bool)
    ensures CountIf(a + b, p) == CountIf(a, p) + CountIf(b, p)
  {
    if a == [] {
      assert a + b == b;
    } else {
      CountIfConcat(a[1..], b, p);
      assert a + b == [a[0]] + (a[1..] + b);
    }
  }

  /** A subsequence (as a multiset) has at most as many cards of a kind. */
  lemma {:induction false} CountIfMonotone<T>(a: seq<T>, b: seq<T>, p: T -> bool)
    requires multiset(a) <= multiset(b)
    ensures CountIf(a, p) <= CountIf(b, p)
  {
    if a != [] {
      var x := a[0];
      assert x in multiset(a);
      var j :| 0 <= j < |b| && b[j] == x;
      var rest := b[..j] + b[j + 1..];
      assert b == b[..j] + [x] + b[j + 1..];
      assert a == [x] + a[1..];
      assert multiset(rest) == multiset(b) - multiset{x};
      CountIfMonotone(a[1..], rest, p);
      CountIfConcat(b[..j], b[j + 1..], p);
      CountIfConcat(b[..j] + [x], b[j + 1..], p);
      CountIfConcat(b[..j], [x], p);
    }
  }

  lemma CountIfPermuted<T>(a: seq<T>, b: seq<T>, p: T -> bool)
    requires multiset(a) == multiset(b)
    ensures CountIf(a, p) == CountIf(b, p)
  {
    CountIfMonotone(a, b, p);
    CountIfMonotone(b, a, p);
  }

  lemma {:induction false} CountIfNone<T>(s: seq<T>, p: T -> bool)
    requires forall i :: 0 <= i < |s| ==> !p(s[i])
    ensures CountIf(s, p) == 0
  {
    if s != [] { CountIfNone(s[1..], p); }
  }

  lemma {:induction false} CountIfAll<T>(s: seq<T>, p: T -> bool)
    requires forall i :: 0 <= i < |s| ==> p(s[i])
    ensures CountIf(s, p) == |s|
  {
    if s != [] { CountIfAll(s[1..], p); }
  }

  // ---------------------------------------------------------------------
  // The canonical deck
  // ---------------------------------------------------------------------

  const SUITS: seq<Byte> := [0, 1, 2, 3]
  const EFFECTS: seq<Byte> := [RUG_PULL, AIRDROP, VAMPIRE_ATTACK]
  const FACTORS: seq<Byte> := [2, 3, 5]

  /** The thirteen Alpha cards of a suit, by value. */
  function Suit(suit: Byte): (cards: seq<Card>) {
    seq(13, i requires 0 <= i < 13 => Card(i + 1, ALPHA, suit))
  }

  function Copies(c: Card, n: nat): (cards: seq<Card>) {
    seq(n, _ => c)
  }

  function Alphas(suits: seq<Byte>): (cards: seq<Card>)
    ensures |cards| == 13 * |suits|
  {
    if suits == [] then [] else Alphas(suits[..|suits| - 1]) + Suit(suits[|suits| - 1])
  }

  function Protocols(effects: seq<Byte>): (cards: seq<Card>)
    ensures |cards| == 10 * |effects|
  {
    if effects == [] then [] else
      Protocols(effects[..|effects| - 1]) + Copies(Card(effects[|effects| - 1], PROTOCOL, 0), 10)
  }

  function Multipliers(factors: seq<Byte>): (cards: seq<Card>)
    ensures |cards| == 4 * |factors|
  {
    if factors == [] then [] else
      Multipliers(factors[..|factors| - 1]) + Copies(Card(factors[|factors| - 1], MULTIPLIER, 0), 4)
  }

  /** 52 Alphas, 30 Protocol cards, 12 Multipliers, in the order all components agree on. */
  function CanonicalDeck(): (deck: seq<Card>)
    ensures |deck| == DECK_SIZE
  {
    Alphas(SUITS) + Protocols(EFFECTS) + Multipliers(FACTORS)
  }

  // ---------------------------------------------------------------------
  // The deck card by card
  // ---------------------------------------------------------------------

  lemma AlphasUnrolled()
    ensures Alphas(SUITS) == Suit(0) + Suit(1) + Suit(2) + Suit(3)
  {
    assert SUITS[..3] == [0, 1, 2] && [0 as Byte, 1, 2][..2] == [0, 1] && [0 as Byte, 1][..1] == [0] && [0 as Byte][..0] == [];
    assert Alphas([0]) == Suit(0);
    assert Alphas([0, 1]) == Suit(0) + Suit(1);
    assert Alphas([0, 1, 2]) == Suit(0) + Suit(1) + Suit(2);
  }

  lemma MultipliersUnrolled()
    ensures Multipliers(FACTORS)
         == Copies(Card(2, MULTIPLIER, 0), 4) + Copies(Card(3, MULTIPLIER, 0), 4) + Copies(Card(5, MULTIPLIER, 0), 4)
  {
    assert FACTORS[..2] == [2, 3] && [2 as Byte, 3][..1] == [2] && [2 as Byte][..0] == [];
    assert Multipliers([2]) == Copies(Card(2, MULTIPLIER, 0), 4);
    assert Multipliers([2, 3]) == Copies(Card(2, MULTIPLIER, 0), 4) + Copies(Card(3, MULTIPLIER, 0), 4);
  }

  lemma ProtocolsUnrolled()
    ensures Protocols(EFFECTS)
         == Copies(Card(0, PROTOCOL, 0), 10) + Copies(Card(1, PROTOCOL, 0), 10) + Copies(Card(2, PROTOCOL, 0), 10)
  {
    assert EFFECTS[..2] == [0, 1] && [0 as Byte, 1][..1] == [0] && [0 as Byte][..0] == [];
    assert Protocols([0]) == Copies(Card(0, PROTOCOL, 0), 10);
    assert Protocols([0, 1]) == Copies(Card(0, PROTOCOL, 0), 10) + Copies(Card(1, PROTOCOL, 0), 10);
  }

  /** The deck in bytes: thirteen values in each of four suits, ten of each protocol effect, four of each multiplier. */
  lemma DeckInBytes(i: nat)
    requires i < 94
    ensures CanonicalDeck()[i] ==
      if i < 52 then Card(i % 13 + 1, 0, i / 13)
      else if i < 62 then Card(0, 1, 0)
      else if i < 72 then Card(1, 1, 0)
      else if i < 82 then Card(2, 1, 0)
      else if i < 86 then Card(2, 2, 0)
      else if i < 90 then Card(3, 2, 0)
      else Card(5, 2, 0)
  {
    AlphasUnrolled();
    ProtocolsUnrolled();
    MultipliersUnrolled();
    hide Alphas, Protocols, Multipliers;
  }

  // ---------------------------------------------------------------------
  // How many cards of each kind the deck holds
  // ---------------------------------------------------------------------

  /** What a card of the deck can look like. */
  predicate WellFormed(c: Card) {
    || (c.cardType == ALPHA && 1 <= c.value <= 13 && c.suit in SUITS)
    || (c.cardType == PROTOCOL && c.value in EFFECTS && c.suit == 0)
    || (c.cardType == MULTIPLIER && c.value in FACTORS && c.suit == 0)
  }

  lemma {:induction false} AlphasCards(suits: seq<Byte>)
    ensures forall c :: c in Alphas(suits) ==> c.cardType == ALPHA && 1 <= c.value <= 13 && c.suit in suits
  {
    if suits != [] { AlphasCards(suits[..|suits| - 1]); }
  }

  lemma {:induction false} ProtocolsCards(effects: seq<Byte>)
    ensures forall c :: c in Protocols(effects) ==> c.cardType == PROTOCOL && c.value in effects && c.suit == 0
  {
    if effects != [] { ProtocolsCards(effects[..|effects| - 1]); }
  }

  lemma {:induction false} MultipliersCards(factors: seq<Byte>)
    ensures forall c :: c in Multipliers(factors) ==> c.cardType == MULTIPLIER && c.value in factors && c.suit == 0
  {
    if factors != [] { MultipliersCards(factors[..|factors| - 1]); }
  }

  lemma DeckIsWellFormed(c: Card)
    requires c in CanonicalDeck()
    ensures WellFormed(c)
  {
    AlphasCards(SUITS);
    ProtocolsCards(EFFECTS);
    MultipliersCards(FACTORS);
  }

  lemma HandIsWellFormed(hand: seq<Card>)
    requires multiset(hand) <= multiset(CanonicalDeck())
    ensures forall c :: c in hand ==> WellFormed(c)
  {
    forall c | c in hand ensures WellFormed(c) {
      assert c in multiset(hand);
      DeckIsWellFormed(c);
    }
  }

  lemma {:induction false} SuitCount(suit: Byte, n: nat, v: Byte)
    requires n <= 13
    ensures CountIf(Suit(suit)[..n], AlphaOf(v)) == if 1 <= v <= n then 1 else 0
  {
    if n > 0 {
      SuitCount(suit, n - 1, v);
      CountIfConcat(Suit(suit)[..n - 1], [Suit(suit)[n - 1]], AlphaOf(v));
      assert Suit(suit)[..n] == Suit(suit)[..n - 1] + [Suit(suit)[n - 1]];
    }
  }

  lemma {:induction false} AlphasCount(suits: seq<Byte>, v: Byte)
    ensures CountIf(Alphas(suits), AlphaOf(v)) == if 1 <= v <= 13 then |suits| else 0
  {
    if suits != [] {
      var last := suits[|suits| - 1];
      AlphasCount(suits[..|suits| - 1], v);
      SuitCount(last, 13, v);
      assert Suit(last)[..13] == Suit(last);
      CountIfConcat(Alphas(suits[..|suits| - 1]), Suit(last), AlphaOf(v));
    }
  }

  lemma DeckCount(p: Card -> bool)
    ensures CountIf(CanonicalDeck(), p)
         == CountIf(Alphas(SUITS), p) + CountIf(Protocols(EFFECTS), p) + CountIf(Multipliers(FACTORS), p)
  {
    CountIfConcat(Alphas(SUITS) + Protocols(EFFECTS), Multipliers(FACTORS), p);
    CountIfConcat(Alphas(SUITS), Protocols(EFFECTS), p);
  }

  /** Each Alpha value occurs once per suit. */
  lemma AlphaCopiesInDeck(v: Byte)
    ensures CountIf(CanonicalDeck(), AlphaOf(v)) == if 1 <= v <= 13 then 4 else 0
  {
    hide CanonicalDeck;
    var p := AlphaOf(v);
    DeckCount(p);
    AlphasCount(SUITS, v);
    ProtocolsCards(EFFECTS);
    MultipliersCards(FACTORS);
    CountIfNone(Protocols(EFFECTS), p);
    CountIfNone(Multipliers(FACTORS), p);
  }

  /** Recognises the multiplier cards of factor `f`. */
  function MultiplierOf(f: Byte): Card -> bool {
    (c: Card) => c.cardType == MULTIPLIER && c.value == f
  }

  lemma CopiesCount(c: Card, n: nat, f: Byte)
    ensures CountIf(Copies(c, n), MultiplierOf(f)) == if MultiplierOf(f)(c) then n else 0
  {
    if MultiplierOf(f)(c) {
      CountIfAll(Copies(c, n), MultiplierOf(f));
    } else {
      CountIfNone(Copies(c, n), MultiplierOf(f));
    }
  }

  lemma {:induction false} MultipliersCount(factors: seq<Byte>, f: Byte)
    ensures CountIf(Multipliers(factors), MultiplierOf(f)) == 4 * CountIf(factors, g => g == f)
  {
    if factors != [] {
      var init, last := factors[..|factors| - 1], factors[|factors| - 1];
      var copies := Copies(Card(last, MULTIPLIER, 0), 4);
      MultipliersCount(init, f);
      CopiesCount(Card(last, MULTIPLIER, 0), 4, f);
      CountIfConcat(Multipliers(init), copies, MultiplierOf(f));
      CountIfConcat(init, [last], g => g == f);
      assert factors == init + [last];
    }
  }

  lemma FactorsOnce(f: Byte)
    ensures CountIf(FACTORS, g => g == f) == if f in FACTORS then 1 else 0
  {
    assert FACTORS[1..] == [3, 5] && [3 as Byte, 5][1..] == [5] && [5 as Byte][1..] == [];
  }

  /** Each multiplier factor occurs four times. */
  lemma MultiplierCopiesInDeck(f: Byte)
    ensures CountIf(CanonicalDeck(), MultiplierOf(f)) == if f in FACTORS then 4 else 0
  {
    var p := MultiplierOf(f);
    DeckCount(p);
    MultipliersCount(FACTORS, f);
    FactorsOnce(f);
    hide CanonicalDeck, Multipliers;
    AlphasCards(SUITS);
    ProtocolsCards(EFFECTS);
    CountIfNone(Alphas(SUITS), p);
    CountIfNone(Protocols(EFFECTS), p);
  }

  // ---------------------------------------------------------------------
  // The two programs that lay the deck out
  // ---------------------------------------------------------------------

  /** The innermost loop of the on-chain builder: the same card `n` times from index `i`. */
  method FillCopies(deck: array<Card>, i: nat, c: Card, n: nat)
    requires i + n <= deck.Length
    modifies deck
    ensures deck[..i + n] == old(deck[..i]) + Copies(c, n)
  {
    for k := 0 to n
      invariant deck[..i + k] == old(deck[..i]) + Copies(c, n)[..k]
    {
      deck[i + k] := c;
      assert deck[..i + k + 1] == deck[..i + k] + [deck[i + k]];
    }
  }

  method FillSuit(deck: array<Card>, i: nat, suit: Byte)
    requires i + 13 <= deck.Length
    modifies deck
    ensures deck[..i + 13] == old(deck[..i]) + Suit(suit)
  {
    for value := 0 to 13
      invariant deck[..i + value] == old(deck[..i]) + Suit(suit)[..value]
    {
      deck[i + value] := Card(value + 1, ALPHA, suit);
      assert deck[..i + value + 1] == deck[..i + value] + [deck[i + value]];
    }
  }

  /** The on-chain builder: an array filled through a running index. */
  method CreateCanonicalDeckOnChain() returns (deck: array<Card>)
    ensures fresh(deck) && deck[..] == CanonicalDeck()
  {
    deck := new Card[DECK_SIZE](_ => Card(0, 0, 0));
    var i := 0;
    for s := 0 to |SUITS|
      invariant i == 13 * s && deck[..i] == Alphas(SUITS[..s])
    {
      assert SUITS[..s + 1][..s] == SUITS[..s];
      FillSuit(deck, i, SUITS[s]);
      i := i + 13;
    }
    assert SUITS[..|SUITS|] == SUITS;
    for e := 0 to |EFFECTS|
      invariant i == 52 + 10 * e && deck[..i] == Alphas(SUITS) + Protocols(EFFECTS[..e])
    {
      assert EFFECTS[..e + 1][..e] == EFFECTS[..e];
      FillCopies(deck, i, Card(EFFECTS[e], PROTOCOL, 0), 10);
      i := i + 10;
    }
    assert EFFECTS[..|EFFECTS|] == EFFECTS;
    for k := 0 to |FACTORS|
      invariant i == 82 + 4 * k && deck[..i] == Alphas(SUITS) + Protocols(EFFECTS) + Multipliers(FACTORS[..k])
    {
      assert FACTORS[..k + 1][..k] == FACTORS[..k];
      FillCopies(deck, i, Card(FACTORS[k], MULTIPLIER, 0), 4);
      i := i + 4;
    }
    assert FACTORS[..|FACTORS|] == FACTORS;
  }

  /** The dealer's builder: pushes onto a growing list. */
  method CreateCanonicalDeckOffChain() returns (deck: seq<Card>)
    ensures deck == CanonicalDeck()
  {
    deck := [];
    for suit := 0 to |SUITS|
      invariant deck == Alphas(SUITS[..suit])
    {
      for value := 0 to 13
        invariant deck == Alphas(SUITS[..suit]) + Suit(SUITS[suit])[..value]
      {
        deck := deck + [Card(value + 1, ALPHA, SUITS[suit])];
      }
      assert SUITS[..suit + 1][..suit] == SUITS[..suit];
    }
    assert SUITS[..|SUITS|] == SUITS && EFFECTS[..0] == [];
    for e := 0 to |EFFECTS|
      invariant deck == Alphas(SUITS) + Protocols(EFFECTS[..e])
    {
      for n := 0 to 10
        invariant deck == Alphas(SUITS) + Protocols(EFFECTS[..e]) + Copies(Card(EFFECTS[e], PROTOCOL, 0), 10)[..n]
      {
        deck := deck + [Card(EFFECTS[e], PROTOCOL, 0)];
      }
      assert EFFECTS[..e + 1][..e] == EFFECTS[..e];
    }
    assert EFFECTS[..|EFFECTS|] == EFFECTS && FACTORS[..0] == [];
    for k := 0 to |FACTORS|
      invariant deck == Alphas(SUITS) + Protocols(EFFECTS) + Multipliers(FACTORS[..k])
    {
      for n := 0 to 4
        invariant deck == Alphas(SUITS) + Protocols(EFFECTS) + Multipliers(FACTORS[..k])
                          + Copies(Card(FACTORS[k], MULTIPLIER, 0), 4)[..n]
      {
        deck := deck + [Card(FACTORS[k], MULTIPLIER, 0)];
      }
      assert FACTORS[..k + 1][..k] == FACTORS[..k];
    }
    assert FACTORS[..|FACTORS|] == FACTORS;
  }
}
