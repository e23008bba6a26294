/** The flip advisor: a fast formula for the chance that the next hit busts. */
module Advisor {
  import opened Cards
  import opened Scoring
  import opened Options
  import opened Numbers
  import opened Sequences

  const ALPHA_VALUE_COPIES_IN_DECK := 4

  datatype BustProbability = BustProbability(
    bustingCardsRemaining: nat,
    probability: Option<real>,
    remainingDeckSize: int,
    riskyValues: seq<Byte>)

  /** Recognises the cards whose draw busts a hand, by the program's own scan. */
  function BustsOn(hand: seq<Card>): Card -> bool {
    (c: Card) => CheckBust(hand + [c]).Some?
  }

  /** Recognises the Alphas of one of the given values. */
  function AlphaAmong(values: seq<Byte>): Card -> bool {
    (c: Card) => c.cardType == ALPHA && c.value in values
  }

  /** The Alpha values of a hand, each where it first appears. */
  function FirstSeen(hand: seq<Card>): seq<Byte> {
    if hand == [] then [] else
      var values, last := FirstSeen(hand[..|hand| - 1]), hand[|hand| - 1];
      if last.cardType == ALPHA && last.value !in values then values + [last.value] else values
  }

  lemma {:induction false} FirstSeenMeaning(hand: seq<Card>)
    ensures Distinct(FirstSeen(hand))
    ensures forall v: Byte :: v in FirstSeen(hand) <==> exists i :: 0 <= i < |hand| && hand[i].cardType == ALPHA && hand[i].value == v
  {
    if hand != [] {
      FirstSeenMeaning(hand[..|hand| - 1]);
      assert hand == hand[..|hand| - 1] + [hand[|hand| - 1]];
    }
  }

  /** The formula: what is left of four copies of each value, never below zero. */
  function Busting(values: seq<Byte>, revealed: seq<Card>): nat {
    if values == [] then 0 else
      var n, copies := |values| - 1, CountIf(revealed, AlphaOf(values[|values| - 1]));
      Busting(values[..n], revealed) + if copies < ALPHA_VALUE_COPIES_IN_DECK then ALPHA_VALUE_COPIES_IN_DECK - copies else 0
  }

  lemma {:induction false} CountIfSame<T>(s: seq<T>, p: T -> bool, q: T -> bool)
    requires forall i :: 0 <= i < |s| ==> p(s[i]) == q(s[i])
    ensures CountIf(s, p) == CountIf(s, q)
  {
    if s != [] { CountIfSame(s[1..], p, q); }
  }

  lemma {:induction false} CountIfAtMost<T>(s: seq<T>, p: T -> bool)
    ensures CountIf(s, p) <= |s|
    ensures CountIf(s, p) == |s| ==> forall i :: 0 <= i < |s| ==> p(s[i])
  {
    if s != [] { CountIfAtMost(s[1..], p); }
  }

  /** A value not listed yet adds its own cards. */
  lemma {:induction false} AmongOneMore(cards: seq<Card>, values: seq<Byte>, v: Byte)
    requires v !in values
    ensures CountIf(cards, AlphaAmong(values + [v])) == CountIf(cards, AlphaAmong(values)) + CountIf(cards, AlphaOf(v))
  {
    if cards != [] { AmongOneMore(cards[1..], values, v); }
  }

  /** The hand, the other revealed cards and the rest make up the deck. */
  ghost predicate DeckSplits(hand: seq<Card>, other: seq<Card>, rest: seq<Card>) {
    multiset(hand) + multiset(other) + multiset(rest) == multiset(CanonicalDeck())
  }

  lemma CopiesSplit(hand: seq<Card>, other: seq<Card>, rest: seq<Card>, v: Byte)
    requires DeckSplits(hand, other, rest)
    ensures CountIf(hand + other, AlphaOf(v)) + CountIf(rest, AlphaOf(v)) == if 1 <= v <= 13 then 4 else 0
  {
    hide CanonicalDeck;
    AlphaCopiesInDeck(v);
    assert multiset(hand + other + rest) == multiset(hand) + multiset(other) + multiset(rest);
    CountIfPermuted(hand + other + rest, CanonicalDeck(), AlphaOf(v));
    CountIfConcat(hand + other, rest, AlphaOf(v));
  }

  ghost predicate IsAlphaValue(v: Byte) {
    1 <= v <= 13
  }

  /** The formula counts the remaining cards that match a listed value. */
  lemma {:induction false} BustingCounts(hand: seq<Card>, other: seq<Card>, rest: seq<Card>, values: seq<Byte>)
    requires DeckSplits(hand, other, rest) && Distinct(values) && forall v :: v in values ==> IsAlphaValue(v)
    ensures Busting(values, hand + other) == CountIf(rest, AlphaAmong(values))
  {
    hide DeckSplits;
    if values == [] {
      CountIfNone(rest, AlphaAmong(values));
    } else {
      var n := |values| - 1;
      var last := values[n];
      assert values == values[..n] + [last];
      BustingCounts(hand, other, rest, values[..n]);
      AmongOneMore(rest, values[..n], last);
      assert IsAlphaValue(last);
      CopiesSplit(hand, other, rest, last);
    }
  }

  lemma DeckAlphas(hand: seq<Card>, other: seq<Card>, rest: seq<Card>, c: Card)
    requires DeckSplits(hand, other, rest) && (c in hand || c in rest) && c.cardType == ALPHA
    ensures IsAlphaValue(c.value) && CanBust(c)
  {
    hide CanonicalDeck;
    assert c in multiset(CanonicalDeck()) by { assert c in multiset(hand) || c in multiset(rest); }
    DeckIsWellFormed(c);
  }

  lemma HeldValues(hand: seq<Card>, other: seq<Card>, rest: seq<Card>)
    requires DeckSplits(hand, other, rest)
    ensures forall v :: v in FirstSeen(hand) ==> IsAlphaValue(v)
  {
    hide DeckSplits, FirstSeen;
    FirstSeenMeaning(hand);
    forall v | v in FirstSeen(hand) ensures IsAlphaValue(v) {
      var i :| 0 <= i < |hand| && hand[i].cardType == ALPHA && hand[i].value == v;
      DeckAlphas(hand, other, rest, hand[i]);
    }
  }

  /** On a bust-free hand a remaining card busts iff it matches a held Alpha value; on a busted one every card does. */
  lemma BustsMeaning(hand: seq<Card>, other: seq<Card>, rest: seq<Card>, c: Card)
    requires DeckSplits(hand, other, rest) && c in rest
    ensures BustsOn(hand)(c) <==> CheckBust(hand).Some? || AlphaAmong(FirstSeen(hand))(c)
  {
    hide DeckSplits, FirstSeen, CheckBust;
    CheckBustMeaning(hand);
    if CheckBust(hand).None? {
      BustOnDraw(hand, c);
      FirstSeenMeaning(hand);
      if c.cardType == ALPHA { DeckAlphas(hand, other, rest, c); }
      forall i | 0 <= i < |hand| && hand[i].cardType == ALPHA ensures CanBust(hand[i]) {
        DeckAlphas(hand, other, rest, hand[i]);
      }
    } else {
      assert (hand + [c])[..|hand|] == hand;
      BustStays(hand + [c], |hand|);
    }
  }

  /** The formula equals the brute-force count exactly when the hand is bust-free, or every remaining card matches it. */
  lemma AdvisorIsExact(hand: seq<Card>, other: seq<Card>, rest: seq<Card>)
    requires DeckSplits(hand, other, rest)
    ensures Busting(FirstSeen(hand), hand + other) == CountIf(rest, BustsOn(hand))
       <==> CheckBust(hand).None? || forall i :: 0 <= i < |rest| ==> AlphaAmong(FirstSeen(hand))(rest[i])
    ensures Busting(FirstSeen(hand), hand + other) <= |rest|
  {
    hide DeckSplits, FirstSeen, CheckBust, Busting, BustsOn, AlphaAmong;
    var held := AlphaAmong(FirstSeen(hand));
    FirstSeenMeaning(hand);
    HeldValues(hand, other, rest);
    BustingCounts(hand, other, rest, FirstSeen(hand));
    CountIfAtMost(rest, held);
    forall i | 0 <= i < |rest| ensures BustsOn(hand)(rest[i]) <==> CheckBust(hand).Some? || held(rest[i]) {
      BustsMeaning(hand, other, rest, rest[i]);
    }
    if CheckBust(hand).None? {
      CountIfSame(rest, held, BustsOn(hand));
    } else {
      CountIfAll(rest, BustsOn(hand));
      if forall i :: 0 <= i < |rest| ==> held(rest[i]) { CountIfAll(rest, held); }
    }
  }

  lemma RestSize(hand: seq<Card>, other: seq<Card>, rest: seq<Card>)
    requires DeckSplits(hand, other, rest)
    ensures |rest| == DECK_SIZE - |hand| - |other|
  {
    hide CanonicalDeck;
    assert |multiset(hand) + multiset(other) + multiset(rest)| == |hand| + |other| + |rest|;
    assert |multiset(CanonicalDeck())| == DECK_SIZE;
  }

  // ---------------------------------------------------------------------
  // The advisor as it runs
  // ---------------------------------------------------------------------

  function Insert(sorted: seq<Byte>, v: Byte): seq<Byte> {
    if sorted == [] || v <= sorted[0] then [v] + sorted else [sorted[0]] + Insert(sorted[1..], v)
  }

  ghost predicate Ascending(values: seq<Byte>) {
    forall i, j :: 0 <= i < j < |values| ==> values[i] <= values[j]
  }

  lemma {:induction false} InsertAdds(sorted: seq<Byte>, v: Byte)
    ensures multiset(Insert(sorted, v)) == multiset(sorted) + multiset{v}
  {
    if sorted != [] && v > sorted[0] {
      InsertAdds(sorted[1..], v);
      assert sorted == [sorted[0]] + sorted[1..];
    }
  }

  lemma {:induction false} InsertKeepsOrder(sorted: seq<Byte>, v: Byte)
    requires Ascending(sorted)
    ensures Ascending(Insert(sorted, v))
  {
    if sorted != [] && v > sorted[0] {
      InsertKeepsOrder(sorted[1..], v);
      var rest := Insert(sorted[1..], v);
      InsertAdds(sorted[1..], v);
      forall i | 0 <= i < |rest| ensures sorted[0] <= rest[i] {
        assert rest[i] in multiset(rest);
      }
    }
  }

  method SortValues(values: seq<Byte>) returns (sorted: seq<Byte>)
    ensures Ascending(sorted) && multiset(sorted) == multiset(values)
  {
    sorted := [];
    for i := 0 to |values|
      invariant Ascending(sorted) && multiset(sorted) == multiset(values[..i])
    {
      InsertKeepsOrder(sorted, values[i]);
      InsertAdds(sorted, values[i]);
      assert values[..i + 1] == values[..i] + [values[i]];
      sorted := Insert(sorted, values[i]);
    }
    assert values[..|values|] == values;
  }

  method CountAlphas(cards: seq<Card>, value: Byte) returns (copies: nat)
    ensures copies == CountIf(cards, AlphaOf(value))
  {
    copies := 0;
    for i := 0 to |cards|
      invariant copies == CountIf(cards[..i], AlphaOf(value))
    {
      assert cards[..i + 1] == cards[..i] + [cards[i]];
      CountIfConcat(cards[..i], [cards[i]], AlphaOf(value));
      if cards[i].cardType == ALPHA && cards[i].value == value {
        copies := copies + 1;
      }
    }
    assert cards[..|cards|] == cards;
  }

  method AlphaValues(hand: seq<Card>) returns (values: seq<Byte>)
    ensures values == FirstSeen(hand)
  {
    values := [];
    for i := 0 to |hand|
      invariant values == FirstSeen(hand[..i])
    {
      assert hand[..i + 1][..i] == hand[..i];
      if hand[i].cardType == ALPHA && hand[i].value !in values {
        values := values + [hand[i].value];
      }
    }
    assert hand[..|hand|] == hand;
  }

  /** A share of `n` out of `size` lies between nothing and everything. */
  lemma Share(n: nat, size: nat)
    requires n <= size && size > 0
    ensures 0.0 <= n as real / size as real <= 1.0
  {
    var n', size' := n as real, size as real;
    assert n' / size' * size' == n';
  }

  /** The advice is right for the cards that are left: their number, how many of them bust, and a chance in [0, 1]. */
  ghost predicate IsTrueChance(r: BustProbability, hand: seq<Card>, rest: seq<Card>) {
    && r.remainingDeckSize == |rest|
    && r.bustingCardsRemaining <= |rest|
    && (CheckBust(hand).None? ==> r.bustingCardsRemaining == CountIf(rest, BustsOn(hand)))
    && (if rest == [] then r.probability.None?
        else && r.probability == Some(r.bustingCardsRemaining as real / |rest| as real)
             && 0.0 <= r.probability.value <= 1.0)
  }

  lemma AdviceIsTrue(r: BustProbability, hand: seq<Card>, other: seq<Card>, rest: seq<Card>)
    requires DeckSplits(hand, other, rest)
    requires r.remainingDeckSize == DECK_SIZE - |hand| - |other|
    requires r.bustingCardsRemaining == Busting(FirstSeen(hand), hand + other)
    requires r.probability == if r.remainingDeckSize <= 0 then None
                              else Some(r.bustingCardsRemaining as real / r.remainingDeckSize as real)
    ensures IsTrueChance(r, hand, rest)
  {
    hide DeckSplits, FirstSeen, CheckBust, Busting, BustsOn, AlphaAmong;
    AdvisorIsExact(hand, other, rest);
    RestSize(hand, other, rest);
    if rest != [] { Share(r.bustingCardsRemaining, |rest|); }
  }

  /** The last clause: whatever cards are left in a deck that holds all the revealed ones, the advice is true of them. */
  method CalculateBustProbability(playerHand: seq<Card>, otherRevealedCards: seq<Card>) returns (r: BustProbability)
    ensures r.remainingDeckSize == DECK_SIZE - |playerHand| - |otherRevealedCards|
    ensures r.bustingCardsRemaining == Busting(FirstSeen(playerHand), playerHand + otherRevealedCards)
    ensures r.probability == if r.remainingDeckSize <= 0 then None
                             else Some(r.bustingCardsRemaining as real / r.remainingDeckSize as real)
    ensures Ascending(r.riskyValues) && multiset(r.riskyValues) == multiset(FirstSeen(playerHand))
    ensures forall rest: seq<Card> ::
              DeckSplits(playerHand, otherRevealedCards, rest) ==> IsTrueChance(r, playerHand, rest)
  {
    var values := AlphaValues(playerHand);
    var busting := 0;
    for i := 0 to |values|
      invariant busting == Busting(values[..i], playerHand + otherRevealedCards)
    {
      var own := CountAlphas(playerHand, values[i]);
      var others := CountAlphas(otherRevealedCards, values[i]);
      CountIfConcat(playerHand, otherRevealedCards, AlphaOf(values[i]));
      assert values[..i + 1][..i] == values[..i];
      var left := ALPHA_VALUE_COPIES_IN_DECK - (own + others);
      busting := busting + if left > 0 then left else 0;
    }
    assert values[..|values|] == values;
    var totalRevealed := |playerHand| + |otherRevealedCards|;
    var remainingDeckSize := DECK_SIZE - totalRevealed;
    var probability := if remainingDeckSize <= 0 then None else Some(busting as real / remainingDeckSize as real);
    var riskyValues := SortValues(values);
    r := BustProbability(busting, probability, remainingDeckSize, riskyValues);
    forall rest: seq<Card> | DeckSplits(playerHand, otherRevealedCards, rest) ensures IsTrueChance(r, playerHand, rest) {
      AdviceIsTrue(r, playerHand, otherRevealedCards, rest);
    }
  }
}
