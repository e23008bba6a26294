/** Hand scores and busts. */
module Scoring {
  import opened Cards
  import opened Options
  import opened Numbers

  const MAX_HAND_SIZE := 10

  // ---------------------------------------------------------------------
  // Score
  // ---------------------------------------------------------------------

  function AlphaSum(hand: seq<Card>): nat {
    if hand == [] then 0 else
      var last := hand[|hand| - 1];
      AlphaSum(hand[..|hand| - 1]) + if last.cardType == ALPHA then last.value else 0
  }

  /** The `u64` product of the multiplier cards; release builds wrap around. */
  function WrappingProduct(hand: seq<Card>): nat {
    if hand == [] then 1 else
      var last := hand[|hand| - 1];
      var product := WrappingProduct(hand[..|hand| - 1]);
      if last.cardType == MULTIPLIER then product * last.value % U64_MODULUS else product
  }

  predicate HasMultiplier(hand: seq<Card>) {
    exists c :: c in hand && c.cardType == MULTIPLIER
  }

  function HandScore(hand: seq<Card>): nat {
    if HasMultiplier(hand) then
      var product := AlphaSum(hand) * WrappingProduct(hand);
      if product > U64_MAX then U64_MAX else product
    else
      AlphaSum(hand)
  }

  /** The product the rules of the game ask for, in unbounded arithmetic. */
  function ExactProduct(hand: seq<Card>): nat {
    if hand == [] then 1 else
      var last := hand[|hand| - 1];
      ExactProduct(hand[..|hand| - 1]) * if last.cardType == MULTIPLIER then last.value else 1
  }

  function Factor(hand: seq<Card>, f: Byte): nat {
    CountIf(hand, MultiplierOf(f))
  }

  function AlphaCount(hand: seq<Card>): nat {
    CountIf(hand, IsAlpha)
  }

  lemma CountIfLast<T>(s: seq<T>, p: T -> bool)
    requires s != []
    ensures CountIf(s, p) == CountIf(s[..|s| - 1], p) + if p(s[|s| - 1]) then 1 else 0
  {
    CountIfConcat(s[..|s| - 1], [s[|s| - 1]], p);
    assert s == s[..|s| - 1] + [s[|s| - 1]];
  }

  /** The Alphas of values 1 to `n`, each value times its copies. */
  function ValueTotal(hand: seq<Card>, n: Byte): nat {
    if n == 0 then 0 else ValueTotal(hand, n - 1) + n * CountIf(hand, AlphaOf(n))
  }

  lemma OneMoreCopy(v: nat, copies: nat)
    ensures v * (copies + 1) == v * copies + v
  {
  }

  /** One more card adds its own value. */
  lemma {:induction false} ValueTotalLast(hand: seq<Card>, n: Byte)
    requires hand != []
    ensures var last := hand[|hand| - 1];
            ValueTotal(hand, n) == ValueTotal(hand[..|hand| - 1], n)
              + if last.cardType == ALPHA && 1 <= last.value <= n then last.value else 0
  {
    if n > 0 {
      ValueTotalLast(hand, n - 1);
      CountIfLast(hand, AlphaOf(n));
      OneMoreCopy(n, CountIf(hand[..|hand| - 1], AlphaOf(n)));
    }
  }

  /** The sum counts every Alpha value as often as it occurs, whatever the hand. */
  lemma {:induction false} AlphaSumCounts(hand: seq<Card>, n: Byte)
    requires forall i :: 0 <= i < |hand| && hand[i].cardType == ALPHA ==> hand[i].value <= n
    ensures AlphaSum(hand) == ValueTotal(hand, n)
  {
    if hand == [] {
      NothingHeld(n);
    } else {
      AlphaSumCounts(hand[..|hand| - 1], n);
      ValueTotalLast(hand, n);
    }
  }

  lemma {:induction false} NothingHeld(n: Byte)
    ensures ValueTotal([], n) == 0
  {
    if n > 0 { NothingHeld(n - 1); }
  }

  lemma {:induction false} AlphaSumBound(hand: seq<Card>)
    requires forall c :: c in hand ==> WellFormed(c)
    ensures AlphaSum(hand) <= 13 * AlphaCount(hand)
  {
    if hand != [] {
      assert WellFormed(hand[|hand| - 1]);
      AlphaSumBound(hand[..|hand| - 1]);
      CountIfLast(hand, IsAlpha);
    }
  }

  lemma {:induction false} ProductOfFactors(hand: seq<Card>)
    requires forall c :: c in hand ==> WellFormed(c)
    ensures ExactProduct(hand) == Pow(2, Factor(hand, 2)) * Pow(3, Factor(hand, 3)) * Pow(5, Factor(hand, 5))
  {
    if hand != [] {
      var init, last := hand[..|hand| - 1], hand[|hand| - 1];
      assert WellFormed(last);
      ProductOfFactors(init);
      CountIfLast(hand, MultiplierOf(2));
      CountIfLast(hand, MultiplierOf(3));
      CountIfLast(hand, MultiplierOf(5));
      var x, y, z := Factor(init, 2), Factor(init, 3), Factor(init, 5);
      assert Pow(2, x + 1) == 2 * Pow(2, x);
      assert Pow(3, y + 1) == 3 * Pow(3, y);
      assert Pow(5, z + 1) == 5 * Pow(5, z);
      MultiplyEachSide(Pow(2, x), Pow(3, y), Pow(5, z));
    }
  }

  lemma MultiplyEachSide(a: int, b: int, c: int)
    ensures (a * b * c) * 2 == (2 * a) * b * c
    ensures (a * b * c) * 3 == a * (3 * b) * c
    ensures (a * b * c) * 5 == a * b * (5 * c)
  {
  }

  lemma {:induction false} KindsFitInHand(hand: seq<Card>)
    ensures AlphaCount(hand) + Factor(hand, 2) + Factor(hand, 3) + Factor(hand, 5) <= |hand|
  {
    if hand != [] {
      KindsFitInHand(hand[..|hand| - 1]);
      CountIfLast(hand, IsAlpha);
      CountIfLast(hand, MultiplierOf(2));
      CountIfLast(hand, MultiplierOf(3));
      CountIfLast(hand, MultiplierOf(5));
    }
  }

  /** The largest product of `n` distinct multiplier cards of the deck, for at most ten cards. */
  function BestProduct(n: nat): nat {
    if n <= 4 then Pow(5, n) else if n <= 8 then 625 * Pow(3, n - 4) else 50625 * Pow(2, n - 8)
  }

  lemma Powers()
    ensures Pow(5, 0) == 1 && Pow(5, 1) == 5 && Pow(5, 2) == 25 && Pow(5, 3) == 125 && Pow(5, 4) == 625
    ensures Pow(3, 0) == 1 && Pow(3, 1) == 3 && Pow(3, 2) == 9 && Pow(3, 3) == 27 && Pow(3, 4) == 81
    ensures Pow(2, 0) == 1 && Pow(2, 1) == 2 && Pow(2, 2) == 4 && Pow(2, 3) == 8 && Pow(2, 4) == 16
  {
  }

  lemma ThreesAndFives(y: nat, z: nat)
    requires y <= 4 && z <= 4
    ensures Pow(3, y) * Pow(5, z) <= BestProduct(y + z)
  {
    Powers();
    if y == 0 {} else if y == 1 {} else if y == 2 {} else if y == 3 {} else {}
  }

  lemma AllFactors(x: nat, n: nat)
    requires x <= 4 && n <= 8
    ensures Pow(2, x) * BestProduct(n) <= BestProduct(x + n)
  {
    Powers();
    if x == 0 {} else if x == 1 {} else if x == 2 {} else if x == 3 {} else {}
  }

  lemma BestSplit(a: nat, n: nat)
    requires a + n <= MAX_HAND_SIZE
    ensures 13 * a * BestProduct(n) <= 1_316_250
    ensures BestProduct(n) <= 202_500
  {
    Powers();
  }

  lemma SplitBound(a: nat, x: nat, y: nat, z: nat)
    requires a + x + y + z <= MAX_HAND_SIZE && x <= 4 && y <= 4 && z <= 4
    ensures Pow(2, x) * Pow(3, y) * Pow(5, z) <= BestProduct(x + (y + z))
  {
    hide Pow, BestProduct;
    ThreesAndFives(y, z);
    AllFactors(x, y + z);
    ProductBelow(Pow(2, x), Pow(3, y), Pow(5, z), BestProduct(y + z));
  }

  lemma HandBounds(hand: seq<Card>) returns (a: nat, n: nat)
    requires |hand| <= MAX_HAND_SIZE
    requires multiset(hand) <= multiset(CanonicalDeck())
    ensures a + n <= MAX_HAND_SIZE && AlphaSum(hand) <= 13 * a && ExactProduct(hand) <= BestProduct(n)
  {
    hide CanonicalDeck, BestProduct, Pow;
    HandIsWellFormed(hand);
    AlphaSumBound(hand);
    ProductOfFactors(hand);
    KindsFitInHand(hand);
    FactorBound(hand, 2);
    FactorBound(hand, 3);
    FactorBound(hand, 5);
    a := AlphaCount(hand);
    n := Factor(hand, 2) + (Factor(hand, 3) + Factor(hand, 5));
    SplitBound(a, Factor(hand, 2), Factor(hand, 3), Factor(hand, 5));
  }

  /** The bound on the exact score of any hand of ten cards of the deck. */
  lemma ExactScoreBound(hand: seq<Card>)
    requires |hand| <= MAX_HAND_SIZE
    requires multiset(hand) <= multiset(CanonicalDeck())
    ensures AlphaSum(hand) * ExactProduct(hand) <= 1_316_250
    ensures ExactProduct(hand) <= 202_500
  {
    hide BestProduct;
    var a, n := HandBounds(hand);
    BestSplit(a, n);
    ProductMonotone(AlphaSum(hand), 13 * a, ExactProduct(hand), BestProduct(n));
  }

  lemma FactorBound(hand: seq<Card>, f: Byte)
    requires multiset(hand) <= multiset(CanonicalDeck())
    ensures Factor(hand, f) <= 4
  {
    CountIfMonotone(hand, CanonicalDeck(), MultiplierOf(f));
    MultiplierCopiesInDeck(f);
  }

  lemma ProductBelow(a: nat, b: nat, c: nat, d: nat)
    requires b * c <= d
    ensures a * b * c <= a * d
  {
    ProductAssociates(a, b, c);
    ProductMonotone(a, a, b * c, d);
  }

  lemma ProductAssociates(a: nat, b: nat, c: nat)
    ensures a * b * c == a * (b * c)
  {
  }

  lemma ProductMonotone(a: nat, b: nat, c: nat, d: nat)
    requires a <= b && c <= d
    ensures a * c <= b * d
  {
    assert a * c <= b * c;
    assert b * c <= b * d;
  }

  /** Within the 64-bit range the wrapping product is the exact one. */
  lemma {:induction false} ProductDoesNotWrap(hand: seq<Card>)
    requires forall c :: c in hand ==> WellFormed(c)
    requires ExactProduct(hand) <= U64_MAX
    ensures WrappingProduct(hand) == ExactProduct(hand) >= 1
  {
    if hand != [] {
      var init, last := hand[..|hand| - 1], hand[|hand| - 1];
      ExactProductPositive(init);
      var factor := if last.cardType == MULTIPLIER then last.value else 1;
      assert WellFormed(last);
      assert factor >= 1;
      ProductMonotone(1, factor, ExactProduct(init), ExactProduct(init));
      ProductDoesNotWrap(init);
    }
  }

  lemma {:induction false} ExactProductPositive(hand: seq<Card>)
    requires forall c :: c in hand ==> WellFormed(c)
    ensures ExactProduct(hand) >= 1
  {
    if hand != [] {
      assert WellFormed(hand[|hand| - 1]);
      ExactProductPositive(hand[..|hand| - 1]);
    }
  }

  lemma {:induction false} NoMultiplierProduct(hand: seq<Card>)
    requires !HasMultiplier(hand)
    ensures ExactProduct(hand) == 1
  {
    if hand != [] {
      assert hand[|hand| - 1] in hand;
      assert forall c :: c in hand[..|hand| - 1] ==> c in hand;
      NoMultiplierProduct(hand[..|hand| - 1]);
    }
  }

  /** The score by the rules, from the copies of each card: the Alpha values, doubled, tripled and quintupled. */
  function CountedScore(hand: seq<Card>): nat {
    ValueTotal(hand, 13) * (Pow(2, Factor(hand, 2)) * Pow(3, Factor(hand, 3)) * Pow(5, Factor(hand, 5)))
  }

  /** A hand of the deck is scored exactly: no wrap, no saturation, at most 1,316,250. */
  lemma ScoreIsExact(hand: seq<Card>)
    requires |hand| <= MAX_HAND_SIZE
    requires multiset(hand) <= multiset(CanonicalDeck())
    ensures HandScore(hand) == CountedScore(hand) == AlphaSum(hand) * ExactProduct(hand) <= 1_316_250
    ensures WrappingProduct(hand) == ExactProduct(hand)
  {
    hide CountedScore, AlphaSum, ExactProduct, WrappingProduct, CanonicalDeck, WellFormed;
    HandIsWellFormed(hand);
    CountedIsExact(hand);
    ExactScoreBound(hand);
    ProductDoesNotWrap(hand);
    if !HasMultiplier(hand) { NoMultiplierProduct(hand); }
  }

  lemma CountedIsExact(hand: seq<Card>)
    requires forall c :: c in hand ==> WellFormed(c)
    ensures CountedScore(hand) == AlphaSum(hand) * ExactProduct(hand)
  {
    forall i | 0 <= i < |hand| && hand[i].cardType == ALPHA ensures hand[i].value <= 13 {
      assert WellFormed(hand[i]);
    }
    AlphaSumCounts(hand, 13);
    ProductOfFactors(hand);
  }

  /** Two thirteens with every threefold and fivefold card. */
  function BestHand(): seq<Card> {
    Copies(Card(5, MULTIPLIER, 0), 4) + Copies(Card(3, MULTIPLIER, 0), 4)
    + [Card(13, ALPHA, 0)] + [Card(13, ALPHA, 1)]
  }

  lemma {:induction false} CopiesProduct(f: Byte, n: nat)
    requires f > 0
    ensures ExactProduct(Copies(Card(f, MULTIPLIER, 0), n)) == Pow(f, n)
    ensures AlphaSum(Copies(Card(f, MULTIPLIER, 0), n)) == 0
  {
    var s := Copies(Card(f, MULTIPLIER, 0), n);
    if n > 0 {
      CopiesProduct(f, n - 1);
      assert s[..n - 1] == Copies(Card(f, MULTIPLIER, 0), n - 1);
    }
  }

  lemma {:induction false} ScoreConcat(a: seq<Card>, b: seq<Card>)
    ensures ExactProduct(a + b) == ExactProduct(a) * ExactProduct(b)
    ensures AlphaSum(a + b) == AlphaSum(a) + AlphaSum(b)
  {
    if b == [] {
      assert a + b == a;
    } else {
      var last := b[|b| - 1];
      ScoreConcat(a, b[..|b| - 1]);
      assert (a + b)[..|a + b| - 1] == a + b[..|b| - 1];
      var f := if last.cardType == MULTIPLIER then last.value else 1;
      assert ExactProduct(a + b) == ExactProduct(a + b[..|b| - 1]) * f;
      ProductAssociates(ExactProduct(a), ExactProduct(b[..|b| - 1]), f);
    }
  }

  /** The bound is attained by a hand of the deck. */
  lemma ScoreBoundIsTight()
    ensures |BestHand()| == MAX_HAND_SIZE
    ensures multiset(BestHand()) <= multiset(CanonicalDeck())
    ensures HandScore(BestHand()) == 1_316_250
  {
    hide CountedScore, HandScore, CanonicalDeck;
    var fives, threes := Copies(Card(5, MULTIPLIER, 0), 4), Copies(Card(3, MULTIPLIER, 0), 4);
    var a, b := [Card(13, ALPHA, 0)], [Card(13, ALPHA, 1)];
    BestHandInDeck();
    ScoreIsExact(BestHand());
    CopiesProduct(5, 4);
    CopiesProduct(3, 4);
    Powers();
    ScoreConcat(fives, threes);
    ScoreConcat(fives + threes, a);
    ScoreConcat(fives + threes + a, b);
    assert a[..0] == [] && b[..0] == [];
    assert AlphaSum(a) == 13 && AlphaSum(b) == 13;
    assert ExactProduct(a) == 1 && ExactProduct(b) == 1;
  }

  lemma BestHandInDeck()
    ensures multiset(BestHand()) <= multiset(CanonicalDeck())
  {
    AlphasUnrolled();
    MultipliersUnrolled();
    hide Alphas, Multipliers, Protocols, Copies;
    assert Suit(0) == Suit(0)[..12] + [Card(13, ALPHA, 0)];
    assert Suit(1) == Suit(1)[..12] + [Card(13, ALPHA, 1)];
  }

  // ---------------------------------------------------------------------
  // Bust
  // ---------------------------------------------------------------------

  /** The cards a bust is about: Alphas of value 1 to 13. */
  predicate CanBust(c: Card) {
    c.cardType == ALPHA && 0 < c.value < 14
  }

  /** Positions `i < j` hold Alphas of the same value. */
  predicate Pair(hand: seq<Card>, i: nat, j: nat)
    requires i < j < |hand|
  {
    CanBust(hand[i]) && CanBust(hand[j]) && hand[i].value == hand[j].value
  }

  ghost predicate NoDuplicate(hand: seq<Card>) {
    forall i, j :: 0 <= i < j < |hand| ==> !Pair(hand, i, j)
  }

  ghost predicate HoldsTwo(hand: seq<Card>, v: Byte) {
    exists i, j :: 0 <= i < j < |hand| && Pair(hand, i, j) && hand[i].value == v
  }

  /** The value of the first card, in hand order, that repeats an earlier Alpha. */
  function CheckBust(hand: seq<Card>): Option<Byte> {
    if hand == [] then None else
      var last := hand[|hand| - 1];
      match CheckBust(hand[..|hand| - 1])
      case Some(v) => Some(v)
      case None =>
        if CanBust(last) && exists i :: 0 <= i < |hand| - 1 && CanBust(hand[i]) && hand[i].value == last.value
        then Some(last.value)
        else None
  }

  /** What a bust report means. */
  lemma {:induction false} CheckBustMeaning(hand: seq<Card>)
    ensures CheckBust(hand).None? <==> NoDuplicate(hand)
    ensures CheckBust(hand).Some? ==> HoldsTwo(hand, CheckBust(hand).value) && 0 < CheckBust(hand).value < 14
  {
    if hand != [] {
      var n := |hand| - 1;
      var init := hand[..n];
      CheckBustMeaning(init);
      if CheckBust(init).Some? {
        var i, j :| 0 <= i < j < |init| && Pair(init, i, j) && init[i].value == CheckBust(init).value;
        assert Pair(hand, i, j);
      } else {
        assert forall i, j :: 0 <= i < j < n ==> !Pair(init, i, j) && (Pair(hand, i, j) <==> Pair(init, i, j));
        if CheckBust(hand).Some? {
          var i :| 0 <= i < n && CanBust(hand[i]) && hand[i].value == hand[n].value;
          assert Pair(hand, i, n);
        }
      }
    }
  }

  /** The same in bytes: a bust is two cards of type 0 with one value from 1 to 13. */
  lemma BustInBytes(hand: seq<Card>)
    ensures CheckBust(hand).Some? <==>
      exists i, j :: 0 <= i < j < |hand|
        && hand[i].cardType == 0 && hand[j].cardType == 0 && 1 <= hand[i].value == hand[j].value <= 13
  {
    CheckBustMeaning(hand);
    if i, j :| 0 <= i < j < |hand| && hand[i].cardType == 0 && hand[j].cardType == 0
               && 1 <= hand[i].value == hand[j].value <= 13 {
      assert Pair(hand, i, j);
    }
  }

  /** An Alpha of a value that the hand holds. */
  predicate RepeatsHeld(hand: seq<Card>, c: Card) {
    CanBust(c) && exists i :: 0 <= i < |hand| && CanBust(hand[i]) && hand[i].value == c.value
  }

  /** Drawing onto a duplicate-free hand busts exactly on a held Alpha value, and reports it. */
  lemma BustOnDraw(hand: seq<Card>, c: Card)
    requires NoDuplicate(hand)
    ensures CheckBust(hand + [c]) ==
      if RepeatsHeld(hand, c) then Some(c.value) else None
  {
    CheckBustMeaning(hand);
    assert (hand + [c])[..|hand|] == hand;
    assert forall i :: 0 <= i < |hand| ==> (hand + [c])[i] == hand[i];
  }

  /** The on-chain scan with its table of seen values. */
  method ScanForBust(hand: array<Card>, handSize: nat) returns (r: Option<Byte>)
    requires handSize <= hand.Length
    ensures r == CheckBust(hand[..handSize])
  {
    var seen := new bool[14](_ => false);
    for k := 0 to handSize
      invariant CheckBust(hand[..k]).None?
      invariant forall v :: 0 <= v < 14 ==> (seen[v] <==> exists i :: 0 <= i < k && CanBust(hand[i]) && hand[i].value == v)
    {
      var card := hand[k];
      assert hand[..k + 1][..k] == hand[..k];
      if card.cardType == ALPHA {
        var v := card.value;
        if v > 0 && v < 14 && seen[v] {
          BustStays(hand[..handSize], k + 1);
          assert hand[..handSize][..k + 1] == hand[..k + 1];
          return Some(card.value);
        }
        if v > 0 && v < 14 {
          seen[v] := true;
        }
      }
    }
    return None;
  }

  /** A bust found in a prefix is the bust of the whole hand. */
  lemma {:induction false} BustStays(hand: seq<Card>, k: nat)
    requires k <= |hand| && CheckBust(hand[..k]).Some?
    ensures CheckBust(hand) == CheckBust(hand[..k])
  {
    if k == |hand| {
      assert hand[..k] == hand;
    } else {
      assert hand[..|hand| - 1][..k] == hand[..k];
      BustStays(hand[..|hand| - 1], k);
    }
  }
}
