/** Busts, duplicates and scores in every reachable state. */
module GameBusts {
  import opened Cards
  import opened Scoring
  import opened Ledger
  import opened GameSpec
  import opened GameInvariant
  import opened GameCards
  import opened Options
  import opened Numbers
  import opened Sequences

  const TOP_SCORE := 1_316_250

  // ---------------------------------------------------------------------
  // Hands and scores stay within the deck
  // ---------------------------------------------------------------------

  lemma PrefixBelowDeck(deck: seq<Card>, n: nat)
    requires n <= |deck|
    ensures multiset(deck[..n]) <= multiset(deck)
  {
    assert deck == deck[..n] + deck[n..];
  }

  /** While a round is on, every hand is part of the canonical deck. */
  lemma HandInDeck(w: CardGame, k: Key)
    requires CardInv(w) && w.g.roundActive && k in w.g.order
    ensures multiset(w.g.players[k].hand) <= multiset(CanonicalDeck())
  {
    hide CanonicalDeck, Merkle.DeckRoot, Hands;
    HandBelowHands(w.g.players, w.g.order, k);
    PrefixBelowDeck(w.deck, w.g.drawCounter);
  }

  ghost predicate ScoresOk(g: Game) {
    forall k :: k in g.players ==> g.players[k].score <= TOP_SCORE
  }

  /** A locked-in score is the score by the rules, never wrapped or saturated. */
  lemma StayScores(w: CardGame, player: Key)
    requires CardInv(w) && Stay(w.g, player).Ok?
    ensures var hand := w.g.players[player].hand;
            Stay(w.g, player).game.players[player].score == CountedScore(hand) <= TOP_SCORE
  {
    hide CanonicalDeck, CardInv, HandScore, CountedScore;
    StayAccepted(w, player);
    HandInDeck(w, player);
    ScoreIsExact(w.g.players[player].hand);
  }

  lemma StayAccepted(w: CardGame, player: Key)
    requires CardInv(w) && Stay(w.g, player).Ok?
    ensures w.g.roundActive && player in w.g.order && |w.g.players[player].hand| <= MAX_HAND_SIZE
  {
    hide DeckHeld, Conserved;
  }

  lemma HitKeepsScores(g: Game, c: Call)
    requires c.DoHit? && Step(g, c).Ok?
    ensures Next(g, c).players.Keys == g.players.Keys
    ensures forall k :: k in g.players ==> Next(g, c).players[k].score == g.players[k].score
  {
    hide CheckBust, ApplyEffect, Merkle.Verifies;
    if IsEffect(g, c, c.card.value) {
      EffectMovesCards(WithDrawn(g, c), c.player, c.card.value, c.remaining);
    }
  }

  /** Only `stay` locks a score in. */
  lemma OnlyStayScores(g: Game, c: Call, k: Key)
    requires Step(g, c).Ok? && !c.DoStay? && k in Next(g, c).players
    ensures Next(g, c).players[k].score == 0 || (k in g.players && Next(g, c).players[k].score == g.players[k].score)
  {
    if c.DoHit? {
      HitKeepsScores(g, c);
    } else if IsAdmin(c) {
      hide Step;
      AdminKeepsPlayers(g, c);
    } else {
      hide Hit, AccountsError;
    }
  }

  lemma NextKeepsScores(w: CardGame, c: Call)
    requires CardInv(w) && ScoresOk(w.g)
    ensures ScoresOk(Next(w.g, c))
  {
    hide CardInv;
    if Step(w.g, c).Ok? {
      forall k | k in Next(w.g, c).players ensures Next(w.g, c).players[k].score <= TOP_SCORE {
        if c.DoStay? {
          StayScores(w, c.player);
        } else {
          hide Step, Next;
          OnlyStayScores(w.g, c, k);
        }
      }
    }
  }

  // ---------------------------------------------------------------------
  // Bust bookkeeping
  // ---------------------------------------------------------------------

  /** No duplicate Alpha, but for the last card of a recorded bust. */
  ghost predicate CleanHand(p: Player) {
    if p.bustValue == 0 then NoDuplicate(p.hand) else p.hand != [] && NoDuplicate(Popped(p.hand))
  }

  ghost predicate BustOk(p: Player, enriched: bool) {
    && (p.bustValue != 0 ==> HoldsTwo(p.hand, p.bustValue))
    && (!enriched ==> CleanHand(p))
  }

  ghost predicate AllBustOk(players: map<Key, Player>, enriched: set<Key>) {
    forall k :: k in players ==> BustOk(players[k], k in enriched)
  }

  ghost predicate BustInv(w: CardGame) {
    w.g.roundActive ==> AllBustOk(w.g.players, w.enriched)
  }

  lemma PoppedClean(hand: seq<Card>)
    requires NoDuplicate(hand)
    ensures NoDuplicate(Popped(hand))
  {
    forall i, j | 0 <= i < j < |Popped(hand)| ensures !Pair(Popped(hand), i, j) {
      assert !Pair(hand, i, j);
    }
  }

  lemma WithoutClean(hand: seq<Card>, n: nat)
    requires NoDuplicate(hand) && n < |hand|
    ensures NoDuplicate(Without(hand, n))
  {
    var rest := Without(hand, n);
    forall i, j | 0 <= i < j < |rest| ensures !Pair(rest, i, j) {
      var i', j' := if i < n then i else i + 1, if j < n then j else j + 1;
      assert rest[i] == hand[i'] && rest[j] == hand[j'];
      assert !Pair(hand, i', j');
    }
  }

  /** The player who draws: bust or not, the record fits the new hand. */
  lemma DrawBustOk(p: Player, card: Card, enriched: bool)
    requires BustOk(p, enriched) && p.bustValue == 0
    ensures var hand := p.hand + [card];
            match CheckBust(hand)
            case Some(v) => BustOk(p.(hand := hand, isActive := false, reason := Bust, bustValue := v), enriched)
            case None => BustOk(p.(hand := hand), true) && NoDuplicate(hand)
  {
    CheckBustMeaning(p.hand + [card]);
    assert Popped(p.hand + [card]) == p.hand;
  }

  lemma EffectBustOk(players: map<Key, Player>, enriched: set<Key>, self: Key, effect: Byte, remaining: seq<Key>)
    requires AllBustOk(players, enriched) && self in players && players[self].bustValue == 0
    requires forall k :: k in players && players[k].isActive ==> players[k].bustValue == 0
    requires ApplyEffect(players, self, effect, remaining).Some?
    ensures AllBustOk(ApplyEffect(players, self, effect, remaining).value,
                      if effect == VAMPIRE_ATTACK && Steals(players, self, remaining) then enriched + {self} else enriched)
  {
    var found := FindTarget(players, self, remaining);
    if found.Some? {
      var victim := players[found.value];
      if effect == RUG_PULL && HighestAlpha(victim.hand).Some? {
        if NoDuplicate(victim.hand) { WithoutClean(victim.hand, HighestAlpha(victim.hand).value); }
      } else if effect == VAMPIRE_ATTACK && victim.hand != [] {
        if NoDuplicate(victim.hand) { PoppedClean(victim.hand); }
      }
    }
  }

  /** A steal is never checked for a bust: the thief stays active, with a duplicate exactly when the stolen
      card is an Alpha of a value already held. */
  lemma StealDuplicatesIff(players: map<Key, Player>, self: Key, remaining: seq<Key>)
    requires self in players && players[self].isActive && NoDuplicate(players[self].hand)
    requires Steals(players, self, remaining) && ApplyEffect(players, self, VAMPIRE_ATTACK, remaining).Some?
    ensures var thief := ApplyEffect(players, self, VAMPIRE_ATTACK, remaining).value[self];
            var loot := players[FindTarget(players, self, remaining).value].hand;
            var stolen := loot[|loot| - 1];
            && thief.isActive && thief.bustValue == players[self].bustValue
            && (!NoDuplicate(thief.hand) <==> RepeatsHeld(players[self].hand, stolen))
  {
    hide FindTarget, NoDuplicate, CheckBust;
    var loot := players[FindTarget(players, self, remaining).value].hand;
    var stolen := loot[|loot| - 1];
    BustOnDraw(players[self].hand, stolen);
    CheckBustMeaning(players[self].hand + [stolen]);
  }

  lemma HitBustOk(w: CardGame, c: Call)
    requires CardInv(w) && BustInv(w) && c.DoHit? && Step(w.g, c).Ok?
    ensures BustInv(NextCards(w, c))
  {
    hide ApplyEffect, CheckBust, BustOk, Conserved, DeckHeld, Steals, Discards;
    HitAccepted(w.g, c);
    var g := w.g;
    var p := g.players[c.player];
    assert PlayerOk(p);
    DrawBustOk(p, c.card, c.player in w.enriched);
    if CheckBust(p.hand + [c.card]).None? {
      DrawnBustOk(w, c);
      if c.card.cardType == PROTOCOL {
        EffectBustOk(WithDrawn(g, c), w.enriched, c.player, c.card.value, c.remaining);
      }
    }
  }

  lemma DrawnBustOk(w: CardGame, c: Call)
    requires CardInv(w) && w.g.roundActive && BustInv(w) && c.DoHit? && c.player in w.g.players
    requires w.g.players[c.player].bustValue == 0 && CheckBust(w.g.players[c.player].hand + [c.card]).None?
    ensures AllBustOk(WithDrawn(w.g, c), w.enriched)
  {
    DrawBustOk(w.g.players[c.player], c.card, c.player in w.enriched);
  }

  lemma SecondChanceBustOk(w: CardGame, c: Call)
    requires CardInv(w) && BustInv(w) && c.DoBurnSecondChance? && Step(w.g, c).Ok?
    ensures BustInv(NextCards(w, c))
    ensures c.player !in w.enriched ==> NoDuplicate(Next(w.g, c).players[c.player].hand)
  {
    hide Conserved, DeckHeld, Discards;
    var p := w.g.players[c.player];
    if c.player !in w.enriched && p.bustValue == 0 { PoppedClean(p.hand); }
  }

  lemma StartBustOk(w: CardGame, c: Call)
    requires CardInv(w) && c.DoStartRound? && Step(w.g, c).Ok?
    ensures BustInv(NextCards(w, c))
  {
    hide Conserved, DeckHeld;
  }

  lemma OthersBustOk(w: CardGame, c: Call)
    requires CardInv(w) && BustInv(w) && !c.DoHit? && !c.DoBurnSecondChance? && !c.DoStartRound? && Step(w.g, c).Ok?
    ensures BustInv(NextCards(w, c))
  {
    hide Conserved, DeckHeld, NoDuplicate, HoldsTwo, HandScore, Hit;
    if IsAdmin(c) {
      hide Step;
      AdminKeepsPlayers(w.g, c);
    }
  }

  lemma NextKeepsBusts(w: CardGame, c: Call)
    requires CardInv(w) && BustInv(w)
    ensures BustInv(NextCards(w, c))
  {
    hide Step, BustInv, CardInv;
    if Step(w.g, c).Ok? {
      if c.DoHit? {
        HitBustOk(w, c);
      } else if c.DoBurnSecondChance? {
        SecondChanceBustOk(w, c);
      } else if c.DoStartRound? {
        StartBustOk(w, c);
      } else {
        OthersBustOk(w, c);
      }
    }
  }

  lemma {:induction false} RunKeepsBusts(g: Game, calls: seq<Call>)
    requires Initial(g)
    ensures var w := RunCards(NewCardGame(g), calls);
            CardInv(w) && BustInv(w) && ScoresOk(w.g)
  {
    CardsAreConserved(g, calls);
    if calls != [] {
      var before := RunCards(NewCardGame(g), calls[..|calls| - 1]);
      RunKeepsBusts(g, calls[..|calls| - 1]);
      hide CardInv, BustInv, ScoresOk;
      NextKeepsCards(before, calls[|calls| - 1]);
      NextKeepsBusts(before, calls[|calls| - 1]);
      NextKeepsScores(before, calls[|calls| - 1]);
    }
  }

  /** What the records of a player in a running round mean, in every reachable state. */
  lemma ReachablePlayer(g: Game, calls: seq<Call>, k: Key)
    requires Initial(g)
    requires var w := RunCards(NewCardGame(g), calls); w.g.roundActive && k in w.g.order && k in w.g.players
    ensures var w := RunCards(NewCardGame(g), calls);
            var p := w.g.players[k];
            && w.g == Run(g, calls)
            && multiset(p.hand) <= multiset(CanonicalDeck())
            && p.score <= TOP_SCORE
            && (p.bustValue != 0 ==> !p.isActive && p.reason == Bust && HoldsTwo(p.hand, p.bustValue))
            && (k !in w.enriched && p.reason != Bust ==> NoDuplicate(p.hand))
            && (k !in w.enriched ==> NoDuplicate(Revived(p).hand))
  {
    hide CanonicalDeck, Conserved, DeckHeld, Merkle.DeckRoot;
    CardsAreConserved(g, calls);
    RunKeepsBusts(g, calls);
    var w := RunCards(NewCardGame(g), calls);
    HandInDeck(w, k);
    assert PlayerOk(w.g.players[k]) && BustOk(w.g.players[k], k in w.enriched);
    if k !in w.enriched && w.g.players[k].bustValue == 0 { PoppedClean(w.g.players[k].hand); }
  }
}
