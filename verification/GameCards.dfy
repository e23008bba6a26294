/** Where every drawn card is: conservation, busts and scores over whole runs. */
module GameCards {
  import opened Cards
  import opened Scoring
  import opened Merkle
  import opened Ledger
  import opened GameSpec
  import opened GameInvariant
  import opened Options
  import opened Numbers
  import opened Sequences
  import Shuffle

  /** A game with what its cards went through: the committed deck, the cards discarded
      in this round, and the players who received a stolen card in it. */
  datatype CardGame = CardGame(g: Game, deck: seq<Card>, discarded: multiset<Card>, enriched: set<Key>)

  // ---------------------------------------------------------------------
  // What each call discards
  // ---------------------------------------------------------------------

  /** The card a drawn RugPull takes out of play. */
  function RugPulled(players: map<Key, Player>, self: Key, remaining: seq<Key>): multiset<Card> {
    match FindTarget(players, self, remaining)
    case None => multiset{}
    case Some(target) =>
      match HighestAlpha(players[target].hand)
      case None => multiset{}
      case Some(i) => multiset{players[target].hand[i]}
  }

  /** Whether a drawn VampireAttack steals a card. */
  predicate Steals(players: map<Key, Player>, self: Key, remaining: seq<Key>) {
    var target := FindTarget(players, self, remaining);
    target.Some? && players[target.value].hand != []
  }

  function LastCard(hand: seq<Card>): multiset<Card> {
    if hand == [] then multiset{} else multiset{hand[|hand| - 1]}
  }

  predicate IsEffect(g: Game, c: Call, effect: Byte)
    requires c.DoHit? && c.player in g.players
  {
    && c.card.cardType == PROTOCOL && c.card.value == effect
    && CheckBust(g.players[c.player].hand + [c.card]).None?
  }

  /** The players just after the drawn card went into the hand. */
  function WithDrawn(g: Game, c: Call): map<Key, Player>
    requires c.DoHit? && c.player in g.players
  {
    var p := g.players[c.player];
    g.players[c.player := p.(hand := p.hand + [c.card])]
  }

  function Discards(g: Game, c: Call): multiset<Card> {
    match c
    case DoHit(player, _, _, _, remaining) =>
      if player in g.players && IsEffect(g, c, RUG_PULL) then RugPulled(WithDrawn(g, c), player, remaining) else multiset{}
    case DoBurnSecondChance(player) =>
      if player in g.players then LastCard(g.players[player].hand) else multiset{}
    case _ => multiset{}
  }

  ghost function NextCards(w: CardGame, c: Call): CardGame {
    if Step(w.g, c).Err? then w else
      var g' := Next(w.g, c);
      match c
      case DoCommitDeck(_, _, shuffle) => w.(g := g', deck := shuffle.deck)
      case DoStartRound(_, _) => w.(g := g', discarded := multiset{}, enriched := {})
      case DoHit(player, _, _, _, remaining) =>
        w.(g := g',
           discarded := w.discarded + Discards(w.g, c),
           enriched := if IsEffect(w.g, c, VAMPIRE_ATTACK) && Steals(WithDrawn(w.g, c), player, remaining)
                       then w.enriched + {player} else w.enriched)
      case DoBurnSecondChance(_) => w.(g := g', discarded := w.discarded + Discards(w.g, c))
      case _ => w.(g := g')
  }

  ghost function RunCards(w: CardGame, calls: seq<Call>): CardGame {
    if calls == [] then w else NextCards(RunCards(w, calls[..|calls| - 1]), calls[|calls| - 1])
  }

  function NewCardGame(g: Game): CardGame {
    CardGame(g, [], multiset{}, {})
  }

  // ---------------------------------------------------------------------
  // All hands together
  // ---------------------------------------------------------------------

  function Hands(players: map<Key, Player>, order: seq<Key>): multiset<Card>
    requires forall k :: k in order ==> k in players
  {
    if order == [] then multiset{} else multiset(players[order[0]].hand) + Hands(players, order[1..])
  }

  lemma {:induction false} HandsSame(players: map<Key, Player>, players': map<Key, Player>, order: seq<Key>)
    requires forall k :: k in order ==> k in players && k in players' && players[k].hand == players'[k].hand
    ensures Hands(players, order) == Hands(players', order)
  {
    if order != [] { HandsSame(players, players', order[1..]); }
  }

  lemma Regroup(first: multiset<Card>, rest: multiset<Card>, rest': multiset<Card>, x: multiset<Card>, y: multiset<Card>)
    requires rest' + x == rest + y
    ensures (first + rest') + x == (first + rest) + y
  {
    assert (first + rest') + x == first + (rest' + x);
    assert (first + rest) + y == first + (rest + y);
  }

  lemma Cancel(h': multiset<Card>, v: multiset<Card>, h: multiset<Card>, v': multiset<Card>, c: multiset<Card>)
    requires h' + v == h + v' && v' + c == v
    ensures h' + c == h
  {
    forall x ensures (h' + c)[x] == h[x] {
      assert (h' + v)[x] == (h + v')[x] && (v' + c)[x] == v[x];
    }
  }

  /** Replacing one hand replaces its cards in the sum. */
  lemma {:induction false} HandsUpdate(players: map<Key, Player>, order: seq<Key>, k: Key, p: Player)
    requires (forall j :: j in order ==> j in players) && Distinct(order) && k in order
    ensures Hands(players[k := p], order) + multiset(players[k].hand) == Hands(players, order) + multiset(p.hand)
  {
    var players' := players[k := p];
    if order[0] == k {
      HandsSame(players, players', order[1..]);
    } else {
      HandsUpdate(players, order[1..], k, p);
      Regroup(multiset(players[order[0]].hand), Hands(players, order[1..]), Hands(players', order[1..]),
              multiset(players[k].hand), multiset(p.hand));
    }
  }

  lemma {:induction false} HandsEmpty(players: map<Key, Player>, order: seq<Key>)
    requires forall k :: k in order ==> k in players && players[k].hand == []
    ensures Hands(players, order) == multiset{}
  {
    if order != [] { HandsEmpty(players, order[1..]); }
  }

  lemma {:induction false} HandBelowHands(players: map<Key, Player>, order: seq<Key>, k: Key)
    requires (forall j :: j in order ==> j in players) && k in order
    ensures multiset(players[k].hand) <= Hands(players, order)
  {
    if order[0] != k { HandBelowHands(players, order[1..], k); }
  }

  // ---------------------------------------------------------------------
  // Conservation
  // ---------------------------------------------------------------------

  ghost predicate DeckHeld(w: CardGame) {
    w.g.deckCommitted ==> Shuffle.IsShuffleOfDeck(w.deck) && DeckRoot(w.deck) == w.g.root
  }

  /** Hands and discards together are exactly the cards drawn so far. */
  ghost predicate Conserved(w: CardGame) {
    w.g.roundActive ==>
      && Seated(w.g) && w.g.drawCounter <= |w.deck|
      && Hands(w.g.players, w.g.order) + w.discarded == multiset(w.deck[..w.g.drawCounter])
  }

  ghost predicate CardInv(w: CardGame) {
    Inv(w.g) && DeckHeld(w) && Conserved(w)
  }

  lemma PoppedCards(hand: seq<Card>)
    ensures multiset(Popped(hand)) + LastCard(hand) == multiset(hand)
  {
    if hand != [] { assert hand == Popped(hand) + [hand[|hand| - 1]]; }
  }

  ghost predicate Table(players: map<Key, Player>, order: seq<Key>) {
    (forall k :: k in players <==> k in order) && Distinct(order)
  }

  lemma PullConserves(players: map<Key, Player>, order: seq<Key>, target: Key, i: nat)
    requires Table(players, order) && target in players && i < |players[target].hand|
    ensures var victim := players[target];
            Hands(players[target := victim.(hand := Without(victim.hand, i))], order) + multiset{victim.hand[i]}
            == Hands(players, order)
  {
    var victim := players[target];
    var robbed := victim.(hand := Without(victim.hand, i));
    HandsUpdate(players, order, target, robbed);
    WithoutOne(victim.hand, i);
    Cancel(Hands(players[target := robbed], order), multiset(victim.hand), Hands(players, order),
           multiset(robbed.hand), multiset{victim.hand[i]});
  }

  lemma StealConserves(players: map<Key, Player>, order: seq<Key>, target: Key, self: Key)
    requires Table(players, order) && target in players && self in players && self != target
    requires players[target].hand != []
    ensures var victim, thief := players[target], players[self];
            var stolen := victim.hand[|victim.hand| - 1];
            Hands(players[target := victim.(hand := Popped(victim.hand))][self := thief.(hand := thief.hand + [stolen])], order)
            == Hands(players, order)
  {
    var victim, thief := players[target], players[self];
    var stolen := victim.hand[|victim.hand| - 1];
    var robbed := victim.(hand := Popped(victim.hand));
    HandsUpdate(players, order, target, robbed);
    PoppedCards(victim.hand);
    Cancel(Hands(players[target := robbed], order), multiset(victim.hand), Hands(players, order),
           multiset(robbed.hand), multiset{stolen});
    DrawConserves(players[target := robbed], order, self, stolen);
  }

  /** An effect moves or discards cards, and loses none. */
  lemma EffectConserves(players: map<Key, Player>, order: seq<Key>, self: Key, effect: Byte, remaining: seq<Key>)
    requires Table(players, order) && self in players
    requires ApplyEffect(players, self, effect, remaining).Some?
    ensures var after := ApplyEffect(players, self, effect, remaining).value;
            && after.Keys == players.Keys
            && Hands(after, order) + (if effect == RUG_PULL then RugPulled(players, self, remaining) else multiset{})
            == Hands(players, order)
  {
    hide Hands, Popped, Without;
    var found := FindTarget(players, self, remaining);
    if found.Some? {
      var target := found.value;
      if effect == RUG_PULL {
        var best := HighestAlpha(players[target].hand);
        if best.Some? { PullConserves(players, order, target, best.value); }
      } else if effect == VAMPIRE_ATTACK && players[target].hand != [] {
        StealConserves(players, order, target, self);
      }
    }
  }

  lemma HitAccepted(g: Game, c: Call)
    requires c.DoHit? && Step(g, c).Ok?
    ensures g.open && g.roundActive && g.drawCounter == c.leafIndex < DECK_SIZE && c.player in g.players
    ensures |c.proof| == TREE_DEPTH && Verifies(c.card, c.leafIndex, c.proof, g.root)
    ensures Next(g, c).drawCounter == g.drawCounter + 1 && Next(g, c).roundActive && Next(g, c).order == g.order
  {
    hide ApplyEffect, CheckBust, Verifies;
  }

  /** The card an accepted hit reveals is the next card of the committed deck. */
  lemma DrawnFromDeck(g: Game, deck: seq<Card>, c: Call)
    requires |deck| == DECK_SIZE && DeckRoot(deck) == g.root
    requires c.DoHit? && Step(g, c).Ok?
    ensures c.card == deck[g.drawCounter]
  {
    hide Step, Next, Verifies, DeckRoot;
    HitAccepted(g, c);
    DeckVerifies(deck, c.card, c.leafIndex, c.proof);
  }

  lemma DrawConserves(players: map<Key, Player>, order: seq<Key>, k: Key, card: Card)
    requires Table(players, order) && k in players
    ensures Hands(players[k := players[k].(hand := players[k].hand + [card])], order)
         == Hands(players, order) + multiset{card}
  {
    var richer := players[k].(hand := players[k].hand + [card]);
    HandsUpdate(players, order, k, richer);
    Cancel(Hands(players, order), multiset(richer.hand), Hands(players[k := richer], order),
           multiset(players[k].hand), multiset{card});
  }

  lemma HitOutcome(g: Game, c: Call)
    requires c.DoHit? && Step(g, c).Ok?
    ensures c.player in g.players && Next(g, c).order == g.order
    ensures var drawn := WithDrawn(g, c);
            var p := drawn[c.player];
            match CheckBust(p.hand)
            case Some(v) =>
              Next(g, c).players == drawn[c.player := p.(isActive := false, reason := Bust, bustValue := v)]
            case None =>
              if c.card.cardType == PROTOCOL
              then ApplyEffect(drawn, c.player, c.card.value, c.remaining) == Some(Next(g, c).players)
              else Next(g, c).players == drawn
  {
    hide ApplyEffect, CheckBust, Verifies;
  }

  lemma HitDiscards(g: Game, c: Call)
    requires c.DoHit? && c.player in g.players
    ensures Discards(g, c) ==
      if CheckBust(WithDrawn(g, c)[c.player].hand).None? && c.card.cardType == PROTOCOL && c.card.value == RUG_PULL
      then RugPulled(WithDrawn(g, c), c.player, c.remaining)
      else multiset{}
  {
    hide CheckBust, RugPulled;
  }

  /** What becomes of the hands once the card is drawn. */
  lemma ResolveMoves(g: Game, c: Call, drawn: map<Key, Player>)
    requires Inv(g) && c.DoHit? && Step(g, c).Ok? && c.player in g.players
    requires drawn == WithDrawn(g, c) && Table(drawn, g.order)
    ensures Next(g, c).players.Keys == drawn.Keys
    ensures Hands(Next(g, c).players, g.order) + Discards(g, c) == Hands(drawn, g.order)
  {
    HitOutcome(g, c);
    HitDiscards(g, c);
    hide Next, Step, Hands, ApplyEffect, RugPulled, CheckBust, Inv, Discards, WithDrawn;
    var players := Next(g, c).players;
    if CheckBust(drawn[c.player].hand).Some? {
      HandsSame(drawn, players, g.order);
    } else if c.card.cardType == PROTOCOL {
      EffectConserves(drawn, g.order, c.player, c.card.value, c.remaining);
    }
  }

  /** Hands after an accepted hit, with its discard, are the hands before with the drawn card. */
  lemma HitMoves(g: Game, c: Call)
    requires Inv(g) && c.DoHit? && Step(g, c).Ok?
    ensures Next(g, c).order == g.order && Next(g, c).players.Keys == g.players.Keys
    ensures Hands(Next(g, c).players, g.order) + Discards(g, c) == Hands(g.players, g.order) + multiset{c.card}
  {
    HitOutcome(g, c);
    hide Next, Step, Hands, Discards, CheckBust, PlayersOk, RoundOk;
    DrawConserves(g.players, g.order, c.player, c.card);
    ResolveMoves(g, c, WithDrawn(g, c));
  }

  lemma HitConserves(w: CardGame, c: Call)
    requires CardInv(w) && c.DoHit? && Step(w.g, c).Ok?
    ensures Conserved(NextCards(w, c))
  {
    hide Hands, Discards, Step, Next, IsEffect, Steals, CanonicalDeck, DeckRoot;
    HitAccepted(w.g, c);
    DrawnFromDeck(w.g, w.deck, c);
    assert w.deck[..w.g.drawCounter + 1] == w.deck[..w.g.drawCounter] + [c.card];
    HitMoves(w.g, c);
    var g' := Next(w.g, c);
    assert Hands(g'.players, g'.order) + (w.discarded + Discards(w.g, c))
        == (Hands(g'.players, g'.order) + Discards(w.g, c)) + w.discarded;
  }

  /** A call that changes one hand, and discards what that hand lost. */
  lemma OneHandConserves(w: CardGame, w': CardGame, k: Key, gone: multiset<Card>)
    requires CardInv(w) && w.g.roundActive && k in w.g.players && k in w'.g.players
    requires w'.g.players == w.g.players[k := w'.g.players[k]]
    requires w'.g.order == w.g.order && w'.g.drawCounter == w.g.drawCounter
    requires w'.deck == w.deck && w'.discarded == w.discarded + gone
    requires multiset(w'.g.players[k].hand) + gone == multiset(w.g.players[k].hand)
    ensures Conserved(w')
  {
    hide Hands;
    HandsUpdate(w.g.players, w.g.order, k, w'.g.players[k]);
    var before, after := Hands(w.g.players, w.g.order), Hands(w'.g.players, w'.g.order);
    Cancel(after, multiset(w.g.players[k].hand), before, multiset(w'.g.players[k].hand), gone);
    assert after + (w.discarded + gone) == (after + gone) + w.discarded;
  }

  lemma StartConserves(w: CardGame, c: Call)
    requires CardInv(w) && c.DoStartRound? && Step(w.g, c).Ok?
    ensures Conserved(NextCards(w, c))
  {
    var g' := Next(w.g, c);
    HandsEmpty(g'.players, g'.order);
    assert w.deck[..0] == [];
  }

  lemma SecondChanceConserves(w: CardGame, c: Call)
    requires CardInv(w) && c.DoBurnSecondChance? && Step(w.g, c).Ok?
    ensures Conserved(NextCards(w, c))
  {
    hide Hands, Conserved;
    PoppedCards(w.g.players[c.player].hand);
    OneHandConserves(w, NextCards(w, c), c.player, LastCard(w.g.players[c.player].hand));
  }

  /** Leave, stay and scry touch no card. */
  lemma QuietConserves(w: CardGame, c: Call)
    requires CardInv(w) && (c.DoLeaveGame? || c.DoStay? || c.DoBurnScry?) && Step(w.g, c).Ok?
    ensures Conserved(NextCards(w, c))
  {
    hide Hands;
    if w.g.roundActive { OneHandConserves(w, NextCards(w, c), c.player, multiset{}); }
  }

  predicate MovesCards(c: Call) {
    c.DoLeaveGame? || c.DoStartRound? || c.DoHit? || c.DoStay? || c.DoBurnScry? || c.DoBurnSecondChance?
  }

  lemma JoinFindsNoRound(g: Game, c: Call)
    requires c.DoJoinRound? && Step(g, c).Ok?
    ensures !Next(g, c).roundActive
  {
  }

  lemma CommitFindsNoRound(g: Game, c: Call)
    requires c.DoCommitDeck? && Step(g, c).Ok?
    ensures !Next(g, c).roundActive
  {
    hide ProofAccepted;
  }

  lemma OthersConserve(w: CardGame, c: Call)
    requires CardInv(w) && Step(w.g, c).Ok? && !MovesCards(c)
    ensures Conserved(NextCards(w, c))
  {
    if c.DoCommitDeck? { CommitFindsNoRound(w.g, c); }
    hide Step, Next, Hands, Discards;
    if IsAdmin(c) { AdminKeepsPlayers(w.g, c); } else { JoinFindsNoRound(w.g, c); }
  }

  lemma NextConserves(w: CardGame, c: Call)
    requires CardInv(w) && Step(w.g, c).Ok?
    ensures Conserved(NextCards(w, c))
  {
    hide Step, Next, NextCards, Conserved, DeckHeld;
    match c
    case DoLeaveGame(_) => QuietConserves(w, c);
    case DoStartRound(_, _) => StartConserves(w, c);
    case DoHit(_, _, _, _, _) => HitConserves(w, c);
    case DoStay(_) => QuietConserves(w, c);
    case DoBurnScry(_) => QuietConserves(w, c);
    case DoBurnSecondChance(_) => SecondChanceConserves(w, c);
    case _ => OthersConserve(w, c);
  }

  lemma NextKeepsCards(w: CardGame, c: Call)
    requires CardInv(w)
    ensures CardInv(NextCards(w, c)) && NextCards(w, c).g == Next(w.g, c)
  {
    NextKeepsInv(w.g, c);
    if Step(w.g, c).Ok? {
      NextConserves(w, c);
      NextKeepsDeck(w, c);
    }
  }

  lemma NextKeepsDeck(w: CardGame, c: Call)
    requires CardInv(w)
    ensures DeckHeld(NextCards(w, c))
  {
    hide Hit, Stay, EndRound, StartRound, LeaveGame, BurnScry, BurnSecondChance, JoinRound, Discards, DeckRoot;
    OnlyCommitSetsDeck(w.g, c);
  }

  /** No call but `commit_deck` changes the root or declares a deck committed. */
  lemma OnlyCommitSetsDeck(g: Game, c: Call)
    ensures Next(g, c).deckCommitted && !c.DoCommitDeck? ==> g.deckCommitted && Next(g, c).root == g.root
  {
    hide ApplyEffect, CheckBust, EndRound, AccountsError, HandScore, Verifies, ProofAccepted;
    if c.DoEndRound? && Step(g, c).Ok? { EndRoundClears(g, c); }
  }

  /** In every reachable state the cards in hands and discards are exactly the drawn prefix of the committed deck. */
  lemma {:induction false} CardsAreConserved(g: Game, calls: seq<Call>)
    requires Initial(g)
    ensures CardInv(RunCards(NewCardGame(g), calls))
    ensures RunCards(NewCardGame(g), calls).g == Run(g, calls)
  {
    if calls != [] {
      var init := calls[..|calls| - 1];
      CardsAreConserved(g, init);
      NextKeepsCards(RunCards(NewCardGame(g), init), calls[|calls| - 1]);
    }
  }
}
