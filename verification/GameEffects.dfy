/** What an accepted call changes, in positions, balances and bytes, and that it changes nothing else. */
module GameEffects {
  import opened Options
  import opened Sequences
  import opened Numbers
  import opened Cards
  import opened Scoring
  import opened Ledger
  import opened GameSpec
  import opened GameInvariant
  import opened GameCards
  import opened GameTokens
  import opened GameRounds
  import opened GameTurns

  /** No player but `k` changes. */
  ghost predicate OnlyPlayer(g: Game, g': Game, k: Key) {
    && k in g.players && g'.players.Keys == g.players.Keys
    && forall j :: j in g.players && j != k ==> g'.players[j] == g.players[j]
  }

  /** `k` pays `amount`, and no other balance changes. */
  ghost predicate Pays(w: Wallets, w': Wallets, k: Key, amount: nat) {
    forall j: Key :: Balance(w', j) + (if j == k then amount else 0) == Balance(w, j)
  }

  // ---------------------------------------------------------------------
  // Set-up and seats
  // ---------------------------------------------------------------------

  lemma InitialState(g: Game)
    requires Initial(g)
    ensures g.open && g.order == [] && g.players == map[] && g.turn == 0 && !g.roundActive && g.round == 0
    ensures g.pot == 0 && g.vault == 0 && g.burned == 0 && g.rollover == 0 && g.drawCounter == 0
    ensures !g.deckCommitted && !g.vaultReady && g.feeBps < 10_000
  {
  }

  lemma JoinEffects(g: Game, player: Key, stake: nat)
    requires Inv(g) && JoinRound(g, player, stake).Ok?
    ensures var g', paid := JoinRound(g, player, stake).game, if g.vaultReady then stake else 0;
            && g' == g.(order := g'.order, players := g'.players, wallets := g'.wallets, vault := g'.vault, pot := g'.pot)
            && player !in g.order && g'.order == g.order + [player]
            && g'.players.Keys == g.players.Keys + {player}
            && (forall j :: j in g.players ==> g'.players[j] == g.players[j])
            && g'.players[player].hand == [] && g'.players[player].isActive && g'.players[player].score == 0
            && !g'.players[player].usedSecondChance && !g'.players[player].usedScry
            && g'.players[player].staked == paid
            && Pays(g.wallets, g'.wallets, player, paid) && g'.vault == g.vault + paid && g'.pot == g.pot + paid
  {
  }

  /** Between rounds the seat is given up, and the remaining seats keep their order. */
  lemma LeaveEffects(g: Game, player: Key)
    requires Inv(g) && !g.roundActive && LeaveGame(g, player).Ok?
    ensures var g' := LeaveGame(g, player).game;
            && g' == g.(order := g'.order, players := g'.players)
            && g'.players == g.players - {player}
            && |g'.order| == |g.order| - 1 && player !in g'.order
            && (forall x :: x in g'.order <==> x in g.order && x != player)
            && forall x, y :: x != player && y != player ==> (Precedes(g'.order, x, y) <==> Precedes(g.order, x, y))
  {
    var g', i := LeaveGame(g, player).game, SeatOf(g.order, player);
    UnseatKeeps(g.order, i);
    WithoutAt(g.order, i, 0);
    hide LeaveGame, Inv, Precedes, Without, Distinct;
    forall x: Key, y: Key | x != player && y != player
      ensures Precedes(Without(g.order, i), x, y) <==> Precedes(g.order, x, y)
    {
      WithoutKeepsOrder(g.order, i, x, y);
    }
  }

  /** In a round the player keeps hand, stake and burns, and is out without a score. */
  lemma ForfeitEffects(g: Game, player: Key)
    requires Inv(g) && g.roundActive && LeaveGame(g, player).Ok?
    ensures var g' := LeaveGame(g, player).game;
            && g' == g.(players := g'.players) && OnlyPlayer(g, g', player)
            && var p, p' := g.players[player], g'.players[player];
               && !p'.isActive && p'.reason == Bust && p'.score == 0
               && p'.hand == p.hand && p'.staked == p.staked && p'.bustValue == p.bustValue
               && p'.usedSecondChance == p.usedSecondChance && p'.usedScry == p.usedScry
  {
  }

  lemma AdminEffects(g: Game, c: Call)
    requires (c.DoInitVault? || c.DoCloseGame? || c.DoCommitDeck?) && Step(g, c).Ok?
    ensures var g' := Next(g, c);
            match c
            case DoInitVault(_) => g' == g.(vaultReady := true)
            case DoCloseGame(_) => g' == g.(open := false)
            case _ => g' == g.(root := c.root, deckCommitted := true, drawCounter := 0)
  {
    hide ProofAccepted;
  }

  /** Only money, rollovers and the flags of the round change. */
  ghost predicate OnlySettles(g: Game, g': Game) {
    g' == g.(vault := g'.vault, wallets := g'.wallets, pot := g'.pot, rollover := g'.rollover,
             roundActive := false, deckCommitted := false, drawCounter := 0)
  }

  lemma SettleEffects(g: Game, winner: Key, winnerOk: bool, treasuryOk: bool)
    ensures Settle(g, winner, winnerOk, treasuryOk).Ok? ==> OnlySettles(g, Settle(g, winner, winnerOk, treasuryOk).game)
    ensures RollOver(g, treasuryOk).Ok? ==> OnlySettles(g, RollOver(g, treasuryOk).game)
  {
  }

  lemma EndEffects(g: Game, c: Call)
    requires c.DoEndRound? && Step(g, c).Ok?
    ensures OnlySettles(g, Next(g, c))
  {
    hide EndRound, Winner, WinnerAmong, Settle, RollOver, OnlySettles;
    EndAccepted(g, c.caller, c.accounts, c.winnerAccountOk, c.treasuryAccountOk);
    SettleEffects(g, if Winner(g).Some? then g.order[Winner(g).value] else 0, c.winnerAccountOk, c.treasuryAccountOk);
  }

  // ---------------------------------------------------------------------
  // The start of a round
  // ---------------------------------------------------------------------

  ghost predicate FreshFor(p: Player, before: Player) {
    && p.hand == [] && p.isActive && p.reason == Active && p.bustValue == 0 && p.score == 0
    && !p.usedSecondChance && !p.usedScry && p.staked == before.staked
  }

  lemma {:induction false} FullWeights(players: map<Key, Player>, order: seq<Key>)
    requires forall k :: k in order ==> k in players && players[k].isActive && players[k].reason == Active
                                        && !players[k].usedSecondChance && !players[k].usedScry
    ensures SeatWeights(players, order) == 6 * |order|
  {
    if order != [] { FullWeights(players, order[1..]); }
  }

  /** Everybody starts afresh with both burns and the stake, and the round has its full weight. */
  lemma StartEffects(g: Game, c: Call)
    requires Inv(g) && c.DoStartRound? && Step(g, c).Ok?
    ensures var g' := Next(g, c);
            && g' == g.(players := g'.players, roundActive := true, turn := 0, round := g'.round)
            && g'.round == (if g.round < U64_MAX then g.round + 1 else U64_MAX)
            && g'.players.Keys == g.players.Keys
            && (forall k :: k in g.order ==> k in g.players && FreshFor(g'.players[k], g.players[k]))
            && Seated(g') && g'.drawCounter == 0 && Weight(g') == 94 + 6 * |g.order|
  {
    hide AccountsError;
    FullWeights(Next(g, c).players, g.order);
  }

  // ---------------------------------------------------------------------
  // Stay and the burns
  // ---------------------------------------------------------------------

  lemma StayEffects(g: Game, player: Key)
    requires Inv(g) && Stay(g, player).Ok?
    ensures var g' := Stay(g, player).game;
            && g' == g.(players := g'.players, turn := g'.turn) && OnlyPlayer(g, g', player)
            && g'.turn == (if g.turn + 1 == |g.order| then 0 else g.turn + 1)
            && var p, p' := g.players[player], g'.players[player];
               && !p'.isActive && p'.reason == Stayed && p'.score == HandScore(p.hand)
               && p'.hand == p.hand && p'.staked == p.staked && p'.bustValue == p.bustValue
               && p'.usedSecondChance == p.usedSecondChance && p'.usedScry == p.usedScry
  {
    NextSeat(g);
    hide HandScore, NextTurn;
  }

  lemma ScryEffects(g: Game, player: Key)
    requires Inv(g) && BurnScry(g, player).Ok?
    ensures var g' := BurnScry(g, player).game;
            && g' == g.(players := g'.players, wallets := g'.wallets, burned := g.burned + 25_000_000_000)
            && OnlyPlayer(g, g', player) && Pays(g.wallets, g'.wallets, player, 25_000_000_000)
            && g'.players[player] == g.players[player].(usedScry := true)
  {
  }

  /** The last card goes, the others stay where they are, and the player is back in. */
  lemma SecondChanceEffects(g: Game, player: Key)
    requires Inv(g) && BurnSecondChance(g, player).Ok?
    ensures var g' := BurnSecondChance(g, player).game;
            && g' == g.(players := g'.players, wallets := g'.wallets, burned := g.burned + 50_000_000_000)
            && OnlyPlayer(g, g', player) && Pays(g.wallets, g'.wallets, player, 50_000_000_000)
            && var p, p' := g.players[player], g'.players[player];
               && p'.hand <= p.hand && |p'.hand| == (if |p.hand| > 0 then |p.hand| - 1 else 0)
               && p'.isActive && p'.reason == Active && p'.bustValue == 0 && p'.score == 0
               && p'.usedSecondChance && p'.usedScry == p.usedScry && p'.staked == p.staked
  {
    assert PlayerOk(g.players[player]) by { hide PlayerOk; }
  }

  // ---------------------------------------------------------------------
  // Hit, by the bytes of the card
  // ---------------------------------------------------------------------

  /** The drawer holds the drawn card last. */
  ghost predicate Draws(g: Game, g': Game, c: Call)
    requires c.DoHit?
  {
    && c.player in g.players && c.player in g'.players
    && g'.players[c.player].hand == g.players[c.player].hand + [c.card]
  }

  lemma HitFrame(g: Game, c: Call)
    requires Inv(g) && c.DoHit? && Step(g, c).Ok?
    ensures var g' := Next(g, c);
            g' == g.(players := g'.players, turn := g'.turn, drawCounter := g.drawCounter + 1)
  {
    hide CheckBust, ApplyEffect, Merkle.Verifies;
  }

  /** A drawn card that busts the hand puts its player out, with the repeated value on record. */
  lemma BustingHit(g: Game, c: Call)
    requires Inv(g) && c.DoHit? && Step(g, c).Ok? && CheckBust(g.players[c.player].hand + [c.card]).Some?
    ensures var g' := Next(g, c);
            && OnlyPlayer(g, g', c.player) && Draws(g, g', c)
            && !g'.players[c.player].isActive && g'.players[c.player].reason == Bust
            && g'.players[c.player].bustValue == CheckBust(g.players[c.player].hand + [c.card]).value
            && g'.turn == (if g.turn + 1 == |g.order| then 0 else g.turn + 1)
  {
    HitStanding(g, c);
    HitOutcome(g, c);
    NextSeat(g);
    hide Next, Step, CheckBust, PlayerWeight, Inv, NextTurn;
  }

  predicate HasEffect(card: Card) {
    card.cardType == 1 && (card.value == 0 || card.value == 2)
  }

  /** Any other card than a rug pull or a vampire just joins the hand. */
  lemma PlainHit(g: Game, c: Call)
    requires Inv(g) && c.DoHit? && Step(g, c).Ok? && CheckBust(g.players[c.player].hand + [c.card]).None?
    requires !HasEffect(c.card)
    ensures var g' := Next(g, c);
            OnlyPlayer(g, g', c.player) && Draws(g, g', c) && g'.players[c.player].isActive && g'.turn == g.turn
  {
    HitStanding(g, c);
    HitOutcome(g, c);
    hide Next, Step, CheckBust, FindTarget;
  }

  /** Nothing but the hands of drawer and target changes. */
  ghost predicate Meets(g: Game, g': Game, self: Key, target: Key) {
    && self in g.players && target in g.players && target != self && g.players[target].isActive
    && g'.players.Keys == g.players.Keys
    && forall k :: k in g.players ==>
         g'.players[k] == (if k == self || k == target then g.players[k].(hand := g'.players[k].hand) else g.players[k])
  }

  /** Whom an effect hits: the first account passed that is active and not the drawer. */
  function Target(g: Game, c: Call): Option<Key>
    requires c.DoHit?
  {
    FindTarget(g.players, c.player, c.remaining)
  }

  lemma {:induction false} TargetOfDrawn(players: map<Key, Player>, self: Key, p: Player, remaining: seq<Key>)
    requires self in players
    ensures FindTarget(players[self := p], self, remaining) == FindTarget(players, self, remaining)
  {
    if remaining != [] { TargetOfDrawn(players, self, p, remaining[1..]); }
  }

  /** `hand` lost the card at `i`, and the cards behind it moved up in order. */
  ghost predicate LostAt(hand: seq<Card>, hand': seq<Card>, i: nat)
  {
    && i < |hand| && |hand'| == |hand| - 1
    && (forall k :: 0 <= k < i ==> hand'[k] == hand[k])
    && (forall k :: i <= k < |hand'| ==> hand'[k] == hand[k + 1])
  }

  /** The card at `i` is the first of the Alphas of the highest value. */
  ghost predicate FirstHighest(hand: seq<Card>, i: nat) {
    && i < |hand| && hand[i].cardType == 0 && hand[i].value > 0
    && forall j :: 0 <= j < |hand| && hand[j].cardType == 0 ==>
         hand[j].value <= hand[i].value && (j < i ==> hand[j].value < hand[i].value)
  }

  ghost predicate Pulled(hand: seq<Card>, hand': seq<Card>) {
    if exists i: nat :: FirstHighest(hand, i)
    then exists i: nat :: FirstHighest(hand, i) && LostAt(hand, hand', i)
    else hand' == hand
  }

  lemma PullInPositions(hand: seq<Card>)
    ensures match HighestAlpha(hand)
            case Some(i) => Pulled(hand, Without(hand, i))
            case None => Pulled(hand, hand)
  {
    HighestAlphaMeaning(hand);
    var best := HighestAlpha(hand);
    hide HighestAlpha;
    if best.Some? {
      assert FirstHighest(hand, best.value);
      assert LostAt(hand, Without(hand, best.value), best.value);
    }
  }

  lemma PullEffect(players: map<Key, Player>, self: Key, remaining: seq<Key>)
    requires self in players && FindTarget(players, self, remaining).Some?
    ensures var t := FindTarget(players, self, remaining).value;
            var after := ApplyEffect(players, self, 0, remaining);
            && after.Some? && after.value.Keys == players.Keys
            && (forall k :: k in players && k != t ==> after.value[k] == players[k])
            && after.value[t] == players[t].(hand := after.value[t].hand) && Pulled(players[t].hand, after.value[t].hand)
  {
    PullInPositions(players[FindTarget(players, self, remaining).value].hand);
    hide FindTarget, HighestAlpha, Pulled, Without;
  }

  /** A drawn protocol card of value 0 takes the target's first highest Alpha out of play; without target or Alpha, nothing. */
  lemma RugPullHit(g: Game, c: Call)
    requires Inv(g) && c.DoHit? && Step(g, c).Ok? && CheckBust(g.players[c.player].hand + [c.card]).None?
    requires c.card.cardType == 1 && c.card.value == 0
    ensures Draws(g, Next(g, c), c) && Next(g, c).turn == g.turn
    ensures Target(g, c).None? ==> OnlyPlayer(g, Next(g, c), c.player)
    ensures Target(g, c).Some? ==>
              var g', t := Next(g, c), Target(g, c).value;
              Meets(g, g', c.player, t) && Pulled(g.players[t].hand, g'.players[t].hand)
  {
    var p := g.players[c.player];
    HitStanding(g, c);
    HitOutcome(g, c);
    TargetOfDrawn(g.players, c.player, p.(hand := p.hand + [c.card]), c.remaining);
    if Target(g, c).Some? {
      PullEffect(WithDrawn(g, c), c.player, c.remaining);
      hide ApplyEffect;
    }
    hide Next, Step, CheckBust, FindTarget, HighestAlpha, Inv, Pulled;
  }

  /** The last card of `loot`, if any, goes to the end of `hand`. */
  ghost predicate Stolen(hand: seq<Card>, hand': seq<Card>, loot: seq<Card>, loot': seq<Card>) {
    if loot == [] then hand' == hand && loot' == []
    else loot' == loot[..|loot| - 1] && hand' == hand + [loot[|loot| - 1]]
  }

  lemma StealEffect(players: map<Key, Player>, self: Key, remaining: seq<Key>)
    requires self in players && FindTarget(players, self, remaining).Some?
    requires ApplyEffect(players, self, 2, remaining).Some?
    ensures var t := FindTarget(players, self, remaining).value;
            var after := ApplyEffect(players, self, 2, remaining).value;
            && after.Keys == players.Keys
            && (forall k :: k in players && k != t && k != self ==> after[k] == players[k])
            && after[t] == players[t].(hand := after[t].hand) && after[self] == players[self].(hand := after[self].hand)
            && Stolen(players[self].hand, after[self].hand, players[t].hand, after[t].hand)
  {
    hide FindTarget;
  }

  lemma VampireSteals(g: Game, c: Call)
    requires Inv(g) && c.DoHit? && Step(g, c).Ok? && CheckBust(g.players[c.player].hand + [c.card]).None?
    requires c.card.cardType == 1 && c.card.value == 2 && Target(g, c).Some?
    ensures var g', t := Next(g, c), Target(g, c).value;
            && g'.turn == g.turn && Meets(g, g', c.player, t)
            && Stolen(g.players[c.player].hand + [c.card], g'.players[c.player].hand, g.players[t].hand, g'.players[t].hand)
  {
    var p := g.players[c.player];
    HitStanding(g, c);
    HitOutcome(g, c);
    TargetOfDrawn(g.players, c.player, p.(hand := p.hand + [c.card]), c.remaining);
    StealEffect(WithDrawn(g, c), c.player, c.remaining);
    hide Next, Step, CheckBust, FindTarget, Inv, Stolen, ApplyEffect;
  }

  /** A drawn protocol card of value 2 moves the target's last card behind the drawn one; without target or card, nothing. */
  lemma VampireHit(g: Game, c: Call)
    requires Inv(g) && c.DoHit? && Step(g, c).Ok? && CheckBust(g.players[c.player].hand + [c.card]).None?
    requires c.card.cardType == 1 && c.card.value == 2
    ensures Next(g, c).turn == g.turn
    ensures Target(g, c).None? ==> OnlyPlayer(g, Next(g, c), c.player) && Draws(g, Next(g, c), c)
    ensures Target(g, c).Some? ==>
              var g', t := Next(g, c), Target(g, c).value;
              && Meets(g, g', c.player, t)
              && Stolen(g.players[c.player].hand + [c.card], g'.players[c.player].hand, g.players[t].hand, g'.players[t].hand)
  {
    var p := g.players[c.player];
    HitStanding(g, c);
    if Target(g, c).Some? {
      VampireSteals(g, c);
    } else {
      HitOutcome(g, c);
      TargetOfDrawn(g.players, c.player, p.(hand := p.hand + [c.card]), c.remaining);
    }
    hide Next, Step, CheckBust, FindTarget, Inv, Stolen;
  }
}
