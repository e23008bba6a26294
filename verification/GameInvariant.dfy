/** The shape every reachable game keeps, from initialize to close_game. */
module GameInvariant {
  import opened Cards
  import opened Scoring
  import opened Ledger
  import opened GameSpec
  import opened Options
  import opened Numbers
  import opened Sequences

  ghost predicate PlayerOk(p: Player) {
    && |p.hand| <= MAX_HAND_SIZE
    && (p.isActive <==> p.reason == Active)
    && (p.score != 0 ==> p.reason == Stayed)
    && (p.bustValue != 0 ==> p.reason == Bust)
  }

  ghost predicate SeatsOk(g: Game) {
    && |g.order| <= MAX_PLAYERS
    && Distinct(g.order)
    && ZERO_KEY !in g.order
    && (forall k :: k in g.players <==> k in g.order)
  }

  ghost predicate RoundOk(g: Game) {
    && (g.roundActive ==> g.open && g.deckCommitted && |g.order| >= 2 && g.turn < |g.order|)
    && (!g.roundActive ==> g.drawCounter == 0)
    && g.drawCounter <= DECK_SIZE
    && g.rollover <= MAX_ROLLOVERS
    && g.feeBps <= MAX_FEE_BPS
    && g.authority != ZERO_KEY
    && g.round <= U64_MAX
  }

  ghost predicate PlayersOk(g: Game) {
    forall k :: k in g.players ==> PlayerOk(g.players[k])
  }

  ghost predicate Inv(g: Game) {
    SeatsOk(g) && RoundOk(g) && PlayersOk(g)
  }

  /** A game as `initialize` leaves it. */
  predicate Initial(g: Game) {
    Initialize(g.authority, g.dealer, g.treasury, g.feeBps, g.wallets) == Ok(g)
  }

  lemma InitialInv(g: Game)
    requires Initial(g)
    ensures Inv(g)
  {
  }

  lemma JoinInv(g: Game, player: Key, stake: nat)
    requires Inv(g) && JoinRound(g, player, stake).Ok?
    ensures Inv(JoinRound(g, player, stake).game)
  {
  }

  lemma UnseatKeeps(order: seq<Key>, i: nat)
    requires Distinct(order) && i < |order|
    ensures Distinct(Without(order, i))
    ensures forall k :: k in Without(order, i) <==> k in order && k != order[i]
  {
    var rest := Without(order, i);
    assert forall j :: 0 <= j < |rest| ==> rest[j] == order[if j < i then j else j + 1];
    forall k | k in order && k != order[i] ensures k in rest {
      var j :| 0 <= j < |order| && order[j] == k;
      assert rest[if j < i then j else j - 1] == k;
    }
  }

  lemma LeaveInv(g: Game, player: Key)
    requires Inv(g) && LeaveGame(g, player).Ok?
    ensures Inv(LeaveGame(g, player).game)
  {
    if !g.roundActive { UnseatKeeps(g.order, SeatOf(g.order, player)); }
  }

  lemma StartInv(g: Game, signer: Key, accounts: seq<Key>)
    requires Inv(g) && StartRound(g, signer, accounts).Ok?
    ensures Inv(StartRound(g, signer, accounts).game)
  {
  }

  lemma TurnStays(g: Game)
    requires |g.order| > 0
    ensures NextTurn(g) < |g.order|
  {
  }

  /** One player's record changes, to another sound one. */
  lemma UpdateInv(g: Game, g': Game, k: Key, p: Player)
    requires Inv(g) && k in g.players && PlayerOk(p)
    requires g'.players == g.players[k := p] && g'.order == g.order && RoundOk(g')
    ensures Inv(g')
  {
  }

  lemma StayInv(g: Game, player: Key)
    requires Inv(g) && Stay(g, player).Ok?
    ensures Inv(Stay(g, player).game)
  {
    TurnStays(g);
    var g' := Stay(g, player).game;
    UpdateInv(g, g', player, g'.players[player]);
  }

  lemma ScryInv(g: Game, player: Key)
    requires Inv(g) && BurnScry(g, player).Ok?
    ensures Inv(BurnScry(g, player).game)
  {
  }

  lemma SecondChanceInv(g: Game, player: Key)
    requires Inv(g) && BurnSecondChance(g, player).Ok?
    ensures Inv(BurnSecondChance(g, player).game)
  {
  }

  /** A card effect changes hands and nothing else of any player. */
  lemma EffectMovesCards(players: map<Key, Player>, self: Key, effect: Byte, remaining: seq<Key>)
    requires self in players && ApplyEffect(players, self, effect, remaining).Some?
    ensures var after := ApplyEffect(players, self, effect, remaining).value;
            && after.Keys == players.Keys
            && forall k :: k in players ==> after[k] == players[k].(hand := after[k].hand)
  {
  }

  lemma EffectKeepsPlayers(players: map<Key, Player>, self: Key, effect: Byte, remaining: seq<Key>)
    requires self in players && (forall k :: k in players ==> PlayerOk(players[k]))
    requires ApplyEffect(players, self, effect, remaining).Some?
    ensures var after := ApplyEffect(players, self, effect, remaining).value;
            after.Keys == players.Keys && forall k :: k in after ==> PlayerOk(after[k])
  {
  }

  lemma HitInv(g: Game, player: Key, card: Card, leafIndex: Byte, proof: seq<Merkle.Hash>, remaining: seq<Key>)
    requires Inv(g) && Hit(g, player, card, leafIndex, proof, remaining).Ok?
    ensures Inv(Hit(g, player, card, leafIndex, proof, remaining).game)
  {
    var p := g.players[player];
    var hand := p.hand + [card];
    TurnStays(g);
    var g' := Hit(g, player, card, leafIndex, proof, remaining).game;
    if CheckBust(hand).Some? {
      UpdateInv(g, g', player, g'.players[player]);
    } else {
      var players := g.players[player := p.(hand := hand)];
      if card.cardType == PROTOCOL { EffectKeepsPlayers(players, player, card.value, remaining); }
    }
  }

  /** An accepted end of round: nobody plays any more, and it settles or rolls over. */
  lemma EndAccepted(g: Game, caller: Key, accounts: seq<Key>, winnerOk: bool, treasuryOk: bool)
    requires EndRound(g, caller, accounts, winnerOk, treasuryOk).Ok?
    ensures g.open && g.roundActive && Seated(g) && forall k :: k in g.order ==> !g.players[k].isActive
    ensures EndRound(g, caller, accounts, winnerOk, treasuryOk)
         == match Winner(g)
            case Some(i) => Settle(g, g.order[i], winnerOk, treasuryOk)
            case None => RollOver(g, treasuryOk)
  {
    hide Winner, Settle, RollOver, AccountsError;
    AccountsMatch(g.players, g.order, accounts);
  }

  lemma SettleInv(g: Game, winner: Key, winnerOk: bool, treasuryOk: bool)
    requires Inv(g) && Settle(g, winner, winnerOk, treasuryOk).Ok?
    ensures Inv(Settle(g, winner, winnerOk, treasuryOk).game)
  {
  }

  lemma EndInv(g: Game, caller: Key, accounts: seq<Key>, winnerOk: bool, treasuryOk: bool)
    requires Inv(g) && EndRound(g, caller, accounts, winnerOk, treasuryOk).Ok?
    ensures Inv(EndRound(g, caller, accounts, winnerOk, treasuryOk).game)
  {
    hide EndRound, Settle, Winner;
    EndAccepted(g, caller, accounts, winnerOk, treasuryOk);
    match Winner(g)
    case Some(i) => SettleInv(g, g.order[i], winnerOk, treasuryOk);
    case None =>
  }

  /** Calls that only touch the session account or token balances. */
  predicate IsAdmin(c: Call) {
    c.DoInitVault? || c.DoCloseGame? || c.DoCommitDeck? || c.DoEndRound? || c.DoTransfer? || c.DoDonate?
  }

  lemma EndRoundClears(g: Game, c: Call)
    requires c.DoEndRound? && Step(g, c).Ok?
    ensures var g' := Next(g, c);
            && g'.players == g.players && g'.order == g.order && g'.root == g.root
            && !g'.roundActive && !g'.deckCommitted && g'.drawCounter == 0
  {
    hide EndRound, Winner, WinnerAmong;
    EndAccepted(g, c.caller, c.accounts, c.winnerAccountOk, c.treasuryAccountOk);
  }

  lemma AdminKeepsPlayers(g: Game, c: Call)
    requires IsAdmin(c)
    ensures Next(g, c).players == g.players && Next(g, c).order == g.order
    ensures Next(g, c).roundActive ==> g.roundActive && Next(g, c).drawCounter == g.drawCounter && Next(g, c).turn == g.turn
  {
    if c.DoEndRound? && Step(g, c).Ok? { EndRoundClears(g, c); }
    hide EndRound, ProofAccepted;
  }

  lemma NextKeepsInv(g: Game, c: Call)
    requires Inv(g)
    ensures Inv(Next(g, c))
  {
    if Step(g, c).Ok? {
      match c
      case DoJoinRound(player, stake) => JoinInv(g, player, stake);
      case DoLeaveGame(player) => LeaveInv(g, player);
      case DoStartRound(signer, accounts) => StartInv(g, signer, accounts);
      case DoHit(player, card, leafIndex, proof, remaining) => HitInv(g, player, card, leafIndex, proof, remaining);
      case DoStay(player) => StayInv(g, player);
      case DoBurnScry(player) => ScryInv(g, player);
      case DoBurnSecondChance(player) => SecondChanceInv(g, player);
      case DoEndRound(caller, accounts, winnerOk, treasuryOk) => EndInv(g, caller, accounts, winnerOk, treasuryOk);
      case _ =>
    }
  }

  /** Every reachable state is sound: any calls, by anyone, in any order, accepted or refused. */
  lemma {:induction false} RunKeepsInv(g: Game, calls: seq<Call>)
    requires Initial(g)
    ensures Inv(Run(g, calls))
  {
    if calls == [] {
      InitialInv(g);
    } else {
      RunKeepsInv(g, calls[..|calls| - 1]);
      NextKeepsInv(Run(g, calls[..|calls| - 1]), calls[|calls| - 1]);
    }
  }
}
