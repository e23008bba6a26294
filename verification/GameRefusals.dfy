/** Why a call is refused: the only failures from a reachable state, in the order they are found. */
module GameRefusals {
  import opened Options
  import opened Numbers
  import opened Cards
  import opened Scoring
  import opened Merkle
  import opened Ledger
  import opened GameSpec
  import opened GameInvariant
  import opened GameCards
  import opened GameTokens

  /** Why a player who is not at the turn, or out of the round, may not act. */
  function TurnRefusal(g: Game, player: Key): Option<Error>
    requires g.roundActive ==> g.turn < |g.order|
    requires player in g.players
  {
    if !g.roundActive then Some(RoundNotActive)
    else if g.order[g.turn] != player then Some(NotYourTurn)
    else if !g.players[player].isActive then Some(PlayerNotActive)
    else None
  }

  function StayRefusal(g: Game, player: Key): Option<Error>
    requires Sound(g)
  {
    if !g.open || player !in g.order then Some(InvalidAccountOwner) else TurnRefusal(g, player)
  }

  /** The part of the invariant the refusals need to be well formed. */
  predicate Sound(g: Game) {
    && (forall k :: k in g.order ==> k in g.players)
    && (g.roundActive ==> g.turn < |g.order|)
  }

  /** A seat is taken exactly by the players with an account, so no other account error is possible. */
  function LeaveRefusal(g: Game, player: Key): Option<Error> {
    if !g.open || player !in g.order then Some(InvalidAccountOwner) else None
  }

  function ScryRefusal(g: Game, player: Key): Option<Error>
    requires Sound(g)
  {
    match StayRefusal(g, player)
    case Some(e) => Some(e)
    case None =>
      if g.players[player].usedScry then Some(ScryAlreadyUsed)
      else if Balance(g.wallets, player) < 25_000_000_000 then Some(InsufficientFunds)
      else None
  }

  function SecondChanceRefusal(g: Game, player: Key): Option<Error>
    requires Sound(g)
  {
    if !g.open || player !in g.order then Some(InvalidAccountOwner)
    else if !g.roundActive then Some(RoundNotActive)
    else if g.players[player].reason != Bust then Some(NotBusted)
    else if g.players[player].usedSecondChance then Some(SecondChanceAlreadyUsed)
    else if Balance(g.wallets, player) < 50_000_000_000 then Some(InsufficientFunds)
    else None
  }

  function JoinRefusal(g: Game, player: Key, stake: nat): Option<Error> {
    if stake < 100_000_000_000 then Some(InsufficientStake)
    else if !g.open then Some(InvalidAccountOwner)
    else if player == 0 then Some(MissingSigner)
    else if g.roundActive then Some(RoundAlreadyActive)
    else if |g.order| == 4 then Some(MaxPlayersReached)
    else if player in g.order then Some(PlayerAlreadyJoined)
    else if g.vaultReady && Balance(g.wallets, player) < stake then Some(InsufficientFunds)
    else if g.vaultReady && g.pot + stake > U64_MAX then Some(ArithmeticOverflow)
    else None
  }

  function InitVaultRefusal(g: Game, payer: Key): Option<Error> {
    if payer == 0 then Some(MissingSigner)
    else if !g.open then Some(InvalidAccountOwner)
    else if payer != g.authority then Some(MissingRequiredSignature)
    else if g.vaultReady then Some(VaultAlreadyInitialized)
    else None
  }

  function CloseRefusal(g: Game, signer: Key): Option<Error> {
    if !g.open then Some(InvalidAccountOwner)
    else if signer == 0 then Some(MissingSigner)
    else if signer != g.authority then Some(MissingRequiredSignature)
    else if g.roundActive then Some(RoundAlreadyActive)
    else if g.pot > 0 then Some(PotNotEmpty)
    else None
  }

  ghost function CommitRefusal(g: Game, signer: Key, root: Hash, proof: ShuffleProof): Option<Error> {
    if !g.open then Some(InvalidAccountOwner)
    else if signer == 0 then Some(MissingSigner)
    else if signer != g.dealer then Some(InvalidDealerSigner)
    else if g.roundActive then Some(RoundAlreadyActive)
    else if g.deckCommitted then Some(DeckAlreadyCommitted)
    else if !ProofAccepted(proof, root) then Some(InvalidGroth16Proof)
    else None
  }

  /** Why the PlayerState accounts passed along are refused. */
  function AccountsRefusal(g: Game, accounts: seq<Key>): Option<Error> {
    if |accounts| < |g.order| then Some(NotEnoughAccountKeys) else AccountsError(g.players, g.order, accounts)
  }

  /** The first account that is not its seat's decides: it has no PlayerState, or another player's. */
  lemma {:induction false} AccountsErrorMeaning(players: map<Key, Player>, order: seq<Key>, accounts: seq<Key>, i: nat)
    requires |order| <= |accounts| && (forall k :: k in order ==> k in players)
    requires i < |order| && accounts[i] != order[i] && forall j :: 0 <= j < i ==> accounts[j] == order[j]
    ensures AccountsError(players, order, accounts)
         == Some(if accounts[i] in players then PlayerStateMismatch else InvalidAccountData)
  {
    if i > 0 { AccountsErrorMeaning(players, order[1..], accounts[1..], i - 1); }
  }

  function StartRefusal(g: Game, signer: Key, accounts: seq<Key>): Option<Error> {
    if !g.open then Some(InvalidAccountOwner)
    else if signer == 0 then Some(MissingSigner)
    else if signer != g.authority then Some(MissingRequiredSignature)
    else if g.roundActive then Some(RoundAlreadyActive)
    else if !g.deckCommitted then Some(DeckNotCommitted)
    else if |g.order| < 2 then Some(InvalidInstruction)
    else AccountsRefusal(g, accounts)
  }

  /** Whether the drawn card is a vampire that would steal an eleventh card. */
  predicate Overfull(g: Game, c: Call)
    requires c.DoHit? && c.player in g.players
  {
    && |g.players[c.player].hand| == 9 && c.card.cardType == 1 && c.card.value == 2
    && CheckBust(g.players[c.player].hand + [c.card]).None?
    && Steals(WithDrawn(g, c), c.player, c.remaining)
  }

  function HitRefusal(g: Game, c: Call): Option<Error>
    requires Sound(g) && c.DoHit?
  {
    if c.leafIndex >= 94 then Some(LeafIndexOutOfRange)
    else if !g.open || c.player !in g.order then Some(InvalidAccountOwner)
    else if !g.roundActive then Some(RoundNotActive)
    else if g.order[g.turn] != c.player then Some(NotYourTurn)
    else if c.leafIndex != g.drawCounter then Some(InvalidCardIndex)
    else if |c.proof| != 7 || !Verifies(c.card, c.leafIndex, c.proof, g.root) then Some(InvalidMerkleProof)
    else if !g.players[c.player].isActive then Some(PlayerNotActive)
    else if |g.players[c.player].hand| == 10 || Overfull(g, c) then Some(HandIsFull)
    else None
  }

  /** What a settled end of round can still fail on: a pot too large for the fee, or a token account. */
  function PayRefusal(g: Game, winnerOk: bool, treasuryOk: bool): Option<Error>
    requires Sound(g)
  {
    if Winner(g).None? then
      if g.pot > 0 && g.rollover == 10 && !treasuryOk then Some(InvalidTokenAccount) else None
    else if g.pot == 0 then None
    else if g.pot * g.feeBps > U64_MAX then Some(ArithmeticOverflow)
    else if !winnerOk || (Rake(g) > 0 && !treasuryOk) then Some(InvalidTokenAccount)
    else None
  }

  ghost function EndRefusal(g: Game, c: Call): Option<Error>
    requires Sound(g) && c.DoEndRound?
  {
    if !g.open then Some(InvalidAccountOwner)
    else if c.caller == 0 then Some(MissingSigner)
    else if !g.roundActive then Some(RoundNotActive)
    else if |c.accounts| < |g.order| then Some(NotEnoughAccountKeys)
    else if c.caller != g.authority && c.caller != g.dealer && c.caller !in g.order then Some(MissingRequiredSignature)
    else if AccountsRefusal(g, c.accounts).Some? then AccountsRefusal(g, c.accounts)
    else if exists k :: k in g.order && g.players[k].isActive then Some(PlayersStillActive)
    else PayRefusal(g, c.winnerAccountOk, c.treasuryAccountOk)
  }

  ghost function Refusal(g: Game, c: Call): Option<Error>
    requires Sound(g)
  {
    match c
    case DoInitVault(payer) => InitVaultRefusal(g, payer)
    case DoCloseGame(signer) => CloseRefusal(g, signer)
    case DoJoinRound(player, stake) => JoinRefusal(g, player, stake)
    case DoLeaveGame(player) => LeaveRefusal(g, player)
    case DoCommitDeck(signer, root, shuffle) => CommitRefusal(g, signer, root, shuffle)
    case DoStartRound(signer, accounts) => StartRefusal(g, signer, accounts)
    case DoHit(_, _, _, _, _) => HitRefusal(g, c)
    case DoStay(player) => StayRefusal(g, player)
    case DoBurnScry(player) => ScryRefusal(g, player)
    case DoBurnSecondChance(player) => SecondChanceRefusal(g, player)
    case DoEndRound(_, _, _, _) => EndRefusal(g, c)
    case DoTransfer(from, _, amount) => if Balance(g.wallets, from) < amount then Some(InsufficientFunds) else None
    case DoDonate(from, amount) =>
      if !g.vaultReady || Balance(g.wallets, from) < amount then Some(InsufficientFunds) else None
  }

  /** The outcome is an error exactly when there is a refusal, and then that error. */
  ghost predicate Agrees(outcome: Outcome, refusal: Option<Error>) {
    match refusal
    case Some(e) => outcome == Err(e)
    case None => outcome.Ok?
  }

  lemma InvIsSound(g: Game)
    requires Inv(g)
    ensures Sound(g)
  {
  }

  lemma ActionsAgree(g: Game, c: Call)
    requires Inv(g) && (c.DoLeaveGame? || c.DoStay? || c.DoBurnScry? || c.DoBurnSecondChance?)
    ensures Sound(g) && Agrees(Step(g, c), Refusal(g, c))
  {
    InvIsSound(g);
    hide HandScore, PlayersOk;
  }

  lemma EffectFailsIff(players: map<Key, Player>, self: Key, effect: Byte, remaining: seq<Key>)
    requires self in players
    ensures ApplyEffect(players, self, effect, remaining).None?
       <==> effect == 2 && |players[self].hand| >= 10 && Steals(players, self, remaining)
  {
  }

  lemma HitAgrees(g: Game, c: Call)
    requires Inv(g) && c.DoHit?
    ensures Sound(g) && Agrees(Hit(g, c.player, c.card, c.leafIndex, c.proof, c.remaining), HitRefusal(g, c))
  {
    InvIsSound(g);
    if c.player in g.players {
      assert PlayerOk(g.players[c.player]);
      EffectFailsIff(WithDrawn(g, c), c.player, c.card.value, c.remaining);
    }
    hide CheckBust, ApplyEffect, Verifies, Steals, PlayersOk;
  }

  lemma SeatingAgrees(g: Game, c: Call)
    requires Inv(g) && (c.DoInitVault? || c.DoCloseGame? || c.DoJoinRound? || c.DoCommitDeck? || c.DoStartRound?)
    ensures Sound(g) && Agrees(Step(g, c), Refusal(g, c))
  {
    InvIsSound(g);
    hide ProofAccepted, AccountsError, PlayersOk;
  }

  lemma PayAgrees(g: Game, donated: nat, winner: Option<nat>, winnerOk: bool, treasuryOk: bool)
    requires Inv(g) && Backed(g, donated) && Sound(g) && winner == Winner(g)
    ensures Agrees(match winner
                   case Some(i) => Settle(g, g.order[i], winnerOk, treasuryOk)
                   case None => RollOver(g, treasuryOk),
                   PayRefusal(g, winnerOk, treasuryOk))
  {
    hide Winner, PlayersOk;
    RakeBelowPot(g);
  }

  lemma EndAgrees(g: Game, donated: nat, c: Call)
    requires Inv(g) && Backed(g, donated) && c.DoEndRound?
    ensures Sound(g) && Agrees(Step(g, c), EndRefusal(g, c))
  {
    InvIsSound(g);
    PayAgrees(g, donated, Winner(g), c.winnerAccountOk, c.treasuryAccountOk);
    hide Winner, Settle, RollOver, PayRefusal, AccountsError, PlayersOk;
  }

  /** From every reachable state, a call fails exactly as listed, with exactly the error listed first. */
  lemma RefusalsAreExact(g: Game, calls: seq<Call>, c: Call)
    requires Initial(g)
    ensures Sound(Run(g, calls)) && Agrees(Step(Run(g, calls), c), Refusal(Run(g, calls), c))
  {
    RunKeepsInv(g, calls);
    TokensAreConserved(g, calls);
    var h := Run(g, calls);
    InvIsSound(h);
    hide Run, Inv, Backed, Sound, Hit, HitRefusal, EndRound, EndRefusal;
    match c
    case DoHit(_, _, _, _, _) => HitAgrees(h, c);
    case DoEndRound(_, _, _, _) => EndAgrees(h, Donations(g, calls), c);
    case DoTransfer(_, _, _) =>
    case DoDonate(_, _) =>
    case _ =>
      if c.DoLeaveGame? || c.DoStay? || c.DoBurnScry? || c.DoBurnSecondChance? {
        ActionsAgree(h, c);
      } else {
        SeatingAgrees(h, c);
      }
  }

  /** A game can be initialized exactly by a signer with a fee below 100%. */
  lemma InitializeAgrees(authority: Key, dealer: Key, treasury: Key, feeBps: nat, wallets: Wallets)
    ensures Agrees(Initialize(authority, dealer, treasury, feeBps, wallets),
                   if feeBps > 9999 then Some(InvalidTreasuryFeeBps)
                   else if authority == 0 then Some(MissingSigner)
                   else None)
  {
  }
}
