/** What each instruction of the on-chain program does to one game. */
module GameSpec {
  import opened Cards
  import opened Scoring
  import opened Merkle
  import opened Ledger
  import opened Options
  import opened Numbers
  import opened Sequences
  import Shuffle

  const MAX_PLAYERS := 4
  const MIN_STAKE := 100_000_000_000
  const SECOND_CHANCE_COST := 50_000_000_000
  const SCRY_COST := 25_000_000_000
  const MAX_FEE_BPS := 9999
  const MAX_ROLLOVERS := 10

  datatype Reason = Active | Bust | Stayed

  datatype Player = Player(
    hand: seq<Card>,
    isActive: bool,
    reason: Reason,
    bustValue: Byte,
    score: nat,
    staked: nat,
    usedSecondChance: bool,
    usedScry: bool)

  /** One game: its session account, the PlayerState accounts, its vault and the token wallets. */
  datatype Game = Game(
    open: bool,
    authority: Key,
    dealer: Key,
    treasury: Key,
    feeBps: nat,
    order: seq<Key>,
    turn: nat,
    roundActive: bool,
    round: nat,
    pot: nat,
    root: Hash,
    deckCommitted: bool,
    drawCounter: nat,
    rollover: nat,
    players: map<Key, Player>,
    vaultReady: bool,
    vault: nat,
    wallets: Wallets,
    burned: nat)

  datatype Error =
    | InvalidAccountOwner | InvalidAccountData | NotEnoughAccountKeys | MissingSigner | MissingRequiredSignature
    | InvalidInstruction | RoundAlreadyActive | RoundNotActive | DeckNotCommitted | DeckAlreadyCommitted
    | NotYourTurn | PlayerNotActive | MaxPlayersReached | PlayerAlreadyJoined | AccountAlreadyInUse
    | InvalidMerkleProof | InvalidGroth16Proof | InsufficientStake | InsufficientFunds | SecondChanceAlreadyUsed
    | NotBusted | InvalidDealerSigner | InvalidCardIndex | ArithmeticOverflow | InvalidTreasuryFeeBps
    | PlayerStateMismatch | PlayersStillActive | PotNotEmpty | InvalidTurnIndex | LeafIndexOutOfRange
    | ScryAlreadyUsed | VaultAlreadyInitialized | InvalidTokenAccount | HandIsFull

  datatype Outcome = Ok(game: Game) | Err(error: Error)

  /** A sound shuffle proof exists only for a permuted deck, whose root is its public input. */
  datatype ShuffleProof = ProofOf(deck: seq<Card>) | Forged

  ghost predicate ProofAccepted(proof: ShuffleProof, root: Hash) {
    proof.ProofOf? && Shuffle.IsShuffleOfDeck(proof.deck) && DeckRoot(proof.deck) == root
  }

  // ---------------------------------------------------------------------
  // Initialize, vault, close
  // ---------------------------------------------------------------------

  function Initialize(authority: Key, dealer: Key, treasury: Key, feeBps: nat, wallets: Wallets): Outcome {
    if feeBps > MAX_FEE_BPS then Err(InvalidTreasuryFeeBps)
    else if authority == ZERO_KEY then Err(MissingSigner)
    else Ok(Game(true, authority, dealer, treasury, feeBps, [], 0, false, 0, 0, Raw(0), false, 0, 0, map[],
                 false, 0, wallets, 0))
  }

  function InitVault(g: Game, payer: Key): Outcome {
    if payer == ZERO_KEY then Err(MissingSigner)
    else if !g.open then Err(InvalidAccountOwner)
    else if payer != g.authority then Err(MissingRequiredSignature)
    else if g.vaultReady then Err(VaultAlreadyInitialized)
    else Ok(g.(vaultReady := true))
  }

  function CloseGame(g: Game, signer: Key): Outcome {
    if !g.open then Err(InvalidAccountOwner)
    else if signer == ZERO_KEY then Err(MissingSigner)
    else if signer != g.authority then Err(MissingRequiredSignature)
    else if g.roundActive then Err(RoundAlreadyActive)
    else if g.pot != 0 then Err(PotNotEmpty)
    else Ok(g.(open := false))
  }

  // ---------------------------------------------------------------------
  // Seating
  // ---------------------------------------------------------------------

  function NewPlayer(staked: nat): Player {
    Player([], true, Active, 0, 0, staked, false, false)
  }

  function JoinRound(g: Game, player: Key, stake: nat): Outcome {
    if stake < MIN_STAKE then Err(InsufficientStake)
    else if !g.open then Err(InvalidAccountOwner)
    else if player == ZERO_KEY then Err(MissingSigner)
    else if g.roundActive then Err(RoundAlreadyActive)
    else if |g.order| >= MAX_PLAYERS then Err(MaxPlayersReached)
    else if player in g.order then Err(PlayerAlreadyJoined)
    else if player in g.players then Err(AccountAlreadyInUse)
    else
      var seated := g.(order := g.order + [player]);
      if !g.vaultReady then
        Ok(seated.(players := g.players[player := NewPlayer(0)]))
      else if Balance(g.wallets, player) < stake then Err(InsufficientFunds)
      else if g.pot + stake > U64_MAX then Err(ArithmeticOverflow)
      else
        Ok(seated.(players := g.players[player := NewPlayer(stake)],
                   wallets := Debit(g.wallets, player, stake),
                   vault := g.vault + stake,
                   pot := g.pot + stake))
  }

  function SeatOf(order: seq<Key>, player: Key): (i: nat)
    requires player in order
    ensures i < |order| && order[i] == player && player !in order[..i]
  {
    if order[0] == player then 0 else SeatOf(order[1..], player) + 1
  }

  function Forfeited(p: Player): Player {
    p.(isActive := false, reason := Bust, score := 0)
  }

  function LeaveGame(g: Game, player: Key): Outcome {
    if !g.open || player !in g.players then Err(InvalidAccountOwner)
    else if player == ZERO_KEY then Err(MissingSigner)
    else if player !in g.order then Err(InvalidInstruction)
    else if g.roundActive then Ok(g.(players := g.players[player := Forfeited(g.players[player])]))
    else Ok(g.(order := Without(g.order, SeatOf(g.order, player)), players := g.players - {player}))
  }

  // ---------------------------------------------------------------------
  // Rounds
  // ---------------------------------------------------------------------

  ghost function CommitDeck(g: Game, signer: Key, root: Hash, proof: ShuffleProof): Outcome {
    if !g.open then Err(InvalidAccountOwner)
    else if signer == ZERO_KEY then Err(MissingSigner)
    else if signer != g.dealer then Err(InvalidDealerSigner)
    else if g.roundActive then Err(RoundAlreadyActive)
    else if g.deckCommitted then Err(DeckAlreadyCommitted)
    else if !ProofAccepted(proof, root) then Err(InvalidGroth16Proof)
    else Ok(g.(root := root, deckCommitted := true, drawCounter := 0))
  }

  /** The PlayerState accounts passed along must be those of the seats, in order. */
  function AccountsError(players: map<Key, Player>, order: seq<Key>, accounts: seq<Key>): Option<Error>
    requires |order| <= |accounts|
  {
    if order == [] then None
    else if accounts[0] !in players then Some(InvalidAccountData)
    else if accounts[0] != order[0] then Some(PlayerStateMismatch)
    else AccountsError(players, order[1..], accounts[1..])
  }

  function Fresh(p: Player): Player {
    p.(hand := [], isActive := true, reason := Active, bustValue := 0, score := 0,
       usedSecondChance := false, usedScry := false)
  }

  function StartRound(g: Game, signer: Key, accounts: seq<Key>): Outcome {
    if !g.open then Err(InvalidAccountOwner)
    else if signer == ZERO_KEY then Err(MissingSigner)
    else if signer != g.authority then Err(MissingRequiredSignature)
    else if g.roundActive then Err(RoundAlreadyActive)
    else if !g.deckCommitted then Err(DeckNotCommitted)
    else if |g.order| < 2 then Err(InvalidInstruction)
    else if |accounts| < |g.order| then Err(NotEnoughAccountKeys)
    else
      match AccountsError(g.players, g.order, accounts)
      case Some(e) => Err(e)
      case None =>
        Ok(g.(players := map k | k in g.players :: if k in g.order then Fresh(g.players[k]) else g.players[k],
              roundActive := true,
              turn := 0,
              round := if g.round == U64_MAX then U64_MAX else g.round + 1))
  }

  /** Why `player` may not act now, if so. */
  function TurnError(g: Game, player: Key): Option<Error> {
    if !g.roundActive then Some(RoundNotActive)
    else if g.turn >= |g.order| || g.turn >= MAX_PLAYERS then Some(InvalidTurnIndex)
    else if g.order[g.turn] != player then Some(NotYourTurn)
    else None
  }

  function NextTurn(g: Game): nat
    requires |g.order| > 0
  {
    (g.turn + 1) % |g.order|
  }

  function Stay(g: Game, player: Key): Outcome {
    if !g.open || player !in g.players then Err(InvalidAccountOwner)
    else if player == ZERO_KEY then Err(MissingSigner)
    else
      match TurnError(g, player)
      case Some(e) => Err(e)
      case None =>
        var p := g.players[player];
        if !p.isActive then Err(PlayerNotActive)
        else
          Ok(g.(players := g.players[player := p.(score := HandScore(p.hand), isActive := false, reason := Stayed)],
                turn := NextTurn(g)))
  }

  function BurnScry(g: Game, player: Key): Outcome {
    if !g.open || player !in g.players then Err(InvalidAccountOwner)
    else if player == ZERO_KEY then Err(MissingSigner)
    else
      match TurnError(g, player)
      case Some(e) => Err(e)
      case None =>
        var p := g.players[player];
        if !p.isActive then Err(PlayerNotActive)
        else if p.usedScry then Err(ScryAlreadyUsed)
        else if Balance(g.wallets, player) < SCRY_COST then Err(InsufficientFunds)
        else
          Ok(g.(players := g.players[player := p.(usedScry := true)],
                wallets := Debit(g.wallets, player, SCRY_COST),
                burned := g.burned + SCRY_COST))
  }

  function Popped(hand: seq<Card>): seq<Card> {
    if hand == [] then [] else hand[..|hand| - 1]
  }

  function Revived(p: Player): Player {
    p.(hand := Popped(p.hand), isActive := true, reason := Active, bustValue := 0, usedSecondChance := true)
  }

  function BurnSecondChance(g: Game, player: Key): Outcome {
    if !g.open || player !in g.players then Err(InvalidAccountOwner)
    else if player == ZERO_KEY then Err(MissingSigner)
    else if !g.roundActive then Err(RoundNotActive)
    else
      var p := g.players[player];
      if p.reason != Bust then Err(NotBusted)
      else if p.usedSecondChance then Err(SecondChanceAlreadyUsed)
      else if Balance(g.wallets, player) < SECOND_CHANCE_COST then Err(InsufficientFunds)
      else
        Ok(g.(players := g.players[player := Revived(p)],
              wallets := Debit(g.wallets, player, SECOND_CHANCE_COST),
              burned := g.burned + SECOND_CHANCE_COST))
  }

  // ---------------------------------------------------------------------
  // Hit
  // ---------------------------------------------------------------------

  /** The first account passed along that is an active player other than `self`. */
  function FindTarget(players: map<Key, Player>, self: Key, remaining: seq<Key>): (r: Option<Key>)
    ensures r.Some? ==> r.value in players && r.value != self && players[r.value].isActive
  {
    if remaining == [] then None
    else if remaining[0] in players && remaining[0] != self && players[remaining[0]].isActive then Some(remaining[0])
    else FindTarget(players, self, remaining[1..])
  }

  /** The position of the first Alpha of the highest value. */
  function HighestAlpha(hand: seq<Card>): (r: Option<nat>)
    ensures r.Some? ==> r.value < |hand| && hand[r.value].cardType == ALPHA && hand[r.value].value > 0
  {
    if hand == [] then None else
      var last := hand[|hand| - 1];
      var best := HighestAlpha(hand[..|hand| - 1]);
      if last.cardType == ALPHA && last.value > (if best.None? then 0 else hand[best.value].value)
      then Some(|hand| - 1)
      else best
  }

  predicate CanBeTarget(players: map<Key, Player>, self: Key, k: Key) {
    k in players && k != self && players[k].isActive
  }

  /** The target is the first eligible account passed along; there is none exactly when none is eligible. */
  lemma {:induction false} FindTargetMeaning(players: map<Key, Player>, self: Key, remaining: seq<Key>)
    ensures match FindTarget(players, self, remaining)
            case Some(target) =>
              exists i :: 0 <= i < |remaining| && remaining[i] == target && CanBeTarget(players, self, target)
                          && forall j :: 0 <= j < i ==> !CanBeTarget(players, self, remaining[j])
            case None => forall j :: 0 <= j < |remaining| ==> !CanBeTarget(players, self, remaining[j])
  {
    if remaining != [] && !CanBeTarget(players, self, remaining[0]) {
      FindTargetMeaning(players, self, remaining[1..]);
      var found := FindTarget(players, self, remaining[1..]);
      if found.Some? {
        var i :| 0 <= i < |remaining[1..]| && remaining[1..][i] == found.value && CanBeTarget(players, self, found.value)
                 && forall j :: 0 <= j < i ==> !CanBeTarget(players, self, remaining[1..][j]);
        assert remaining[i + 1] == found.value;
        forall j | 0 <= j < i + 1 ensures !CanBeTarget(players, self, remaining[j]) {
          if j > 0 { assert remaining[j] == remaining[1..][j - 1]; }
        }
      } else {
        forall j | 0 <= j < |remaining| ensures !CanBeTarget(players, self, remaining[j]) {
          if j > 0 { assert remaining[j] == remaining[1..][j - 1]; }
        }
      }
    }
  }

  /** The card a rug pull takes is the first of the Alphas of the highest value; there is none exactly without Alphas. */
  lemma {:induction false} HighestAlphaMeaning(hand: seq<Card>)
    ensures match HighestAlpha(hand)
            case Some(i) =>
              forall j :: 0 <= j < |hand| && hand[j].cardType == ALPHA ==>
                hand[j].value <= hand[i].value && (j < i ==> hand[j].value < hand[i].value)
            case None => forall j :: 0 <= j < |hand| && hand[j].cardType == ALPHA ==> hand[j].value == 0
  {
    if hand != [] {
      HighestAlphaMeaning(hand[..|hand| - 1]);
      assert forall j :: 0 <= j < |hand| - 1 ==> hand[j] == hand[..|hand| - 1][j];
    }
  }

  /** The players after the effect of a drawn Protocol card; `None` if the stolen card does not fit. */
  function ApplyEffect(players: map<Key, Player>, self: Key, effect: Byte, remaining: seq<Key>): Option<map<Key, Player>>
    requires self in players
  {
    match FindTarget(players, self, remaining)
    case None => Some(players)
    case Some(target) =>
      var victim, thief := players[target], players[self];
      if effect == RUG_PULL then
        match HighestAlpha(victim.hand)
        case None => Some(players)
        case Some(i) => Some(players[target := victim.(hand := Without(victim.hand, i))])
      else if effect == VAMPIRE_ATTACK then
        if victim.hand == [] then Some(players)
        else if |thief.hand| >= MAX_HAND_SIZE then None
        else
          var stolen := victim.hand[|victim.hand| - 1];
          Some(players[target := victim.(hand := Popped(victim.hand))][self := thief.(hand := thief.hand + [stolen])])
      else Some(players)
  }

  /** The card now last in the player's hand busts it or takes effect. */
  function Resolve(g: Game, player: Key, card: Card, remaining: seq<Key>): Outcome
    requires player in g.players && |g.order| > 0
  {
    var p := g.players[player];
    match CheckBust(p.hand)
    case Some(v) =>
      Ok(g.(players := g.players[player := p.(isActive := false, reason := Bust, bustValue := v)], turn := NextTurn(g)))
    case None =>
      if card.cardType != PROTOCOL then Ok(g)
      else
        match ApplyEffect(g.players, player, card.value, remaining)
        case None => Err(HandIsFull)
        case Some(after) => Ok(g.(players := after))
  }

  /** The next card of the deck goes into the turn player's hand and is resolved. */
  function Drawn(g: Game, player: Key, card: Card, remaining: seq<Key>): Outcome
    requires player in g.players && |g.order| > 0
  {
    var p := g.players[player];
    if |p.hand| >= MAX_HAND_SIZE then Err(HandIsFull)
    else
      match Resolve(g.(players := g.players[player := p.(hand := p.hand + [card])]), player, card, remaining)
      case Err(e) => Err(e)
      case Ok(g') => Ok(g'.(drawCounter := g.drawCounter + 1))
  }

  function Hit(g: Game, player: Key, card: Card, leafIndex: Byte, proof: seq<Hash>, remaining: seq<Key>): Outcome {
    if leafIndex >= DECK_SIZE then Err(LeafIndexOutOfRange)
    else if !g.open || player !in g.players then Err(InvalidAccountOwner)
    else if player == ZERO_KEY then Err(MissingSigner)
    else
      match TurnError(g, player)
      case Some(e) => Err(e)
      case None =>
        if leafIndex != g.drawCounter then Err(InvalidCardIndex)
        else if |proof| != TREE_DEPTH || !Verifies(card, leafIndex, proof, g.root) then Err(InvalidMerkleProof)
        else if !g.players[player].isActive then Err(PlayerNotActive)
        else Drawn(g, player, card, remaining)
  }

  // ---------------------------------------------------------------------
  // EndRound
  // ---------------------------------------------------------------------

  predicate Seated(g: Game) {
    forall k :: k in g.order ==> k in g.players
  }

  /** The seat the payout loop holds after looking at the first `n` seats. */
  function WinnerAmong(g: Game, n: nat): (r: Option<nat>)
    requires Seated(g) && n <= |g.order|
    ensures r.Some? ==> r.value < n
  {
    if n == 0 then None else
      var best := WinnerAmong(g, n - 1);
      var p := g.players[g.order[n - 1]];
      if p.reason == Stayed && (best.None? || p.score > g.players[g.order[best.value]].score)
      then Some(n - 1)
      else best
  }

  function Winner(g: Game): (r: Option<nat>)
    requires Seated(g)
    ensures r.Some? ==> r.value < |g.order|
  {
    WinnerAmong(g, |g.order|)
  }

  function RoundOver(g: Game): Game {
    g.(roundActive := false, deckCommitted := false, drawCounter := 0)
  }

  /** Pays `rake` and then `payout` out of the vault and empties the pot. */
  function PayOut(g: Game, winner: Key, rake: nat, payout: nat): Game
    requires rake + payout <= g.vault
  {
    g.(vault := g.vault - rake - payout,
       wallets := Credit(Credit(g.wallets, g.treasury, rake), winner, payout),
       pot := 0,
       rollover := 0)
  }

  function Settle(g: Game, winner: Key, winnerAccountOk: bool, treasuryAccountOk: bool): Outcome {
    if g.pot == 0 then Ok(RoundOver(g.(rollover := 0)))
    else if g.pot * g.feeBps > U64_MAX then Err(ArithmeticOverflow)
    else
      var rake := g.pot * g.feeBps / 10_000;
      if rake > g.pot then Err(ArithmeticOverflow)
      else if rake > 0 && !treasuryAccountOk then Err(InvalidTokenAccount)
      else if rake > g.vault then Err(InsufficientFunds)
      else if rake < g.pot && !winnerAccountOk then Err(InvalidTokenAccount)
      else if g.pot > g.vault then Err(InsufficientFunds)
      else Ok(RoundOver(PayOut(g, winner, rake, g.pot - rake)))
  }

  function Swept(g: Game): Game
    requires g.pot <= g.vault
  {
    g.(vault := g.vault - g.pot, wallets := Credit(g.wallets, g.treasury, g.pot), pot := 0, rollover := 0)
  }

  function RollOver(g: Game, treasuryAccountOk: bool): Outcome {
    if g.rollover < MAX_ROLLOVERS then Ok(RoundOver(g.(rollover := g.rollover + 1)))
    else if g.pot > 0 && !treasuryAccountOk then Err(InvalidTokenAccount)
    else if g.pot > g.vault then Err(InsufficientFunds)
    else Ok(RoundOver(Swept(g)))
  }

  function EndRound(g: Game, caller: Key, accounts: seq<Key>, winnerAccountOk: bool, treasuryAccountOk: bool): Outcome {
    if !g.open then Err(InvalidAccountOwner)
    else if caller == ZERO_KEY then Err(MissingSigner)
    else if !g.roundActive then Err(RoundNotActive)
    else if |accounts| < |g.order| then Err(NotEnoughAccountKeys)
    else if caller != g.authority && caller != g.dealer && caller !in g.order then Err(MissingRequiredSignature)
    else
      match AccountsError(g.players, g.order, accounts)
      case Some(e) => Err(e)
      case None =>
        AccountsMatch(g.players, g.order, accounts);
        if exists k :: k in g.order && g.players[k].isActive then Err(PlayersStillActive)
        else
          match Winner(g)
          case Some(i) => Settle(g, g.order[i], winnerAccountOk, treasuryAccountOk)
          case None => RollOver(g, treasuryAccountOk)
  }

  lemma {:induction false} AccountsMatch(players: map<Key, Player>, order: seq<Key>, accounts: seq<Key>)
    requires |order| <= |accounts|
    ensures AccountsError(players, order, accounts).None?
       <==> order <= accounts && forall k :: k in order ==> k in players
  {
    if order != [] {
      AccountsMatch(players, order[1..], accounts[1..]);
      assert order == [order[0]] + order[1..];
      assert accounts[..|order|] == [accounts[0]] + accounts[1..][..|order| - 1];
    }
  }

  // ---------------------------------------------------------------------
  // Token movements outside the program
  // ---------------------------------------------------------------------

  function Transfer(g: Game, from: Key, to: Key, amount: nat): Outcome {
    if Balance(g.wallets, from) < amount then Err(InsufficientFunds)
    else Ok(g.(wallets := Credit(Debit(g.wallets, from, amount), to, amount)))
  }

  /** Any holder may send tokens straight to the vault. */
  function Donate(g: Game, from: Key, amount: nat): Outcome {
    if !g.vaultReady || Balance(g.wallets, from) < amount then Err(InsufficientFunds)
    else Ok(g.(wallets := Debit(g.wallets, from, amount), vault := g.vault + amount))
  }

  // ---------------------------------------------------------------------
  // Runs
  // ---------------------------------------------------------------------

  datatype Call =
    | DoInitVault(payer: Key)
    | DoCloseGame(signer: Key)
    | DoJoinRound(player: Key, stake: nat)
    | DoLeaveGame(player: Key)
    | DoCommitDeck(signer: Key, root: Hash, shuffle: ShuffleProof)
    | DoStartRound(signer: Key, accounts: seq<Key>)
    | DoHit(player: Key, card: Card, leafIndex: Byte, proof: seq<Hash>, remaining: seq<Key>)
    | DoStay(player: Key)
    | DoBurnScry(player: Key)
    | DoBurnSecondChance(player: Key)
    | DoEndRound(caller: Key, accounts: seq<Key>, winnerAccountOk: bool, treasuryAccountOk: bool)
    | DoTransfer(from: Key, to: Key, amount: nat)
    | DoDonate(from: Key, amount: nat)

  ghost function Step(g: Game, c: Call): Outcome {
    match c
    case DoInitVault(payer) => InitVault(g, payer)
    case DoCloseGame(signer) => CloseGame(g, signer)
    case DoJoinRound(player, stake) => JoinRound(g, player, stake)
    case DoLeaveGame(player) => LeaveGame(g, player)
    case DoCommitDeck(signer, root, shuffle) => CommitDeck(g, signer, root, shuffle)
    case DoStartRound(signer, accounts) => StartRound(g, signer, accounts)
    case DoHit(player, card, leafIndex, proof, remaining) => Hit(g, player, card, leafIndex, proof, remaining)
    case DoStay(player) => Stay(g, player)
    case DoBurnScry(player) => BurnScry(g, player)
    case DoBurnSecondChance(player) => BurnSecondChance(g, player)
    case DoEndRound(caller, accounts, winnerAccountOk, treasuryAccountOk) =>
      EndRound(g, caller, accounts, winnerAccountOk, treasuryAccountOk)
    case DoTransfer(from, to, amount) => Transfer(g, from, to, amount)
    case DoDonate(from, amount) => Donate(g, from, amount)
  }

  /** A failed call leaves the game as it was. */
  ghost function Next(g: Game, c: Call): Game {
    match Step(g, c)
    case Ok(g') => g'
    case Err(_) => g
  }

  ghost function Run(g: Game, calls: seq<Call>): Game {
    if calls == [] then g else Next(Run(g, calls[..|calls| - 1]), calls[|calls| - 1])
  }
}
