/** The on-chain program as it runs: instructions that write the accounts of one game in place. */
module Program {
  import opened Cards
  import opened Scoring
  import opened Merkle
  import opened Ledger
  import opened GameSpec
  import opened PlayerAccounts
  import opened Options
  import opened Numbers
  import opened Sequences

  /** A call answers as specified: the new state, or an error and the old state. */
  ghost predicate Answers(error: Option<Error>, after: Game, specified: Outcome, before: Game) {
    match specified
    case Ok(g) => error == None && after == g
    case Err(e) => error == Some(e) && after == before
  }

  class GameAccounts {
    var open: bool
    var authority: Key
    var dealer: Key
    var treasury: Key
    var feeBps: nat
    const seats: array<Key>
    var playerCount: nat
    var turn: nat
    var roundActive: bool
    var round: nat
    var pot: nat
    var root: Hash
    var deckCommitted: bool
    var drawCounter: nat
    var rollover: nat
    const table: PlayerTable
    var vaultReady: bool
    var vault: nat
    var wallets: Wallets
    var burned: nat

    ghost predicate Valid()
      reads this`playerCount, seats, table, table.Repr
    {
      && seats.Length == MAX_PLAYERS && playerCount <= MAX_PLAYERS
      && (forall i :: playerCount <= i < MAX_PLAYERS ==> seats[i] == ZERO_KEY)
      && table.Valid() && table in table.Repr && this !in table.Repr && seats !in table.Repr
    }

    ghost function Order(): seq<Key>
      reads this`playerCount, seats
      requires playerCount <= seats.Length
    {
      seats[..playerCount]
    }

    ghost function Snapshot(): Game
      reads this, seats, table
      requires playerCount <= seats.Length
    {
      Game(open, authority, dealer, treasury, feeBps, Order(), turn, roundActive, round, pot, root, deckCommitted,
           drawCounter, rollover, table.players, vaultReady, vault, wallets, burned)
    }

    constructor (authority: Key, dealer: Key, treasury: Key, feeBps: nat, wallets: Wallets)
      requires Initialize(authority, dealer, treasury, feeBps, wallets).Ok?
      ensures Valid() && fresh(seats) && fresh(table.Repr)
      ensures Snapshot() == Initialize(authority, dealer, treasury, feeBps, wallets).game
    {
      open := true;
      this.authority, this.dealer, this.treasury := authority, dealer, treasury;
      this.feeBps := feeBps;
      seats := new Key[MAX_PLAYERS](_ => ZERO_KEY);
      playerCount, turn := 0, 0;
      roundActive, round, pot := false, 0, 0;
      root, deckCommitted, drawCounter := Raw(0), false, 0;
      rollover := 0;
      table := new PlayerTable();
      vaultReady, vault := false, 0;
      this.wallets := wallets;
      burned := 0;
    }

    // -------------------------------------------------------------------
    // Reading the seats and the accounts passed along
    // -------------------------------------------------------------------

    /** Scans the occupied seats for a player. */
    method FindSeat(player: Key) returns (seat: Option<nat>)
      requires Valid()
      ensures match seat case Some(i) => player in Order() && i == SeatOf(Order(), player) case None => player !in Order()
    {
      for i := 0 to playerCount
        invariant player !in seats[..i]
      {
        if seats[i] == player {
          SeatIsFirst(Order(), player, i);
          return Some(i);
        }
      }
      return None;
    }

    static lemma {:induction false} SeatIsFirst(order: seq<Key>, player: Key, i: nat)
      requires i < |order| && order[i] == player && player !in order[..i]
      ensures SeatOf(order, player) == i
    {
      if i > 0 {
        assert order[..i][0] == order[0] && order[..i][1..] == order[1..][..i - 1];
        SeatIsFirst(order[1..], player, i - 1);
      }
    }

    /** Matches the accounts passed along against the seats. */
    method CheckAccounts(passed: seq<Key>) returns (error: Option<Error>)
      requires Valid() && playerCount <= |passed|
      ensures error == AccountsError(table.players, Order(), passed)
    {
      for i := 0 to playerCount
        invariant AccountsError(table.players, Order(), passed) == AccountsError(table.players, Order()[i..], passed[i..])
      {
        assert Order()[i..][1..] == Order()[i + 1..] && passed[i..][1..] == passed[i + 1..];
        if !table.Has(passed[i]) {
          return Some(InvalidAccountData);
        }
        if passed[i] != seats[i] {
          return Some(PlayerStateMismatch);
        }
      }
      return None;
    }

    method CheckTurn(player: Key) returns (error: Option<Error>)
      requires Valid()
      ensures error == TurnError(Snapshot(), player)
    {
      if !roundActive { return Some(RoundNotActive); }
      if turn >= playerCount || turn >= MAX_PLAYERS { return Some(InvalidTurnIndex); }
      if seats[turn] != player { return Some(NotYourTurn); }
      return None;
    }

    // -------------------------------------------------------------------
    // Vault and closing
    // -------------------------------------------------------------------

    method InitVault(payer: Key) returns (error: Option<Error>)
      requires Valid()
      modifies this`vaultReady
      ensures Valid() && Answers(error, Snapshot(), GameSpec.InitVault(old(Snapshot()), payer), old(Snapshot()))
    {
      if payer == ZERO_KEY { return Some(MissingSigner); }
      if !open { return Some(InvalidAccountOwner); }
      if payer != authority { return Some(MissingRequiredSignature); }
      if vaultReady { return Some(VaultAlreadyInitialized); }
      vaultReady := true;
      return None;
    }

    method CloseGame(signer: Key) returns (error: Option<Error>)
      requires Valid()
      modifies this`open
      ensures Valid() && Answers(error, Snapshot(), GameSpec.CloseGame(old(Snapshot()), signer), old(Snapshot()))
    {
      if !open { return Some(InvalidAccountOwner); }
      if signer == ZERO_KEY { return Some(MissingSigner); }
      if signer != authority { return Some(MissingRequiredSignature); }
      if roundActive { return Some(RoundAlreadyActive); }
      if pot != 0 { return Some(PotNotEmpty); }
      open := false;
      return None;
    }

    // -------------------------------------------------------------------
    // Seating
    // -------------------------------------------------------------------

    method JoinRound(player: Key, stake: nat) returns (error: Option<Error>)
      requires Valid()
      modifies this, seats, table
      ensures Valid() && fresh(table.Repr - old(table.Repr))
      ensures Answers(error, Snapshot(), GameSpec.JoinRound(old(Snapshot()), player, stake), old(Snapshot()))
    {
      hide PlayerTable.Valid;
      if stake < MIN_STAKE { return Some(InsufficientStake); }
      if !open { return Some(InvalidAccountOwner); }
      if player == ZERO_KEY { return Some(MissingSigner); }
      if roundActive { return Some(RoundAlreadyActive); }
      if playerCount >= MAX_PLAYERS { return Some(MaxPlayersReached); }
      var seat := FindSeat(player);
      if seat.Some? { return Some(PlayerAlreadyJoined); }
      if table.Has(player) { return Some(AccountAlreadyInUse); }
      if vaultReady {
        if Balance(wallets, player) < stake { return Some(InsufficientFunds); }
        if pot + stake > U64_MAX { return Some(ArithmeticOverflow); }
        TransferStake(player, stake);
      }
      Seat(player, if vaultReady then stake else 0);
      return None;
    }

    method TransferStake(player: Key, stake: nat)
      requires Valid() && stake <= Balance(wallets, player)
      modifies this`wallets, this`vault, this`pot
      ensures Snapshot() == old(Snapshot()).(wallets := Debit(old(wallets), player, stake),
                                             vault := old(vault) + stake, pot := old(pot) + stake)
    {
      wallets := Debit(wallets, player, stake);
      vault := vault + stake;
      pot := pot + stake;
    }

    /** Creates the PlayerState account and fills the next seat. */
    method Seat(player: Key, staked: nat)
      requires Valid() && playerCount < MAX_PLAYERS && player !in table.players
      modifies this`playerCount, seats, table
      ensures Valid() && fresh(table.Repr - old(table.Repr))
      ensures table.players == old(table.players)[player := NewPlayer(staked)] && Order() == old(Order()) + [player]
    {
      table.Create(player, staked);
      seats[playerCount] := player;
      playerCount := playerCount + 1;
    }

    method LeaveGame(player: Key) returns (error: Option<Error>)
      requires Valid()
      modifies this, seats, table.Repr
      ensures Valid() && table.Repr == old(table.Repr)
      ensures Answers(error, Snapshot(), GameSpec.LeaveGame(old(Snapshot()), player), old(Snapshot()))
    {
      hide PlayerTable.Valid;
      if !open || !table.Has(player) { return Some(InvalidAccountOwner); }
      if player == ZERO_KEY { return Some(MissingSigner); }
      var seat := FindSeat(player);
      if seat.None? { return Some(InvalidInstruction); }
      if roundActive {
        table.Forfeit(player);
      } else {
        Compact(seat.value);
        table.Close(player);
      }
      return None;
    }

    /** Shifts the later seats down over seat `idx` and clears the last one. */
    method Compact(idx: nat)
      requires Valid() && idx < playerCount
      modifies this`playerCount, seats
      ensures Valid() && Order() == Without(old(Order()), idx)
    {
      hide PlayerTable.Valid;
      for i := idx to playerCount - 1
        invariant playerCount == old(playerCount)
        invariant forall k :: 0 <= k < idx ==> seats[k] == old(seats[k])
        invariant forall k :: idx <= k < i ==> seats[k] == old(seats[k + 1])
        invariant forall k :: i <= k < MAX_PLAYERS ==> seats[k] == old(seats[k])
      {
        seats[i] := seats[i + 1];
      }
      seats[playerCount - 1] := ZERO_KEY;
      playerCount := playerCount - 1;
      ghost var before := old(Order());
      assert forall k :: 0 <= k < |Without(before, idx)| ==> Without(before, idx)[k] == before[if k < idx then k else k + 1];
      assert Order() == Without(before, idx);
    }

    // -------------------------------------------------------------------
    // Rounds
    // -------------------------------------------------------------------

    /** `proofAccepted` is the verdict of the Groth16 verifier on the proof passed along. */
    method CommitDeck(signer: Key, merkleRoot: Hash, ghost shuffle: ShuffleProof, proofAccepted: bool)
      returns (error: Option<Error>)
      requires Valid() && (proofAccepted <==> ProofAccepted(shuffle, merkleRoot))
      modifies this`root, this`deckCommitted, this`drawCounter
      ensures Valid()
      ensures Answers(error, Snapshot(), GameSpec.CommitDeck(old(Snapshot()), signer, merkleRoot, shuffle), old(Snapshot()))
    {
      hide PlayerTable.Valid, ProofAccepted;
      if !open { return Some(InvalidAccountOwner); }
      if signer == ZERO_KEY { return Some(MissingSigner); }
      if signer != dealer { return Some(InvalidDealerSigner); }
      if roundActive { return Some(RoundAlreadyActive); }
      if deckCommitted { return Some(DeckAlreadyCommitted); }
      if !proofAccepted { return Some(InvalidGroth16Proof); }
      root := merkleRoot;
      deckCommitted := true;
      drawCounter := 0;
      return None;
    }

    method StartRound(signer: Key, passed: seq<Key>) returns (error: Option<Error>)
      requires Valid()
      modifies this, table.Repr
      ensures Valid() && table.Repr == old(table.Repr)
      ensures Answers(error, Snapshot(), GameSpec.StartRound(old(Snapshot()), signer, passed), old(Snapshot()))
    {
      hide PlayerTable.Valid, AccountsError;
      if !open { return Some(InvalidAccountOwner); }
      if signer == ZERO_KEY { return Some(MissingSigner); }
      if signer != authority { return Some(MissingRequiredSignature); }
      if roundActive { return Some(RoundAlreadyActive); }
      if !deckCommitted { return Some(DeckNotCommitted); }
      if playerCount < 2 { return Some(InvalidInstruction); }
      if |passed| < playerCount { return Some(NotEnoughAccountKeys); }
      error := CheckAccounts(passed);
      if error.Some? { return; }
      AccountsMatch(table.players, Order(), passed);
      ResetPlayers(passed);
      roundActive := true;
      turn := 0;
      round := if round == U64_MAX then U64_MAX else round + 1;
    }

    method ResetPlayers(passed: seq<Key>)
      requires Valid() && Order() <= passed && forall k :: k in Order() ==> k in table.players
      modifies table.Repr
      ensures Valid() && table.Repr == old(table.Repr)
      ensures table.players
           == map k | k in old(table.players) :: if k in Order() then Fresh(old(table.players)[k]) else old(table.players)[k]
    {
      hide PlayerTable.Valid;
      ghost var before := table.players;
      for i := 0 to playerCount
        invariant table.Valid() && table.Repr == old(table.Repr) && table.players.Keys == before.Keys
        invariant forall k :: k in before ==> table.players[k] == if k in passed[..i] then Fresh(before[k]) else before[k]
      {
        assert passed[i] == Order()[i];
        table.Reset(passed[i]);
      }
      assert passed[..playerCount] == Order();
    }

    method Stay(player: Key) returns (error: Option<Error>)
      requires Valid()
      modifies this`turn, table.Repr
      ensures Valid() && table.Repr == old(table.Repr)
      ensures Answers(error, Snapshot(), GameSpec.Stay(old(Snapshot()), player), old(Snapshot()))
    {
      hide PlayerTable.Valid, HandScore;
      if !open || !table.Has(player) { return Some(InvalidAccountOwner); }
      if player == ZERO_KEY { return Some(MissingSigner); }
      error := CheckTurn(player);
      if error.Some? { return; }
      var ps := table.accounts[player];
      table.Reads(player);
      if !ps.isActive { return Some(PlayerNotActive); }
      table.LockIn(player, HandScore(ps.hand[..ps.handSize]));
      AdvanceTurn();
    }

    method BurnScry(player: Key) returns (error: Option<Error>)
      requires Valid()
      modifies this`wallets, this`burned, table.Repr
      ensures Valid() && table.Repr == old(table.Repr)
      ensures Answers(error, Snapshot(), GameSpec.BurnScry(old(Snapshot()), player), old(Snapshot()))
    {
      hide PlayerTable.Valid;
      if !open || !table.Has(player) { return Some(InvalidAccountOwner); }
      if player == ZERO_KEY { return Some(MissingSigner); }
      error := CheckTurn(player);
      if error.Some? { return; }
      var ps := table.accounts[player];
      table.Reads(player);
      if !ps.isActive { return Some(PlayerNotActive); }
      if ps.usedScry { return Some(ScryAlreadyUsed); }
      if Balance(wallets, player) < SCRY_COST { return Some(InsufficientFunds); }
      wallets := Debit(wallets, player, SCRY_COST);
      burned := burned + SCRY_COST;
      table.MarkScry(player);
    }

    method BurnSecondChance(player: Key) returns (error: Option<Error>)
      requires Valid()
      modifies this`wallets, this`burned, table.Repr
      ensures Valid() && table.Repr == old(table.Repr)
      ensures Answers(error, Snapshot(), GameSpec.BurnSecondChance(old(Snapshot()), player), old(Snapshot()))
    {
      hide PlayerTable.Valid;
      if !open || !table.Has(player) { return Some(InvalidAccountOwner); }
      if player == ZERO_KEY { return Some(MissingSigner); }
      if !roundActive { return Some(RoundNotActive); }
      var ps := table.accounts[player];
      table.Reads(player);
      if ps.reason != Bust { return Some(NotBusted); }
      if ps.usedSecondChance { return Some(SecondChanceAlreadyUsed); }
      if Balance(wallets, player) < SECOND_CHANCE_COST { return Some(InsufficientFunds); }
      wallets := Debit(wallets, player, SECOND_CHANCE_COST);
      burned := burned + SECOND_CHANCE_COST;
      table.Revive(player);
      return None;
    }

    // -------------------------------------------------------------------
    // Hit
    // -------------------------------------------------------------------

    /** The first account passed along that belongs to another active player. */
    method FindValidTarget(self: Key, remaining: seq<Key>) returns (target: Option<Key>)
      requires table.Valid()
      ensures target == FindTarget(table.players, self, remaining)
    {
      for i := 0 to |remaining|
        invariant FindTarget(table.players, self, remaining) == FindTarget(table.players, self, remaining[i..])
      {
        assert remaining[i..][1..] == remaining[i + 1..];
        var account := remaining[i];
        if table.Has(account) {
          table.Reads(account);
          if account != self && table.accounts[account].isActive {
            return Some(account);
          }
        }
      }
      return None;
    }

    method RugPull(self: Key, remaining: seq<Key>)
      requires table.Valid() && self in table.players
      modifies table.Repr
      ensures table.Valid() && table.Repr == old(table.Repr)
      ensures ApplyEffect(old(table.players), self, RUG_PULL, remaining) == Some(table.players)
    {
      hide PlayerTable.Valid;
      var target := FindValidTarget(self, remaining);
      if target.Some? {
        table.Reads(target.value);
        var best := table.accounts[target.value].FindHighestAlpha();
        if best.Some? { table.Remove(target.value, best.value); }
      }
    }

    /** Takes the victim's last card; on a full hand nothing is taken and the instruction fails. */
    method VampireAttack(self: Key, remaining: seq<Key>) returns (ok: bool)
      requires table.Valid() && self in table.players
      modifies table.Repr
      ensures table.Valid() && table.Repr == old(table.Repr)
      ensures match ApplyEffect(old(table.players), self, VAMPIRE_ATTACK, remaining)
              case Some(players) => ok && table.players == players
              case None => !ok && table.players == old(table.players)
    {
      hide PlayerTable.Valid;
      var target := FindValidTarget(self, remaining);
      if target.None? { return true; }
      table.Reads(target.value);
      table.Reads(self);
      var victim, thief := table.accounts[target.value], table.accounts[self];
      if victim.handSize == 0 { return true; }
      var stolen := victim.hand[victim.handSize - 1];
      if thief.handSize >= MAX_HAND_SIZE { return false; }
      table.Pop(target.value);
      ok := table.Push(self, stolen);
    }

    method Effect(self: Key, effect: Byte, remaining: seq<Key>) returns (ok: bool)
      requires table.Valid() && self in table.players
      modifies table.Repr
      ensures table.Valid() && table.Repr == old(table.Repr)
      ensures match ApplyEffect(old(table.players), self, effect, remaining)
              case Some(players) => ok && table.players == players
              case None => !ok && table.players == old(table.players)
    {
      ok := true;
      if effect == RUG_PULL {
        RugPull(self, remaining);
      } else if effect == VAMPIRE_ATTACK {
        ok := VampireAttack(self, remaining);
      }
    }

    method Hit(player: Key, card: Card, leafIndex: Byte, proof: seq<Hash>, remaining: seq<Key>)
      returns (error: Option<Error>)
      requires Valid()
      modifies this`turn, this`drawCounter, table.Repr
      ensures Valid() && table.Repr == old(table.Repr)
      ensures Answers(error, Snapshot(), GameSpec.Hit(old(Snapshot()), player, card, leafIndex, proof, remaining),
                      old(Snapshot()))
    {
      hide PlayerTable.Valid, Drawn, Verifies;
      if leafIndex >= DECK_SIZE { return Some(LeafIndexOutOfRange); }
      if !open || !table.Has(player) { return Some(InvalidAccountOwner); }
      if player == ZERO_KEY { return Some(MissingSigner); }
      error := CheckTurn(player);
      if error.Some? { return; }
      if leafIndex != drawCounter { return Some(InvalidCardIndex); }
      if |proof| != TREE_DEPTH { return Some(InvalidMerkleProof); }
      var verified := VerifyMerkleProof(card, leafIndex, proof, root);
      if !verified { return Some(InvalidMerkleProof); }
      table.Reads(player);
      if !table.accounts[player].isActive { return Some(PlayerNotActive); }
      error := Draw(player, card, remaining);
    }

    method AdvanceTurn()
      requires Valid() && turn < playerCount
      modifies this`turn
      ensures Snapshot() == old(Snapshot()).(turn := NextTurn(old(Snapshot())))
    {
      turn := (turn + 1) % playerCount;
    }

    static lemma PushThenPop(players: map<Key, Player>, player: Key, card: Card)
      requires player in players
      ensures var p := players[player]; var pushed := p.(hand := p.hand + [card]);
              players[player := pushed][player := pushed.(hand := Popped(pushed.hand))] == players
    {
      assert Popped(players[player].hand + [card]) == players[player].hand;
    }

    /** The accepted card goes into the hand and is resolved. */
    method Draw(player: Key, card: Card, remaining: seq<Key>) returns (error: Option<Error>)
      requires Valid() && player in table.players && turn < playerCount
      modifies this`turn, this`drawCounter, table.Repr
      ensures Valid() && table.Repr == old(table.Repr)
      ensures Answers(error, Snapshot(), Drawn(old(Snapshot()), player, card, remaining), old(Snapshot()))
    {
      hide PlayerTable.Valid, Resolve, Popped;
      ghost var before := table.players;
      var pushed := table.Push(player, card);
      if !pushed { return Some(HandIsFull); }
      error := ResolveCard(player, card, remaining);
      if error.Some? {
        // The runtime undoes the writes of a failed instruction.
        table.Pop(player);
        PushThenPop(before, player, card);
      } else {
        drawCounter := drawCounter + 1;
      }
    }

    method ResolveCard(player: Key, card: Card, remaining: seq<Key>) returns (error: Option<Error>)
      requires Valid() && player in table.players && turn < playerCount
      modifies this`turn, table.Repr
      ensures Valid() && table.Repr == old(table.Repr)
      ensures Answers(error, Snapshot(), Resolve(old(Snapshot()), player, card, remaining), old(Snapshot()))
    {
      hide PlayerTable.Valid, ApplyEffect, CheckBust;
      table.Reads(player);
      var bust := ScanForBust(table.accounts[player].hand, table.accounts[player].handSize);
      if bust.Some? {
        table.MarkBust(player, bust.value);
        AdvanceTurn();
      } else if card.cardType == PROTOCOL {
        var ok := Effect(player, card.value, remaining);
        if !ok { return Some(HandIsFull); }
      }
      return None;
    }

    // -------------------------------------------------------------------
    // EndRound
    // -------------------------------------------------------------------

    /** The payout loop: fails on a player still active, else finds the seat to pay. */
    method FindWinner() returns (stillActive: bool, winner: Option<nat>)
      requires Valid() && Seated(Snapshot())
      ensures stillActive <==> exists k :: k in Order() && table.players[k].isActive
      ensures !stillActive ==> winner == Winner(Snapshot())
    {
      hide PlayerTable.Valid;
      winner := None;
      var highestScore: nat := 0;
      for i := 0 to playerCount
        invariant forall j :: 0 <= j < i ==> !table.players[seats[j]].isActive
        invariant winner == WinnerAmong(Snapshot(), i)
        invariant winner.Some? ==> highestScore == table.players[seats[winner.value]].score
      {
        assert seats[i] in Order();
        table.Reads(seats[i]);
        var ps := table.accounts[seats[i]];
        if ps.isActive { return true, winner; }
        if ps.reason == Stayed && (winner.None? || ps.score > highestScore) {
          highestScore := ps.score;
          winner := Some(i);
        }
      }
      return false, winner;
    }

    method EndRound(caller: Key, passed: seq<Key>, winnerAccountOk: bool, treasuryAccountOk: bool)
      returns (error: Option<Error>)
      requires Valid()
      modifies this
      ensures Valid()
      ensures Answers(error, Snapshot(),
                      GameSpec.EndRound(old(Snapshot()), caller, passed, winnerAccountOk, treasuryAccountOk), old(Snapshot()))
    {
      hide PlayerTable.Valid, AccountsError, Winner, Settle, RollOver;
      if !open { return Some(InvalidAccountOwner); }
      if caller == ZERO_KEY { return Some(MissingSigner); }
      if !roundActive { return Some(RoundNotActive); }
      if |passed| < playerCount { return Some(NotEnoughAccountKeys); }
      var seat := FindSeat(caller);
      if caller != authority && caller != dealer && seat.None? { return Some(MissingRequiredSignature); }
      error := CheckAccounts(passed);
      if error.Some? { return; }
      AccountsMatch(table.players, Order(), passed);
      var stillActive, winner := FindWinner();
      if stillActive { return Some(PlayersStillActive); }
      if winner.Some? {
        error := PayWinner(seats[winner.value], winnerAccountOk, treasuryAccountOk);
      } else {
        error := RollPotOver(treasuryAccountOk);
      }
    }

    method CloseRound()
      requires Valid()
      modifies this`roundActive, this`deckCommitted, this`drawCounter
      ensures Valid() && Snapshot() == RoundOver(old(Snapshot()))
    {
      hide PlayerTable.Valid;
      roundActive := false;
      deckCommitted := false;
      drawCounter := 0;
    }

    method PayTokens(winner: Key, rake: nat, payout: nat)
      requires Valid() && rake + payout <= vault
      modifies this`wallets, this`vault, this`pot, this`rollover
      ensures Snapshot() == PayOut(old(Snapshot()), winner, rake, payout)
    {
      wallets := Credit(Credit(wallets, treasury, rake), winner, payout);
      vault := vault - rake - payout;
      pot := 0;
      rollover := 0;
    }

    method PayWinner(winner: Key, winnerAccountOk: bool, treasuryAccountOk: bool) returns (error: Option<Error>)
      requires Valid()
      modifies this
      ensures Valid() && Answers(error, Snapshot(), Settle(old(Snapshot()), winner, winnerAccountOk, treasuryAccountOk),
                                 old(Snapshot()))
    {
      hide PlayerTable.Valid;
      if pot > 0 {
        if pot * feeBps > U64_MAX { return Some(ArithmeticOverflow); }
        var rake := pot * feeBps / 10_000;
        if rake > pot { return Some(ArithmeticOverflow); }
        var payout := pot - rake;
        if rake > 0 && !treasuryAccountOk { return Some(InvalidTokenAccount); }
        if rake > vault { return Some(InsufficientFunds); }
        if payout > 0 && !winnerAccountOk { return Some(InvalidTokenAccount); }
        if payout > vault - rake { return Some(InsufficientFunds); }
        PayTokens(winner, rake, payout);
      } else {
        rollover := 0;
      }
      CloseRound();
      return None;
    }

    method SweepPot()
      requires Valid() && pot <= vault
      modifies this`wallets, this`vault, this`pot, this`rollover
      ensures Snapshot() == Swept(old(Snapshot()))
    {
      wallets := Credit(wallets, treasury, pot);
      vault := vault - pot;
      pot := 0;
      rollover := 0;
    }

    method RollPotOver(treasuryAccountOk: bool) returns (error: Option<Error>)
      requires Valid()
      modifies this
      ensures Valid() && Answers(error, Snapshot(), RollOver(old(Snapshot()), treasuryAccountOk), old(Snapshot()))
    {
      hide PlayerTable.Valid;
      if rollover >= MAX_ROLLOVERS {
        if pot > 0 && !treasuryAccountOk { return Some(InvalidTokenAccount); }
        if pot > vault { return Some(InsufficientFunds); }
        SweepPot();
      } else {
        rollover := rollover + 1;
      }
      CloseRound();
      return None;
    }
  }
}
