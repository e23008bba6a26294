/** The PlayerState accounts: ten-slot hand buffers and flags, written in place. */
module PlayerAccounts {
  import opened Cards
  import opened Scoring
  import opened Ledger
  import opened GameSpec
  import opened Options
  import opened Numbers
  import opened Sequences

  class PlayerState {
    const player: Key
    const hand: array<Card>
    var handSize: nat
    var isActive: bool
    var reason: Reason
    var bustValue: Byte
    var score: nat
    var staked: nat
    var usedSecondChance: bool
    var usedScry: bool

    ghost predicate Valid()
      reads this
    {
      hand.Length == MAX_HAND_SIZE && handSize <= MAX_HAND_SIZE
    }

    /** The record the account stands for; slots past the hand size are not part of it. */
    ghost function View(): Player
      reads this, hand
      requires Valid()
    {
      Player(hand[..handSize], isActive, reason, bustValue, score, staked, usedSecondChance, usedScry)
    }

    constructor (player: Key, staked: nat)
      ensures Valid() && fresh(hand) && View() == NewPlayer(staked) && this.player == player
    {
      this.player := player;
      hand := new Card[MAX_HAND_SIZE](_ => Card(0, 0, 0));
      handSize := 0;
      isActive, reason, bustValue := true, Active, 0;
      score := 0;
      this.staked := staked;
      usedSecondChance, usedScry := false, false;
    }

    /** Fails on a full hand, where the program panics. */
    method PushCard(card: Card) returns (ok: bool)
      requires Valid()
      modifies this`handSize, hand
      ensures Valid() && ok == (old(handSize) < MAX_HAND_SIZE)
      ensures View() == if ok then old(View()).(hand := old(View()).hand + [card]) else old(View())
    {
      ok := handSize < MAX_HAND_SIZE;
      if ok {
        hand[handSize] := card;
        handSize := handSize + 1;
      }
    }

    method PopCard()
      requires Valid()
      modifies this`handSize
      ensures Valid() && View() == old(View()).(hand := Popped(old(View()).hand))
    {
      if handSize > 0 {
        handSize := handSize - 1;
      }
    }

    /** The scan for the RugPull victim's best Alpha. */
    method FindHighestAlpha() returns (best: Option<nat>)
      requires Valid()
      ensures best == HighestAlpha(View().hand)
    {
      best := None;
      var bestVal: Byte := 0;
      for i := 0 to handSize
        invariant best == HighestAlpha(hand[..i])
        invariant bestVal == if best.None? then 0 else hand[best.value].value
      {
        assert hand[..i + 1][..i] == hand[..i];
        var c := hand[i];
        if c.cardType == ALPHA && c.value > bestVal {
          bestVal := c.value;
          best := Some(i);
        }
      }
    }

    /** Removes the card at `idx` by shifting the later ones down. */
    method RemoveCard(idx: nat)
      requires Valid() && idx < handSize
      modifies this`handSize, hand
      ensures Valid() && View() == old(View()).(hand := Without(old(View()).hand, idx))
    {
      for i := idx to handSize - 1
        invariant handSize == old(handSize)
        invariant hand[..idx] == old(hand[..idx])
        invariant forall k :: idx <= k < i ==> hand[k] == old(hand[k + 1])
        invariant forall k :: i <= k < handSize ==> hand[k] == old(hand[k])
      {
        hand[i] := hand[i + 1];
      }
      handSize := handSize - 1;
      assert hand[..handSize] == old(Without(View().hand, idx));
    }

    method ResetForRound()
      requires Valid()
      modifies this
      ensures Valid() && View() == Fresh(old(View()))
    {
      handSize := 0;
      isActive, reason, bustValue := true, Active, 0;
      score := 0;
      usedSecondChance, usedScry := false, false;
    }

    method MarkScry()
      requires Valid()
      modifies this
      ensures Valid() && View() == old(View()).(usedScry := true)
    {
      usedScry := true;
    }

    method MarkBust(value: Byte)
      requires Valid()
      modifies this
      ensures Valid() && View() == old(View()).(isActive := false, reason := Bust, bustValue := value)
    {
      isActive := false;
      reason := Bust;
      bustValue := value;
    }

    method Forfeit()
      requires Valid()
      modifies this
      ensures Valid() && View() == Forfeited(old(View()))
    {
      isActive := false;
      reason := Bust;
      score := 0;
    }

    method LockIn(value: nat)
      requires Valid()
      modifies this
      ensures Valid() && View() == old(View()).(score := value, isActive := false, reason := Stayed)
    {
      score := value;
      isActive := false;
      reason := Stayed;
    }

    method Revive()
      requires Valid()
      modifies this
      ensures Valid() && View() == Revived(old(View()))
    {
      PopCard();
      isActive := true;
      reason := Active;
      bustValue := 0;
      usedSecondChance := true;
    }
  }

  /** The PlayerState accounts of one game, found by their player. */
  class PlayerTable {
    var accounts: map<Key, PlayerState>
    ghost var owners: map<array<Card>, Key>
    /** The records the accounts stand for. */
    ghost var players: map<Key, Player>
    ghost var Repr: set<object>

    ghost predicate Valid()
      reads this, Repr
    {
      && this in Repr
      && players.Keys == accounts.Keys
      && (forall k :: k in accounts ==> accounts[k] in Repr && accounts[k].hand in Repr)
      && (forall k :: k in accounts ==> Holds(accounts[k], players[k]) && Owned(accounts[k], k))
    }

    ghost predicate Holds(account: PlayerState, p: Player)
      reads account, account.hand
    {
      account.Valid() && account.View() == p
    }

    /** Distinct players have distinct accounts and buffers. */
    ghost predicate Owned(account: PlayerState, k: Key)
      reads this`owners
    {
      account.player == k && account.hand in owners && owners[account.hand] == k
    }

    /** Whether the program owns a PlayerState account for this player. */
    function Has(player: Key): (b: bool)
      reads this, Repr
      requires Valid()
      ensures b <==> player in players
    {
      player in accounts
    }

    constructor ()
      ensures Valid() && fresh(Repr) && players == map[]
    {
      accounts, owners, players := map[], map[], map[];
      Repr := {this};
    }

    method Create(player: Key, staked: nat)
      requires Valid() && player !in players
      modifies this
      ensures Valid() && fresh(Repr - old(Repr)) && players == old(players)[player := NewPlayer(staked)]
    {
      var account := new PlayerState(player, staked);
      hide NewPlayer;
      Add(account);
    }

    /** Takes in an account that shares nothing with the others. */
    method Add(account: PlayerState)
      requires Valid() && account.Valid() && account.player !in players
      requires account !in Repr && account.hand !in Repr && account.hand !in owners
      modifies this
      ensures Valid() && Repr == old(Repr) + {account, account.hand}
      ensures players == old(players)[account.player := account.View()]
    {
      accounts := accounts[account.player := account];
      owners := owners[account.hand := account.player];
      players := players[account.player := account.View()];
      Repr := Repr + {account, account.hand};
    }

    method Close(player: Key)
      requires Valid()
      modifies this
      ensures Valid() && Repr == old(Repr) && players == old(players) - {player}
    {
      accounts, players := accounts - {player}, players - {player};
    }

    /** Writing one account, and its record with it, keeps the table in step. */
    twostate lemma OneChanged(player: Key)
      requires old(Valid()) && player in accounts
      requires accounts == old(accounts) && owners == old(owners) && Repr == old(Repr)
      requires players.Keys == old(players.Keys) && forall k :: k in players && k != player ==> players[k] == old(players[k])
      requires Holds(accounts[player], players[player])
      requires forall o: object :: o in Repr && o != this && o != accounts[player] && o != accounts[player].hand ==> unchanged(o)
      ensures Valid()
    {
      forall k | k in accounts ensures Holds(accounts[k], players[k]) && Owned(accounts[k], k) {
        assert old(Owned(accounts[k], k) && Owned(accounts[player], player));
        if k != player {
          assert old(Holds(accounts[k], players[k]));
          assert unchanged(accounts[k]) && unchanged(accounts[k].hand);
        }
      }
    }

    method Forfeit(player: Key)
      requires Valid() && player in players
      modifies Repr
      ensures Valid() && Repr == old(Repr) && players == old(players)[player := Forfeited(old(players)[player])]
    {
      accounts[player].Forfeit();
      players := players[player := Forfeited(players[player])];
      OneChanged(player);
    }

    method LockIn(player: Key, score: nat)
      requires Valid() && player in players
      modifies Repr
      ensures Valid() && Repr == old(Repr)
      ensures players == old(players)[player := old(players)[player].(score := score, isActive := false, reason := Stayed)]
    {
      accounts[player].LockIn(score);
      players := players[player := players[player].(score := score, isActive := false, reason := Stayed)];
      OneChanged(player);
    }

    method MarkScry(player: Key)
      requires Valid() && player in players
      modifies Repr
      ensures Valid() && Repr == old(Repr) && players == old(players)[player := old(players)[player].(usedScry := true)]
    {
      accounts[player].MarkScry();
      players := players[player := players[player].(usedScry := true)];
      OneChanged(player);
    }

    method Revive(player: Key)
      requires Valid() && player in players
      modifies Repr
      ensures Valid() && Repr == old(Repr) && players == old(players)[player := Revived(old(players)[player])]
    {
      accounts[player].Revive();
      players := players[player := Revived(players[player])];
      OneChanged(player);
    }

    method Reset(player: Key)
      requires Valid() && player in players
      modifies Repr
      ensures Valid() && Repr == old(Repr) && players == old(players)[player := Fresh(old(players)[player])]
    {
      accounts[player].ResetForRound();
      players := players[player := Fresh(players[player])];
      OneChanged(player);
    }

    /** Adds a card to a hand; fails on a full one. */
    method Push(player: Key, card: Card) returns (ok: bool)
      requires Valid() && player in players
      modifies Repr
      ensures Valid() && Repr == old(Repr) && ok == (|old(players)[player].hand| < MAX_HAND_SIZE)
      ensures var p := old(players)[player];
              players == if ok then old(players)[player := p.(hand := p.hand + [card])] else old(players)
    {
      assert Holds(accounts[player], players[player]);
      ok := accounts[player].PushCard(card);
      if ok {
        players := players[player := players[player].(hand := players[player].hand + [card])];
      }
      OneChanged(player);
    }

    method Pop(player: Key)
      requires Valid() && player in players
      modifies Repr
      ensures Valid() && Repr == old(Repr)
      ensures var p := old(players)[player]; players == old(players)[player := p.(hand := Popped(p.hand))]
    {
      assert Holds(accounts[player], players[player]);
      accounts[player].PopCard();
      players := players[player := players[player].(hand := Popped(players[player].hand))];
      OneChanged(player);
    }

    method Remove(player: Key, idx: nat)
      requires Valid() && player in players && idx < |players[player].hand|
      modifies Repr
      ensures Valid() && Repr == old(Repr)
      ensures var p := old(players)[player]; players == old(players)[player := p.(hand := Without(p.hand, idx))]
    {
      assert Holds(accounts[player], players[player]);
      accounts[player].RemoveCard(idx);
      players := players[player := players[player].(hand := Without(players[player].hand, idx))];
      OneChanged(player);
    }

    method MarkBust(player: Key, value: Byte)
      requires Valid() && player in players
      modifies Repr
      ensures Valid() && Repr == old(Repr)
      ensures players == old(players)[player := old(players)[player].(isActive := false, reason := Bust, bustValue := value)]
    {
      accounts[player].MarkBust(value);
      players := players[player := players[player].(isActive := false, reason := Bust, bustValue := value)];
      OneChanged(player);
    }

    /** Reading an account reads its record. */
    lemma Reads(player: Key)
      requires Valid() && player in players
      ensures player in accounts && accounts[player].Valid() && accounts[player].View() == players[player]
    {
      assert Holds(accounts[player], players[player]);
    }
  }
}
