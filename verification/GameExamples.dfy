/** Played games that reach the states where the code fails a tempting property. */
module GameExamples {
  import opened Options
  import opened Numbers
  import opened Cards
  import opened Scoring
  import opened Merkle
  import opened Ledger
  import opened GameSpec
  import opened GameInvariant
  import opened GameCards
  import opened GameTokens
  import opened GameRounds
  import opened GameTurns
  import Shuffle

  const AUTHORITY: Key := 1
  const DEALER: Key := 2
  const TREASURY: Key := 3
  const ANN: Key := 10
  const BOB: Key := 11

  const STAKE := 1_000_000_000_000_000_000

  /** A game as initialized with the default fee, for two players with twice the stake each. */
  function NewGame(): Game {
    Initialize(AUTHORITY, DEALER, TREASURY, 200, map[ANN := 2 * STAKE, BOB := 2 * STAKE]).game
  }

  // ---------------------------------------------------------------------
  // A deck that starts with three Alphas of value 5 and a VampireAttack
  // ---------------------------------------------------------------------

  function StackedDeck(): (deck: seq<Card>)
    ensures |deck| == DECK_SIZE
  {
    Shuffle.Swap(Shuffle.Swap(Shuffle.Swap(Shuffle.Swap(CanonicalDeck(), 0, 4), 1, 17), 2, 30), 3, 72)
  }

  lemma StackedDeckCards()
    ensures var deck := StackedDeck();
            && deck[0] == Card(5, ALPHA, 0) && deck[1] == Card(5, ALPHA, 1) && deck[2] == Card(5, ALPHA, 2)
            && deck[3] == Card(VAMPIRE_ATTACK, PROTOCOL, 0)
  {
    AlphasUnrolled();
    var deck := CanonicalDeck();
    assert deck[4] == Card(5, ALPHA, 0) && deck[17] == Card(5, ALPHA, 1) && deck[30] == Card(5, ALPHA, 2);
    assert deck[72] == Card(VAMPIRE_ATTACK, PROTOCOL, 0);
  }

  lemma StackedDeckIsShuffle()
    ensures Shuffle.IsShuffleOfDeck(StackedDeck())
  {
    hide CanonicalDeck;
    var a := Shuffle.Swap(CanonicalDeck(), 0, 4);
    var b := Shuffle.Swap(a, 1, 17);
    var c := Shuffle.Swap(b, 2, 30);
    Shuffle.SwapPermutes(CanonicalDeck(), 0, 4);
    Shuffle.SwapPermutes(a, 1, 17);
    Shuffle.SwapPermutes(b, 2, 30);
    Shuffle.SwapPermutes(c, 3, 72);
  }

  // ---------------------------------------------------------------------
  // From initialize to a running round
  // ---------------------------------------------------------------------

  /** One more accepted call takes a run to the next state. */
  lemma Plays(g: Game, calls: seq<Call>, h: Game, c: Call, h': Game)
    requires Run(g, calls) == h && Step(h, c) == Ok(h')
    ensures Run(g, calls + [c]) == h'
  {
    hide Step;
    RunOneMore(g, calls, c);
  }

  function Commit(): Call {
    DoCommitDeck(DEALER, DeckRoot(StackedDeck()), ProofOf(StackedDeck()))
  }

  /** The vault is opened, both players join, the deck is committed and the round starts. */
  function Opening(): seq<Call> {
    [DoInitVault(AUTHORITY), DoJoinRound(ANN, STAKE), DoJoinRound(BOB, STAKE), Commit(), DoStartRound(AUTHORITY, [ANN, BOB])]
  }

  function Joined(): Game {
    NewGame().(vaultReady := true,
               order := [ANN, BOB],
               players := map[ANN := NewPlayer(STAKE), BOB := NewPlayer(STAKE)],
               wallets := map[ANN := STAKE, BOB := STAKE],
               vault := 2 * STAKE,
               pot := 2 * STAKE)
  }

  function Started(): Game {
    Joined().(root := DeckRoot(StackedDeck()), deckCommitted := true, roundActive := true, round := 1)
  }

  function AnnJoined(): Game {
    NewGame().(vaultReady := true,
               order := [ANN],
               players := map[ANN := NewPlayer(STAKE)],
               wallets := map[ANN := STAKE, BOB := 2 * STAKE],
               vault := STAKE,
               pot := STAKE)
  }

  lemma FirstSteps()
    ensures Step(NewGame(), Opening()[0]) == Ok(NewGame().(vaultReady := true))
    ensures Step(NewGame().(vaultReady := true), Opening()[1]) == Ok(AnnJoined())
    ensures Step(AnnJoined(), Opening()[2]) == Ok(Joined())
  {
    hide Commit, CommitDeck, DeckRoot, StackedDeck;
    assert AnnJoined().order + [BOB] == [ANN, BOB];
  }

  lemma BothJoin()
    ensures Run(NewGame(), Opening()[..3]) == Joined()
  {
    FirstSteps();
    var g, calls := NewGame(), Opening();
    assert Run(g, []) == g && |calls| == 5;
    hide Run, Step, NewGame, AnnJoined, Joined, Commit, Opening;
    Plays(g, [], g, calls[0], g.(vaultReady := true));
    Plays(g, [] + [calls[0]], g.(vaultReady := true), calls[1], AnnJoined());
    Plays(g, [] + [calls[0]] + [calls[1]], AnnJoined(), calls[2], Joined());
    assert calls[..3] == [] + [calls[0]] + [calls[1]] + [calls[2]];
  }

  lemma RoundStarts()
    ensures Initial(NewGame()) && Run(NewGame(), Opening()) == Started()
  {
    BothJoin();
    StackedDeckIsShuffle();
    hide DeckRoot, StackedDeck, Run, Shuffle.IsShuffleOfDeck;
    var g, calls := NewGame(), Opening();
    var committed := Joined().(root := DeckRoot(StackedDeck()), deckCommitted := true);
    Plays(g, calls[..3], Joined(), calls[3], committed);
    Plays(g, calls[..3] + [calls[3]], committed, calls[4], Started());
    assert calls == calls[..3] + [calls[3]] + [calls[4]];
  }

  // ---------------------------------------------------------------------
  // A forfeit that stalls the round
  // ---------------------------------------------------------------------

  /** Ann leaves at her turn: Bob is still active, and nobody can hit, stay or scry. */
  lemma ForfeitCanStall()
    ensures var h := Run(NewGame(), Opening() + [DoLeaveGame(ANN)]);
            Initial(NewGame()) && h.roundActive && h.order == [ANN, BOB] && ActiveSeat(h, 1) && !SomeoneCanAct(h)
  {
    RoundStarts();
    hide DeckRoot, StackedDeck, Run, Opening;
    var left := Started().(players := Started().players[ANN := Forfeited(NewPlayer(STAKE))]);
    assert Step(Started(), DoLeaveGame(ANN)) == Ok(left);
    Plays(NewGame(), Opening(), Started(), DoLeaveGame(ANN), left);
    hide Step;
    RunKeepsInv(NewGame(), Opening() + [DoLeaveGame(ANN)]);
    CanActIff(left);
  }

  // ---------------------------------------------------------------------
  // A pot too large to be paid at once
  // ---------------------------------------------------------------------

  /** Both stay; their pot times the default fee exceeds 64 bits, and the round cannot be ended. */
  lemma PotCanOverflow()
    ensures var h := Run(NewGame(), Opening() + [DoStay(ANN)] + [DoStay(BOB)]);
            && Initial(NewGame()) && Seated(h) && Winner(h) == Some(0) && h.pot * h.feeBps > U64_MAX
            && EndRound(h, AUTHORITY, [ANN, BOB], true, true) == Err(ArithmeticOverflow)
  {
    RoundStarts();
    hide DeckRoot, StackedDeck, Run, Opening;
    var stayed := NewPlayer(STAKE).(isActive := false, reason := Stayed);
    var one := Started().(players := Started().players[ANN := stayed], turn := 1);
    var two := one.(players := one.players[BOB := stayed], turn := 0);
    Plays(NewGame(), Opening(), Started(), DoStay(ANN), one);
    Plays(NewGame(), Opening() + [DoStay(ANN)], one, DoStay(BOB), two);
    assert WinnerAmong(two, 1) == Some(0);
    AccountsMatch(two.players, two.order, [ANN, BOB]);
  }

  // ---------------------------------------------------------------------
  // A steal that leaves a duplicate in an active hand
  // ---------------------------------------------------------------------

  function Draw(player: Key, k: nat, remaining: seq<Key>): Call
    requires k < DECK_SIZE
  {
    DoHit(player, StackedDeck()[k], k, DeckProof(StackedDeck(), k), remaining)
  }

  /** The next card of the deck is accepted and resolved. */
  lemma DrawIsAccepted(h: Game, player: Key, remaining: seq<Key>)
    requires h.open && h.roundActive && h.root == DeckRoot(StackedDeck()) && h.drawCounter < DECK_SIZE
    requires player != ZERO_KEY && player in h.players && h.players[player].isActive
    requires h.turn < |h.order| <= MAX_PLAYERS && h.order[h.turn] == player
    ensures Step(h, Draw(player, h.drawCounter, remaining)) == Drawn(h, player, StackedDeck()[h.drawCounter], remaining)
  {
    hide DeckRoot, DeckProof, Verifies, StackedDeck, Drawn;
    var k := h.drawCounter;
    DeckVerifies(StackedDeck(), StackedDeck()[k], k, DeckProof(StackedDeck(), k));
  }

  const FIVE_OF_0 := Card(5, ALPHA, 0)
  const FIVE_OF_1 := Card(5, ALPHA, 1)
  const FIVE_OF_2 := Card(5, ALPHA, 2)
  const VAMPIRE := Card(VAMPIRE_ATTACK, PROTOCOL, 0)

  function Holding(hand: seq<Card>): Player {
    NewPlayer(STAKE).(hand := hand)
  }

  /** The started round after `drawn` cards, with the turn at a seat and these players. */
  function Playing(ann: Player, bob: Player, turn: nat, drawn: nat): Game {
    Started().(players := map[ANN := ann, BOB := bob], turn := turn, drawCounter := drawn)
  }

  function AnnBusted(): Player {
    Holding([FIVE_OF_0, FIVE_OF_1]).(isActive := false, reason := Bust, bustValue := 5)
  }

  function AnnRevived(): Player {
    Holding([FIVE_OF_0]).(usedSecondChance := true)
  }

  /** A state after the second chance was paid for. */
  function Paid(g: Game): Game {
    g.(wallets := map[ANN := STAKE - SECOND_CHANCE_COST, BOB := STAKE], burned := SECOND_CHANCE_COST)
  }

  lemma FewFives()
    ensures CheckBust([FIVE_OF_0]).None? && CheckBust([FIVE_OF_0, FIVE_OF_1]) == Some(5)
    ensures CheckBust([FIVE_OF_2]).None? && CheckBust([FIVE_OF_2, VAMPIRE]).None?
    ensures HoldsTwo([FIVE_OF_2, VAMPIRE, FIVE_OF_0], 5)
  {
    CheckBustMeaning([FIVE_OF_0]);
    CheckBustMeaning([FIVE_OF_2]);
    BustOnDraw([FIVE_OF_0], FIVE_OF_1);
    assert [FIVE_OF_0] + [FIVE_OF_1] == [FIVE_OF_0, FIVE_OF_1] && CanBust([FIVE_OF_0][0]);
    BustOnDraw([FIVE_OF_2], VAMPIRE);
    assert [FIVE_OF_2] + [VAMPIRE] == [FIVE_OF_2, VAMPIRE];
    assert Pair([FIVE_OF_2, VAMPIRE, FIVE_OF_0], 0, 2);
  }

  function Thief(): Player {
    Holding([FIVE_OF_2, VAMPIRE, FIVE_OF_0])
  }

  /** The states between the draws: Ann's two, her second chance, and Bob's two. */
  function After(n: nat): Game
    requires n <= 5
  {
    if n == 0 then Playing(Holding([]), Holding([]), 0, 0)
    else if n == 1 then Playing(Holding([FIVE_OF_0]), Holding([]), 0, 1)
    else if n == 2 then Playing(AnnBusted(), Holding([]), 1, 2)
    else if n == 3 then Paid(Playing(AnnRevived(), Holding([]), 1, 2))
    else if n == 4 then Paid(Playing(AnnRevived(), Holding([FIVE_OF_2]), 1, 3))
    else Paid(Playing(AnnRevived().(hand := []), Thief(), 1, 4))
  }

  lemma AnnDraws()
    ensures Drawn(After(0), ANN, FIVE_OF_0, []) == Ok(After(1))
    ensures Drawn(After(1), ANN, FIVE_OF_1, []) == Ok(After(2))
    ensures BurnSecondChance(After(2), ANN) == Ok(After(3))
  {
    FewFives();
    hide CheckBust, DeckRoot, StackedDeck;
    assert [] + [FIVE_OF_0] == [FIVE_OF_0] && [FIVE_OF_0] + [FIVE_OF_1] == [FIVE_OF_0, FIVE_OF_1];
    assert Popped([FIVE_OF_0, FIVE_OF_1]) == [FIVE_OF_0];
  }

  lemma BobDraws()
    ensures Drawn(After(3), BOB, FIVE_OF_2, []) == Ok(After(4))
  {
    FewFives();
    hide CheckBust, DeckRoot, StackedDeck;
    assert [] + [FIVE_OF_2] == [FIVE_OF_2];
  }

  lemma BobSteals()
    ensures Drawn(After(4), BOB, VAMPIRE, [ANN]) == Ok(After(5))
  {
    FewFives();
    hide CheckBust, DeckRoot, StackedDeck;
    assert [FIVE_OF_2] + [VAMPIRE] == [FIVE_OF_2, VAMPIRE];
    assert [FIVE_OF_2, VAMPIRE] + [FIVE_OF_0] == Thief().hand;
    assert Popped([FIVE_OF_0]) == [];
  }

  /** Ann busts on her second five and buys herself back in; Bob draws a five and then steals hers. */
  function TheSteal(): seq<Call> {
    Opening() + [Draw(ANN, 0, [])] + [Draw(ANN, 1, [])] + [DoBurnSecondChance(ANN)] + [Draw(BOB, 2, [])] + [Draw(BOB, 3, [ANN])]
  }

  lemma AnnSteps()
    ensures Step(After(0), Draw(ANN, 0, [])) == Ok(After(1)) && Step(After(1), Draw(ANN, 1, [])) == Ok(After(2))
    ensures Step(After(2), DoBurnSecondChance(ANN)) == Ok(After(3))
  {
    StackedDeckCards();
    AnnDraws();
    hide StackedDeck, DeckRoot;
    assert Step(After(2), DoBurnSecondChance(ANN)) == Ok(After(3)) by { hide BurnSecondChance; }
    hide Drawn, Step;
    DrawIsAccepted(After(0), ANN, []);
    DrawIsAccepted(After(1), ANN, []);
  }

  lemma BobSteps()
    ensures Step(After(3), Draw(BOB, 2, [])) == Ok(After(4)) && Step(After(4), Draw(BOB, 3, [ANN])) == Ok(After(5))
  {
    StackedDeckCards();
    BobDraws();
    BobSteals();
    hide StackedDeck, DeckRoot, Drawn, Step;
    DrawIsAccepted(After(3), BOB, []);
    DrawIsAccepted(After(4), BOB, [ANN]);
  }

  /** Bob ends up active, at the turn, with two fives and no bust recorded. */
  lemma StealCanDuplicate()
    ensures var h := Run(NewGame(), TheSteal());
            && Initial(NewGame()) && h.roundActive && BOB in h.players
            && h.turn < |h.order| && h.order[h.turn] == BOB
            && h.players[BOB].isActive && h.players[BOB].bustValue == 0 && HoldsTwo(h.players[BOB].hand, 5)
  {
    RoundStarts();
    FewFives();
    AnnSteps();
    BobSteps();
    assert After(0) == Started() by { hide DeckRoot, StackedDeck; }
    var g, calls := NewGame(), Opening();
    hide Run, Draw, StackedDeck, DeckRoot, Opening, HoldsTwo, Step, NewGame;
    Plays(g, calls, After(0), Draw(ANN, 0, []), After(1));
    Plays(g, calls + [Draw(ANN, 0, [])], After(1), Draw(ANN, 1, []), After(2));
    Plays(g, calls + [Draw(ANN, 0, [])] + [Draw(ANN, 1, [])], After(2), DoBurnSecondChance(ANN), After(3));
    var bobs := calls + [Draw(ANN, 0, [])] + [Draw(ANN, 1, [])] + [DoBurnSecondChance(ANN)];
    Plays(g, bobs, After(3), Draw(BOB, 2, []), After(4));
    Plays(g, bobs + [Draw(BOB, 2, [])], After(4), Draw(BOB, 3, [ANN]), After(5));
  }
}
