/** How a round goes: it terminates, it can always be ended, and turns follow the seats. */
module GameRounds {
  import opened Cards
  import opened Scoring
  import opened Ledger
  import opened GameSpec
  import opened GameInvariant
  import opened GameTokens
  import opened Options
  import opened Numbers
  import opened Sequences

  lemma {:induction false} RunConcat(g: Game, a: seq<Call>, b: seq<Call>)
    ensures Run(g, a + b) == Run(Run(g, a), b)
  {
    if b == [] {
      assert a + b == a;
    } else {
      RunConcat(g, a, b[..|b| - 1]);
      assert (a + b)[..|a + b| - 1] == a + b[..|b| - 1];
    }
  }

  lemma RunOneMore(g: Game, calls: seq<Call>, c: Call)
    ensures Run(g, calls + [c]) == Next(Run(g, calls), c)
  {
    assert (calls + [c])[..|calls|] == calls;
  }

  // ---------------------------------------------------------------------
  // Termination
  // ---------------------------------------------------------------------

  predicate IsRoundStep(c: Call) {
    c.DoHit? || c.DoStay? || c.DoLeaveGame? || c.DoBurnScry? || c.DoBurnSecondChance?
  }

  function PlayerWeight(p: Player): nat {
    (match p.reason case Active => 2 case Stayed => 1 case Bust => 0)
    + (if p.usedSecondChance then 0 else 3)
    + (if p.usedScry then 0 else 1)
  }

  function SeatWeights(players: map<Key, Player>, order: seq<Key>): nat
    requires forall k :: k in order ==> k in players
  {
    if order == [] then 0 else PlayerWeight(players[order[0]]) + SeatWeights(players, order[1..])
  }

  /** Undrawn cards, standing of the players, and the burns they have left. */
  function Weight(g: Game): nat
    requires Seated(g) && g.drawCounter <= DECK_SIZE
  {
    DECK_SIZE - g.drawCounter + SeatWeights(g.players, g.order)
  }

  lemma {:induction false} WeightsSame(players: map<Key, Player>, players': map<Key, Player>, order: seq<Key>)
    requires forall k :: k in order ==> k in players && k in players' && PlayerWeight(players[k]) == PlayerWeight(players'[k])
    ensures SeatWeights(players, order) == SeatWeights(players', order)
  {
    if order != [] { WeightsSame(players, players', order[1..]); }
  }

  lemma {:induction false} WeightsUpdate(players: map<Key, Player>, players': map<Key, Player>, order: seq<Key>, k: Key)
    requires Distinct(order) && k in order
    requires forall j :: j in order ==> j in players && j in players'
    requires forall j :: j in order && j != k ==> PlayerWeight(players[j]) == PlayerWeight(players'[j])
    ensures SeatWeights(players', order) - PlayerWeight(players'[k]) == SeatWeights(players, order) - PlayerWeight(players[k])
  {
    if order[0] == k {
      WeightsSame(players, players', order[1..]);
    } else {
      WeightsUpdate(players, players', order[1..], k);
    }
  }

  lemma {:induction false} WeightsBound(players: map<Key, Player>, order: seq<Key>)
    requires forall k :: k in order ==> k in players
    ensures SeatWeights(players, order) <= 6 * |order|
  {
    if order != [] { WeightsBound(players, order[1..]); }
  }

  /** What an accepted hit does to the standing of the players. */
  lemma HitStanding(g: Game, c: Call)
    requires Inv(g) && c.DoHit? && Step(g, c).Ok?
    ensures var g' := Next(g, c);
            && g.roundActive && g'.roundActive && g'.order == g.order && g'.players.Keys == g.players.Keys
            && c.player in g.players && g'.drawCounter == g.drawCounter + 1 <= DECK_SIZE
            && g.turn < |g.order| && c.player == g.order[g.turn] && g.players[c.player].isActive
            && (forall k :: k in g.players && k != c.player ==>
                  PlayerWeight(g'.players[k]) == PlayerWeight(g.players[k]) && g'.players[k].isActive == g.players[k].isActive)
            && PlayerWeight(g'.players[c.player]) <= PlayerWeight(g.players[c.player])
            && g'.turn == (if g'.players[c.player].isActive then g.turn else NextTurn(g))
  {
    hide CheckBust, ApplyEffect, Merkle.Verifies;
    var p := g.players[c.player];
    if CheckBust(p.hand + [c.card]).None? && c.card.cardType == PROTOCOL {
      EffectMovesCards(g.players[c.player := p.(hand := p.hand + [c.card])], c.player, c.card.value, c.remaining);
    }
  }

  /** Every round step that changes anything lowers the weight. */
  lemma StepDecreases(g: Game, c: Call)
    requires Inv(g) && g.roundActive && IsRoundStep(c) && Next(g, c) != g
    ensures Seated(Next(g, c)) && Next(g, c).roundActive && Next(g, c).drawCounter <= DECK_SIZE
    ensures Weight(Next(g, c)) < Weight(g)
  {
    var g' := Next(g, c);
    assert c.player in g.players by { hide Hit, Stay; }
    if c.DoHit? {
      HitStanding(g, c);
    } else {
      QuietStanding(g, c);
    }
    hide Step, Next;
    WeightsUpdate(g.players, g'.players, g.order, c.player);
  }

  /** A forfeit by a busted player changes nothing. */
  lemma SecondForfeit(players: map<Key, Player>, k: Key)
    requires k in players && PlayerOk(players[k])
    ensures players[k].reason == Bust ==> players[k := Forfeited(players[k])] == players
  {
    assert players[k := players[k]] == players;
  }

  lemma QuietStanding(g: Game, c: Call)
    requires Inv(g) && g.roundActive && IsRoundStep(c) && !c.DoHit? && Next(g, c) != g
    ensures var g' := Next(g, c);
            && g'.roundActive && g'.order == g.order && g'.drawCounter == g.drawCounter && c.player in g.order
            && c.player in g'.players && g'.players == g.players[c.player := g'.players[c.player]]
            && PlayerWeight(g'.players[c.player]) < PlayerWeight(g.players[c.player])
  {
    hide HandScore;
    var p := g.players[c.player];
    assert PlayerOk(p);
    if c.DoLeaveGame? { SecondForfeit(g.players, c.player); }
  }

  /** The calls that are no round step leave players, seats, draws and turn alone while the round goes on. */
  lemma OthersKeepRound(g: Game, c: Call)
    requires Inv(g) && g.roundActive && !IsRoundStep(c) && !Ends(g, c)
    ensures var g' := Next(g, c);
            && g'.roundActive && g'.players == g.players && g'.order == g.order
            && g'.drawCounter == g.drawCounter && g'.turn == g.turn
  {
    hide EndRound, ProofAccepted, AccountsError;
  }

  /** The number of round steps in a run that change the game. */
  ghost function ChangingSteps(g: Game, calls: seq<Call>): nat {
    if calls == [] then 0 else
      var init, last := calls[..|calls| - 1], calls[|calls| - 1];
      ChangingSteps(g, init) + if IsRoundStep(last) && Next(Run(g, init), last) != Run(g, init) then 1 else 0
  }

  ghost predicate NeverEnds(g: Game, calls: seq<Call>) {
    forall i :: 0 <= i < |calls| ==> !Ends(Run(g, calls[..i]), calls[i])
  }

  lemma {:induction false} StepsAreBounded(g: Game, calls: seq<Call>)
    requires Inv(g) && g.roundActive && NeverEnds(g, calls)
    ensures var h := Run(g, calls);
            && Inv(h) && h.roundActive && h.order == g.order
            && ChangingSteps(g, calls) + Weight(h) <= Weight(g)
  {
    if calls != [] {
      var n := |calls| - 1;
      var init, last := calls[..n], calls[n];
      assert forall i :: 0 <= i < n ==> init[..i] == calls[..i];
      StepsAreBounded(g, init);
      NextKeepsInv(Run(g, init), last);
      hide Step, Inv, Weight;
      OneStepBounded(Run(g, init), last);
    }
  }

  lemma OneStepBounded(h: Game, c: Call)
    requires Inv(h) && h.roundActive && !Ends(h, c)
    ensures Inv(Next(h, c)) && Next(h, c).roundActive && Next(h, c).order == h.order
    ensures Weight(Next(h, c)) + (if IsRoundStep(c) && Next(h, c) != h then 1 else 0) <= Weight(h)
  {
    NextKeepsInv(h, c);
    if !IsRoundStep(c) {
      OthersKeepRound(h, c);
    } else if Next(h, c) != h {
      StepDecreases(h, c);
      RoundStepKeepsOrder(h, c);
    }
  }

  lemma RoundStepKeepsOrder(g: Game, c: Call)
    requires g.roundActive && IsRoundStep(c)
    ensures Next(g, c).order == g.order
  {
    hide CheckBust, ApplyEffect, HandScore, Merkle.Verifies;
  }

  /** A round of `n` players sees at most `94 + 6n` hits, stays, forfeits, scries and second chances that change anything. */
  lemma RoundsTerminate(g: Game, calls: seq<Call>)
    requires Inv(g) && g.roundActive && NeverEnds(g, calls)
    ensures ChangingSteps(g, calls) <= DECK_SIZE + 6 * |g.order|
  {
    StepsAreBounded(g, calls);
    WeightsBound(g.players, g.order);
  }

  // ---------------------------------------------------------------------
  // No round is stuck
  // ---------------------------------------------------------------------

  /** The first `n` seats forfeit, one after the other. */
  function Forfeits(order: seq<Key>, n: nat): (calls: seq<Call>)
    requires n <= |order|
    ensures |calls| == n
  {
    if n == 0 then [] else Forfeits(order, n - 1) + [DoLeaveGame(order[n - 1])]
  }

  /** `e` is `h` after the first `n` seats forfeited. */
  ghost predicate Forfeiting(h: Game, e: Game, n: nat)
    requires n <= |h.order|
  {
    && e == h.(players := e.players)
    && e.players.Keys == h.players.Keys
    && forall i :: 0 <= i < n ==> OutOfRound(e.players, h.order[i])
  }

  ghost predicate OutOfRound(players: map<Key, Player>, k: Key) {
    k in players && players[k].reason == Bust && !players[k].isActive
  }

  lemma ForfeitStep(h: Game, e: Game, n: nat)
    requires Inv(h) && h.roundActive && n < |h.order| && Forfeiting(h, e, n)
    ensures LeaveGame(e, h.order[n]).Ok? && Forfeiting(h, Next(e, DoLeaveGame(h.order[n])), n + 1)
  {
    hide PlayersOk;
    var e' := Next(e, DoLeaveGame(h.order[n]));
    forall i | 0 <= i < n + 1 ensures OutOfRound(e'.players, h.order[i]) {
      if i < n { assert OutOfRound(e.players, h.order[i]); }
    }
  }

  lemma {:induction false} ForfeitsAccepted(h: Game, n: nat)
    requires Inv(h) && h.roundActive && n <= |h.order|
    ensures Forfeiting(h, Run(h, Forfeits(h.order, n)), n)
    ensures n < |h.order| ==> LeaveGame(Run(h, Forfeits(h.order, n)), h.order[n]).Ok?
  {
    hide Next, LeaveGame, Inv;
    if n > 0 {
      ForfeitsAccepted(h, n - 1);
      ForfeitStep(h, Run(h, Forfeits(h.order, n - 1)), n - 1);
      RunOneMore(h, Forfeits(h.order, n - 1), DoLeaveGame(h.order[n - 1]));
    }
    if n < |h.order| { ForfeitStep(h, Run(h, Forfeits(h.order, n)), n); }
  }

  /** With every seat out of the round, the authority's `end_round` is accepted. */
  lemma AllOutCanEnd(g: Game, calls: seq<Call>, h: Game)
    requires Initial(g) && Inv(h) && h.roundActive && Forfeiting(h, Run(g, calls), |h.order|)
    ensures EndRound(Run(g, calls), h.authority, h.order, false, true).Ok?
  {
    hide Winner, Run, EndRound, PlayersOk;
    var e := Run(g, calls);
    forall k | k in h.order ensures OutOfRound(e.players, k) {
      var i :| 0 <= i < |h.order| && h.order[i] == k;
      assert OutOfRound(e.players, h.order[i]);
    }
    EndAcceptedIff(g, calls, h.authority, h.order, false, true);
    WinnerIsFirstBest(e);
  }

  /** From every reachable state of a running round, forfeits by all and then `end_round` are all accepted. */
  lemma RoundCanAlwaysEnd(g: Game, calls: seq<Call>)
    requires Initial(g) && Run(g, calls).roundActive
    ensures var h := Run(g, calls);
            && (forall n :: 0 <= n < |h.order| ==> LeaveGame(Run(h, Forfeits(h.order, n)), h.order[n]).Ok?)
            && EndRound(Run(h, Forfeits(h.order, |h.order|)), h.authority, h.order, false, true).Ok?
  {
    hide Run, LeaveGame, EndRound, Forfeits, Forfeiting, Inv;
    var h := Run(g, calls);
    RunKeepsInv(g, calls);
    forall n | 0 <= n < |h.order| ensures LeaveGame(Run(h, Forfeits(h.order, n)), h.order[n]).Ok? {
      ForfeitsAccepted(h, n);
    }
    var all := Forfeits(h.order, |h.order|);
    ForfeitsAccepted(h, |h.order|);
    RunConcat(g, calls, all);
    AllOutCanEnd(g, calls + all, h);
  }
}
