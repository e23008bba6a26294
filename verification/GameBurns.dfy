/** The two burns a player has in each round. */
module GameBurns {
  import opened Options
  import opened Cards
  import opened Scoring
  import opened Ledger
  import opened GameSpec
  import opened GameInvariant
  import opened GameCards
  import opened GameTokens
  import opened GameRounds
  import opened GameTurns
  import opened GameEffects

  /** This burn was accepted since the last start of a round. */
  ghost predicate Burned(g: Game, calls: seq<Call>, burn: Call) {
    if calls == [] then false else
      var init, last := calls[..|calls| - 1], calls[|calls| - 1];
      var accepted := Step(Run(g, init), last).Ok?;
      !(last.DoStartRound? && accepted) && (Burned(g, init, burn) || (last == burn && accepted))
  }

  lemma HitKeepsBurns(g: Game, c: Call, k: Key)
    requires Inv(g) && c.DoHit? && Step(g, c).Ok? && k in g.players
    ensures k in Next(g, c).players
    ensures Next(g, c).players[k].usedSecondChance == g.players[k].usedSecondChance
    ensures Next(g, c).players[k].usedScry == g.players[k].usedScry
  {
    HitOutcome(g, c);
    hide Step, Next, CheckBust, ApplyEffect, Inv;
    if c.card.cardType == PROTOCOL && CheckBust(WithDrawn(g, c)[c.player].hand).None? {
      EffectMovesCards(WithDrawn(g, c), c.player, c.card.value, c.remaining);
    }
  }

  /** Within a round only the player's own burns use them up. */
  lemma StepBurns(g: Game, c: Call, k: Key)
    requires Inv(g) && g.roundActive && !Ends(g, c) && k in g.order
    ensures Next(g, c).order == g.order && k in g.players && k in Next(g, c).players
    ensures var p, p' := g.players[k], Next(g, c).players[k];
            && (p'.usedSecondChance <==> p.usedSecondChance || (c == DoBurnSecondChance(k) && Step(g, c).Ok?))
            && (p'.usedScry <==> p.usedScry || (c == DoBurnScry(k) && Step(g, c).Ok?))
  {
    if !IsRoundStep(c) {
      OthersKeepRound(g, c);
    } else {
      RoundStepKeepsOrder(g, c);
      if c.DoHit? && Step(g, c).Ok? { HitKeepsBurns(g, c, k); }
      hide Hit, HandScore;
    }
  }

  /** In every reachable round the two flags say exactly which burns were taken since it started. */
  lemma {:induction false} BurnsAreRecorded(g: Game, calls: seq<Call>, k: Key)
    requires Initial(g)
    ensures var h := Run(g, calls);
            h.roundActive && k in h.order ==>
              && k in h.players
              && (h.players[k].usedSecondChance <==> Burned(g, calls, DoBurnSecondChance(k)))
              && (h.players[k].usedScry <==> Burned(g, calls, DoBurnScry(k)))
  {
    if calls != [] {
      var init, last := calls[..|calls| - 1], calls[|calls| - 1];
      var h := Run(g, init);
      BurnsAreRecorded(g, init, k);
      RunKeepsInv(g, init);
      hide Step, Next, Inv;
      if last.DoStartRound? && Step(h, last).Ok? {
        StartEffects(h, last);
      } else if Run(g, calls).roundActive && k in Run(g, calls).order {
        LastBurns(h, last, k);
      }
    }
  }

  /** Unless it starts the round, a call that leaves a round running found it running. */
  lemma LastBurns(h: Game, c: Call, k: Key)
    requires Inv(h) && !(c.DoStartRound? && Step(h, c).Ok?) && Next(h, c).roundActive && k in Next(h, c).order
    ensures h.roundActive && !Ends(h, c) && Next(h, c).order == h.order && k in h.players && k in Next(h, c).players
    ensures var p, p' := h.players[k], Next(h, c).players[k];
            && (p'.usedSecondChance <==> p.usedSecondChance || (c == DoBurnSecondChance(k) && Step(h, c).Ok?))
            && (p'.usedScry <==> p.usedScry || (c == DoBurnScry(k) && Step(h, c).Ok?))
  {
    if Step(h, c).Err? { Unstarted(h, c); }
    if Ends(h, c) { EndRoundClears(h, c); }
    hide Step, Next, Inv;
    if !h.roundActive { OnlyStartActivates(h, c); }
    assert Next(h, c).order == h.order by {
      if IsRoundStep(c) { RoundStepKeepsOrder(h, c); } else { OthersKeepRound(h, c); }
    }
    StepBurns(h, c, k);
  }

  /** A seated player can buy back in exactly when bust, able to pay, and without a second chance since the round started. */
  lemma SecondChanceIff(g: Game, calls: seq<Call>, k: Key)
    requires Initial(g) && Run(g, calls).roundActive && k in Run(g, calls).order
    ensures var h := Run(g, calls);
            && k in h.players
            && (BurnSecondChance(h, k).Ok? <==>
                  h.players[k].reason == Bust && Balance(h.wallets, k) >= 50_000_000_000
                  && !Burned(g, calls, DoBurnSecondChance(k)))
  {
    BurnsAreRecorded(g, calls, k);
    RunKeepsInv(g, calls);
    hide Run, Burned;
  }

  /** A seated player can scry exactly when at the turn, active, able to pay, and without a scry since the round started. */
  lemma ScryIff(g: Game, calls: seq<Call>, k: Key)
    requires Initial(g) && Run(g, calls).roundActive && k in Run(g, calls).order
    ensures var h := Run(g, calls);
            && k in h.players && h.turn < |h.order|
            && (BurnScry(h, k).Ok? <==>
                  h.order[h.turn] == k && h.players[k].isActive && Balance(h.wallets, k) >= 25_000_000_000
                  && !Burned(g, calls, DoBurnScry(k)))
  {
    BurnsAreRecorded(g, calls, k);
    RunKeepsInv(g, calls);
    hide Run, Burned;
  }
}
