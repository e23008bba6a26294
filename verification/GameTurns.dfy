/** Turn order in rounds without forfeits and second chances. */
module GameTurns {
  import opened Cards
  import opened Scoring
  import opened Ledger
  import opened GameSpec
  import opened GameInvariant
  import opened GameCards
  import opened GameTokens
  import opened GameRounds

  /** A forfeit or a second chance is accepted in a running round. */
  ghost predicate Disturbs(g: Game, c: Call) {
    g.roundActive && Step(g, c).Ok? && (c.DoLeaveGame? || c.DoBurnSecondChance?)
  }

  /** No forfeit and no second chance since the last start of a round. */
  ghost predicate Undisturbed(g: Game, calls: seq<Call>) {
    if calls == [] then true else
      var init, last := calls[..|calls| - 1], calls[|calls| - 1];
      if last.DoStartRound? && Step(Run(g, init), last).Ok? then true
      else Undisturbed(g, init) && !Disturbs(Run(g, init), last)
  }

  ghost predicate ActiveSeat(g: Game, i: nat)
    requires i < |g.order|
  {
    g.order[i] in g.players && g.players[g.order[i]].isActive
  }

  ghost predicate NoneActive(g: Game) {
    forall i :: 0 <= i < |g.order| ==> !ActiveSeat(g, i)
  }

  /** The seats before the turn are done, the others still play. */
  ghost predicate SplitAtTurn(g: Game) {
    forall i :: 0 <= i < |g.order| ==> (ActiveSeat(g, i) <==> i >= g.turn)
  }

  ghost predicate Disciplined(g: Game) {
    SplitAtTurn(g) || (g.turn == 0 && NoneActive(g))
  }

  lemma HitTurns(g: Game, c: Call)
    requires Inv(g) && Disciplined(g) && c.DoHit? && Step(g, c).Ok?
    ensures Disciplined(Next(g, c)) && g.turn < |g.order| && ActiveSeat(g, g.turn)
    ensures NoneActive(Next(g, c)) || Next(g, c).turn >= g.turn
  {
    HitStanding(g, c);
    hide Step, Next;
    TurnsOn(g, Next(g, c), c.player);
  }

  lemma NextSeat(g: Game)
    requires g.turn < |g.order|
    ensures NextTurn(g) == if g.turn + 1 == |g.order| then 0 else g.turn + 1
  {
  }

  /** The turn player keeps the turn or leaves the round and passes it on. */
  lemma TurnsOn(g: Game, g': Game, k: Key)
    requires SeatsOk(g) && g.turn < |g.order| && Disciplined(g) && k == g.order[g.turn] && g.players[k].isActive
    requires g'.order == g.order && g'.players.Keys == g.players.Keys
    requires forall j :: j in g.players && j != k ==> g'.players[j].isActive == g.players[j].isActive
    requires g'.turn == if g'.players[k].isActive then g.turn else NextTurn(g)
    ensures Disciplined(g') && ActiveSeat(g, g.turn)
    ensures NoneActive(g') || g'.turn >= g.turn
  {
    assert ActiveSeat(g, g.turn);
    forall i | 0 <= i < |g.order|
      ensures ActiveSeat(g', i) <==> (if i == g.turn then g'.players[k].isActive else i > g.turn)
    {
      assert ActiveSeat(g, i) <==> i >= g.turn;
      assert i != g.turn ==> g.order[i] != k;
    }
    NextSeat(g);
  }

  lemma StayStanding(g: Game, c: Call)
    requires Inv(g) && (c.DoStay? || c.DoBurnScry?) && Step(g, c).Ok?
    ensures var g' := Next(g, c);
            && g.roundActive && g'.roundActive && g'.order == g.order && g'.players.Keys == g.players.Keys
            && c.player == g.order[g.turn] && g.players[c.player].isActive
            && (forall j :: j in g.players && j != c.player ==> g'.players[j].isActive == g.players[j].isActive)
            && g'.turn == (if g'.players[c.player].isActive then g.turn else NextTurn(g))
  {
    hide HandScore;
  }

  lemma StartTurns(g: Game, c: Call)
    requires Inv(g) && c.DoStartRound? && Step(g, c).Ok?
    ensures Disciplined(Next(g, c))
  {
    forall i | 0 <= i < |g.order| ensures ActiveSeat(Next(g, c), i) {
    }
  }

  ghost predicate Acts(g: Game, c: Call) {
    (c.DoHit? || c.DoStay? || c.DoBurnScry?) && Step(g, c).Ok?
  }

  lemma SameStanding(g: Game, g': Game)
    requires g'.players == g.players && g'.order == g.order && g'.turn == g.turn
    ensures Disciplined(g) ==> Disciplined(g')
    ensures NoneActive(g) ==> NoneActive(g')
  {
    assert forall i :: 0 <= i < |g.order| ==> ActiveSeat(g', i) == ActiveSeat(g, i);
  }

  /** Within an undisturbed round: discipline is kept, and only the turn player acts. */
  lemma StepTurns(g: Game, c: Call)
    requires Inv(g) && g.roundActive && Disciplined(g) && !Ends(g, c) && !Disturbs(g, c)
    ensures Next(g, c).roundActive && Next(g, c).order == g.order && Disciplined(Next(g, c))
    ensures NoneActive(Next(g, c)) || Next(g, c).turn >= g.turn
    ensures NoneActive(g) ==> NoneActive(Next(g, c))
    ensures Acts(g, c) ==> c.player == g.order[g.turn] && ActiveSeat(g, g.turn)
  {
    if Step(g, c).Ok? {
      if c.DoHit? {
        HitStanding(g, c);
        HitTurns(g, c);
      } else if c.DoStay? || c.DoBurnScry? {
        StayStanding(g, c);
        hide Step, Next;
        TurnsOn(g, Next(g, c), c.player);
      } else {
        OthersKeepRound(g, c);
        hide Step, Next;
        SameStanding(g, Next(g, c));
      }
    } else {
      SameStanding(g, Next(g, c));
    }
  }

  /** No round runs after a call that found none running, unless the call started it. */
  lemma OnlyStartActivates(g: Game, c: Call)
    requires !g.roundActive && !c.DoStartRound?
    ensures !Next(g, c).roundActive
  {
    hide EndRound, ProofAccepted, CheckBust, ApplyEffect, HandScore, Merkle.Verifies;
    if c.DoEndRound? { EndFindsRound(g, c); }
  }

  lemma EndFindsRound(g: Game, c: Call)
    requires c.DoEndRound? && !g.roundActive
    ensures Next(g, c) == g
  {
  }

  /** In every reachable state of a round without forfeits and second chances, the seats before the turn
      are exactly the inactive ones, all of them once the turn has wrapped around. */
  lemma {:induction false} TurnsFollowSeats(g: Game, calls: seq<Call>)
    requires Initial(g)
    ensures Run(g, calls).roundActive && Undisturbed(g, calls) ==> Disciplined(Run(g, calls))
  {
    if calls != [] {
      var init, last := calls[..|calls| - 1], calls[|calls| - 1];
      var h := Run(g, init);
      TurnsFollowSeats(g, init);
      RunKeepsInv(g, init);
      if last.DoStartRound? && Step(h, last).Ok? {
        StartTurns(h, last);
      } else if Run(g, calls).roundActive && Undisturbed(g, calls) {
        LastKeepsDiscipline(h, last);
      }
    }
  }

  lemma LastKeepsDiscipline(h: Game, c: Call)
    requires Inv(h) && !Disturbs(h, c) && Next(h, c).roundActive && !(c.DoStartRound? && Step(h, c).Ok?)
    requires h.roundActive ==> Disciplined(h)
    ensures Disciplined(Next(h, c))
  {
    if !h.roundActive {
      if !c.DoStartRound? { OnlyStartActivates(h, c); }
    } else {
      if Ends(h, c) { EndRoundClears(h, c); } else { StepTurns(h, c); }
    }
  }

  /** A run that stays within one undisturbed round. */
  ghost predicate OneRound(h: Game, calls: seq<Call>) {
    forall i :: 0 <= i < |calls| ==> !Ends(Run(h, calls[..i]), calls[i]) && !Disturbs(Run(h, calls[..i]), calls[i])
  }

  lemma OneRoundLast(h: Game, calls: seq<Call>)
    requires calls != [] && OneRound(h, calls)
    ensures var n := |calls| - 1;
            && OneRound(h, calls[..n]) && Run(h, calls) == Next(Run(h, calls[..n]), calls[n])
            && !Ends(Run(h, calls[..n]), calls[n]) && !Disturbs(Run(h, calls[..n]), calls[n])
  {
    hide Ends, Disturbs, Next;
    var n := |calls| - 1;
    assert forall i :: 0 <= i < n ==> calls[..n][..i] == calls[..i];
  }

  lemma {:induction false} TurnNeverGoesBack(h: Game, calls: seq<Call>)
    requires Inv(h) && h.roundActive && Disciplined(h) && OneRound(h, calls)
    ensures var e := Run(h, calls);
            && Inv(e) && e.roundActive && e.order == h.order && Disciplined(e)
            && (NoneActive(e) || e.turn >= h.turn)
            && (NoneActive(h) ==> NoneActive(e))
  {
    if calls != [] {
      hide Run, OneRound, Next, Step, Disciplined, NoneActive, Inv, Ends, Disturbs;
      var n := |calls| - 1;
      OneRoundLast(h, calls);
      TurnNeverGoesBack(h, calls[..n]);
      NextKeepsInv(Run(h, calls[..n]), calls[n]);
      StepTurns(Run(h, calls[..n]), calls[n]);
    }
  }

  lemma LaterSegment(h: Game, calls: seq<Call>, i: nat, j: nat)
    requires i <= j <= |calls| && OneRound(h, calls)
    ensures OneRound(h, calls[..i]) && OneRound(Run(h, calls[..i]), calls[i..j])
    ensures Run(Run(h, calls[..i]), calls[i..j]) == Run(h, calls[..j])
  {
    hide Ends, Disturbs, Run;
    assert forall k :: 0 <= k < i ==> calls[..i][..k] == calls[..k];
    RunConcat(h, calls[..i], calls[i..j]);
    assert calls[..i] + calls[i..j] == calls[..j];
    forall k | 0 <= k < j - i
      ensures Run(Run(h, calls[..i]), calls[i..j][..k]) == Run(h, calls[..i + k]) && calls[i..j][k] == calls[i + k]
    {
      RunConcat(h, calls[..i], calls[i..j][..k]);
      assert calls[..i] + calls[i..j][..k] == calls[..i + k];
    }
  }

  /** The player who acts at position `i` sits at the turn, and nobody who acts later sits before. */
  lemma ActorsInSeatOrder(h: Game, calls: seq<Call>, i: nat, j: nat)
    requires Inv(h) && h.roundActive && Disciplined(h) && OneRound(h, calls)
    requires i <= j < |calls| && Acts(Run(h, calls[..i]), calls[i]) && Acts(Run(h, calls[..j]), calls[j])
    ensures Run(h, calls[..i]).turn <= Run(h, calls[..j]).turn < |h.order|
    ensures calls[i].player == h.order[Run(h, calls[..i]).turn]
    ensures calls[j].player == h.order[Run(h, calls[..j]).turn]
  {
    hide Step, Disciplined, Acts;
    var a, b := Run(h, calls[..i]), Run(h, calls[..j]);
    LaterSegment(h, calls, i, j);
    TurnNeverGoesBack(h, calls[..i]);
    TurnNeverGoesBack(a, calls[i..j]);
    hide Run;
    assert !Ends(a, calls[i]) && !Disturbs(a, calls[i]) && !Ends(b, calls[j]) && !Disturbs(b, calls[j]);
    StepTurns(a, calls[i]);
    StepTurns(b, calls[j]);
    assert ActiveSeat(b, b.turn) && !NoneActive(b);
  }

  /** Each player's actions form one contiguous block: nobody else acts between two actions of a player. */
  lemma ActionsAreContiguous(h: Game, calls: seq<Call>, i: nat, j: nat, k: nat)
    requires Inv(h) && h.roundActive && Disciplined(h) && OneRound(h, calls)
    requires i <= j <= k < |calls|
    requires Acts(Run(h, calls[..i]), calls[i]) && Acts(Run(h, calls[..j]), calls[j]) && Acts(Run(h, calls[..k]), calls[k])
    requires calls[i].player == calls[k].player
    ensures calls[j].player == calls[i].player
  {
    hide Run, Acts, Disciplined, OneRound;
    ActorsInSeatOrder(h, calls, i, j);
    ActorsInSeatOrder(h, calls, j, k);
  }

  // ---------------------------------------------------------------------
  // Card effects in undisturbed rounds
  // ---------------------------------------------------------------------

  /** While the turn player plays, the players still to come hold no cards. */
  ghost predicate OthersWait(g: Game) {
    && Disciplined(g) && g.turn < |g.order|
    && (ActiveSeat(g, g.turn) ==>
          forall i :: g.turn < i < |g.order| ==> g.order[i] in g.players && g.players[g.order[i]].hand == [])
  }

  /** Every other active player is still to come. */
  lemma TargetsWait(g: Game, target: Key)
    requires Inv(g) && OthersWait(g) && ActiveSeat(g, g.turn)
    requires target in g.players && target != g.order[g.turn] && g.players[target].isActive
    ensures g.players[target].hand == []
  {
    var i :| 0 <= i < |g.order| && g.order[i] == target;
    assert ActiveSeat(g, i);
  }

  /** An accepted hit changes nobody but the player who draws. */
  lemma HitTouchesOne(g: Game, c: Call)
    requires Inv(g) && OthersWait(g) && c.DoHit? && Step(g, c).Ok?
    ensures c.player in g.players && c.player in Next(g, c).players
    ensures Next(g, c).players == g.players[c.player := Next(g, c).players[c.player]]
    ensures Discards(g, c) == multiset{}
  {
    HitStanding(g, c);
    HitOutcome(g, c);
    HitDiscards(g, c);
    hide Step, Next, CheckBust, Discards, OthersWait, Inv;
    var drawn := WithDrawn(g, c);
    var target := FindTarget(drawn, c.player, c.remaining);
    if target.Some? { TargetsWait(g, target.value); }
  }

  lemma ActsKeepWaiting(g: Game, c: Call)
    requires Inv(g) && OthersWait(g) && Acts(g, c)
    ensures OthersWait(Next(g, c))
  {
    var g' := Next(g, c);
    NextKeepsInv(g, c);
    OnlyTurnPlayerActs(g, c);
    if c.DoHit? {
      HitTouchesOne(g, c);
      HitStanding(g, c);
      HitTurns(g, c);
    } else {
      StayStanding(g, c);
      TurnsOn(g, g', c.player);
    }
    NextSeat(g);
    assert g'.players == g.players[c.player := g'.players[c.player]] by { hide HandScore, Hit; }
    hide Step, Next, Inv, Disciplined;
    forall i | g'.turn < i < |g.order| && ActiveSeat(g', g'.turn)
      ensures g.order[i] in g'.players && g'.players[g.order[i]].hand == []
    {
      assert i > g.turn;
    }
  }

  lemma StartWaits(g: Game, c: Call)
    requires Inv(g) && c.DoStartRound? && Step(g, c).Ok?
    ensures OthersWait(Next(g, c))
  {
    StartTurns(g, c);
  }

  /** Nothing changed that the waiting players could notice. */
  lemma SameWaiting(g: Game, g': Game)
    requires OthersWait(g) && g'.players == g.players && g'.order == g.order && g'.turn == g.turn
    ensures OthersWait(g')
  {
    SameStanding(g, g');
  }

  lemma StepKeepsWaiting(h: Game, c: Call)
    requires Inv(h) && h.roundActive && OthersWait(h) && !Disturbs(h, c) && Next(h, c).roundActive
    requires !c.DoStartRound?
    ensures OthersWait(Next(h, c))
  {
    if Ends(h, c) { EndRoundClears(h, c); }
    hide OthersWait, Inv;
    if Acts(h, c) {
      ActsKeepWaiting(h, c);
    } else if Step(h, c).Err? {
      SameWaiting(h, h);
    } else {
      OthersKeepRound(h, c);
      SameWaiting(h, Next(h, c));
    }
  }

  lemma {:induction false} RunsKeepWaiting(g: Game, calls: seq<Call>)
    requires Initial(g)
    ensures Run(g, calls).roundActive && Undisturbed(g, calls) ==> OthersWait(Run(g, calls))
  {
    if calls != [] {
      var init, last := calls[..|calls| - 1], calls[|calls| - 1];
      var h := Run(g, init);
      RunsKeepWaiting(g, init);
      RunKeepsInv(g, init);
      hide Step, Next, OthersWait, Inv, Disturbs;
      if last.DoStartRound? && Step(h, last).Ok? {
        StartWaits(h, last);
      } else if Run(g, calls).roundActive && Undisturbed(g, calls) {
        if last.DoStartRound? {
          Unstarted(h, last);
        } else {
          if !h.roundActive { OnlyStartActivates(h, last); }
          StepKeepsWaiting(h, last);
        }
      }
    }
  }

  lemma Unstarted(g: Game, c: Call)
    requires Step(g, c).Err?
    ensures Next(g, c) == g
  {
    hide Step;
  }

  /** In rounds without forfeits and second chances no rug pull discards a card and no vampire steals one:
      every accepted hit changes the drawing player's record alone. */
  lemma EffectsFindNothing(g: Game, calls: seq<Call>, c: Call)
    requires Initial(g) && Run(g, calls).roundActive && Undisturbed(g, calls)
    requires c.DoHit? && Step(Run(g, calls), c).Ok?
    ensures var h := Run(g, calls); var h' := Next(h, c);
            && c.player in h.players && c.player in h'.players
            && h'.players == h.players[c.player := h'.players[c.player]]
            && Discards(h, c) == multiset{}
  {
    RunsKeepWaiting(g, calls);
    RunKeepsInv(g, calls);
    hide Run, Inv, OthersWait, Step, Next, Discards;
    HitTouchesOne(Run(g, calls), c);
  }

  // ---------------------------------------------------------------------
  // Rounds with forfeits and second chances
  // ---------------------------------------------------------------------

  /** Whatever happened before, only the player at the turn acts, and only while still active. */
  lemma OnlyTurnPlayerActs(g: Game, c: Call)
    requires Inv(g) && Acts(g, c)
    ensures g.turn < |g.order| && c.player == g.order[g.turn] && ActiveSeat(g, g.turn)
  {
    if c.DoHit? { HitStanding(g, c); } else { StayStanding(g, c); }
  }

  /** Somebody can hit, stay or scry. */
  ghost predicate SomeoneCanAct(g: Game) {
    exists c: Call :: Acts(g, c)
  }

  /** A running round can go on exactly while the seat at the turn is active. */
  lemma CanActIff(g: Game)
    requires Inv(g) && g.roundActive
    ensures SomeoneCanAct(g) <==> ActiveSeat(g, g.turn)
  {
    if c: Call :| Acts(g, c) { OnlyTurnPlayerActs(g, c); }
    if ActiveSeat(g, g.turn) {
      hide HandScore;
      assert Acts(g, DoStay(g.order[g.turn]));
    }
  }

  /** A forfeit never moves the turn: after it nobody can act exactly when the leaver held the turn or nobody could before. */
  lemma ForfeitStallsIff(g: Game, player: Key)
    requires Inv(g) && g.roundActive && LeaveGame(g, player).Ok?
    ensures var g' := LeaveGame(g, player).game;
            && g'.turn == g.turn
            && (SomeoneCanAct(g') <==> player != g.order[g.turn] && SomeoneCanAct(g))
  {
    hide SomeoneCanAct;
    LeaveInv(g, player);
    CanActIff(g);
    CanActIff(LeaveGame(g, player).game);
  }

  /** Nor does a second chance: after it someone can act exactly when the turn player took it or someone could before. */
  lemma SecondChanceStallsIff(g: Game, player: Key)
    requires Inv(g) && BurnSecondChance(g, player).Ok?
    ensures var g' := BurnSecondChance(g, player).game;
            && g'.turn == g.turn
            && (SomeoneCanAct(g') <==> player == g.order[g.turn] || SomeoneCanAct(g))
  {
    hide SomeoneCanAct;
    SecondChanceInv(g, player);
    CanActIff(g);
    CanActIff(BurnSecondChance(g, player).game);
  }
}
