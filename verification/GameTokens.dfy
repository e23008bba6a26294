/** Tokens over whole runs: conservation, payouts, rollovers and the final sweep. */
module GameTokens {
  import opened Cards
  import opened Scoring
  import opened Ledger
  import opened GameSpec
  import opened GameInvariant
  import opened Options
  import opened Numbers

  /** All tokens there ever were: in wallets, in the vault, or burned. */
  ghost function Supply(g: Game): nat {
    Total(g.wallets) + g.vault + g.burned
  }

  /** What outsiders sent to the vault by a call. */
  ghost function Donation(g: Game, c: Call): nat {
    if c.DoDonate? && Step(g, c).Ok? then c.amount else 0
  }

  ghost function Donations(g: Game, calls: seq<Call>): nat {
    if calls == [] then 0 else
      var init := calls[..|calls| - 1];
      Donations(g, init) + Donation(Run(g, init), calls[|calls| - 1])
  }

  ghost predicate Backed(g: Game, donated: nat) {
    g.vault == g.pot + donated && (!g.vaultReady ==> g.vault == 0)
  }

  // ---------------------------------------------------------------------
  // Conservation
  // ---------------------------------------------------------------------

  lemma CreditTotal(w: Wallets, k: Key, amount: nat)
    ensures Total(Credit(w, k, amount)) == Total(w) + amount
  {
    TotalUpdate(w, k, Balance(w, k) + amount);
  }

  lemma DebitTotal(w: Wallets, k: Key, amount: nat)
    requires amount <= Balance(w, k)
    ensures Total(Debit(w, k, amount)) == Total(w) - amount
  {
    TotalUpdate(w, k, Balance(w, k) - amount);
    BalanceBelowTotal(w, k);
  }

  lemma PayOutConserves(g: Game, winner: Key, rake: nat, payout: nat)
    requires rake + payout <= g.vault
    ensures Supply(PayOut(g, winner, rake, payout)) == Supply(g)
  {
    CreditTotal(g.wallets, g.treasury, rake);
    CreditTotal(Credit(g.wallets, g.treasury, rake), winner, payout);
  }

  lemma SettleConserves(g: Game, winner: Key, winnerOk: bool, treasuryOk: bool, donated: nat)
    requires Settle(g, winner, winnerOk, treasuryOk).Ok? && Backed(g, donated)
    ensures var g' := Settle(g, winner, winnerOk, treasuryOk).game; Supply(g') == Supply(g) && Backed(g', donated)
  {
    var rake := g.pot * g.feeBps / 10_000;
    if g.pot > 0 { PayOutConserves(g, winner, rake, g.pot - rake); }
  }

  lemma RollOverConserves(g: Game, treasuryOk: bool, donated: nat)
    requires RollOver(g, treasuryOk).Ok? && Backed(g, donated)
    ensures var g' := RollOver(g, treasuryOk).game; Supply(g') == Supply(g) && Backed(g', donated)
  {
    CreditTotal(g.wallets, g.treasury, g.pot);
  }

  lemma EndConserves(g: Game, c: Call, donated: nat)
    requires c.DoEndRound? && Step(g, c).Ok? && Backed(g, donated)
    ensures Supply(Next(g, c)) == Supply(g) && Backed(Next(g, c), donated)
  {
    hide EndRound, Winner, Settle, RollOver, Supply, Backed;
    EndAccepted(g, c.caller, c.accounts, c.winnerAccountOk, c.treasuryAccountOk);
    match Winner(g)
    case Some(i) => SettleConserves(g, g.order[i], c.winnerAccountOk, c.treasuryAccountOk, donated);
    case None => RollOverConserves(g, c.treasuryAccountOk, donated);
  }

  lemma JoinConserves(g: Game, c: Call, donated: nat)
    requires c.DoJoinRound? && Step(g, c).Ok? && Backed(g, donated)
    ensures Supply(Next(g, c)) == Supply(g) && Backed(Next(g, c), donated)
  {
    if g.vaultReady { DebitTotal(g.wallets, c.player, c.stake); }
  }

  lemma BurnConserves(g: Game, c: Call, donated: nat)
    requires (c.DoBurnScry? || c.DoBurnSecondChance?) && Step(g, c).Ok? && Backed(g, donated)
    ensures Supply(Next(g, c)) == Supply(g) && Backed(Next(g, c), donated)
  {
    DebitTotal(g.wallets, c.player, if c.DoBurnScry? then SCRY_COST else SECOND_CHANCE_COST);
  }

  lemma OutsideConserves(g: Game, c: Call, donated: nat)
    requires (c.DoTransfer? || c.DoDonate?) && Step(g, c).Ok? && Backed(g, donated)
    ensures Supply(Next(g, c)) == Supply(g) && Backed(Next(g, c), donated + Donation(g, c))
  {
    DebitTotal(g.wallets, c.from, c.amount);
    if c.DoTransfer? { CreditTotal(Debit(g.wallets, c.from, c.amount), c.to, c.amount); }
  }

  /** The remaining calls move no token. */
  lemma HitMovesNoToken(g: Game, c: Call)
    requires c.DoHit?
    ensures var g' := Next(g, c);
            && g'.wallets == g.wallets && g'.vault == g.vault && g'.pot == g.pot && g'.burned == g.burned
            && (g.vaultReady ==> g'.vaultReady)
  {
    hide ApplyEffect, CheckBust, Merkle.Verifies;
  }

  lemma OthersMoveNoToken(g: Game, c: Call)
    requires c.DoInitVault? || c.DoCloseGame? || c.DoLeaveGame? || c.DoCommitDeck? || c.DoStartRound? || c.DoHit? || c.DoStay?
    ensures var g' := Next(g, c);
            && g'.wallets == g.wallets && g'.vault == g.vault && g'.pot == g.pot && g'.burned == g.burned
            && (g.vaultReady ==> g'.vaultReady)
  {
    if c.DoHit? { HitMovesNoToken(g, c); }
    hide Hit, HandScore, ProofAccepted, AccountsError;
  }

  lemma NextConserves(g: Game, c: Call, donated: nat)
    requires Backed(g, donated)
    ensures Supply(Next(g, c)) == Supply(g)
    ensures Backed(Next(g, c), donated + Donation(g, c))
  {
    hide Step, Total;
    if Step(g, c).Ok? {
      match c
      case DoJoinRound(_, _) => JoinConserves(g, c, donated);
      case DoBurnScry(_) => BurnConserves(g, c, donated);
      case DoBurnSecondChance(_) => BurnConserves(g, c, donated);
      case DoEndRound(_, _, _, _) => EndConserves(g, c, donated);
      case DoTransfer(_, _, _) => OutsideConserves(g, c, donated);
      case DoDonate(_, _) => OutsideConserves(g, c, donated);
      case _ => OthersMoveNoToken(g, c);
    }
  }

  /** Over any run no token appears or vanishes, and the vault holds exactly the pot and what was donated. */
  lemma {:induction false} TokensAreConserved(g: Game, calls: seq<Call>)
    requires Initial(g)
    ensures Supply(Run(g, calls)) == Total(g.wallets)
    ensures Backed(Run(g, calls), Donations(g, calls))
  {
    if calls != [] {
      var init := calls[..|calls| - 1];
      TokensAreConserved(g, init);
      NextConserves(Run(g, init), calls[|calls| - 1], Donations(g, init));
    }
  }

  /** A game can be closed only once its vault holds nothing but donations. */
  lemma CloseLeavesNoPot(g: Game, calls: seq<Call>, signer: Key)
    requires Initial(g) && CloseGame(Run(g, calls), signer).Ok?
    ensures Run(g, calls).vault == Donations(g, calls)
  {
    TokensAreConserved(g, calls);
  }

  /** No payout, rake or sweep ever lacks funds. */
  lemma EndNeverLacksFunds(g: Game, calls: seq<Call>, caller: Key, accounts: seq<Key>, winnerOk: bool, treasuryOk: bool)
    requires Initial(g)
    ensures EndRound(Run(g, calls), caller, accounts, winnerOk, treasuryOk) != Err(InsufficientFunds)
  {
    hide Run, Winner, Total;
    TokensAreConserved(g, calls);
    var h := Run(g, calls);
    if |h.order| <= |accounts| { AccountsErrorKinds(h.players, h.order, accounts); }
  }

  lemma {:induction false} AccountsErrorKinds(players: map<Key, Player>, order: seq<Key>, accounts: seq<Key>)
    requires |order| <= |accounts|
    ensures var e := AccountsError(players, order, accounts);
            e.None? || e.value == InvalidAccountData || e.value == PlayerStateMismatch
  {
    if order != [] { AccountsErrorKinds(players, order[1..], accounts[1..]); }
  }

  /** As the token supply is a 64-bit amount, no stake overflows the pot. */
  lemma JoinNeverOverflows(g: Game, calls: seq<Call>, player: Key, stake: nat)
    requires Initial(g) && Total(g.wallets) <= U64_MAX
    ensures JoinRound(Run(g, calls), player, stake) != Err(ArithmeticOverflow)
  {
    hide Run, Total;
    TokensAreConserved(g, calls);
    BalanceBelowTotal(Run(g, calls).wallets, player);
  }

  // ---------------------------------------------------------------------
  // Who is paid what
  // ---------------------------------------------------------------------

  predicate Stayer(g: Game, i: nat)
    requires Seated(g)
  {
    i < |g.order| && g.players[g.order[i]].reason == Stayed
  }

  function SeatScore(g: Game, i: nat): nat
    requires Seated(g) && i < |g.order|
  {
    g.players[g.order[i]].score
  }

  /** `i` is the first seat with the best score among the players who stayed. */
  ghost predicate FirstBest(g: Game, i: nat, n: nat)
    requires Seated(g) && n <= |g.order|
  {
    && i < n && Stayer(g, i)
    && forall j :: 0 <= j < n && Stayer(g, j) ==>
         SeatScore(g, j) <= SeatScore(g, i) && (j < i ==> SeatScore(g, j) < SeatScore(g, i))
  }

  lemma {:induction false} WinnerAmongFirst(g: Game, n: nat)
    requires Seated(g) && n <= |g.order|
    ensures match WinnerAmong(g, n)
            case Some(i) => FirstBest(g, i, n)
            case None => forall j :: 0 <= j < n ==> !Stayer(g, j)
  {
    if n > 0 { WinnerAmongFirst(g, n - 1); }
  }

  function Rake(g: Game): nat {
    g.pot * g.feeBps / 10_000
  }

  lemma RakeBelowPot(g: Game)
    requires g.feeBps <= MAX_FEE_BPS
    ensures Rake(g) <= g.pot && (g.pot > 0 ==> Rake(g) < g.pot)
  {
    if g.pot > 0 {
      assert g.pot * g.feeBps <= g.pot * MAX_FEE_BPS;
    }
  }

  /** Exactly when an end of round is accepted, and what it fails on otherwise. */
  lemma EndAcceptedIff(g: Game, calls: seq<Call>, caller: Key, accounts: seq<Key>, winnerOk: bool, treasuryOk: bool)
    requires Initial(g)
    ensures var h := Run(g, calls);
            EndRound(h, caller, accounts, winnerOk, treasuryOk).Ok? <==>
              && h.roundActive && caller != ZERO_KEY
              && (caller == h.authority || caller == h.dealer || caller in h.order)
              && h.order <= accounts
              && Seated(h) && (forall k :: k in h.order ==> !h.players[k].isActive)
              && match Winner(h)
                 case Some(_) =>
                   h.pot > 0 ==> winnerOk && h.pot * h.feeBps <= U64_MAX && (Rake(h) > 0 ==> treasuryOk)
                 case None =>
                   h.pot > 0 && h.rollover == MAX_ROLLOVERS ==> treasuryOk
  {
    hide Run, Winner, Total, AccountsError;
    var h := Run(g, calls);
    TokensAreConserved(g, calls);
    RunKeepsInv(g, calls);
    RakeBelowPot(h);
    if |h.order| <= |accounts| { AccountsMatch(h.players, h.order, accounts); }
  }

  /** An accepted end of round with a stayer pays the whole pot: rake to the treasury, the rest to the first best. */
  lemma PotIsPaidInFull(g: Game, c: Call)
    requires Inv(g) && c.DoEndRound? && Step(g, c).Ok? && Winner(g).Some?
    ensures var i := Winner(g).value; var g' := Next(g, c);
            && FirstBest(g, i, |g.order|)
            && g'.wallets == (if g.pot == 0 then g.wallets
                              else Credit(Credit(g.wallets, g.treasury, Rake(g)), g.order[i], g.pot - Rake(g)))
            && (g.pot > 0 ==> g.pot - Rake(g) >= 1)
            && g'.vault == g.vault - g.pot && g'.pot == 0 && g'.rollover == 0
  {
    hide EndRound, Winner;
    EndAccepted(g, c.caller, c.accounts, c.winnerAccountOk, c.treasuryAccountOk);
    RakeBelowPot(g);
    WinnerIsFirstBest(g);
  }

  lemma WinnerIsFirstBest(g: Game)
    requires Seated(g)
    ensures match Winner(g)
            case Some(i) => FirstBest(g, i, |g.order|)
            case None => forall j :: 0 <= j < |g.order| ==> !Stayer(g, j)
  {
    WinnerAmongFirst(g, |g.order|);
  }

  // ---------------------------------------------------------------------
  // Eleven rounds without a winner
  // ---------------------------------------------------------------------

  ghost predicate Ends(g: Game, c: Call) {
    c.DoEndRound? && Step(g, c).Ok?
  }

  /** An accepted end of round in which nobody stayed. */
  ghost predicate BustEnd(g: Game, c: Call) {
    Ends(g, c) && Seated(g) && forall j :: 0 <= j < |g.order| ==> !Stayer(g, j)
  }

  /** The whole pot goes to the treasury. */
  ghost predicate Sweeps(g: Game, c: Call) {
    && BustEnd(g, c)
    && Next(g, c).pot == 0 && Next(g, c).rollover == 0 && g.pot <= g.vault
    && Next(g, c).vault == g.vault - g.pot
    && Balance(Next(g, c).wallets, g.treasury) == Balance(g.wallets, g.treasury) + g.pot
  }

  ghost function EndCount(g: Game, calls: seq<Call>): nat {
    if calls == [] then 0 else
      var init := calls[..|calls| - 1];
      EndCount(g, init) + if Ends(Run(g, init), calls[|calls| - 1]) then 1 else 0
  }

  lemma OnlyEndsRoll(g: Game, c: Call)
    requires !Ends(g, c)
    ensures Next(g, c).rollover == g.rollover
  {
    hide ApplyEffect, CheckBust, HandScore, ProofAccepted, Merkle.Verifies, AccountsError, EndRound;
  }

  /** A winnerless end of round rolls the pot over, and the eleventh in a row sweeps it. */
  lemma BustEndRolls(g: Game, c: Call)
    requires Inv(g) && BustEnd(g, c)
    ensures Winner(g).None?
    ensures if g.rollover < MAX_ROLLOVERS
            then Next(g, c).rollover == g.rollover + 1 && Next(g, c).pot == g.pot && Next(g, c).wallets == g.wallets
            else Sweeps(g, c)
  {
    hide EndRound, Winner;
    WinnerIsFirstBest(g);
    EndAccepted(g, c.caller, c.accounts, c.winnerAccountOk, c.treasuryAccountOk);
  }

  lemma {:induction false} RolloversCount(g: Game, calls: seq<Call>)
    requires Inv(g)
    requires forall i :: 0 <= i < |calls| && Ends(Run(g, calls[..i]), calls[i]) ==>
               BustEnd(Run(g, calls[..i]), calls[i]) && !Sweeps(Run(g, calls[..i]), calls[i])
    ensures Inv(Run(g, calls)) && Run(g, calls).rollover == g.rollover + EndCount(g, calls)
  {
    if calls != [] {
      var n := |calls| - 1;
      var init := calls[..n];
      assert forall i :: 0 <= i < n ==> init[..i] == calls[..i];
      RolloversCount(g, init);
      NextKeepsInv(Run(g, init), calls[n]);
      if Ends(Run(g, init), calls[n]) {
        BustEndRolls(Run(g, init), calls[n]);
      } else {
        OnlyEndsRoll(Run(g, init), calls[n]);
      }
    }
  }

  /** Among any eleven consecutive accepted ends of round without a stayer, one sweeps the pot to the treasury. */
  lemma ElevenBustsSweep(g: Game, calls: seq<Call>)
    requires Inv(g) && EndCount(g, calls) >= 11
    requires forall i :: 0 <= i < |calls| && Ends(Run(g, calls[..i]), calls[i]) ==> BustEnd(Run(g, calls[..i]), calls[i])
    ensures exists i :: 0 <= i < |calls| && Sweeps(Run(g, calls[..i]), calls[i])
  {
    if forall i :: 0 <= i < |calls| ==> !Sweeps(Run(g, calls[..i]), calls[i]) {
      RolloversCount(g, calls);
    }
  }
}
