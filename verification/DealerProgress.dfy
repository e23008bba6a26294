/** What the dealer gets done: which requests it answers, when a tick commits, and a commit from start to first card. */
module DealerProgress {
  import opened Options
  import opened Cards
  import opened Merkle
  import opened Ledger
  import opened GameSpec
  import opened GameInvariant
  import opened DealerProtocol
  import Shuffle

  // ---------------------------------------------------------------------
  // Which requests are answered
  // ---------------------------------------------------------------------

  /** A tree in memory is that of the deck in memory, and the counter says how many of its cards went out. */
  lemma TreeIsCurrent(s: System)
    requires SystemInv(s) && s.service.dealer.tree.Some?
    ensures var d := s.service.dealer;
            d.shuffled == d.tree && |ServedOf(s.log, d.tree.value)| == d.nextLeaf <= 94
  {
    hide Inv, DeckRoot, TrueReveal, RootsAgree, Shuffle.IsShuffleOfDeck;
    forall id | id in s.service.ticks ensures s.service.dealer.shuffled == s.service.dealer.tree {
      assert WaitOk(s, s.service.ticks[id]);
    }
    assert InOrder(s.log, s.service.dealer.tree.value);
  }

  /** A request is answered exactly when a tree is held, the round is the recorded one and the index is the next of 94. */
  lemma ServedIff(s: System, events: seq<Event>, round: nat, index: nat)
    requires Start(s)
    ensures var now := SystemRun(s, events);
            ServeReveal(now.service, round, index).Some? <==>
              && now.service.dealer.tree.Some?
              && now.service.committedRound == Some(round)
              && index == |ServedOf(now.log, now.service.dealer.tree.value)| < 94
  {
    SystemRunKeepsInv(s, events);
    var now := SystemRun(s, events);
    if now.service.dealer.tree.Some? { TreeIsCurrent(now); }
    hide SystemRun, SystemInv, DeckProof, ServedOf;
  }

  /** An answered request logs its card; a refused one changes nothing. */
  lemma RequestEffects(s: System, events: seq<Event>, round: nat, index: nat)
    requires Start(s)
    ensures var now := SystemRun(s, events);
            var after := SystemNext(now, HttpReveal(round, index));
            match ServeReveal(now.service, round, index)
            case Some(card) =>
              && now.service.dealer.tree.Some?
              && card == TrueReveal(now.service.dealer.tree.value, index)
              && after.log == now.log + [Served(now.service.dealer.tree.value, card)]
              && after.chain == now.chain && after.network == now.network
            case None => after == now
  {
    hide SystemRun, SystemInv, ServeReveal, TrueReveal, DeckProof;
    SystemRunKeepsInv(s, events);
    var now := SystemRun(s, events);
    if ServeReveal(now.service, round, index).Some? { ServingIsSettled(now, round, index); }
    RequestChanges(now, round, index);
  }

  lemma RequestChanges(s: System, round: nat, index: nat)
    ensures var after := SystemNext(s, HttpReveal(round, index));
            match ServeReveal(s.service, round, index)
            case Some(card) =>
              && s.service.dealer.tree.Some?
              && after.log == s.log + [Served(s.service.dealer.tree.value, card)]
              && after.chain == s.chain && after.network == s.network
            case None => after == s
  {
    hide RevealCard;
  }

  /** Once a commit is confirmed, the first card of its deck is there for the round the tick saw. */
  lemma ConfirmedServes(s: System, events: seq<Event>, id: TickId)
    requires Start(s) && Enabled(SystemRun(s, events), Confirms(id))
    ensures var now := SystemRun(s, events);
            var wait, after := now.service.ticks[id], Happens(now, Confirms(id));
            && after.service.committedRound == Some(wait.round)
            && ServeReveal(after.service, wait.round, 0) == Some(TrueReveal(wait.tx.rootOf, 0))
  {
    hide SystemRun, Inv, LogOk, DeckRoot, DeckProof, RootsAgree, Shuffle.IsShuffleOfDeck, ServeReveal, TrueReveal;
    SystemRunKeepsInv(s, events);
    var now := SystemRun(s, events);
    assert WaitOk(now, now.service.ticks[id]);
    FirstCardServed(Happens(now, Confirms(id)).service, now.service.ticks[id].tx.rootOf, now.service.ticks[id].round);
  }

  lemma FirstCardServed(sv: Service, deck: Deck, round: nat)
    requires sv.dealer.tree == sv.dealer.shuffled == Some(deck) && sv.dealer.nextLeaf == 0
    requires sv.committedRound == Some(round)
    ensures ServeReveal(sv, round, 0) == Some(TrueReveal(deck, 0))
  {
    hide DeckProof;
  }

  // ---------------------------------------------------------------------
  // When a tick commits
  // ---------------------------------------------------------------------

  /** Without a tree a tick commits exactly when it saw neither round nor deck and two players; otherwise it just ends. */
  lemma CommitsIff(s: System, events: seq<Event>, id: TickId, words: seq<nat>)
    requires Start(s) && Enabled(SystemRun(s, events), FetchReturns(id, words))
    requires SystemRun(s, events).service.ticks[id].FetchEmpty?
    ensures var now := SystemRun(s, events);
            var snap, after := now.service.ticks[id].seen.snap, Happens(now, FetchReturns(id, words));
            if snap.Some? && !snap.value.roundActive && !snap.value.deckCommitted && snap.value.playerCount >= 2
            then id in after.service.ticks
                 && after.service.ticks[id] == Building(snap.value.round, NewDeck(now.service.dealer.runs, words))
                 && after.service.dealer.shuffled == Some(NewDeck(now.service.dealer.runs, words))
            else after.service.ticks == map[] && !after.service.commitInFlight && after.service.dealer == now.service.dealer
  {
    SystemRunKeepsInv(s, events);
    var now := SystemRun(s, events);
    assert WaitOk(now, now.service.ticks[id]);
    OneLeft(now.service, id);
    hide SystemRun, Inv, LogOk, NewDeck, RootsAgree;
  }

  /** The round a commit was started for stays with it until it is confirmed. */
  lemma RoundIsCarried(s: System, events: seq<Event>, e: Event)
    requires Start(s) && InCommit(e) && Enabled(SystemRun(s, events), e)
    ensures var now := SystemRun(s, events);
            var after := Happens(now, e);
            e.id in after.service.ticks && !Fetching(after.service.ticks[e.id])
            && after.service.ticks[e.id].round == now.service.ticks[e.id].round
  {
    SystemRunKeepsInv(s, events);
    var now := SystemRun(s, events);
    assert WaitOk(now, now.service.ticks[e.id]);
    hide SystemRun, Inv, LogOk, RootsAgree;
  }

  // ---------------------------------------------------------------------
  // A commit from the first tick to the first card
  // ---------------------------------------------------------------------

  /** One tick, undisturbed: it sees the chain, shuffles, proves, sends, and its commit lands and is confirmed. */
  function HealthyTick(s: System, id: TickId, words: seq<nat>): seq<Event>
    requires |words| == DECK_SIZE
  {
    var deck := NewDeck(s.service.dealer.runs, words);
    [Tick(id), Observe(id), FetchReturns(id, words), TreeBuilt(id), ProofMade(id), ProofChecked(id), Sent(id),
     Land(Tx(deck, deck)), Confirms(id)]
  }

  /** No tick runs, no deck is held, and the chain waits for a deck with two players seated. */
  ghost predicate WaitsForDeck(s: System) {
    && s.service.ticks == map[] && s.service.dealer.tree.None?
    && s.chain.open && s.chain.dealer != 0 && !s.chain.roundActive && !s.chain.deckCommitted && |s.chain.order| >= 2
  }

  /** The system while the tick waits, with these changes to dealer and network. */
  function During(s: System, id: TickId, d: Dealer, w: Wait, network: set<Tx>): System {
    s.(service := Service(d, None, true, map[id := w]), network := network)
  }

  lemma {:induction false} RunsOn(s: System, events: seq<Event>, more: seq<Event>)
    ensures SystemRun(s, events + more) == SystemRun(SystemRun(s, events), more)
  {
    hide SystemNext;
    if more == [] {
      assert events + more == events;
    } else {
      var n := |more| - 1;
      RunsOn(s, events, more[..n]);
      assert (events + more)[..|events + more| - 1] == events + more[..n];
    }
  }

  lemma Goes(s: System, events: seq<Event>, k: nat, h: System, h': System)
    requires k < |events| && SystemRun(s, events[..k]) == h && SystemNext(h, events[k]) == h'
    ensures SystemRun(s, events[..k + 1]) == h'
  {
    hide SystemNext;
    assert events[..k + 1][..k] == events[..k];
  }

  /** Up to the shuffle: the tick sees the chain and starts the commit. */
  lemma TickShuffles(s: System, id: TickId, words: seq<nat>)
    requires SystemInv(s) && WaitsForDeck(s) && |words| == DECK_SIZE
    ensures var deck := NewDeck(s.service.dealer.runs, words);
            SystemRun(s, HealthyTick(s, id, words)[..3])
            == During(s, id, BeginShuffle(s.service.dealer, words), Building(s.chain.round, deck), {})
  {
    var events, d := HealthyTick(s, id, words), s.service.dealer;
    var snap := SnapOf(s.chain);
    hide NewDeck, BeginShuffle, Inv, LogOk, SystemRun;
    assert SystemRun(s, events[..0]) == s by { NothingRun(s); assert events[..0] == []; }
    Goes(s, events, 0, s, During(s, id, d, FetchEmpty(NotYet), {}));
    Goes(s, events, 1, During(s, id, d, FetchEmpty(NotYet), {}), During(s, id, d, FetchEmpty(Saw(snap)), {}));
    Goes(s, events, 2, During(s, id, d, FetchEmpty(Saw(snap)), {}),
         During(s, id, BeginShuffle(d, words), Building(s.chain.round, NewDeck(d.runs, words)), {}));
  }

  lemma NothingRun(s: System)
    ensures SystemRun(s, []) == s
  {
  }

  /** The dealer once its tree and proof are stored. */
  function Built(d: Dealer, words: seq<nat>): Dealer
    requires |words| == DECK_SIZE
  {
    var deck := NewDeck(d.runs, words);
    BeginShuffle(d, words).(tree := Some(deck), proof := Some(deck))
  }

  lemma TreeStep(s: System, id: TickId, d: Dealer, round: nat, deck: Deck)
    requires d.shuffled == Some(deck)
    ensures SystemNext(During(s, id, d, Building(round, deck), {}), TreeBuilt(id))
         == During(s, id, d.(tree := Some(deck)), Proving(round, deck), {})
  {
  }

  lemma ProofStep(s: System, id: TickId, d: Dealer, round: nat, deck: Deck)
    ensures SystemNext(During(s, id, d, Proving(round, deck), {}), ProofMade(id))
         == During(s, id, d, Verifying(round, deck), {})
  {
  }

  lemma CheckStep(s: System, id: TickId, d: Dealer, round: nat, deck: Deck)
    requires d.tree == Some(deck)
    ensures SystemNext(During(s, id, d, Verifying(round, deck), {}), ProofChecked(id))
         == During(s, id, d.(proof := Some(deck)), Preparing(round, Tx(deck, deck)), {})
  {
  }

  lemma SendStep(s: System, id: TickId, d: Dealer, round: nat, tx: Tx)
    ensures SystemNext(During(s, id, d, Preparing(round, tx), {}), Sent(id)) == During(s, id, d, Sending(round, tx), {tx})
  {
  }

  /** From the shuffle to the prover's answer. */
  lemma TickProves(s: System, id: TickId, words: seq<nat>)
    requires SystemInv(s) && WaitsForDeck(s) && |words| == DECK_SIZE
    ensures var deck := NewDeck(s.service.dealer.runs, words);
            SystemRun(s, HealthyTick(s, id, words)[..5])
            == During(s, id, BeginShuffle(s.service.dealer, words).(tree := Some(deck)), Verifying(s.chain.round, deck), {})
  {
    TickShuffles(s, id, words);
    var events, round := HealthyTick(s, id, words), s.chain.round;
    var d, deck := BeginShuffle(s.service.dealer, words), NewDeck(s.service.dealer.runs, words);
    var treed := d.(tree := Some(deck));
    assert d.shuffled == Some(deck);
    hide NewDeck, BeginShuffle, Inv, SystemRun, SystemInv, SystemNext, During;
    TreeStep(s, id, d, round, deck);
    ProofStep(s, id, treed, round, deck);
    Goes(s, events, 3, During(s, id, d, Building(round, deck), {}), During(s, id, treed, Proving(round, deck), {}));
    Goes(s, events, 4, During(s, id, treed, Proving(round, deck), {}), During(s, id, treed, Verifying(round, deck), {}));
  }

  /** And on to the wire. */
  lemma TickSends(s: System, id: TickId, words: seq<nat>)
    requires SystemInv(s) && WaitsForDeck(s) && |words| == DECK_SIZE
    ensures var deck := NewDeck(s.service.dealer.runs, words);
            SystemRun(s, HealthyTick(s, id, words)[..7])
            == During(s, id, Built(s.service.dealer, words), Sending(s.chain.round, Tx(deck, deck)), {Tx(deck, deck)})
  {
    TickProves(s, id, words);
    var events, round := HealthyTick(s, id, words), s.chain.round;
    var deck, done := NewDeck(s.service.dealer.runs, words), Built(s.service.dealer, words);
    var treed, tx := BeginShuffle(s.service.dealer, words).(tree := Some(deck)), Tx(deck, deck);
    assert done == treed.(proof := Some(deck));
    hide NewDeck, BeginShuffle, Built, Inv, SystemRun, SystemInv, SystemNext, During;
    CheckStep(s, id, treed, round, deck);
    SendStep(s, id, done, round, tx);
    Goes(s, events, 5, During(s, id, treed, Verifying(round, deck), {}), During(s, id, done, Preparing(round, tx), {}));
    Goes(s, events, 6, During(s, id, done, Preparing(round, tx), {}), During(s, id, done, Sending(round, tx), {tx}));
  }

  lemma CommitGoesThrough(g: Game, tx: Tx)
    requires g.open && g.dealer != 0 && !g.roundActive && !g.deckCommitted
    requires tx.rootOf == tx.proofOf && Shuffle.IsShuffleOfDeck(tx.rootOf.cards)
    ensures Step(g, CommitCall(g, tx)).Ok?
    ensures Next(g, CommitCall(g, tx)) == g.(root := DeckRoot(tx.rootOf.cards), deckCommitted := true, drawCounter := 0)
  {
    hide DeckRoot, Shuffle.IsShuffleOfDeck;
  }

  /** The whole tick: the chain holds the new root, the tree is held for the round it saw, and its first card is served. */
  lemma HealthyTickCommits(s: System, events: seq<Event>, id: TickId, words: seq<nat>)
    requires Start(s) && WaitsForDeck(SystemRun(s, events)) && |words| == DECK_SIZE
    ensures var now := SystemRun(s, events);
            var deck, after := NewDeck(now.service.dealer.runs, words), SystemRun(s, events + HealthyTick(now, id, words));
            && after.chain == now.chain.(root := DeckRoot(deck.cards), deckCommitted := true, drawCounter := 0)
            && after.service.dealer.tree == Some(deck) && after.service.committedRound == Some(now.chain.round)
            && after.service.ticks == map[] && after.network == {} && after.log == now.log + [Landed(deck)]
            && ServeReveal(after.service, now.chain.round, 0) == Some(TrueReveal(deck, 0))
  {
    var now := SystemRun(s, events);
    SystemRunKeepsInv(s, events);
    RunsOn(s, events, HealthyTick(now, id, words));
    hide SystemRun, SystemInv, DeckRoot, TrueReveal, ServeReveal, NewDeck;
    TickLands(now, id, words);
    var deck := NewDeck(now.service.dealer.runs, words);
    FirstCardServed(Committed(now, Built(now.service.dealer, words), deck).service, deck, now.chain.round);
  }

  /** The system once the commit of `deck` has landed and is confirmed. */
  ghost function Committed(s: System, d: Dealer, deck: Deck): System {
    s.(chain := s.chain.(root := DeckRoot(deck.cards), deckCommitted := true, drawCounter := 0),
       service := Service(d, Some(s.chain.round), false, map[]),
       network := {},
       log := s.log + [Landed(deck)])
  }

  lemma LandStep(s: System, id: TickId, d: Dealer, round: nat, deck: Deck)
    requires s.chain.open && s.chain.dealer != 0 && !s.chain.roundActive && !s.chain.deckCommitted
    requires Shuffle.IsShuffleOfDeck(deck.cards)
    ensures SystemNext(During(s, id, d, Sending(round, Tx(deck, deck)), {Tx(deck, deck)}), Land(Tx(deck, deck)))
         == During(Committed(s, d, deck), id, d, Sending(round, Tx(deck, deck)), {})
  {
    hide Step, Next, DeckRoot, Shuffle.IsShuffleOfDeck;
    CommitGoesThrough(s.chain, Tx(deck, deck));
  }

  lemma ConfirmStep(s: System, id: TickId, d: Dealer, deck: Deck)
    ensures var landed := During(Committed(s, d, deck), id, d, Sending(s.chain.round, Tx(deck, deck)), {});
            SystemNext(landed, Confirms(id)) == Committed(s, d, deck)
  {
    hide DeckRoot;
    assert Landed(deck) in s.log + [Landed(deck)];
  }

  lemma TickLands(s: System, id: TickId, words: seq<nat>)
    requires SystemInv(s) && WaitsForDeck(s) && |words| == DECK_SIZE
    ensures var deck := NewDeck(s.service.dealer.runs, words);
            SystemRun(s, HealthyTick(s, id, words)) == Committed(s, Built(s.service.dealer, words), deck)
  {
    TickSends(s, id, words);
    ShuffleLog(s.log, s.service.dealer, words);
    var events, round := HealthyTick(s, id, words), s.chain.round;
    var deck, done := NewDeck(s.service.dealer.runs, words), Built(s.service.dealer, words);
    LandStep(s, id, done, round, deck);
    ConfirmStep(s, id, done, deck);
    hide NewDeck, Built, SystemRun, SystemInv, SystemNext, During, Committed;
    Goes(s, events, 7, During(s, id, done, Sending(round, Tx(deck, deck)), {Tx(deck, deck)}),
         During(Committed(s, done, deck), id, done, Sending(round, Tx(deck, deck)), {}));
    Goes(s, events, 8, During(Committed(s, done, deck), id, done, Sending(round, Tx(deck, deck)), {}), Committed(s, done, deck));
    assert events[..9] == events;
  }
}
