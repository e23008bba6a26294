/** The dealer as an interleaving: ticks split at each await, HTTP reveals, and the chain. */
module DealerProtocol {
  import opened Cards
  import opened Scoring
  import opened Merkle
  import opened Ledger
  import opened GameSpec
  import opened GameInvariant
  import opened GameCards
  import opened GameTurns
  import opened Options
  import Shuffle

  const MIN_PLAYERS_TO_COMMIT := 2

  // ---------------------------------------------------------------------
  // The Dealer object
  // ---------------------------------------------------------------------

  type FullDeck = cards: seq<Card> | |cards| == DECK_SIZE witness CanonicalDeck()

  /** A shuffled deck, numbered by the run of the shuffle that made it. */
  datatype Deck = Deck(serial: nat, cards: FullDeck)

  /** `tree` and `proof` are the decks that the Merkle tree and the shuffle proof in memory were made from. */
  datatype Dealer = Dealer(shuffled: Option<Deck>, tree: Option<Deck>, proof: Option<Deck>, nextLeaf: nat, runs: nat)

  datatype CardReveal = CardReveal(card: Card, leafIndex: nat, proof: seq<Hash>)

  function FreshDealer(): Dealer {
    Dealer(None, None, None, 0, 0)
  }

  /** The deck `shuffle` deals on its next run, from the random words it draws. */
  function NewDeck(runs: nat, words: seq<nat>): Deck
    requires |words| == DECK_SIZE
  {
    Shuffle.ShuffledDeckIsCanonical(words);
    Deck(runs + 1, Shuffle.ApplyPermutation(CanonicalDeck(), Shuffle.Shuffled(Shuffle.Reduce(words))))
  }

  /** Every order of the canonical deck is dealt for some random words; the last word alone picks the last card. */
  lemma EveryOrderIsDealt(runs: nat, perm: seq<nat>) returns (words: seq<nat>)
    requires |perm| == DECK_SIZE && Shuffle.IsPermutation(perm, DECK_SIZE)
    ensures |words| == DECK_SIZE && |NewDeck(runs, words).cards| == DECK_SIZE
    ensures forall i :: 0 <= i < DECK_SIZE ==> perm[i] < DECK_SIZE && NewDeck(runs, words).cards[i] == CanonicalDeck()[perm[i]]
    ensures perm[93] == words[93] % 94
  {
    words := Shuffle.ShuffleBijective(perm);
    ReducedChoices(words);
    Shuffle.LastPick(words);
    Shuffle.ShuffledDeckIsCanonical(words);
    hide CanonicalDeck, Shuffle.Shuffled, Shuffle.Reduce, Shuffle.IsPermutation, Shuffle.IsShuffleOfDeck, Shuffle.IsChoices;
  }

  lemma ReducedChoices(choices: seq<nat>)
    requires Shuffle.IsChoices(choices)
    ensures Shuffle.Reduce(choices) == choices
  {
  }

  /** The part of `shuffle` before its first await; the tree of an earlier run stays in place. */
  function BeginShuffle(d: Dealer, words: seq<nat>): Dealer
    requires |words| == DECK_SIZE
  {
    d.(shuffled := Some(NewDeck(d.runs, words)), nextLeaf := 0, runs := d.runs + 1)
  }

  function Reset(d: Dealer): Dealer {
    d.(shuffled := None, tree := None, proof := None, nextLeaf := 0)
  }

  /** What serving leaf `k` of a deck has to give out. */
  function TrueReveal(deck: Deck, k: nat): CardReveal
    requires k < DECK_SIZE
  {
    CardReveal(deck.cards[k], k, DeckProof(deck.cards, k))
  }

  /** Serving leaf `index`: the card of the shuffled deck, the proof from the tree; `None` where the code throws. */
  function RevealCard(d: Dealer, index: nat): Option<CardReveal> {
    if index != d.nextLeaf || d.shuffled.None? || d.tree.None? || d.nextLeaf >= DECK_SIZE then None
    else Some(CardReveal(d.shuffled.value.cards[index], index, DeckProof(d.tree.value.cards, index)))
  }

  // ---------------------------------------------------------------------
  // The service: the tick's state and where each running tick waits
  // ---------------------------------------------------------------------

  datatype Snap = Snap(roundActive: bool, deckCommitted: bool, round: nat, playerCount: nat)

  /** What a fetch has seen so far: nothing, or the chain at some instant since the call. */
  datatype Seen = NotYet | Saw(snap: Option<Snap>)

  /** A commit transaction: the deck whose root it carries and the deck its proof is about. */
  datatype Tx = Tx(rootOf: Deck, proofOf: Deck)

  /** Each await holds the values its caller captured before it. */
  datatype Wait =
    | FetchHeld(seen: Seen)
    | FetchEmpty(seen: Seen)
    | Building(round: nat, deck: Deck)
    | Proving(round: nat, deck: Deck)
    | Verifying(round: nat, deck: Deck)
    | Preparing(round: nat, tx: Tx)
    | Sending(round: nat, tx: Tx)

  type TickId = nat

  datatype Service = Service(dealer: Dealer, committedRound: Option<nat>, commitInFlight: bool, ticks: map<TickId, Wait>)

  function FreshService(): Service {
    Service(FreshDealer(), None, false, map[])
  }

  /** A tick up to its first await. */
  function TickStarts(s: Service, id: TickId): Service {
    if s.commitInFlight then s
    else s.(commitInFlight := true, ticks := s.ticks[id := if s.dealer.tree.Some? then FetchHeld(NotYet) else FetchEmpty(NotYet)])
  }

  /** The `finally` block: the mutex is released on every way out. */
  function TickEnds(s: Service, id: TickId): Service {
    s.(commitInFlight := false, ticks := s.ticks - {id})
  }

  /** The tick moves on to its next await. */
  function Waits(s: Service, id: TickId, w: Wait): Service {
    s.(ticks := s.ticks[id := w])
  }

  /** The re-entry branch, once its fetch returned. */
  function ResumeHeld(s: Service, id: TickId, snap: Option<Snap>): Service {
    if snap.Some? && !snap.value.roundActive && !snap.value.deckCommitted
    then TickEnds(s.(dealer := Reset(s.dealer), committedRound := None), id)
    else TickEnds(s, id)
  }

  /** The guards between the fetch and the commit. */
  predicate ShouldCommit(s: Service, snap: Option<Snap>) {
    && snap.Some?
    && !snap.value.roundActive
    && !snap.value.deckCommitted
    && snap.value.playerCount >= MIN_PLAYERS_TO_COMMIT
    && s.committedRound != Some(snap.value.round)
  }

  /** The commit branch, once its fetch returned, up to the await inside `shuffle`. */
  function ResumeEmpty(s: Service, id: TickId, snap: Option<Snap>, words: seq<nat>): Service
    requires |words| == DECK_SIZE
  {
    if !ShouldCommit(s, snap) then TickEnds(s, id)
    else Waits(s.(dealer := BeginShuffle(s.dealer, words)), id, Building(snap.value.round, NewDeck(s.dealer.runs, words)))
  }

  /** The tree of the captured deck is stored; the proof is asked for the deck now in memory. */
  function ResumeBuilt(s: Service, id: TickId, round: nat, deck: Deck): Service {
    var stored := s.(dealer := s.dealer.(tree := Some(deck)));
    if s.dealer.shuffled.None? then CommitThrows(stored, id)
    else Waits(stored, id, Proving(round, s.dealer.shuffled.value))
  }

  /** The proof is stored and the transaction takes its root and proof from memory. */
  function ResumeChecked(s: Service, id: TickId, round: nat, deck: Deck): Service {
    var stored := s.(dealer := s.dealer.(proof := Some(deck)));
    if s.dealer.tree.None? then CommitThrows(stored, id)
    else Waits(stored, id, Preparing(round, Tx(s.dealer.tree.value, deck)))
  }

  /** Any throw inside the commit lands in the catch block. */
  function CommitThrows(s: Service, id: TickId): Service {
    TickEnds(s.(dealer := Reset(s.dealer)), id)
  }

  function Confirmed(s: Service, id: TickId, round: nat): Service {
    TickEnds(s.(committedRound := Some(round)), id)
  }

  /** The guards of the route that serves cards, and the card it serves. */
  function ServeReveal(s: Service, round: nat, index: nat): Option<CardReveal> {
    if s.dealer.tree.None? || s.committedRound != Some(round) then None else RevealCard(s.dealer, index)
  }

  function AfterReveal(s: Service): Service {
    s.(dealer := s.dealer.(nextLeaf := s.dealer.nextLeaf + 1))
  }

  // ---------------------------------------------------------------------
  // The whole system
  // ---------------------------------------------------------------------

  /** What happened, in order: roots that reached the chain and cards served over HTTP. */
  datatype Entry = Landed(deck: Deck) | Served(deck: Deck, card: CardReveal)

  /** `network` holds the commit transactions sent and not yet landed or given up. */
  datatype System = System(chain: Game, service: Service, network: set<Tx>, log: seq<Entry>)

  datatype Event =
    | ChainCall(call: Call)
    | Land(tx: Tx)
    | Tick(id: TickId)
    | Observe(id: TickId)
    | FetchReturns(id: TickId, words: seq<nat>)
    | FetchFails(id: TickId)
    | TreeBuilt(id: TickId)
    | ProofMade(id: TickId)
    | ProofChecked(id: TickId)
    | Sent(id: TickId)
    | Confirms(id: TickId)
    | Throws(id: TickId)
    | HttpReveal(round: nat, index: nat)

  function SnapOf(g: Game): Option<Snap> {
    if g.open then Some(Snap(g.roundActive, g.deckCommitted, g.round, |g.order|)) else None
  }

  function CommitCall(g: Game, tx: Tx): Call {
    DoCommitDeck(g.dealer, DeckRoot(tx.rootOf.cards), ProofOf(tx.proofOf.cards))
  }

  predicate Fetching(w: Wait) {
    w.FetchHeld? || w.FetchEmpty?
  }

  /** Whether an event can happen now: there is one dealer, a fetch returns only what it saw, and a confirmed commit landed. */
  ghost predicate Enabled(s: System, e: Event) {
    var ticks := s.service.ticks;
    match e
    case ChainCall(call) => call.DoCommitDeck? ==> call.signer != s.chain.dealer
    case Land(tx) => tx in s.network
    case Tick(id) => id !in ticks
    case Observe(id) => id in ticks && Fetching(ticks[id])
    case FetchReturns(id, words) => id in ticks && |words| == DECK_SIZE && Fetching(ticks[id]) && ticks[id].seen.Saw?
    case FetchFails(id) => id in ticks && Fetching(ticks[id])
    case TreeBuilt(id) => id in ticks && ticks[id].Building?
    case ProofMade(id) => id in ticks && ticks[id].Proving?
    case ProofChecked(id) => id in ticks && ticks[id].Verifying?
    case Sent(id) => id in ticks && ticks[id].Preparing?
    case Confirms(id) => id in ticks && ticks[id].Sending? && Landed(ticks[id].tx.rootOf) in s.log
    case Throws(id) => id in ticks && !Fetching(ticks[id])
    case HttpReveal(_, _) => true
  }

  /** A commit reaches the chain, which accepts or refuses it. */
  ghost function Lands(s: System, tx: Tx): System {
    var call := CommitCall(s.chain, tx);
    s.(chain := Next(s.chain, call),
       network := s.network - {tx},
       log := if Step(s.chain, call).Ok? then s.log + [Landed(tx.rootOf)] else s.log)
  }

  /** A commit that throws after it was sent landed before, or never will. */
  function GivesUp(s: System, id: TickId): System
    requires id in s.service.ticks
  {
    var w := s.service.ticks[id];
    s.(service := CommitThrows(s.service, id), network := if w.Sending? then s.network - {w.tx} else s.network)
  }

  function Reveals(s: System, round: nat, index: nat): System {
    match ServeReveal(s.service, round, index)
    case None => s
    case Some(card) =>
      s.(service := AfterReveal(s.service), log := s.log + [Served(s.service.dealer.tree.value, card)])
  }

  ghost function Happens(s: System, e: Event): System
    requires Enabled(s, e)
  {
    var sv := s.service;
    match e
    case ChainCall(call) => s.(chain := Next(s.chain, call))
    case Land(tx) => Lands(s, tx)
    case Tick(id) => s.(service := TickStarts(sv, id))
    case Observe(id) => s.(service := Waits(sv, id, sv.ticks[id].(seen := Saw(SnapOf(s.chain)))))
    case FetchReturns(id, words) =>
      var snap := sv.ticks[id].seen.snap;
      s.(service := if sv.ticks[id].FetchHeld? then ResumeHeld(sv, id, snap) else ResumeEmpty(sv, id, snap, words))
    case FetchFails(id) => s.(service := TickEnds(sv, id))
    case TreeBuilt(id) => s.(service := ResumeBuilt(sv, id, sv.ticks[id].round, sv.ticks[id].deck))
    case ProofMade(id) => s.(service := Waits(sv, id, Verifying(sv.ticks[id].round, sv.ticks[id].deck)))
    case ProofChecked(id) => s.(service := ResumeChecked(sv, id, sv.ticks[id].round, sv.ticks[id].deck))
    case Sent(id) =>
      s.(service := Waits(sv, id, Sending(sv.ticks[id].round, sv.ticks[id].tx)), network := s.network + {sv.ticks[id].tx})
    case Confirms(id) => s.(service := Confirmed(sv, id, sv.ticks[id].round))
    case Throws(id) => GivesUp(s, id)
    case HttpReveal(round, index) => Reveals(s, round, index)
  }

  /** An event that cannot happen now changes nothing. */
  ghost function SystemNext(s: System, e: Event): System {
    if Enabled(s, e) then Happens(s, e) else s
  }

  ghost function SystemRun(s: System, events: seq<Event>): System {
    if events == [] then s else SystemNext(SystemRun(s, events[..|events| - 1]), events[|events| - 1])
  }

  /** The service boots against any sound game, with no commit of an earlier boot still on its way. */
  ghost predicate Start(s: System) {
    Inv(s.chain) && s.service == FreshService() && s.network == {} && s.log == []
  }

  // ---------------------------------------------------------------------
  // What was served
  // ---------------------------------------------------------------------

  /** The cards of one deck that were served, in the order they went out. */
  function ServedOf(log: seq<Entry>, deck: Deck): seq<CardReveal> {
    if log == [] then [] else
      var before, last := ServedOf(log[..|log| - 1], deck), log[|log| - 1];
      if last.Served? && last.deck == deck then before + [last.card] else before
  }

  /** The leaves of a deck went out once each, in order, with their true cards and proofs. */
  ghost predicate InOrder(log: seq<Entry>, deck: Deck) {
    && |ServedOf(log, deck)| <= DECK_SIZE
    && forall k :: 0 <= k < |ServedOf(log, deck)| ==> ServedOf(log, deck)[k] == TrueReveal(deck, k)
  }

  /** Every served card comes after its deck's root landed on chain. */
  ghost predicate ServedAfterLanding(log: seq<Entry>) {
    forall i :: 0 <= i < |log| && log[i].Served? ==> Landed(log[i].deck) in log[..i]
  }

  ghost predicate SerialsUpTo(log: seq<Entry>, runs: nat) {
    forall e :: e in log ==> e.deck.serial <= runs
  }

  ghost predicate LogOk(log: seq<Entry>, d: Dealer) {
    && (forall deck: Deck :: InOrder(log, deck))
    && ServedAfterLanding(log)
    && SerialsUpTo(log, d.runs)
    && (d.shuffled.Some? ==> |ServedOf(log, d.shuffled.value)| == d.nextLeaf)
  }

  lemma ServedOfNext(log: seq<Entry>, e: Entry, deck: Deck)
    ensures ServedOf(log + [e], deck)
         == if e.Served? && e.deck == deck then ServedOf(log, deck) + [e.card] else ServedOf(log, deck)
  {
    assert (log + [e])[..|log|] == log;
  }

  lemma {:induction false} NothingServed(log: seq<Entry>, deck: Deck)
    requires forall e :: e in log ==> e.deck != deck
    ensures ServedOf(log, deck) == []
  {
    if log != [] { NothingServed(log[..|log| - 1], deck); }
  }

  lemma LandingLogged(log: seq<Entry>, d: Dealer, deck: Deck)
    requires LogOk(log, d) && deck.serial <= d.runs
    ensures LogOk(log + [Landed(deck)], d)
  {
    var after := log + [Landed(deck)];
    hide TrueReveal;
    forall other: Deck ensures InOrder(after, other) && ServedOf(after, other) == ServedOf(log, other) {
      assert InOrder(log, other);
      ServedOfNext(log, Landed(deck), other);
    }
    forall i | 0 <= i < |after| && after[i].Served? ensures Landed(after[i].deck) in after[..i] {
      assert after[..i] == log[..i];
    }
  }

  lemma ServingLogged(log: seq<Entry>, d: Dealer)
    requires LogOk(log, d) && d.shuffled.Some? && d.nextLeaf < DECK_SIZE && Landed(d.shuffled.value) in log
    ensures var deck := d.shuffled.value;
            LogOk(log + [Served(deck, TrueReveal(deck, d.nextLeaf))], d.(nextLeaf := d.nextLeaf + 1))
  {
    hide TrueReveal;
    var deck := d.shuffled.value;
    var entry := Served(deck, TrueReveal(deck, d.nextLeaf));
    var after := log + [entry];
    forall other: Deck ensures InOrder(after, other) {
      assert InOrder(log, other);
      ServedOfNext(log, entry, other);
    }
    ServedOfNext(log, entry, deck);
    forall i | 0 <= i < |after| && after[i].Served? ensures Landed(after[i].deck) in after[..i] {
      assert after[..i] == log[..i];
    }
  }

  // ---------------------------------------------------------------------
  // The invariant
  // ---------------------------------------------------------------------

  /** The tree in memory is the committed one, if any is committed. */
  ghost predicate RootsAgree(s: System) {
    s.service.dealer.tree.Some? && s.chain.deckCommitted ==> s.chain.root == DeckRoot(s.service.dealer.tree.value.cards)
  }

  /** No commit is under way: the tree is held exactly while a round is recorded for it. */
  ghost predicate AtRest(s: System) {
    var d := s.service.dealer;
    && (d.tree.Some? <==> s.service.committedRound.Some?)
    && d.tree == d.shuffled
    && s.network == {}
    && (d.tree.Some? ==> Landed(d.tree.value) in s.log)
    && RootsAgree(s)
  }

  ghost predicate NoDeckOnChain(g: Game) {
    !g.deckCommitted && !g.roundActive
  }

  ghost predicate SawNoDeck(seen: Seen) {
    seen.Saw? && seen.snap.Some? && !seen.snap.value.roundActive && !seen.snap.value.deckCommitted
  }

  /** A commit of `deck` is under way and nothing of it was served. */
  ghost predicate Committing(s: System, deck: Deck) {
    var sv := s.service;
    && sv.committedRound.None? && sv.dealer.shuffled == Some(deck)
    && sv.dealer.nextLeaf == 0 && Shuffle.IsShuffleOfDeck(deck.cards) && deck.serial == sv.dealer.runs
  }

  /** ... and has not been sent. */
  ghost predicate Unsent(s: System, deck: Deck) {
    Committing(s, deck) && s.network == {} && NoDeckOnChain(s.chain) && Landed(deck) !in s.log
  }

  ghost predicate WaitOk(s: System, w: Wait) {
    var d := s.service.dealer;
    match w
    case FetchHeld(seen) => AtRest(s) && d.tree.Some? && (SawNoDeck(seen) ==> NoDeckOnChain(s.chain))
    case FetchEmpty(seen) => AtRest(s) && d.tree.None? && (SawNoDeck(seen) ==> NoDeckOnChain(s.chain))
    case Building(_, deck) => Unsent(s, deck) && d.tree.None?
    case Proving(_, deck) => Unsent(s, deck) && d.tree == Some(deck)
    case Verifying(_, deck) => Unsent(s, deck) && d.tree == Some(deck)
    case Preparing(_, tx) => Unsent(s, tx.rootOf) && d.tree == Some(tx.rootOf) && tx.proofOf == tx.rootOf
    case Sending(_, tx) =>
      && Committing(s, tx.rootOf) && d.tree == Some(tx.rootOf) && tx.proofOf == tx.rootOf
      && s.network <= {tx} && RootsAgree(s)
      && (tx in s.network ==> NoDeckOnChain(s.chain) && Landed(tx.rootOf) !in s.log)
  }

  /** The mutex: at most one tick is past its entry check. */
  ghost predicate Exclusive(sv: Service) {
    && (sv.commitInFlight <==> sv.ticks != map[])
    && forall i, j :: i in sv.ticks && j in sv.ticks ==> i == j
  }

  ghost predicate SystemInv(s: System) {
    && Inv(s.chain)
    && LogOk(s.log, s.service.dealer)
    && Exclusive(s.service)
    && (s.service.ticks == map[] ==> AtRest(s))
    && (forall id :: id in s.service.ticks ==> WaitOk(s, s.service.ticks[id]))
  }

  lemma StartInv(s: System)
    requires Start(s)
    ensures SystemInv(s)
  {
  }

  // ---------------------------------------------------------------------
  // Steps of the chain
  // ---------------------------------------------------------------------

  lemma OnlyCommittedStarts(g: Game, c: Call)
    requires !g.roundActive && !g.deckCommitted
    ensures !Next(g, c).roundActive
  {
    hide AccountsError;
    if !c.DoStartRound? {
      hide Step, Next;
      OnlyStartActivates(g, c);
    }
  }

  lemma StrangersCannotCommit(g: Game, c: Call)
    requires c.DoCommitDeck? && c.signer != g.dealer
    ensures Next(g, c) == g
  {
  }

  lemma ChainKeeps(s: System, call: Call)
    requires SystemInv(s) && Enabled(s, ChainCall(call))
    ensures SystemInv(s.(chain := Next(s.chain, call)))
  {
    hide Inv, LogOk, Step, Next, DeckRoot, Shuffle.IsShuffleOfDeck;
    NextKeepsInv(s.chain, call);
    OnlyCommitSetsDeck(s.chain, call);
    if NoDeckOnChain(s.chain) { OnlyCommittedStarts(s.chain, call); }
    if call.DoCommitDeck? { StrangersCannotCommit(s.chain, call); }
  }

  lemma CommitAccepted(g: Game, c: Call)
    requires c.DoCommitDeck? && Step(g, c).Ok?
    ensures Next(g, c).deckCommitted && Next(g, c).root == c.root
  {
    hide ProofAccepted;
  }

  lemma Refused(g: Game, c: Call)
    requires Step(g, c).Err?
    ensures Next(g, c) == g
  {
    hide Step;
  }

  lemma LandKeeps(s: System, tx: Tx)
    requires SystemInv(s) && tx in s.network
    ensures SystemInv(Lands(s, tx))
  {
    hide Inv, LogOk, Step, Next, DeckRoot, Shuffle.IsShuffleOfDeck;
    var call := CommitCall(s.chain, tx);
    NextKeepsInv(s.chain, call);
    var id :| id in s.service.ticks;
    assert s.service.ticks[id].Sending? && s.service.ticks[id].tx == tx;
    if Step(s.chain, call).Ok? {
      CommitAccepted(s.chain, call);
      LandingLogged(s.log, s.service.dealer, tx.rootOf);
    } else {
      Refused(s.chain, call);
    }
  }

  // ---------------------------------------------------------------------
  // Steps of the service
  // ---------------------------------------------------------------------

  lemma OneLeft(sv: Service, id: TickId)
    requires Exclusive(sv) && id in sv.ticks
    ensures sv.ticks - {id} == map[] && sv.ticks.Keys == {id}
  {
  }

  /** A tick that ends leaves the service at rest. */
  lemma EndKeeps(s: System, s': System, id: TickId)
    requires SystemInv(s) && id in s.service.ticks && s'.chain == s.chain && LogOk(s'.log, s'.service.dealer)
    requires s'.service.ticks == s.service.ticks - {id} && !s'.service.commitInFlight && AtRest(s')
    ensures SystemInv(s')
  {
    hide Inv, LogOk, AtRest;
    OneLeft(s.service, id);
  }

  /** A tick that moves on to another await. */
  lemma WaitKeeps(s: System, s': System, id: TickId, w: Wait)
    requires SystemInv(s) && id in s.service.ticks && s'.chain == s.chain && LogOk(s'.log, s'.service.dealer)
    requires s'.service.ticks == s.service.ticks[id := w] && s'.service.commitInFlight == s.service.commitInFlight
    requires WaitOk(s', w)
    ensures SystemInv(s')
  {
    hide Inv, LogOk, AtRest, WaitOk;
    OneLeft(s.service, id);
    assert id in s'.service.ticks;
  }

  lemma ForgetLog(log: seq<Entry>, d: Dealer)
    requires LogOk(log, d)
    ensures LogOk(log, Reset(d))
  {
  }

  lemma ResumeHeldKeeps(s: System, id: TickId)
    requires SystemInv(s) && id in s.service.ticks && s.service.ticks[id].FetchHeld? && s.service.ticks[id].seen.Saw?
    ensures SystemInv(s.(service := ResumeHeld(s.service, id, s.service.ticks[id].seen.snap)))
  {
    hide Inv, LogOk, DeckRoot;
    ForgetLog(s.log, s.service.dealer);
    assert WaitOk(s, s.service.ticks[id]);
    EndKeeps(s, s.(service := ResumeHeld(s.service, id, s.service.ticks[id].seen.snap)), id);
  }

  lemma ShuffleLog(log: seq<Entry>, d: Dealer, words: seq<nat>)
    requires LogOk(log, d) && |words| == DECK_SIZE
    ensures LogOk(log, BeginShuffle(d, words)) && Landed(NewDeck(d.runs, words)) !in log
    ensures Shuffle.IsShuffleOfDeck(NewDeck(d.runs, words).cards) && NewDeck(d.runs, words).serial == d.runs + 1
  {
    hide CanonicalDeck, Shuffle.Shuffled, Shuffle.Reduce, Shuffle.ApplyPermutation;
    Shuffle.ShuffledDeckIsCanonical(words);
    NothingServed(log, NewDeck(d.runs, words));
  }

  lemma ResumeEmptyKeeps(s: System, id: TickId, words: seq<nat>)
    requires SystemInv(s) && id in s.service.ticks && s.service.ticks[id].FetchEmpty? && s.service.ticks[id].seen.Saw?
    requires |words| == DECK_SIZE
    ensures SystemInv(s.(service := ResumeEmpty(s.service, id, s.service.ticks[id].seen.snap, words)))
  {
    hide Inv, LogOk, NewDeck, DeckRoot, Shuffle.IsShuffleOfDeck;
    var snap := s.service.ticks[id].seen.snap;
    var s' := s.(service := ResumeEmpty(s.service, id, snap, words));
    assert WaitOk(s, s.service.ticks[id]);
    if ShouldCommit(s.service, snap) {
      ShuffleLog(s.log, s.service.dealer, words);
      WaitKeeps(s, s', id, s'.service.ticks[id]);
    } else {
      EndKeeps(s, s', id);
    }
  }

  predicate InCommit(e: Event) {
    e.TreeBuilt? || e.ProofMade? || e.ProofChecked? || e.Sent?
  }

  /** The commit moves from await to await. */
  lemma CommitKeeps(s: System, e: Event)
    requires SystemInv(s) && InCommit(e) && Enabled(s, e)
    ensures SystemInv(Happens(s, e))
  {
    hide Inv, LogOk, DeckRoot, Shuffle.IsShuffleOfDeck;
    var s' := Happens(s, e);
    assert WaitOk(s, s.service.ticks[e.id]);
    assert LogOk(s'.log, s'.service.dealer) by { LogOfShuffled(s.log, s.service.dealer, s'.service.dealer); }
    WaitKeeps(s, s', e.id, s'.service.ticks[e.id]);
  }

  lemma LogOfShuffled(log: seq<Entry>, d: Dealer, d': Dealer)
    requires LogOk(log, d) && d'.shuffled == d.shuffled && d'.runs == d.runs && d'.nextLeaf == d.nextLeaf
    ensures LogOk(log, d')
  {
  }

  lemma ConfirmKeeps(s: System, id: TickId)
    requires SystemInv(s) && Enabled(s, Confirms(id))
    ensures SystemInv(Happens(s, Confirms(id)))
  {
    hide Inv, LogOk, DeckRoot, Shuffle.IsShuffleOfDeck;
    assert WaitOk(s, s.service.ticks[id]);
    EndKeeps(s, Happens(s, Confirms(id)), id);
  }

  lemma ThrowKeeps(s: System, id: TickId)
    requires SystemInv(s) && Enabled(s, Throws(id))
    ensures SystemInv(Happens(s, Throws(id)))
  {
    hide Inv, LogOk, DeckRoot, Shuffle.IsShuffleOfDeck;
    ForgetLog(s.log, s.service.dealer);
    assert WaitOk(s, s.service.ticks[id]);
    EndKeeps(s, Happens(s, Throws(id)), id);
  }

  lemma FetchKeeps(s: System, e: Event)
    requires SystemInv(s) && (e.Tick? || e.Observe? || e.FetchFails?) && Enabled(s, e)
    ensures SystemInv(Happens(s, e))
  {
    hide Inv, LogOk, DeckRoot, Shuffle.IsShuffleOfDeck;
    var s' := Happens(s, e);
    if e.Observe? {
      assert WaitOk(s, s.service.ticks[e.id]);
      WaitKeeps(s, s', e.id, s'.service.ticks[e.id]);
    } else if e.FetchFails? {
      assert WaitOk(s, s.service.ticks[e.id]);
      EndKeeps(s, s', e.id);
    }
  }

  /** A card goes out only at rest or while a tick fetches with the tree held. */
  lemma ServingIsSettled(s: System, round: nat, index: nat)
    requires SystemInv(s) && ServeReveal(s.service, round, index).Some?
    ensures AtRest(s) && s.service.dealer.tree.Some?
    ensures ServeReveal(s.service, round, index).value == TrueReveal(s.service.dealer.tree.value, index)
    ensures forall id :: id in s.service.ticks ==> s.service.ticks[id].FetchHeld?
  {
    hide Inv, LogOk, DeckRoot, DeckProof, CanonicalDeck, Shuffle.IsShuffleOfDeck, RootsAgree;
    forall id | id in s.service.ticks ensures s.service.ticks[id].FetchHeld? && AtRest(s) {
      assert WaitOk(s, s.service.ticks[id]);
    }
    assert AtRest(s);
  }

  lemma RevealKeeps(s: System, round: nat, index: nat)
    requires SystemInv(s)
    ensures SystemInv(Reveals(s, round, index))
  {
    hide Inv, LogOk, DeckRoot, TrueReveal;
    var card := ServeReveal(s.service, round, index);
    if card.Some? {
      ServingIsSettled(s, round, index);
      ServingLogged(s.log, s.service.dealer);
    }
  }

  /** Every event, in any order, keeps the invariant. */
  lemma SystemNextKeepsInv(s: System, e: Event)
    requires SystemInv(s)
    ensures SystemInv(SystemNext(s, e))
  {
    hide SystemInv;
    if Enabled(s, e) {
      match e
      case ChainCall(call) => ChainKeeps(s, call);
      case Land(tx) => LandKeeps(s, tx);
      case FetchReturns(id, words) =>
        if s.service.ticks[id].FetchHeld? { ResumeHeldKeeps(s, id); } else { ResumeEmptyKeeps(s, id, words); }
      case Confirms(id) => ConfirmKeeps(s, id);
      case Throws(id) => ThrowKeeps(s, id);
      case HttpReveal(round, index) => RevealKeeps(s, round, index);
      case _ => if InCommit(e) { CommitKeeps(s, e); } else { FetchKeeps(s, e); }
    }
  }

  lemma {:induction false} SystemRunKeepsInv(s: System, events: seq<Event>)
    requires Start(s)
    ensures SystemInv(SystemRun(s, events))
  {
    hide SystemInv;
    if events == [] {
      StartInv(s);
    } else {
      SystemRunKeepsInv(s, events[..|events| - 1]);
      SystemNextKeepsInv(SystemRun(s, events[..|events| - 1]), events[|events| - 1]);
    }
  }

  // ---------------------------------------------------------------------
  // What the service promises
  // ---------------------------------------------------------------------

  /** The running ticks that are past their fetch, inside a commit. */
  function Commits(sv: Service): set<TickId> {
    set id | id in sv.ticks && !Fetching(sv.ticks[id])
  }

  /** However ticks, awaits, reveals and the chain interleave, at most one commit runs and at most one is on the wire. */
  lemma OneCommitInFlight(s: System, events: seq<Event>)
    requires Start(s)
    ensures var now := SystemRun(s, events);
            |now.service.ticks| <= 1 && |Commits(now.service)| <= 1 && |now.network| <= 1
            && (now.network != {} ==> |Commits(now.service)| == 1)
  {
    hide SystemRun, Inv, LogOk, DeckRoot;
    SystemRunKeepsInv(s, events);
    var now := SystemRun(s, events);
    var ticks := now.service.ticks;
    if ticks == map[] {
      assert Commits(now.service) == {};
    } else {
      var id :| id in ticks;
      OneLeft(now.service, id);
      assert |ticks.Keys| == 1;
      assert WaitOk(now, ticks[id]);
      assert Commits(now.service) == if Fetching(ticks[id]) then {} else {id};
      if ticks[id].Sending? && now.network != {} { assert now.network == {ticks[id].tx}; }
    }
  }

  /** Cards go out only after their deck's root is on chain, and each deck's leaves once, as 0, 1, 2, ... */
  lemma RevealsAreSafe(s: System, events: seq<Event>, deck: Deck)
    requires Start(s)
    ensures var log := SystemRun(s, events).log;
            && ServedAfterLanding(log)
            && |ServedOf(log, deck)| <= DECK_SIZE
            && forall k :: 0 <= k < |ServedOf(log, deck)| ==> ServedOf(log, deck)[k] == TrueReveal(deck, k)
  {
    hide SystemRun, Inv, DeckRoot, TrueReveal;
    SystemRunKeepsInv(s, events);
    assert InOrder(SystemRun(s, events).log, deck);
  }

  /** With no tick running, a tree is held iff a round is recorded, and it is the committed one. */
  lemma AgreesAtRest(s: System, events: seq<Event>)
    requires Start(s)
    ensures var now := SystemRun(s, events);
            now.service.ticks == map[] ==>
              && !now.service.commitInFlight && now.network == {}
              && (now.service.dealer.tree.Some? <==> now.service.committedRound.Some?)
              && RootsAgree(now)
  {
    hide SystemRun, Inv, LogOk, DeckRoot;
    SystemRunKeepsInv(s, events);
  }

  /** The round-ended branch throws away a tree only when the chain holds no deck and no round. */
  lemma ResetIsNeverLive(s: System, events: seq<Event>, id: TickId, words: seq<nat>)
    requires Start(s)
    requires var now := SystemRun(s, events);
             Enabled(now, FetchReturns(id, words)) && now.service.ticks[id].FetchHeld?
    ensures var now := SystemRun(s, events);
            var dropped := Happens(now, FetchReturns(id, words)).service.dealer.tree.None?;
            && (dropped <==> SawNoDeck(now.service.ticks[id].seen))
            && (dropped ==> !now.chain.deckCommitted && !now.chain.roundActive)
  {
    hide SystemRun, Inv, LogOk, DeckRoot;
    SystemRunKeepsInv(s, events);
    assert WaitOk(SystemRun(s, events), SystemRun(s, events).service.ticks[id]);
  }

  /** A commit on the wire is accepted whenever it lands on an open game that names a dealer. */
  lemma CommitIsAccepted(s: System, events: seq<Event>, tx: Tx)
    requires Start(s) && tx in SystemRun(s, events).network
    ensures var chain := SystemRun(s, events).chain;
            Step(chain, CommitCall(chain, tx)).Ok? <==> chain.open && chain.dealer != ZERO_KEY
  {
    hide SystemRun, Inv, LogOk, DeckRoot, Shuffle.IsShuffleOfDeck;
    SystemRunKeepsInv(s, events);
    var now := SystemRun(s, events);
    var id :| id in now.service.ticks;
    assert WaitOk(now, now.service.ticks[id]);
  }

  /** A served card passes the on-chain proof check whenever a deck is committed. */
  lemma RevealIsPlayable(s: System, events: seq<Event>, round: nat, index: nat)
    requires Start(s)
    requires ServeReveal(SystemRun(s, events).service, round, index).Some?
    ensures var now, card := SystemRun(s, events), ServeReveal(SystemRun(s, events).service, round, index).value;
            card.leafIndex == index < DECK_SIZE && |card.proof| == TREE_DEPTH
            && (now.chain.deckCommitted ==> Verifies(card.card, index, card.proof, now.chain.root))
  {
    hide SystemRun, Inv, LogOk, DeckRoot, DeckProof, Verifies;
    SystemRunKeepsInv(s, events);
    var now := SystemRun(s, events);
    ServingIsSettled(now, round, index);
    var cards := now.service.dealer.tree.value.cards;
    DeckVerifies(cards, cards[index], index, DeckProof(cards, index));
  }

  /** A verified next card is drawn exactly when the turn player is active and has room for it. */
  lemma VerifiedCardIsDrawn(g: Game, card: CardReveal, remaining: seq<Key>)
    requires Inv(g) && g.roundActive && g.drawCounter == card.leafIndex < DECK_SIZE && |card.proof| == TREE_DEPTH
    requires Verifies(card.card, card.leafIndex, card.proof, g.root)
    ensures var player := g.order[g.turn];
            var hit := DoHit(player, card.card, card.leafIndex, card.proof, remaining);
            && (remaining == [] ==>
                  (Step(g, hit).Ok? <==> ActiveSeat(g, g.turn) && |g.players[player].hand| < MAX_HAND_SIZE))
            && (ActiveSeat(g, g.turn) && |g.players[player].hand| < MAX_HAND_SIZE - 1 ==> Step(g, hit).Ok?)
  {
    hide Verifies, CheckBust, HighestAlpha, PlayersOk;
  }

  /** End to end: in a running round, the card served for the next draw is accepted from the turn player, with
      no target passed, exactly when that player is active with room in the hand; with two places free whatever is passed. */
  lemma ServedCardIsAccepted(s: System, events: seq<Event>, round: nat, index: nat, remaining: seq<Key>)
    requires Start(s)
    requires var now := SystemRun(s, events);
             ServeReveal(now.service, round, index).Some? && now.chain.roundActive && now.chain.drawCounter == index
    ensures var g, card := SystemRun(s, events).chain, ServeReveal(SystemRun(s, events).service, round, index).value;
            && Inv(g) && card.leafIndex == index < DECK_SIZE
            && var player := g.order[g.turn];
               var hit := DoHit(player, card.card, index, card.proof, remaining);
               && (remaining == [] ==>
                     (Step(g, hit).Ok? <==> ActiveSeat(g, g.turn) && |g.players[player].hand| < MAX_HAND_SIZE))
               && (ActiveSeat(g, g.turn) && |g.players[player].hand| < MAX_HAND_SIZE - 1 ==> Step(g, hit).Ok?)
  {
    SystemRunKeepsInv(s, events);
    RevealIsPlayable(s, events, round, index);
    hide SystemRun, Step, LogOk, DeckRoot, DeckProof, Verifies, ServeReveal;
    VerifiedCardIsDrawn(SystemRun(s, events).chain, ServeReveal(SystemRun(s, events).service, round, index).value, remaining);
  }
}
