/** The dealer service as it runs: the Dealer object and the tick between its awaits, written in place. */
module DealerService {
  import opened Cards
  import opened Merkle
  import opened GameSpec
  import opened Options
  import Shuffle
  import Spec = DealerProtocol

  class Dealer {
    const canonicalDeck: seq<Card>
    var permutation: Option<array<nat>>
    var shuffledDeck: Option<seq<Card>>
    var merkleTree: Option<seq<seq<Hash>>>
    var serializedProof: Option<ShuffleProof>
    var nextLeafIndex: nat

    ghost var shuffled: Option<Spec.Deck>
    ghost var tree: Option<Spec.Deck>
    ghost var proof: Option<Spec.Deck>
    ghost var runs: nat

    ghost predicate Valid()
      reads this
    {
      && canonicalDeck == CanonicalDeck()
      && shuffledDeck == (match shuffled case Some(deck) => Some(deck.cards) case None => None)
      && serializedProof == (match proof case Some(deck) => Some(ProofOf(deck.cards)) case None => None)
      && (merkleTree.Some? <==> tree.Some?)
      && (merkleTree.Some? ==> IsTree(merkleTree.value, TREE_DEPTH) && TreeOf(merkleTree.value, tree.value))
    }

    ghost predicate TreeOf(levels: seq<seq<Hash>>, deck: Spec.Deck)
      requires IsTree(levels, TREE_DEPTH)
    {
      levels[0] == Leaves(deck.cards, NUM_LEAVES) && levels[TREE_DEPTH] == [DeckRoot(deck.cards)]
    }

    ghost function View(): Spec.Dealer
      reads this
    {
      Spec.Dealer(shuffled, tree, proof, nextLeafIndex, runs)
    }

    constructor ()
      ensures Valid() && View() == Spec.FreshDealer()
    {
      canonicalDeck := CanonicalDeck();
      permutation, shuffledDeck, merkleTree, serializedProof, nextLeafIndex := None, None, None, None, 0;
      shuffled, tree, proof, runs := None, None, None, 0;
    }

    /** `shuffle` up to its first await; returns the deck it goes on to build a tree for. */
    method BeginShuffle(words: seq<nat>) returns (cards: Spec.FullDeck)
      requires Valid() && |words| == DECK_SIZE
      modifies this
      ensures Valid() && View() == Spec.BeginShuffle(old(View()), words)
      ensures cards == Spec.NewDeck(old(runs), words).cards
    {
      hide CanonicalDeck, IsTree, TreeOf;
      nextLeafIndex := 0;
      var perm := Shuffle.FisherYatesShuffle(words);
      permutation := Some(perm);
      Shuffle.ShuffledDeckIsCanonical(words);
      cards := Shuffle.ApplyPermutation(canonicalDeck, perm[..]);
      shuffledDeck := Some(cards);
      shuffled, runs := Some(Spec.NewDeck(runs, words)), runs + 1;
    }

    method BuildTree(cards: Spec.FullDeck, ghost deck: Spec.Deck)
      requires Valid() && deck.cards == cards
      modifies this
      ensures Valid() && View() == old(View()).(tree := Some(deck))
    {
      hide CanonicalDeck, IsAbove, Leaves, Root;
      DeckDepth();
      var levels := BuildMerkleTree(cards, TREE_DEPTH);
      merkleTree, tree := Some(levels), Some(deck);
    }

    method StoreProof(made: ShuffleProof, ghost deck: Spec.Deck)
      requires Valid() && made == ProofOf(deck.cards)
      modifies this
      ensures Valid() && View() == old(View()).(proof := Some(deck))
    {
      serializedProof, proof := Some(made), Some(deck);
    }

    method GetMerkleRoot() returns (root: Option<Hash>)
      requires Valid()
      ensures root == match tree case Some(deck) => Some(DeckRoot(deck.cards)) case None => None
    {
      match merkleTree
      case None => root := None;
      case Some(levels) => root := Some(levels[TREE_DEPTH][0]);
    }

    /** The sibling hashes of a leaf of the tree in memory. */
    method ProofOfLeaf(leafIndex: nat) returns (path: seq<Hash>)
      requires Valid() && merkleTree.Some? && leafIndex < DECK_SIZE
      ensures path == DeckProof(tree.value.cards, leafIndex)
    {
      DeckDepth();
      var siblings := GetMerkleProof(merkleTree.value, TREE_DEPTH, leafIndex);
      path := siblings.value;
    }

    method RevealNextCard() returns (card: Option<Spec.CardReveal>)
      requires Valid()
      modifies this`nextLeafIndex
      ensures Valid() && card == Spec.RevealCard(old(View()), old(nextLeafIndex))
      ensures nextLeafIndex == if card.Some? then old(nextLeafIndex) + 1 else old(nextLeafIndex)
    {
      hide CanonicalDeck, IsTree, TreeOf, DeckProof;
      if shuffledDeck.None? || merkleTree.None? || nextLeafIndex >= DECK_SIZE {
        return None;
      }
      var leafIndex := nextLeafIndex;
      var path := ProofOfLeaf(leafIndex);
      nextLeafIndex := nextLeafIndex + 1;
      return Some(Spec.CardReveal(shuffledDeck.value[leafIndex], leafIndex, path));
    }

    method RevealCard(index: nat) returns (card: Option<Spec.CardReveal>)
      requires Valid()
      modifies this`nextLeafIndex
      ensures Valid() && card == Spec.RevealCard(old(View()), index)
      ensures nextLeafIndex == if card.Some? then old(nextLeafIndex) + 1 else old(nextLeafIndex)
    {
      if index != nextLeafIndex {
        return None;
      }
      card := RevealNextCard();
    }

    predicate IsRoundActive()
      reads this
    {
      merkleTree.Some?
    }

    method Reset()
      requires Valid()
      modifies this
      ensures Valid() && View() == Spec.Reset(old(View()))
    {
      permutation, shuffledDeck, merkleTree, serializedProof, nextLeafIndex := None, None, None, None, 0;
      shuffled, tree, proof := None, None, None;
    }
  }

  class Service {
    const dealer: Dealer
    var committedRoundNumber: Option<nat>
    var commitInFlight: bool
    /** The ticks suspended at an await, with the values they hold. */
    ghost var ticks: map<Spec.TickId, Spec.Wait>

    ghost predicate Valid()
      reads this, dealer
    {
      dealer.Valid()
    }

    ghost function View(): Spec.Service
      reads this, dealer
    {
      Spec.Service(dealer.View(), committedRoundNumber, commitInFlight, ticks)
    }

    constructor ()
      ensures Valid() && View() == Spec.FreshService() && fresh(dealer)
    {
      dealer := new Dealer();
      committedRoundNumber, commitInFlight, ticks := None, false, map[];
    }

    method TickStarts(ghost id: Spec.TickId) returns (fetches: bool, held: bool)
      requires Valid()
      modifies this
      ensures Valid() && View() == Spec.TickStarts(old(View()), id)
      ensures fetches <==> !old(commitInFlight)
      ensures fetches ==> held == dealer.View().tree.Some?
    {
      if commitInFlight {
        return false, false;
      }
      commitInFlight := true;
      fetches, held := true, dealer.IsRoundActive();
      ticks := ticks[id := if held then Spec.FetchHeld(Spec.NotYet) else Spec.FetchEmpty(Spec.NotYet)];
    }

    /** The `finally` block. */
    method TickEnds(ghost id: Spec.TickId)
      requires Valid()
      modifies this
      ensures Valid() && View() == Spec.TickEnds(old(View()), id)
    {
      commitInFlight, ticks := false, ticks - {id};
    }

    method ResumeHeld(ghost id: Spec.TickId, snap: Option<Spec.Snap>)
      requires Valid()
      modifies this, dealer
      ensures Valid() && View() == Spec.ResumeHeld(old(View()), id, snap)
    {
      hide IsTree, dealer.TreeOf, CanonicalDeck;
      if snap.Some? && !snap.value.roundActive && !snap.value.deckCommitted {
        dealer.Reset();
        committedRoundNumber := None;
      }
      TickEnds(id);
    }

    /** The early returns after the fetch, or the start of a commit: then `Some` of the deck being built. */
    method ResumeEmpty(ghost id: Spec.TickId, snap: Option<Spec.Snap>, words: seq<nat>) returns (building: Option<Spec.FullDeck>)
      requires Valid() && |words| == DECK_SIZE
      modifies this, dealer
      ensures Valid() && View() == Spec.ResumeEmpty(old(View()), id, snap, words)
      ensures building.Some? <==> Spec.ShouldCommit(old(View()), snap)
      ensures building.Some? ==> building.value == Spec.NewDeck(old(dealer.runs), words).cards
    {
      hide Spec.NewDeck;
      building := None;
      if snap.None? || snap.value.roundActive || snap.value.deckCommitted {
        TickEnds(id);
        return;
      }
      if snap.value.playerCount < Spec.MIN_PLAYERS_TO_COMMIT {
        TickEnds(id);
        return;
      }
      if committedRoundNumber.Some? && snap.value.round == committedRoundNumber.value {
        TickEnds(id);
        return;
      }
      ghost var deck := Spec.NewDeck(dealer.runs, words);
      var cards := dealer.BeginShuffle(words);
      ticks := ticks[id := Spec.Building(snap.value.round, deck)];
      building := Some(cards);
    }

    /** The catch block of the commit, and the `finally` block. */
    method CommitThrows(ghost id: Spec.TickId)
      requires Valid()
      modifies this, dealer
      ensures Valid() && View() == Spec.CommitThrows(old(View()), id)
    {
      dealer.Reset();
      TickEnds(id);
    }

    /** The tree is built; the prover takes the deck now in memory. */
    method ResumeBuilt(ghost id: Spec.TickId, round: nat, cards: Spec.FullDeck, ghost deck: Spec.Deck)
      returns (proving: Option<seq<Card>>)
      requires Valid() && deck.cards == cards
      modifies this, dealer
      ensures Valid() && View() == Spec.ResumeBuilt(old(View()), id, round, deck)
      ensures proving == old(dealer.shuffledDeck)
    {
      dealer.BuildTree(cards, deck);
      proving := dealer.shuffledDeck;
      if proving.None? {
        CommitThrows(id);
      } else {
        ticks := ticks[id := Spec.Proving(round, dealer.shuffled.value)];
      }
    }

    /** The proof is checked; the transaction takes the root and the proof from memory. */
    method ResumeChecked(ghost id: Spec.TickId, round: nat, made: ShuffleProof, ghost deck: Spec.Deck)
      returns (tx: Option<(Hash, ShuffleProof)>)
      requires Valid() && made == ProofOf(deck.cards)
      modifies this, dealer
      ensures Valid() && View() == Spec.ResumeChecked(old(View()), id, round, deck)
      ensures tx == match old(dealer.View()).tree
                    case Some(held) => Some((DeckRoot(held.cards), made))
                    case None => None
    {
      dealer.StoreProof(made, deck);
      var root := dealer.GetMerkleRoot();
      match root
      case None =>
        CommitThrows(id);
        tx := None;
      case Some(hash) =>
        ticks := ticks[id := Spec.Preparing(round, Spec.Tx(dealer.tree.value, deck))];
        tx := Some((hash, dealer.serializedProof.value));
    }

    method Confirmed(ghost id: Spec.TickId, round: nat)
      requires Valid()
      modifies this
      ensures Valid() && View() == Spec.Confirmed(old(View()), id, round)
    {
      committedRoundNumber := Some(round);
      TickEnds(id);
    }

    /** The route that serves cards. */
    method ServeReveal(round: nat, index: nat) returns (card: Option<Spec.CardReveal>)
      requires Valid()
      modifies dealer
      ensures Valid() && card == Spec.ServeReveal(old(View()), round, index)
      ensures View() == if card.Some? then Spec.AfterReveal(old(View())) else old(View())
    {
      hide CanonicalDeck, IsTree, dealer.TreeOf, DeckProof;
      if !dealer.IsRoundActive() {
        return None;
      }
      if committedRoundNumber.None? || round != committedRoundNumber.value {
        return None;
      }
      card := dealer.RevealCard(index);
    }
  }
}
