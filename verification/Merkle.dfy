/** The Merkle commitment to a shuffled deck, over a collision-free hash. */
module Merkle {
  import opened Cards
  import opened Numbers
  import opened Options

  /** Poseidon as a free algebra: distinct inputs have distinct hashes. `Raw` is a value nobody hashed to. */
  datatype Hash =
    | Leaf(value: Byte, cardType: Byte, suit: Byte, index: nat)
    | Node(left: Hash, right: Hash)
    | Raw(bytes: nat)

  const TREE_DEPTH := 7
  const NUM_LEAVES := 128

  function CardLeaf(c: Card, index: nat): Hash {
    Leaf(c.value, c.cardType, c.suit, index)
  }

  /** Leaves `0..|cards|` hash the cards, the rest are padding. */
  function Leaves(cards: seq<Card>, n: nat): seq<Hash>
    requires |cards| <= n
  {
    seq(n, i requires 0 <= i < n => if i < |cards| then CardLeaf(cards[i], i) else Leaf(0, 0, 0, i))
  }

  /** The level above, pairing neighbours. */
  function Above(level: seq<Hash>): seq<Hash>
    requires |level| % 2 == 0
  {
    seq(|level| / 2, i requires 0 <= i < |level| / 2 => Node(level[2 * i], level[2 * i + 1]))
  }

  function Root(level: seq<Hash>, depth: nat): Hash
    requires |level| == Pow2(depth)
    decreases depth
  {
    if depth == 0 then level[0] else Root(Above(level), depth - 1)
  }

  function Sibling(i: nat): nat {
    if i % 2 == 0 then i + 1 else i - 1
  }

  /** The siblings on the way from leaf `i` to the root. */
  function Proof(level: seq<Hash>, depth: nat, i: nat): (proof: seq<Hash>)
    requires |level| == Pow2(depth) && i < |level|
    ensures |proof| == depth
    decreases depth
  {
    if depth == 0 then [] else [level[Sibling(i)]] + Proof(Above(level), depth - 1, i / 2)
  }

  /** The value reached from `h` at index `i` by folding the proof in. */
  function Climb(h: Hash, i: nat, proof: seq<Hash>): Hash
    decreases |proof|
  {
    if proof == [] then h else
      Climb(if i % 2 == 0 then Node(h, proof[0]) else Node(proof[0], h), i / 2, proof[1..])
  }

  /** Acceptance of a card at a leaf index. */
  predicate Verifies(c: Card, index: nat, proof: seq<Hash>, root: Hash) {
    Climb(CardLeaf(c, index), index, proof) == root
  }

  /** The root committed for a deck, at the depth and padding the game uses. */
  function DeckRoot(deck: seq<Card>): Hash
    requires |deck| <= NUM_LEAVES
  {
    DeckDepth();
    Root(Leaves(deck, NUM_LEAVES), TREE_DEPTH)
  }

  function DeckProof(deck: seq<Card>, i: nat): (proof: seq<Hash>)
    requires |deck| <= NUM_LEAVES && i < NUM_LEAVES
    ensures |proof| == TREE_DEPTH
  {
    DeckDepth();
    Proof(Leaves(deck, NUM_LEAVES), TREE_DEPTH, i)
  }

  lemma DeckDepth()
    ensures Pow2(TREE_DEPTH) == NUM_LEAVES
  {
  }

  /** Left before right, low index bits first: a tree of four leaves, a proof in it, and a card's leaf. */
  lemma FourLeaves(a: Hash, b: Hash, c: Hash, d: Hash, card: Card, index: nat)
    ensures Root([a, b, c, d], 2) == Node(Node(a, b), Node(c, d))
    ensures Proof([a, b, c, d], 2, 2) == [d, Node(a, b)]
    ensures Climb(c, 2, [d, Node(a, b)]) == Node(Node(a, b), Node(c, d))
    ensures CardLeaf(card, index) == Leaf(card.value, card.cardType, card.suit, index)
  {
    assert Pow2(2) == 4;
    assert Above([a, b, c, d]) == [Node(a, b), Node(c, d)];
    assert Above([Node(a, b), Node(c, d)]) == [Node(Node(a, b), Node(c, d))];
    assert Pow2(1) == 2 && Pow2(0) == 1;
    assert Proof([Node(a, b), Node(c, d)], 1, 1) == [Node(a, b)];
    assert [d, Node(a, b)][1..] == [Node(a, b)] && [Node(a, b)][1..] == [];
    assert Climb(Node(c, d), 1, [Node(a, b)]) == Node(Node(a, b), Node(c, d));
  }

  // ---------------------------------------------------------------------
  // Completeness and soundness, for any depth
  // ---------------------------------------------------------------------

  /** The extracted proof of a node leads from it to the root. */
  lemma {:induction false} Complete(level: seq<Hash>, depth: nat, i: nat)
    requires |level| == Pow2(depth) && i < |level|
    ensures Climb(level[i], i, Proof(level, depth, i)) == Root(level, depth)
    decreases depth
  {
    if depth > 0 {
      var proof := Proof(level, depth, i);
      Complete(Above(level), depth - 1, i / 2);
      assert proof[1..] == Proof(Above(level), depth - 1, i / 2);
    }
  }

  /** Whatever climbs to the root from index `i` is the node at position `i`, by exactly its proof. */
  lemma {:induction false} Sound(level: seq<Hash>, depth: nat, h: Hash, i: nat, proof: seq<Hash>)
    requires |level| == Pow2(depth) && i < |level| && |proof| == depth
    requires Climb(h, i, proof) == Root(level, depth)
    ensures h == level[i] && proof == Proof(level, depth, i)
    decreases depth
  {
    if depth > 0 {
      var up := if i % 2 == 0 then Node(h, proof[0]) else Node(proof[0], h);
      Sound(Above(level), depth - 1, up, i / 2, proof[1..]);
      assert proof == [proof[0]] + proof[1..];
    }
  }

  /** The low `d` bits of `i`. */
  function LowBits(i: nat, d: nat): (low: nat)
    ensures low < Pow2(d)
    decreases d
  {
    if d == 0 then 0 else 2 * LowBits(i / 2, d - 1) + i % 2
  }

  /** Only the low bits of the index steer the climb. */
  lemma {:induction false} ClimbLowBits(h: Hash, i: nat, proof: seq<Hash>)
    ensures Climb(h, i, proof) == Climb(h, LowBits(i, |proof|), proof)
    decreases |proof|
  {
    if proof != [] {
      var low := LowBits(i, |proof|);
      var up := if i % 2 == 0 then Node(h, proof[0]) else Node(proof[0], h);
      assert low % 2 == i % 2 && low / 2 == LowBits(i / 2, |proof| - 1);
      ClimbLowBits(up, i / 2, proof[1..]);
    }
  }

  /** What a proof accepted against a deck's root establishes, at any index, in or out of range. */
  lemma DeckSound(cards: seq<Card>, depth: nat, c: Card, i: nat, proof: seq<Hash>)
    requires |cards| <= Pow2(depth) && |proof| == depth
    requires Verifies(c, i, proof, Root(Leaves(cards, Pow2(depth)), depth))
    ensures i < Pow2(depth)
    ensures c == if i < |cards| then cards[i] else Card(0, 0, 0)
    ensures proof == Proof(Leaves(cards, Pow2(depth)), depth, i)
  {
    var leaves := Leaves(cards, Pow2(depth));
    var low := LowBits(i, depth);
    ClimbLowBits(CardLeaf(c, i), i, proof);
    Sound(leaves, depth, CardLeaf(c, i), low, proof);
    assert leaves[low].index == low;
  }

  /** A card at its own position is always accepted with its extracted proof, and nothing else is. */
  lemma DeckVerifies(deck: seq<Card>, c: Card, i: nat, proof: seq<Hash>)
    requires |deck| == DECK_SIZE && |proof| == TREE_DEPTH && i < DECK_SIZE
    ensures Verifies(c, i, proof, DeckRoot(deck)) <==> c == deck[i] && proof == DeckProof(deck, i)
  {
    DeckDepth();
    if Verifies(c, i, proof, DeckRoot(deck)) {
      DeckSound(deck, TREE_DEPTH, c, i, proof);
    }
    Complete(Leaves(deck, NUM_LEAVES), TREE_DEPTH, i);
  }

  /** A root commits to one deck. */
  lemma RootBindsDeck(a: seq<Card>, b: seq<Card>)
    requires |a| == |b| == DECK_SIZE && DeckRoot(a) == DeckRoot(b)
    ensures a == b
  {
    forall i | 0 <= i < DECK_SIZE ensures a[i] == b[i] {
      DeckVerifies(a, a[i], i, DeckProof(a, i));
      DeckVerifies(b, a[i], i, DeckProof(a, i));
    }
  }

  // ---------------------------------------------------------------------
  // The dealer's builder and extractor, and the on-chain walk
  // ---------------------------------------------------------------------

  /** `levels` lists the tree bottom-up, from its leaves to the one-node top. */
  ghost predicate IsTree(levels: seq<seq<Hash>>, depth: nat) {
    && |levels| == depth + 1
    && (forall k :: 0 <= k <= depth ==> |levels[k]| == Pow2(depth - k))
    && (forall k :: 0 <= k < depth ==> IsAbove(levels[k + 1], levels[k]))
  }

  ghost predicate IsAbove(upper: seq<Hash>, lower: seq<Hash>) {
    |lower| % 2 == 0 && upper == Above(lower)
  }

  lemma {:induction false} LevelsLeadToRoot(levels: seq<seq<Hash>>, depth: nat, k: nat)
    requires IsTree(levels, depth) && k <= depth
    ensures Root(levels[k], depth - k) == Root(levels[0], depth)
  {
    if k > 0 {
      LevelsLeadToRoot(levels, depth, k - 1);
      assert IsAbove(levels[k - 1 + 1], levels[k - 1]);
    }
  }

  method BuildLevel(level: seq<Hash>) returns (next: seq<Hash>)
    requires |level| % 2 == 0
    ensures next == Above(level)
  {
    next := [];
    var i := 0;
    while i < |level|
      invariant i % 2 == 0 && i <= |level| && next == Above(level)[..i / 2]
    {
      next := next + [Node(level[i], level[i + 1])];
      i := i + 2;
    }
  }

  method HashLeaves(cards: seq<Card>, n: nat) returns (leaves: seq<Hash>)
    requires |cards| <= n
    ensures leaves == Leaves(cards, n)
  {
    leaves := [];
    for i := 0 to |cards|
      invariant leaves == Leaves(cards, n)[..i]
    {
      leaves := leaves + [CardLeaf(cards[i], i)];
    }
    for i := |cards| to n
      invariant leaves == Leaves(cards, n)[..i]
    {
      leaves := leaves + [Leaf(0, 0, 0, i)];
    }
  }

  method BuildMerkleTree(cards: seq<Card>, depth: nat) returns (levels: seq<seq<Hash>>)
    requires |cards| <= Pow2(depth)
    ensures IsTree(levels, depth) && levels[0] == Leaves(cards, Pow2(depth))
    ensures levels[depth] == [Root(Leaves(cards, Pow2(depth)), depth)]
  {
    var leaves := HashLeaves(cards, Pow2(depth));
    levels := [leaves];
    var currentLevel := leaves;
    for d := 0 to depth
      invariant |levels| == d + 1 && currentLevel == levels[d] && levels[0] == leaves
      invariant forall k :: 0 <= k <= d ==> |levels[k]| == Pow2(depth - k)
      invariant forall k :: 0 <= k < d ==> IsAbove(levels[k + 1], levels[k])
    {
      assert |currentLevel| == 2 * Pow2(depth - d - 1);
      currentLevel := BuildLevel(currentLevel);
      levels := levels + [currentLevel];
    }
    LevelsLeadToRoot(levels, depth, depth);
  }

  /** `None` where the code throws. */
  method GetMerkleProof(levels: seq<seq<Hash>>, depth: nat, leafIndex: nat) returns (r: Option<seq<Hash>>)
    requires IsTree(levels, depth)
    ensures r == if leafIndex < Pow2(depth) then Some(Proof(levels[0], depth, leafIndex)) else None
  {
    if leafIndex >= Pow2(depth) {
      return None;
    }
    var proof := [];
    var idx: nat := leafIndex;
    for level := 0 to depth
      invariant idx < |levels[level]|
      invariant proof + Proof(levels[level], depth - level, idx) == Proof(levels[0], depth, leafIndex)
    {
      assert IsAbove(levels[level + 1], levels[level]);
      var siblingIdx := Sibling(idx);
      ghost var rest := Proof(levels[level + 1], depth - level - 1, idx / 2);
      assert proof + ([levels[level][siblingIdx]] + rest) == (proof + [levels[level][siblingIdx]]) + rest;
      proof := proof + [levels[level][siblingIdx]];
      idx := idx / 2;
    }
    assert proof == Proof(levels[0], depth, leafIndex);
    return Some(proof);
  }

  method VerifyMerkleProof(c: Card, leafIndex: nat, proof: seq<Hash>, root: Hash) returns (ok: bool)
    ensures ok <==> Verifies(c, leafIndex, proof, root)
  {
    var current := CardLeaf(c, leafIndex);
    var index := leafIndex;
    for k := 0 to |proof|
      invariant Climb(current, index, proof[k..]) == Climb(CardLeaf(c, leafIndex), leafIndex, proof)
    {
      if index % 2 == 0 {
        current := Node(current, proof[k]);
      } else {
        current := Node(proof[k], current);
      }
      index := index / 2;
      assert proof[k..][1..] == proof[k + 1..];
    }
    ok := current == root;
  }

  // ---------------------------------------------------------------------
  // The canonical deck hash
  // ---------------------------------------------------------------------

  /** The chain of hashes over a deck, first card innermost. */
  function ChainHash(deck: seq<Card>): Hash
    requires deck != []
  {
    var last := |deck| - 1;
    if last == 0 then CardLeaf(deck[0], 0) else Node(ChainHash(deck[..last]), CardLeaf(deck[last], last))
  }

  /** Each card is hashed with its position, and enters on the right. */
  lemma ThreeLinks(a: Card, b: Card, c: Card)
    ensures ChainHash([a, b, c])
         == Node(Node(Leaf(a.value, a.cardType, a.suit, 0), Leaf(b.value, b.cardType, b.suit, 1)),
                 Leaf(c.value, c.cardType, c.suit, 2))
  {
    assert [a, b, c][..2] == [a, b] && [a, b][..1] == [a];
    assert ChainHash([a]) == CardLeaf(a, 0);
    assert ChainHash([a, b]) == Node(ChainHash([a]), CardLeaf(b, 1));
    assert ChainHash([a, b, c]) == Node(ChainHash([a, b]), CardLeaf(c, 2));
  }

  /** The hash fixes the deck, its length included. */
  lemma {:induction false} ChainBindsDeck(a: seq<Card>, b: seq<Card>)
    requires a != [] && b != [] && ChainHash(a) == ChainHash(b)
    ensures a == b
  {
    if |a| > 1 && |b| > 1 {
      ChainBindsDeck(a[..|a| - 1], b[..|b| - 1]);
      assert a == a[..|a| - 1] + [a[|a| - 1]] && b == b[..|b| - 1] + [b[|b| - 1]];
    }
  }

  /** `None` on an empty deck, where the code throws. */
  method ComputeCanonicalHash(deck: seq<Card>) returns (r: Option<Hash>)
    ensures r == if deck == [] then None else Some(ChainHash(deck))
  {
    if |deck| == 0 {
      return None;
    }
    var running := CardLeaf(deck[0], 0);
    for i := 1 to |deck|
      invariant running == ChainHash(deck[..i])
    {
      assert deck[..i + 1][..i] == deck[..i];
      running := Node(running, CardLeaf(deck[i], i));
    }
    assert deck[..|deck|] == deck;
    return Some(running);
  }
}
