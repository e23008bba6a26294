/** The dealer's Fisher-Yates shuffle and the deck it produces. */
module Shuffle {
  import opened Cards
  import opened Numbers
  import opened Sequences

  function Identity(n: nat): seq<nat> {
    seq(n, i => i)
  }

  /** `perm` lists each of `0..n` once. */
  ghost predicate IsPermutation(perm: seq<nat>, n: nat) {
    multiset(perm) == multiset(Identity(n))
  }

  function Swap<T>(s: seq<T>, i: nat, j: nat): seq<T>
    requires i < |s| && j < |s|
  {
    s[i := s[j]][j := s[i]]
  }

  /** One choice per step: step `i` swaps position `i` with `choices[i] <= i`. */
  predicate IsChoices(choices: seq<nat>) {
    forall i :: 0 <= i < |choices| ==> choices[i] <= i
  }

  /** The steps `i, i-1, ..., 1` of the shuffle. */
  function ShuffleFrom<T>(s: seq<T>, choices: seq<nat>, i: nat): seq<T>
    requires IsChoices(choices) && |choices| == |s|
    requires i < |s| || i == 0
    decreases i
  {
    if i == 0 then s else ShuffleFrom(Swap(s, i, choices[i]), choices, i - 1)
  }

  /** The permutation a vector of choices produces. */
  function Shuffled(choices: seq<nat>): seq<nat>
    requires IsChoices(choices)
  {
    ShuffleFrom(Identity(|choices|), choices, if choices == [] then 0 else |choices| - 1)
  }

  /** Reduces each random word to the choice of its step. */
  function Reduce(words: seq<nat>): (choices: seq<nat>)
    ensures |choices| == |words| && IsChoices(choices)
  {
    seq(|words|, i requires 0 <= i < |words| => words[i] % (i + 1))
  }

  // ---------------------------------------------------------------------
  // Every run yields a permutation
  // ---------------------------------------------------------------------

  lemma SwapPermutes<T>(s: seq<T>, i: nat, j: nat)
    requires i < |s| && j < |s|
    ensures |Swap(s, i, j)| == |s| && multiset(Swap(s, i, j)) == multiset(s)
  {
  }

  lemma {:induction false} ShufflePermutes<T>(s: seq<T>, choices: seq<nat>, i: nat)
    requires IsChoices(choices) && |choices| == |s| && (i < |s| || i == 0)
    ensures |ShuffleFrom(s, choices, i)| == |s|
    ensures multiset(ShuffleFrom(s, choices, i)) == multiset(s)
    decreases i
  {
    if i > 0 {
      SwapPermutes(s, i, choices[i]);
      ShufflePermutes(Swap(s, i, choices[i]), choices, i - 1);
    }
  }

  /** Steps up to `i` leave the positions above `i` alone. */
  lemma {:induction false} TailIsFinal<T>(s: seq<T>, choices: seq<nat>, i: nat, k: nat)
    requires IsChoices(choices) && |choices| == |s| && (i < |s| || i == 0)
    requires i < k < |s|
    ensures |ShuffleFrom(s, choices, i)| == |s| && ShuffleFrom(s, choices, i)[k] == s[k]
    decreases i
  {
    if i > 0 { TailIsFinal(Swap(s, i, choices[i]), choices, i - 1, k); }
  }

  lemma SwapDistinct<T>(s: seq<T>, i: nat, j: nat)
    requires i < |s| && j < |s| && Distinct(s)
    ensures Distinct(Swap(s, i, j))
  {
  }

  // ---------------------------------------------------------------------
  // The map from choices to permutations is a bijection
  // ---------------------------------------------------------------------

  lemma {:induction false} StepsInjective<T>(s: seq<T>, c: seq<nat>, d: seq<nat>, i: nat, k: nat)
    requires Distinct(s) && |c| == |d| == |s| && IsChoices(c) && IsChoices(d) && i < |s|
    requires ShuffleFrom(s, c, i) == ShuffleFrom(s, d, i)
    requires 1 <= k <= i
    ensures c[k] == d[k]
    decreases i
  {
    var sc, sd := Swap(s, i, c[i]), Swap(s, i, d[i]);
    TailIsFinal(sc, c, i - 1, i);
    TailIsFinal(sd, d, i - 1, i);
    assert sc[i] == s[c[i]] && sd[i] == s[d[i]];
    assert c[i] == d[i];
    if k < i {
      SwapDistinct(s, i, c[i]);
      StepsInjective(sc, c, d, i - 1, k);
    }
  }

  /** Different choices produce different permutations. */
  lemma ShuffleInjective(c: seq<nat>, d: seq<nat>)
    requires |c| == |d| && IsChoices(c) && IsChoices(d)
    requires Shuffled(c) == Shuffled(d)
    ensures c == d
  {
    forall k | 0 <= k < |c| ensures c[k] == d[k] {
      if k > 0 { StepsInjective(Identity(|c|), c, d, |c| - 1, k); }
    }
  }

  lemma IndexIn<T>(s: seq<T>, t: seq<T>, i: nat) returns (j: nat)
    requires |s| == |t| && i < |s| && Distinct(t)
    requires multiset(s) == multiset(t)
    requires forall k :: i < k < |s| ==> s[k] == t[k]
    ensures j <= i && s[j] == t[i]
  {
    assert t[i] in multiset(t);
    j :| 0 <= j < |s| && s[j] == t[i];
  }

  lemma {:induction false} StepsSurjective<T>(s: seq<T>, t: seq<T>, i: nat, tail: seq<nat>) returns (choices: seq<nat>)
    requires |s| == |t| && i < |s| && Distinct(s) && Distinct(t) && multiset(s) == multiset(t)
    requires forall k :: i < k < |s| ==> s[k] == t[k]
    requires |tail| == |s| && IsChoices(tail)
    ensures |choices| == |s| && IsChoices(choices) && choices[i + 1..] == tail[i + 1..]
    ensures ShuffleFrom(s, choices, i) == t
    decreases i
  {
    var j := IndexIn(s, t, i);
    var next := Swap(s, i, j);
    var fixed := tail[i := j];
    if i == 0 {
      choices := tail;
      assert s == t;
    } else {
      SwapPermutes(s, i, j);
      SwapDistinct(s, i, j);
      choices := StepsSurjective(next, t, i - 1, fixed);
      assert choices[i] == choices[i..][0] == fixed[i..][0] == j;
      assert choices[i + 1..] == choices[i..][1..] == fixed[i..][1..] == tail[i + 1..];
    }
  }

  lemma {:induction false} CountAtMost<T>(s: seq<T>, x: T, i: nat, j: nat)
    requires i < j < |s| && s[i] == s[j] == x
    ensures multiset(s)[x] >= 2
  {
    assert s == s[..i] + [x] + s[i + 1..j] + [x] + s[j + 1..];
  }

  lemma PermutationIsDistinct(perm: seq<nat>, n: nat)
    requires IsPermutation(perm, n)
    ensures Distinct(perm) && |perm| == n
  {
    assert |multiset(perm)| == |perm| && |multiset(Identity(n))| == n;
    forall i, j | 0 <= i < j < |perm| ensures perm[i] != perm[j] {
      if perm[i] == perm[j] {
        CountAtMost(perm, perm[i], i, j);
        IdentityOnce(n, perm[i]);
      }
    }
  }

  lemma {:induction false} IdentityOnce(n: nat, x: nat)
    ensures multiset(Identity(n))[x] <= 1
  {
    if n > 0 {
      IdentityOnce(n - 1, x);
      assert Identity(n) == Identity(n - 1) + [n - 1];
      if x == n - 1 {
        assert x !in Identity(n - 1);
      }
    }
  }

  /** Every permutation is the result of exactly one vector of choices. */
  lemma ShuffleBijective(perm: seq<nat>) returns (choices: seq<nat>)
    requires IsPermutation(perm, |perm|)
    ensures |choices| == |perm| && IsChoices(choices) && Shuffled(choices) == perm
    ensures forall c :: |c| == |perm| && IsChoices(c) && Shuffled(c) == perm ==> c == choices
  {
    var n := |perm|;
    if n == 0 {
      choices := [];
    } else {
      var zeros := seq(n, _ => 0);
      PermutationIsDistinct(perm, n);
      choices := StepsSurjective(Identity(n), perm, n - 1, zeros);
    }
    forall c | |c| == n && IsChoices(c) && Shuffled(c) == perm ensures c == choices {
      ShuffleInjective(c, choices);
    }
  }

  // ---------------------------------------------------------------------
  // Each choice is as uniform as a 32-bit word allows
  // ---------------------------------------------------------------------

  /** How many of the words `0..n` leave remainder `r` modulo `m`. */
  function Hits(n: nat, m: nat, r: nat): nat
    requires m > 0
  {
    if n == 0 then 0 else Hits(n - 1, m, r) + if (n - 1) % m == r then 1 else 0
  }

  lemma {:induction false} HitsExactly(n: nat, m: nat, r: nat)
    requires r < m
    ensures Hits(n, m, r) == n / m + if r < n % m then 1 else 0
  {
    if n > 0 {
      HitsExactly(n - 1, m, r);
      Successor(n - 1, m);
    }
  }

  const WORDS := 0x1_0000_0000

  /** Choice `j` of step `i` is drawn by the floor or the ceiling of `2^32 / (i + 1)` words. */
  lemma ChoiceIsNearlyUniform(i: nat, j: nat)
    requires j <= i
    ensures Hits(WORDS, i + 1, j) == WORDS / (i + 1)
         || (Hits(WORDS, i + 1, j) == WORDS / (i + 1) + 1 && WORDS % (i + 1) != 0)
  {
    HitsExactly(WORDS, i + 1, j);
  }

  // ---------------------------------------------------------------------
  // The dealer's loop
  // ---------------------------------------------------------------------

  method SwapInPlace(perm: array<nat>, i: nat, j: nat)
    requires i < perm.Length && j < perm.Length
    modifies perm
    ensures perm[..] == Swap(old(perm[..]), i, j)
  {
    perm[i], perm[j] := perm[j], perm[i];
  }

  lemma OneStep(s: seq<nat>, words: seq<nat>, i: nat)
    requires 0 < i < |s| == |words|
    ensures words[i] % (i + 1) <= i
    ensures ShuffleFrom(s, Reduce(words), i) == ShuffleFrom(Swap(s, i, words[i] % (i + 1)), Reduce(words), i - 1)
  {
  }

  /** The last position takes the element its word picks among all, and later steps leave it alone. */
  lemma LastPick(words: seq<nat>)
    requires |words| >= 2
    ensures |Shuffled(Reduce(words))| == |words|
    ensures Shuffled(Reduce(words))[|words| - 1] == words[|words| - 1] % |words|
  {
    var n := |words|;
    var picked := Swap(Identity(n), n - 1, words[n - 1] % n);
    OneStep(Identity(n), words, n - 1);
    ShufflePermutes(Identity(n), Reduce(words), n - 1);
    TailIsFinal(picked, Reduce(words), n - 2, n - 1);
  }

  lemma NoStep(s: seq<nat>, choices: seq<nat>)
    requires IsChoices(choices) && |choices| == |s|
    ensures ShuffleFrom(s, choices, 0) == s
  {
  }

  /** Shuffles in place, from the last position down, with one 32-bit word per position. */
  method FisherYatesShuffle(words: seq<nat>) returns (perm: array<nat>)
    ensures fresh(perm) && perm[..] == Shuffled(Reduce(words))
    ensures IsPermutation(perm[..], |words|)
  {
    var n := |words|;
    perm := new nat[n](i => i);
    assert perm[..] == Identity(n);
    ghost var choices := Reduce(words);
    ShufflePermutes(Identity(n), choices, if n == 0 then 0 else n - 1);
    var i := n - 1;
    assert ShuffleFrom(perm[..], choices, if i < 0 then 0 else i) == Shuffled(choices);
    hide ShuffleFrom, Swap, Reduce, Shuffled;
    while i > 0
      invariant i < n && (n == 0 || i >= 0)
      invariant ShuffleFrom(perm[..], choices, if i < 0 then 0 else i) == Shuffled(choices)
    {
      OneStep(perm[..], words, i);
      var j := words[i] % (i + 1);
      SwapInPlace(perm, i, j);
      i := i - 1;
    }
    NoStep(perm[..], choices);
  }

  /** `shuffled[i] = canonical[perm[i]]`. */
  function ApplyPermutation<T>(canonical: seq<T>, perm: seq<nat>): (shuffled: seq<T>)
    requires forall i :: 0 <= i < |perm| ==> perm[i] < |canonical|
    ensures |shuffled| == |perm|
  {
    seq(|perm|, i requires 0 <= i < |perm| => canonical[perm[i]])
  }

  ghost predicate Indexes(perm: seq<nat>, n: nat) {
    forall i :: 0 <= i < |perm| ==> perm[i] < n
  }

  lemma ApplyWithout<T>(canonical: seq<T>, b: seq<nat>, j: nat)
    requires Indexes(b, |canonical|) && j < |b|
    ensures Indexes(Without(b, j), |canonical|)
    ensures multiset(ApplyPermutation(canonical, b))
         == multiset(ApplyPermutation(canonical, Without(b, j))) + multiset{canonical[b[j]]}
  {
    var whole := ApplyPermutation(canonical, b);
    assert whole == whole[..j] + [canonical[b[j]]] + whole[j + 1..];
    assert ApplyPermutation(canonical, Without(b, j)) == whole[..j] + whole[j + 1..];
  }

  lemma {:induction false} ApplyPermuted<T>(canonical: seq<T>, a: seq<nat>, b: seq<nat>)
    requires Indexes(a, |canonical|) && Indexes(b, |canonical|)
    requires |a| == |b| && multiset(a) == multiset(b)
    ensures multiset(ApplyPermutation(canonical, a)) == multiset(ApplyPermutation(canonical, b))
    decreases |a|
  {
    hide ApplyPermutation;
    if a != [] {
      assert a[0] in multiset(b);
      var j :| 0 <= j < |b| && b[j] == a[0];
      var rest := Without(b, j);
      WithoutOne(a, 0);
      WithoutOne(b, j);
      assert multiset(Without(a, 0)) == multiset(a) - multiset{a[0]};
      ApplyWithout(canonical, a, 0);
      ApplyWithout(canonical, b, j);
      ApplyPermuted(canonical, Without(a, 0), rest);
    }
  }

  /** A deck any run of the shuffle can produce. */
  ghost predicate IsShuffleOfDeck(deck: seq<Card>) {
    |deck| == DECK_SIZE && multiset(deck) == multiset(CanonicalDeck())
  }

  /** Whatever the random words, the shuffled deck holds exactly the canonical cards. */
  lemma ShuffledDeckIsCanonical(words: seq<nat>)
    requires |words| == DECK_SIZE
    ensures var perm := Shuffled(Reduce(words));
            && (forall i :: 0 <= i < |perm| ==> perm[i] < DECK_SIZE)
            && IsShuffleOfDeck(ApplyPermutation(CanonicalDeck(), perm))
            && forall i :: 0 <= i < DECK_SIZE ==> ApplyPermutation(CanonicalDeck(), perm)[i] == CanonicalDeck()[perm[i]]
  {
    var perm := Shuffled(Reduce(words));
    ShufflePermutes(Identity(DECK_SIZE), Reduce(words), DECK_SIZE - 1);
    forall i | 0 <= i < |perm| ensures perm[i] < DECK_SIZE {
      assert perm[i] in multiset(Identity(DECK_SIZE));
    }
    ApplyPermuted(CanonicalDeck(), perm, Identity(DECK_SIZE));
    assert ApplyPermutation(CanonicalDeck(), Identity(DECK_SIZE)) == CanonicalDeck();
  }
}
