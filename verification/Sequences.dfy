/** Sequences without repetition, and with one element taken out. */
module Sequences {

  ghost predicate Distinct<T>(s: seq<T>) {
    forall i, j :: 0 <= i < j < |s| ==> s[i] != s[j]
  }

  /** The sequence without position `i`, the later elements moved down. */
  function Without<T>(s: seq<T>, i: nat): seq<T>
    requires i < |s|
  {
    s[..i] + s[i + 1..]
  }

  lemma WithoutOne<T>(s: seq<T>, i: nat)
    requires i < |s|
    ensures multiset(Without(s, i)) + multiset{s[i]} == multiset(s)
  {
    assert s == s[..i] + [s[i]] + s[i + 1..];
  }

  /** Position by position: what stood before `i` stays, what stood after it moves down by one. */
  lemma WithoutAt<T>(s: seq<T>, i: nat, k: nat)
    requires i < |s|
    ensures |Without(s, i)| == |s| - 1
    ensures k < |s| - 1 ==> Without(s, i)[k] == s[if k < i then k else k + 1]
  {
  }

  /** `x` stands somewhere before `y`. */
  ghost predicate Precedes<T>(s: seq<T>, x: T, y: T) {
    exists i, j :: 0 <= i < j < |s| && s[i] == x && s[j] == y
  }

  /** Among distinct elements, those that stay keep their order. */
  lemma WithoutKeepsOrder<T>(s: seq<T>, i: nat, x: T, y: T)
    requires i < |s| && Distinct(s) && x != s[i] && y != s[i]
    ensures Precedes(Without(s, i), x, y) <==> Precedes(s, x, y)
  {
    var rest := Without(s, i);
    if a, b :| 0 <= a < b < |rest| && rest[a] == x && rest[b] == y {
      WithoutAt(s, i, a);
      WithoutAt(s, i, b);
    }
    if a, b :| 0 <= a < b < |s| && s[a] == x && s[b] == y {
      WithoutAt(s, i, if a < i then a else a - 1);
      WithoutAt(s, i, if b < i then b else b - 1);
    }
  }
}
