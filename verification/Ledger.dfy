/** Token balances, and their total. */
module Ledger {

  /** A public key, as a 256-bit number. */
  type Key = nat
  const ZERO_KEY: Key := 0

  type Wallets = map<Key, nat>

  function Balance(w: Wallets, k: Key): nat {
    if k in w then w[k] else 0
  }

  function Credit(w: Wallets, k: Key, amount: nat): Wallets {
    if amount == 0 then w else w[k := Balance(w, k) + amount]
  }

  function Debit(w: Wallets, k: Key, amount: nat): Wallets
    requires amount <= Balance(w, k)
  {
    w[k := Balance(w, k) - amount]
  }

  ghost function Total(w: Wallets): nat
    decreases |w|
  {
    if w == map[] then 0 else
      var k :| k in w;
      w[k] + Total(w - {k})
  }

  /** The total does not depend on the order the wallets are added up in. */
  lemma {:induction false} TotalWithout(w: Wallets, k: Key)
    requires k in w
    ensures Total(w) == w[k] + Total(w - {k})
    decreases |w|
  {
    var j :| j in w && Total(w) == w[j] + Total(w - {j});
    if j != k {
      TotalWithout(w - {j}, k);
      TotalWithout(w - {k}, j);
      assert w - {j} - {k} == w - {k} - {j};
    }
  }

  lemma TotalUpdate(w: Wallets, k: Key, amount: nat)
    ensures Total(w[k := amount]) == Total(w) - Balance(w, k) + amount
  {
    var w' := w[k := amount];
    TotalWithout(w', k);
    if k in w {
      TotalWithout(w, k);
      assert w' - {k} == w - {k};
    } else {
      assert w' - {k} == w;
    }
  }

  lemma BalanceBelowTotal(w: Wallets, k: Key)
    ensures Balance(w, k) <= Total(w)
  {
    if k in w { TotalWithout(w, k); }
  }
}
