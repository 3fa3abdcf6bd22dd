/**
 * The selection loop of mine_block: walk a copy of MEMPOOL in order, verify
 * each transaction against the (unchanged) UTXO set, move the accepted ones
 * to the block, and stop right after the transaction at which the count of
 * selected transactions reaches max_txs. Because the UTXO set does not change
 * during the walk, the check is a fixed predicate `ok` on transactions.
 */
module MempoolSelection {
  import opened LedgerTypes
  import opened TxValidation

  /** The check the loop applies: verify_tx against the UTXO set u. */
  function Passes(c: Crypto, u: Utxo): Tx -> bool {
    t => Verify(c, u, t) == Accept
  }

  /** The transactions of pool that the check ok accepts, in order. */
  function Accepted(ok: Tx -> bool, pool: seq<Tx>): (r: seq<Tx>)
    ensures |r| <= |pool|
    decreases |pool|
  {
    if pool == [] then []
    else
      var last := pool[|pool| - 1];
      Accepted(ok, pool[..|pool| - 1]) + (if ok(last) then [last] else [])
  }

  /** The transactions of pool that the check ok refuses, in order. */
  function Rejected(ok: Tx -> bool, pool: seq<Tx>): (r: seq<Tx>)
    ensures |r| <= |pool|
    decreases |pool|
  {
    if pool == [] then []
    else
      var last := pool[|pool| - 1];
      Rejected(ok, pool[..|pool| - 1]) + (if ok(last) then [] else [last])
  }

  /** How many transactions the loop has looked at when it stops, starting from the i-th. */
  function ExaminedFrom(ok: Tx -> bool, pool: seq<Tx>, maxTxs: int, i: nat): (n: nat)
    requires 1 <= i <= |pool|
    ensures i <= n <= |pool|
    decreases |pool| - i
  {
    if i == |pool| || |Accepted(ok, pool[..i])| >= maxTxs then i
    else ExaminedFrom(ok, pool, maxTxs, i + 1)
  }

  /** How many transactions of pool the loop looks at: the break fires after the n-th. */
  function Examined(ok: Tx -> bool, pool: seq<Tx>, maxTxs: int): (n: nat)
    ensures n <= |pool|
  {
    if pool == [] then 0 else ExaminedFrom(ok, pool, maxTxs, 1)
  }

  /** remove(x) on a Python list: drop the first element equal to x. */
  function RemoveFirst(s: seq<Tx>, x: Tx): seq<Tx>
    decreases |s|
  {
    if s == [] then []
    else if s[0] == x then s[1..]
    else [s[0]] + RemoveFirst(s[1..], x)
  }

  /** list.remove(x) takes out one occurrence of x when there is one, and otherwise changes nothing. */
  lemma {:induction false} RemoveFirstRemovesOne(s: seq<Tx>, x: Tx)
    ensures x in s ==> |RemoveFirst(s, x)| == |s| - 1 && multiset(RemoveFirst(s, x)) == multiset(s) - multiset{x}
    ensures x !in s ==> RemoveFirst(s, x) == s
    decreases |s|
  {
    if s != [] {
      assert s == [s[0]] + s[1..];
      if s[0] != x {
        RemoveFirstRemovesOne(s[1..], x);
      }
    }
  }

  /** When x does not occur before a given position, remove(x) drops exactly that position. */
  lemma {:induction false} RemoveFirstAt(a: seq<Tx>, x: Tx, b: seq<Tx>)
    requires x !in a
    ensures RemoveFirst(a + [x] + b, x) == a + b
    decreases |a|
  {
    if a == [] {
      assert (a + [x] + b)[1..] == b;
    } else {
      assert (a + [x] + b)[1..] == a[1..] + [x] + b;
      RemoveFirstAt(a[1..], x, b);
      assert a + b == [a[0]] + (a[1..] + b);
    }
  }

  /** Selected transactions come from the pool and pass the check; left ones fail it. */
  lemma {:induction false} SplitSound(ok: Tx -> bool, pool: seq<Tx>)
    ensures forall t :: t in Accepted(ok, pool) ==> t in pool && ok(t)
    ensures forall t :: t in Rejected(ok, pool) ==> t in pool && !ok(t)
    decreases |pool|
  {
    if pool != [] {
      SplitSound(ok, pool[..|pool| - 1]);
    }
  }

  lemma AcceptedStep(ok: Tx -> bool, pool: seq<Tx>, i: nat)
    requires i < |pool|
    ensures Accepted(ok, pool[..i + 1]) ==
      Accepted(ok, pool[..i]) + (if ok(pool[i]) then [pool[i]] else [])
    ensures Rejected(ok, pool[..i + 1]) ==
      Rejected(ok, pool[..i]) + (if ok(pool[i]) then [] else [pool[i]])
  {
    assert pool[..i + 1][..i] == pool[..i];
  }

  lemma PassesMeansAccept(c: Crypto, u: Utxo, t: Tx)
    ensures Passes(c, u)(t) <==> Verify(c, u, t) == Accept
  {
  }

  /**
   * One step of the loop on MEMPOOL, which holds the refused transactions
   * seen so far followed by the ones not yet looked at: removing an accepted
   * transaction takes out exactly the one at the current position.
   */
  lemma SelectStep(ok: Tx -> bool, pool: seq<Tx>, i: nat, mempool: seq<Tx>)
    requires i < |pool| && mempool == Rejected(ok, pool[..i]) + pool[i..]
    ensures ok(pool[i]) ==> RemoveFirst(mempool, pool[i]) == Rejected(ok, pool[..i + 1]) + pool[i + 1..]
    ensures !ok(pool[i]) ==> mempool == Rejected(ok, pool[..i + 1]) + pool[i + 1..]
  {
    AcceptedStep(ok, pool, i);
    assert pool[i..] == [pool[i]] + pool[i + 1..];
    if ok(pool[i]) {
      SplitSound(ok, pool[..i]);
      assert mempool == Rejected(ok, pool[..i]) + [pool[i]] + pool[i + 1..];
      RemoveFirstAt(Rejected(ok, pool[..i]), pool[i], pool[i + 1..]);
    }
  }

  /** Where the loop stands after i transactions: it has not stopped yet. */
  predicate Running(ok: Tx -> bool, pool: seq<Tx>, maxTxs: int, i: nat)
    requires i <= |pool|
  {
    i == 0 || (Examined(ok, pool, maxTxs) == ExaminedFrom(ok, pool, maxTxs, i) && |Accepted(ok, pool[..i])| < maxTxs)
  }

  /** The break test after the transaction at position i. */
  lemma ExaminedStep(ok: Tx -> bool, pool: seq<Tx>, maxTxs: int, i: nat)
    requires i < |pool| && Running(ok, pool, maxTxs, i)
    ensures |Accepted(ok, pool[..i + 1])| >= maxTxs ==> Examined(ok, pool, maxTxs) == i + 1
    ensures |Accepted(ok, pool[..i + 1])| < maxTxs ==> Running(ok, pool, maxTxs, i + 1)
  {
    if i == 0 {
      assert Examined(ok, pool, maxTxs) == ExaminedFrom(ok, pool, maxTxs, 1);
    } else {
      assert ExaminedFrom(ok, pool, maxTxs, i) == ExaminedFrom(ok, pool, maxTxs, i + 1);
    }
  }

  /** Running off the end of the pool: every transaction was looked at. */
  lemma ExaminedEnd(ok: Tx -> bool, pool: seq<Tx>, maxTxs: int)
    requires Running(ok, pool, maxTxs, |pool|)
    ensures Examined(ok, pool, maxTxs) == |pool|
  {
  }

  /**
   * What the selection loop leaves behind once it stops: the accepted
   * transactions among those it looked at, in order, as the selection, and
   * the refused ones followed by the ones it never reached as MEMPOOL.
   */
  predicate SelectionOutcome(ok: Tx -> bool, pool: seq<Tx>, maxTxs: int, selected: seq<Tx>, left: seq<Tx>) {
    var n := Examined(ok, pool, maxTxs);
    selected == Accepted(ok, pool[..n]) && left == Rejected(ok, pool[..n]) + pool[n..]
  }

  /** SelectionOutcome for the check mine_block applies: verify_tx against u. */
  predicate VerifiedSelection(c: Crypto, u: Utxo, pool: seq<Tx>, maxTxs: int, selected: seq<Tx>, left: seq<Tx>) {
    SelectionOutcome(Passes(c, u), pool, maxTxs, selected, left)
  }

  lemma SelectionDone(ok: Tx -> bool, pool: seq<Tx>, maxTxs: int, i: nat, selected: seq<Tx>, left: seq<Tx>)
    requires i <= |pool| && Examined(ok, pool, maxTxs) == i
    requires selected == Accepted(ok, pool[..i]) && left == Rejected(ok, pool[..i]) + pool[i..]
    ensures SelectionOutcome(ok, pool, maxTxs, selected, left)
  {
  }

  /** Every transaction is either selected or left, and nothing else happens to it. */
  lemma {:induction false} SplitIsPermutation(ok: Tx -> bool, pool: seq<Tx>)
    ensures multiset(Accepted(ok, pool)) + multiset(Rejected(ok, pool)) == multiset(pool)
    decreases |pool|
  {
    if pool != [] {
      var pre, x := pool[..|pool| - 1], pool[|pool| - 1];
      SplitIsPermutation(ok, pre);
      assert pool == pre + [x];
      assert multiset(pool) == multiset(pre) + multiset{x};
      if ok(x) {
        assert Accepted(ok, pool) == Accepted(ok, pre) + [x];
        assert Rejected(ok, pool) == Rejected(ok, pre);
      } else {
        assert Accepted(ok, pool) == Accepted(ok, pre);
        assert Rejected(ok, pool) == Rejected(ok, pre) + [x];
      }
    }
  }

  /** The loop stops at the first transaction after which max_txs are selected, or at the end. */
  lemma {:induction false} ExaminedFromIsFirstStop(ok: Tx -> bool, pool: seq<Tx>, maxTxs: int, i: nat)
    requires 1 <= i <= |pool|
    ensures var n := ExaminedFrom(ok, pool, maxTxs, i);
      (n == |pool| || |Accepted(ok, pool[..n])| >= maxTxs)
      && forall j :: i <= j < n ==> |Accepted(ok, pool[..j])| < maxTxs
    decreases |pool| - i
  {
    if !(i == |pool| || |Accepted(ok, pool[..i])| >= maxTxs) {
      ExaminedFromIsFirstStop(ok, pool, maxTxs, i + 1);
    }
  }

  /**
   * At most max_txs transactions are selected, except that the loop always
   * looks at the first one before testing the bound, so a max_txs of 0 or
   * less still lets one through.
   */
  lemma SelectionBound(ok: Tx -> bool, pool: seq<Tx>, maxTxs: int)
    ensures var n := Examined(ok, pool, maxTxs);
      |Accepted(ok, pool[..n])| <= if maxTxs < 1 then 1 else maxTxs
  {
    var n := Examined(ok, pool, maxTxs);
    if n >= 1 {
      ExaminedFromIsFirstStop(ok, pool, maxTxs, 1);
      AcceptedStep(ok, pool, n - 1);
      if n >= 2 {
        assert |Accepted(ok, pool[..n - 1])| < maxTxs;
      } else {
        assert pool[..0] == [];
      }
    } else {
      assert pool[..0] == [];
    }
  }

  /**
   * Two mempool transactions spending the same output are both selected when
   * each verifies on its own: selection never updates the UTXO set.
   */
  lemma DoubleSpendBothSelected(c: Crypto, u: Utxo, a: Tx, b: Tx, maxTxs: int)
    requires a != b && |a.inputs| > 0 && |b.inputs| > 0 && KeyOf(a.inputs[0]) == KeyOf(b.inputs[0])
    requires Verify(c, u, a) == Accept && Verify(c, u, b) == Accept
    requires maxTxs >= 2
    ensures Examined(Passes(c, u), [a, b], maxTxs) == 2 && Accepted(Passes(c, u), [a, b]) == [a, b]
  {
    var ok := Passes(c, u);
    var pool := [a, b];
    AcceptedStep(ok, pool, 0);
    AcceptedStep(ok, pool, 1);
    assert pool[..0] == [] && pool[..2] == pool;
    assert |Accepted(ok, pool[..1])| == 1;
  }
}
