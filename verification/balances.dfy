/**
 * The /balance/<address> handler: the sum of the amounts of the UTXO entries
 * whose pubkey_hash is the address, and the list of those entries.
 */
module Balances {
  import opened LedgerTypes
  import opened UtxoSet

  /** What one UTXO entry contributes to the balance of addr. */
  function Owned(v: TxOut, addr: string): int {
    if v.pubkeyHash == addr then v.amount else 0
  }

  /** The contributions of the entries under keys. */
  ghost function SumOwned(u: Utxo, keys: set<OutPoint>, addr: string): int
    requires keys <= u.Keys
    decreases keys
  {
    if keys == {} then 0
    else
      var k :| k in keys;
      Owned(u[k], addr) + SumOwned(u, keys - {k}, addr)
  }

  /** The balance of addr: the amounts of exactly the entries it owns. */
  ghost function Balance(u: Utxo, addr: string): int {
    SumOwned(u, u.Keys, addr)
  }

  /** The sum does not depend on the order in which keys are taken out. */
  lemma {:induction false} SumOwnedRemove(u: Utxo, keys: set<OutPoint>, addr: string, k: OutPoint)
    requires keys <= u.Keys && k in keys
    ensures SumOwned(u, keys, addr) == Owned(u[k], addr) + SumOwned(u, keys - {k}, addr)
    decreases keys
  {
    var j :| j in keys && SumOwned(u, keys, addr) == Owned(u[j], addr) + SumOwned(u, keys - {j}, addr);
    if j != k {
      SumOwnedRemove(u, keys - {j}, addr, k);
      SumOwnedRemove(u, keys - {k}, addr, j);
      assert keys - {j} - {k} == keys - {k} - {j};
    }
  }

  /** Two sets that agree on keys have the same sum over keys. */
  lemma {:induction false} SumOwnedAgree(u1: Utxo, u2: Utxo, keys: set<OutPoint>, addr: string)
    requires keys <= u1.Keys && keys <= u2.Keys
    requires forall k :: k in keys ==> u1[k] == u2[k]
    ensures SumOwned(u1, keys, addr) == SumOwned(u2, keys, addr)
    decreases keys
  {
    if keys != {} {
      var k :| k in keys;
      SumOwnedRemove(u1, keys, addr, k);
      SumOwnedRemove(u2, keys, addr, k);
      SumOwnedAgree(u1, u2, keys - {k}, addr);
    }
  }

  /** Writing v under k replaces k's old contribution by v's. */
  lemma BalanceAfterWrite(u: Utxo, k: OutPoint, v: TxOut, addr: string)
    ensures Balance(u[k := v], addr) == Balance(u - {k}, addr) + Owned(v, addr)
    ensures k in u ==> Balance(u, addr) == Balance(u - {k}, addr) + Owned(u[k], addr)
  {
    var w := u[k := v];
    var rest := u - {k};
    assert w.Keys - {k} == rest.Keys;
    SumOwnedRemove(w, w.Keys, addr, k);
    SumOwnedAgree(w, rest, rest.Keys, addr);
    if k in u {
      assert u.Keys - {k} == rest.Keys;
      SumOwnedRemove(u, u.Keys, addr, k);
      SumOwnedAgree(u, rest, rest.Keys, addr);
    }
  }

  /** One entry of the "utxos" list of the balance response. */
  datatype OwnedOutput = OwnedOutput(utxo: OutPoint, amount: int)

  /** The balance handler's loop over UTXO.items(). */
  method BalanceOf(u: Utxo, addr: string) returns (bal: int, outs: seq<OwnedOutput>)
    ensures bal == Balance(u, addr)
    ensures forall i :: 0 <= i < |outs| ==>
      outs[i].utxo in u && u[outs[i].utxo].pubkeyHash == addr && outs[i].amount == u[outs[i].utxo].amount
    ensures forall k :: k in u && u[k].pubkeyHash == addr ==> exists i :: 0 <= i < |outs| && outs[i].utxo == k
    ensures forall i, j :: 0 <= i < j < |outs| ==> outs[i].utxo != outs[j].utxo
  {
    bal := 0;
    outs := [];
    var remaining := u.Keys;
    while remaining != {}
      invariant remaining <= u.Keys
      invariant bal + SumOwned(u, remaining, addr) == Balance(u, addr)
      invariant forall i :: 0 <= i < |outs| ==>
        outs[i].utxo in u && outs[i].utxo !in remaining
        && u[outs[i].utxo].pubkeyHash == addr && outs[i].amount == u[outs[i].utxo].amount
      invariant forall k :: k in u && k !in remaining && u[k].pubkeyHash == addr ==>
        exists i :: 0 <= i < |outs| && outs[i].utxo == k
      invariant forall i, j :: 0 <= i < j < |outs| ==> outs[i].utxo != outs[j].utxo
      decreases remaining
    {
      var k :| k in remaining;
      SumOwnedRemove(u, remaining, addr, k);
      var v := u[k];
      if v.pubkeyHash == addr {
        ghost var before := outs;
        bal := bal + v.amount;
        outs := outs + [OwnedOutput(k, v.amount)];
        assert outs[|outs| - 1].utxo == k;
        assert forall i :: 0 <= i < |before| ==> outs[i] == before[i];
      }
      remaining := remaining - {k};
    }
  }

  /**
   * Mining a coinbase whose key is new adds the reward to the miner's
   * balance: the balance strictly increases when the reward is positive.
   */
  lemma FreshCoinbaseCredits(c: Crypto, u: Utxo, miner: string, amount: int, now: int)
    requires OutPoint(c.txId(Coinbase(miner, amount, now)), 0) !in u
    ensures Balance(ApplyTx(c, u, Coinbase(miner, amount, now)), miner) == Balance(u, miner) + amount
  {
    var k := OutPoint(c.txId(Coinbase(miner, amount, now)), 0);
    CoinbaseEffect(c, u, miner, amount, now);
    BalanceAfterWrite(u, k, TxOut(amount, miner), miner);
    assert u - {k} == u;
  }

  /**
   * An identical coinbase that is still unspent is overwritten in place: the
   * miner's balance does not change.
   */
  lemma RepeatedCoinbaseAddsNothing(c: Crypto, u: Utxo, miner: string, amount: int, now: int)
    requires var k := OutPoint(c.txId(Coinbase(miner, amount, now)), 0);
      k in u && u[k] == TxOut(amount, miner)
    ensures Balance(ApplyTx(c, u, Coinbase(miner, amount, now)), miner) == Balance(u, miner)
  {
    var k := OutPoint(c.txId(Coinbase(miner, amount, now)), 0);
    CoinbaseEffect(c, u, miner, amount, now);
    BalanceAfterWrite(u, k, TxOut(amount, miner), miner);
    assert u[k := TxOut(amount, miner)] == u;
  }
}
