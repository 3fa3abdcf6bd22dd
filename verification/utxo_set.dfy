/**
 * The UTXO set as rebuild_utxo computes it: replaying every transaction of
 * the chain in order, each one first deleting the keys its inputs name
 * (silently skipping keys that are absent) and then writing its outputs
 * under "<txid>:<index>", overwriting whatever was there.
 */
module UtxoSet {
  import opened LedgerTypes

  /** Deleting, one input at a time, the keys a list of inputs names. */
  function Spend(u: Utxo, ins: seq<TxIn>): Utxo
    decreases |ins|
  {
    if ins == [] then u else Spend(u, ins[..|ins| - 1]) - {KeyOf(ins[|ins| - 1])}
  }

  /** Spending removes exactly the named keys and changes no surviving value. */
  lemma {:induction false} SpendRemovesKeys(u: Utxo, ins: seq<TxIn>)
    ensures Spend(u, ins).Keys == u.Keys - InputKeys(ins)
    ensures Spend(u, ins) == u - InputKeys(ins)
    decreases |ins|
  {
    if ins != [] {
      var pre := ins[..|ins| - 1];
      SpendRemovesKeys(u, pre);
      assert InputKeys(ins) == InputKeys(pre) + {KeyOf(ins[|ins| - 1])} by {
        assert forall i :: 0 <= i < |ins| - 1 ==> pre[i] == ins[i];
      }
    }
  }

  /** Writing outputs 0, 1, ... of a transaction under its txid. */
  function AddOutputs(u: Utxo, tid: string, outs: seq<TxOut>): Utxo
    decreases |outs|
  {
    if outs == [] then u
    else AddOutputs(u, tid, outs[..|outs| - 1])[OutPoint(tid, |outs| - 1) := outs[|outs| - 1]]
  }

  /** After AddOutputs, key (tid, i) holds output i; every other key is as before. */
  lemma {:induction false} AddOutputsWrites(u: Utxo, tid: string, outs: seq<TxOut>, k: OutPoint)
    ensures k.txid == tid && 0 <= k.index < |outs| ==>
      k in AddOutputs(u, tid, outs) && AddOutputs(u, tid, outs)[k] == outs[k.index]
    ensures !(k.txid == tid && 0 <= k.index < |outs|) ==>
      (k in AddOutputs(u, tid, outs) <==> k in u) && (k in u ==> AddOutputs(u, tid, outs)[k] == u[k])
    decreases |outs|
  {
    if outs != [] {
      var pre := outs[..|outs| - 1];
      AddOutputsWrites(u, tid, pre, k);
      if k.txid == tid && 0 <= k.index < |pre| {
        assert outs[k.index] == pre[k.index];
      }
    }
  }

  /** The effect of one transaction on the UTXO set (one pass of the body of rebuild_utxo's inner loop). */
  function ApplyTx(c: Crypto, u: Utxo, tx: Tx): Utxo {
    AddOutputs(Spend(u, tx.inputs), c.txId(tx), tx.outputs)
  }

  /** Applying a list of transactions in order. */
  function ApplyTxs(c: Crypto, u: Utxo, txs: seq<Tx>): Utxo
    decreases |txs|
  {
    if txs == [] then u else ApplyTx(c, ApplyTxs(c, u, txs[..|txs| - 1]), txs[|txs| - 1])
  }

  /** The UTXO set rebuild_utxo produces from a chain, block by block. */
  function Replay(c: Crypto, chain: seq<ChainEntry>): Utxo
    decreases |chain|
  {
    if chain == [] then map[]
    else ApplyTxs(c, Replay(c, chain[..|chain| - 1]), chain[|chain| - 1].block.txs)
  }

  /** Every transaction of the chain, in chain order. */
  function AllTxs(chain: seq<ChainEntry>): seq<Tx>
    decreases |chain|
  {
    if chain == [] then [] else AllTxs(chain[..|chain| - 1]) + chain[|chain| - 1].block.txs
  }

  // ---------------------------------------------------------------------------
  // Reference definition: which keys survive a replay, and with which value.

  /** Transaction tx writes key k. */
  ghost predicate Creates(c: Crypto, tx: Tx, k: OutPoint) {
    k.txid == c.txId(tx) && 0 <= k.index < |tx.outputs|
  }

  /** Transaction tx deletes key k (if it is present). */
  ghost predicate Spends(tx: Tx, k: OutPoint) {
    k in InputKeys(tx.inputs)
  }

  /** The j-th transaction writes k and no later transaction spends it. */
  ghost predicate Live(c: Crypto, txs: seq<Tx>, j: int, k: OutPoint) {
    0 <= j < |txs| && Creates(c, txs[j], k) && forall p :: j < p < |txs| ==> !Spends(txs[p], k)
  }

  /** The j-th transaction is the last one that writes or spends k, and it writes it. */
  ghost predicate LastWriter(c: Crypto, txs: seq<Tx>, j: int, k: OutPoint) {
    0 <= j < |txs| && Creates(c, txs[j], k)
    && forall p :: j < p < |txs| ==> !Spends(txs[p], k) && !Creates(c, txs[p], k)
  }

  /** What one transaction does to one key: written if it creates it, gone if it spends it, else untouched. */
  lemma ApplyTxAt(c: Crypto, u: Utxo, tx: Tx, k: OutPoint)
    ensures Creates(c, tx, k) ==> k in ApplyTx(c, u, tx) && ApplyTx(c, u, tx)[k] == tx.outputs[k.index]
    ensures !Creates(c, tx, k) && Spends(tx, k) ==> k !in ApplyTx(c, u, tx)
    ensures !Creates(c, tx, k) && !Spends(tx, k) ==>
      (k in ApplyTx(c, u, tx) <==> k in u) && (k in u ==> ApplyTx(c, u, tx)[k] == u[k])
  {
    SpendRemovesKeys(u, tx.inputs);
    AddOutputsWrites(Spend(u, tx.inputs), c.txId(tx), tx.outputs, k);
  }

  /** The characterization below, for one key. */
  lemma {:induction false} ReplayAt(c: Crypto, txs: seq<Tx>, k: OutPoint)
    ensures k in ApplyTxs(c, map[], txs) <==> exists j :: Live(c, txs, j, k)
    ensures k in ApplyTxs(c, map[], txs) ==>
      exists j :: LastWriter(c, txs, j, k) && ApplyTxs(c, map[], txs)[k] == txs[j].outputs[k.index]
    decreases |txs|
  {
    if txs != [] {
      var n := |txs| - 1;
      var pre := txs[..n];
      var t := txs[n];
      ReplayAt(c, pre, k);
      var u := ApplyTxs(c, map[], pre);
      var r := ApplyTxs(c, map[], txs);
      assert r == ApplyTx(c, u, t);
      ApplyTxAt(c, u, t, k);
      assert forall j :: 0 <= j < n ==> pre[j] == txs[j];
      if Creates(c, t, k) {
        assert Live(c, txs, n, k);
        assert LastWriter(c, txs, n, k);
      } else if Spends(t, k) {
        forall j | 0 <= j < |txs| ensures !Live(c, txs, j, k) {
          if j < n { assert Spends(txs[n], k); }
        }
      } else if k in u {
        var j :| LastWriter(c, pre, j, k) && u[k] == pre[j].outputs[k.index];
        assert LastWriter(c, txs, j, k);
        assert Live(c, txs, j, k);
      } else {
        forall j | 0 <= j < n ensures Live(c, txs, j, k) ==> Live(c, pre, j, k) {
        }
        assert !Live(c, txs, n, k);
      }
    }
  }

  /**
   * Replaying from an empty set keeps exactly the outputs that no later input
   * spends, each with the value its last writer gave it.
   */
  lemma ReplayCharacterization(c: Crypto, txs: seq<Tx>)
    ensures forall k :: k in ApplyTxs(c, map[], txs) <==> exists j :: Live(c, txs, j, k)
    ensures forall k :: k in ApplyTxs(c, map[], txs) ==>
      exists j :: LastWriter(c, txs, j, k) && ApplyTxs(c, map[], txs)[k] == txs[j].outputs[k.index]
  {
    forall k
      ensures k in ApplyTxs(c, map[], txs) <==> exists j :: Live(c, txs, j, k)
      ensures k in ApplyTxs(c, map[], txs) ==>
        exists j :: LastWriter(c, txs, j, k) && ApplyTxs(c, map[], txs)[k] == txs[j].outputs[k.index]
    {
      ReplayAt(c, txs, k);
    }
  }

  /** A coinbase writes its single output under (its txid, 0) and touches nothing else. */
  lemma CoinbaseEffect(c: Crypto, u: Utxo, miner: string, amount: int, now: int)
    ensures var cb := Coinbase(miner, amount, now);
      ApplyTx(c, u, cb) == u[OutPoint(c.txId(cb), 0) := TxOut(amount, miner)]
  {
    var cb := Coinbase(miner, amount, now);
    assert Spend(u, cb.inputs) == u;
    assert cb.outputs[..0] == [];
    assert AddOutputs(u, c.txId(cb), cb.outputs) == AddOutputs(u, c.txId(cb), [])[OutPoint(c.txId(cb), 0) := TxOut(amount, miner)];
  }

  lemma {:induction false} ApplyTxsAppend(c: Crypto, u: Utxo, a: seq<Tx>, b: seq<Tx>)
    ensures ApplyTxs(c, u, a + b) == ApplyTxs(c, ApplyTxs(c, u, a), b)
    decreases |b|
  {
    if b != [] {
      assert (a + b)[..|a + b| - 1] == a + b[..|b| - 1];
      ApplyTxsAppend(c, u, a, b[..|b| - 1]);
    } else {
      assert a + b == a;
    }
  }

  /** Rebuilding block by block is replaying the flat list of the chain's transactions. */
  lemma {:induction false} ReplayIsFlat(c: Crypto, chain: seq<ChainEntry>)
    ensures Replay(c, chain) == ApplyTxs(c, map[], AllTxs(chain))
    decreases |chain|
  {
    if chain != [] {
      var pre := chain[..|chain| - 1];
      ReplayIsFlat(c, pre);
      ApplyTxsAppend(c, map[], AllTxs(pre), chain[|chain| - 1].block.txs);
    }
  }

  /** Extending the chain by one block applies that block's transactions to the old set. */
  lemma ReplayExtend(c: Crypto, chain: seq<ChainEntry>, e: ChainEntry)
    ensures Replay(c, chain + [e]) == ApplyTxs(c, Replay(c, chain), e.block.txs)
  {
    assert (chain + [e])[..|chain|] == chain;
  }

  /** Spending a key that is not in the set is ignored, not an error. */
  lemma SpendMissingIgnored(u: Utxo, inp: TxIn)
    requires KeyOf(inp) !in u
    ensures Spend(u, [inp]) == u
  {
    assert Spend(u, [inp]).Keys == u.Keys;
  }

  /**
   * Two identical coinbases (same miner, amount and second) have the same
   * txid, so the second writes over the first: applying it twice leaves the
   * same set as applying it once.
   */
  lemma IdenticalCoinbasesCollide(c: Crypto, u: Utxo, miner: string, amount: int, now: int)
    ensures var cb := Coinbase(miner, amount, now);
      ApplyTxs(c, u, [cb, cb]) == ApplyTx(c, u, cb)
  {
    var cb := Coinbase(miner, amount, now);
    var k := OutPoint(c.txId(cb), 0);
    var once := u[k := TxOut(amount, miner)];
    CoinbaseEffect(c, u, miner, amount, now);
    CoinbaseEffect(c, once, miner, amount, now);
    assert [cb, cb][..1] == [cb];
    assert ApplyTxs(c, u, [cb]) == once by {
      assert [cb][..0] == [];
    }
  }
}
