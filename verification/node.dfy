/**
 * The node itself: the four pieces of in-memory state of the reference node
 * (CHAIN, MEMPOOL, UNSIGNED_MEMPOOL and UTXO) as the fields of one object,
 * and the handlers that change them: rebuild_utxo, mine_block, submit_tx,
 * post_unsigned and mine.
 */
module PmvpNode {
  import opened LedgerTypes
  import opened Rewards
  import opened UtxoSet
  import opened TxValidation
  import opened MerkleTree
  import opened Balances
  import opened MempoolSelection

  /** A JSON value, as the body of an unsigned proposal carries it. */
  datatype Json =
    | JNull
    | JBool(b: bool)
    | JNum(n: int)
    | JStr(s: string)
    | JArr(items: seq<Json>)
    | JObj(fields: map<string, Json>)

  /** What a handler answers: an error status with its reason, or its success payload. */
  datatype Reply =
    | Fail(status: int, reason: string)
    | TxRefused(verdict: Verdict)
    | Queued(index: int)
    | Submitted(txid: string)
    | Mined(blockHash: string)

  /** The origins the node accepts unsigned proposals from when no API key is configured. */
  const AllowedOrigins: set<string> := {"http://127.0.0.1:8002", "http://localhost:8002"}

  // ---------------------------------------------------------------------------
  // The chain

  /** mk_genesis: the first block, with no transactions and nonce 0. */
  function GenesisEntry(c: Crypto, now: int): (e: ChainEntry)
    ensures e.block.txs == [] && e.block.header.prevHash == GenesisPrevHash
    ensures e.hash == c.headerHash(e.block.header)
  {
    var header := Header(GenesisPrevHash, "", now, 0, DifficultyPrefix);
    ChainEntry(c.headerHash(header), Block(header, []))
  }

  /** The block's first transaction is a coinbase paying reward. */
  predicate PaysReward(txs: seq<Tx>, reward: int) {
    |txs| >= 1 && txs[0].inputs == [] && |txs[0].outputs| == 1 && txs[0].outputs[0].amount == reward
  }

  /**
   * What mk_genesis and mine_block establish for the entry at height i: it
   * records its header's hash and its transactions' Merkle root; the genesis
   * entry points to the all-zero hash; every later one links to the hash
   * before it, carries a hash with the difficulty prefix, and opens with the
   * coinbase that its height earns.
   */
  predicate EntryOk(c: Crypto, chain: seq<ChainEntry>, i: int)
    requires 0 <= i < |chain|
  {
    var e := chain[i];
    e.hash == c.headerHash(e.block.header)
    && e.block.header.merkleRoot == RootOf(c, e.block.txs)
    && (i == 0 ==> e.block.header.prevHash == GenesisPrevHash)
    && (i > 0 ==>
      e.block.header.prevHash == chain[i - 1].hash
      && StartsWith(e.hash, DifficultyPrefix)
      && PaysReward(e.block.txs, BlockReward(i)))
  }

  /** The invariant of CHAIN: a genesis entry and then only entries as mine_block appends them. */
  predicate WellFormedChain(c: Crypto, chain: seq<ChainEntry>) {
    |chain| >= 1 && forall i :: 0 <= i < |chain| ==> EntryOk(c, chain, i)
  }

  /** The genesis block alone is a well-formed chain. */
  lemma GenesisWellFormed(c: Crypto, now: int)
    ensures WellFormedChain(c, [GenesisEntry(c, now)])
  {
    assert EntryOk(c, [GenesisEntry(c, now)], 0);
  }

  /** Appending a block that links to the tip, is solved, and pays the next reward keeps the chain well formed. */
  lemma ExtendWellFormed(c: Crypto, chain: seq<ChainEntry>, e: ChainEntry)
    requires WellFormedChain(c, chain)
    requires e.block.header.prevHash == chain[|chain| - 1].hash
    requires e.hash == c.headerHash(e.block.header) && StartsWith(e.hash, DifficultyPrefix)
    requires e.block.header.merkleRoot == RootOf(c, e.block.txs)
    requires PaysReward(e.block.txs, BlockReward(|chain|))
    ensures WellFormedChain(c, chain + [e])
  {
    var ext := chain + [e];
    forall i | 0 <= i < |ext|
      ensures EntryOk(c, ext, i)
    {
      if i < |chain| {
        assert EntryOk(c, chain, i);
        assert ext[i] == chain[i];
        assert i > 0 ==> ext[i - 1] == chain[i - 1];
      }
    }
  }

  // ---------------------------------------------------------------------------
  // Proof of work

  /**
   * The nonce loop of mine_block: bump the nonce, hash the header, stop at
   * the first hash with the difficulty prefix. The search starts just past
   * start's nonce and returns the first solving nonce.
   */
  method ProofOfWork(c: Crypto, start: Header) returns (header: Header, hash: string)
    requires PowSound(c)
    ensures header == start.(nonce := header.nonce) && header.nonce > start.nonce
    ensures hash == c.headerHash(header) && StartsWith(hash, DifficultyPrefix)
    ensures forall m :: start.nonce < m < header.nonce ==> !Solves(c, header, m)
  {
    ghost var bound := c.nonceFor(start);
    assert Solves(c, start, bound);
    header := start.(nonce := start.nonce + 1);
    hash := c.headerHash(header);
    while !StartsWith(hash, DifficultyPrefix)
      invariant header == start.(nonce := header.nonce) && hash == c.headerHash(header)
      invariant start.nonce < header.nonce <= bound
      invariant forall m :: start.nonce < m < header.nonce ==> !Solves(c, start, m)
      decreases bound - header.nonce
    {
      assert !Solves(c, start, header.nonce);
      assert header.nonce != bound;
      ghost var tried := header.nonce;
      header := header.(nonce := header.nonce + 1);
      forall m | start.nonce < m < header.nonce
        ensures !Solves(c, start, m)
      {
        assert m < tried || m == tried;
      }
      hash := c.headerHash(header);
    }
    forall m | start.nonce < m < header.nonce
      ensures !Solves(c, header, m)
    {
      assert !Solves(c, start, m);
      assert header.(nonce := m) == start.(nonce := m);
    }
  }

  // ---------------------------------------------------------------------------
  // Unsigned proposals

  /** An API key counts as configured when PMVP_API_KEY is set and non-empty. */
  predicate KeyConfigured(apiKey: Option<string>) {
    apiKey.Some? && apiKey.value != ""
  }

  /**
   * The authorization step of post_unsigned: None when the request may
   * proceed, otherwise the reason of the 403 reply.
   */
  function Authorization(apiKey: Option<string>, origin: Option<string>, keyHeader: Option<string>): (r: Option<string>)
    ensures KeyConfigured(apiKey) ==> (r.None? <==> keyHeader == Some(apiKey.value))
    ensures !KeyConfigured(apiKey) ==> (r.None? <==> origin.Some? && origin.value in AllowedOrigins)
    ensures r.Some? ==> r.value == (if KeyConfigured(apiKey) then "missing or invalid API key" else "origin not allowed")
  {
    if KeyConfigured(apiKey) then
      if keyHeader.None? || keyHeader.value == "" || keyHeader.value != apiKey.value then Some("missing or invalid API key")
      else None
    else if origin.None? || origin.value !in AllowedOrigins then Some("origin not allowed")
    else None
  }

  /** The format check of post_unsigned: a body with both "inputs" and "outputs". */
  predicate WellFormedProposal(body: Option<map<string, Json>>) {
    body.Some? && "inputs" in body.value && "outputs" in body.value
  }

  /** A proposal as stored: a missing "timestamp" is filled in with now, everything else kept. */
  function Stamp(data: map<string, Json>, now: int): (r: map<string, Json>)
    ensures r.Keys == data.Keys + {"timestamp"}
    ensures forall k :: k in data ==> r[k] == data[k]
    ensures "timestamp" !in data ==> r["timestamp"] == JNum(now)
  {
    if "timestamp" in data then data else data["timestamp" := JNum(now)]
  }

  /**
   * A proposal keeps the timestamp it arrives with, whatever the clock says,
   * so stamping an already stamped proposal changes nothing.
   */
  lemma StampKeepsFirstTimestamp(data: map<string, Json>, t1: int, t2: int)
    ensures "timestamp" in data ==> Stamp(data, t1) == Stamp(data, t2) == data
    ensures Stamp(Stamp(data, t1), t2) == Stamp(data, t1)
    ensures Stamp(data, t1)["timestamp"] == if "timestamp" in data then data["timestamp"] else JNum(t1)
  {
  }

  // ---------------------------------------------------------------------------
  // Mempool selection

  /**
   * The selection loop of mine_block over the copy MEMPOOL[:]. Each
   * transaction is verified against the unchanged UTXO set u; an accepted one
   * is appended to the selection and removed from the mempool (left), and the
   * loop breaks once max_txs are selected.
   */
  method SelectTxs(c: Crypto, u: Utxo, mempool: seq<Tx>, maxTxs: int) returns (selected: seq<Tx>, left: seq<Tx>)
    ensures VerifiedSelection(c, u, mempool, maxTxs, selected, left)
  {
    var pool := mempool;
    ghost var ok := Passes(c, u);
    left := mempool;
    selected := [];
    var i := 0;
    ghost var stopped := false;
    assert pool[..0] == [];
    while i < |pool|
      invariant 0 <= i <= |pool|
      invariant selected == Accepted(ok, pool[..i])
      invariant left == Rejected(ok, pool[..i]) + pool[i..]
      invariant Running(ok, pool, maxTxs, i)
    {
      var tx := pool[i];
      var v := VerifyTx(c, u, tx);
      PassesMeansAccept(c, u, tx);
      AcceptedStep(ok, pool, i);
      ExaminedStep(ok, pool, maxTxs, i);
      SelectStep(ok, pool, i, left);
      if v == Accept {
        selected := selected + [tx];
        left := RemoveFirst(left, tx);
      }
      i := i + 1;
      if |selected| >= maxTxs {
        assert selected == Accepted(ok, pool[..i]) && left == Rejected(ok, pool[..i]) + pool[i..];
        stopped := true;
        break;
      }
    }
    if !stopped {
      ExaminedEnd(ok, pool, maxTxs);
    }
    SelectionDone(ok, pool, maxTxs, i, selected, left);
  }

  /**
   * What mine_block appends after chain: a block linked to the tip, whose
   * hash is its header's, carries the difficulty prefix and uses the first
   * solving nonce, whose Merkle root covers its transactions, whose header
   * carries the clock reading headerTime and the difficulty prefix, and whose
   * first transaction is the coinbase paying the reward for the new height.
   */
  ghost predicate NextBlock(c: Crypto, chain: seq<ChainEntry>, e: ChainEntry, miner: string,
                            coinbaseTime: int, headerTime: int)
    requires |chain| >= 1
  {
    var h := e.block.header;
    h.prevHash == chain[|chain| - 1].hash
    && h.timestamp == headerTime && h.difficulty == DifficultyPrefix
    && e.hash == c.headerHash(h) && StartsWith(e.hash, DifficultyPrefix)
    && h.nonce > 0 && (forall m :: 0 < m < h.nonce ==> !Solves(c, h, m))
    && h.merkleRoot == RootOf(c, e.block.txs)
    && |e.block.txs| >= 1 && e.block.txs[0] == Coinbase(miner, BlockReward(|chain|), coinbaseTime)
  }

  /** A block as NextBlock describes it may be appended to a well-formed chain. */
  lemma NextBlockExtends(c: Crypto, chain: seq<ChainEntry>, e: ChainEntry, miner: string,
                         coinbaseTime: int, headerTime: int)
    requires WellFormedChain(c, chain) && NextBlock(c, chain, e, miner, coinbaseTime, headerTime)
    ensures WellFormedChain(c, chain + [e])
  {
    ExtendWellFormed(c, chain, e);
  }

  /**
   * The body of mine_block up to the append: select from the mempool, put
   * the coinbase for height |chain| in front, compute the Merkle root, and
   * search the nonce of a header linked to the tip.
   */
  method AssembleBlock(c: Crypto, u: Utxo, chain: seq<ChainEntry>, mempool: seq<Tx>, miner: string, maxTxs: int,
                       coinbaseTime: int, headerTime: int) returns (entry: ChainEntry, left: seq<Tx>)
    requires |chain| >= 1 && PowSound(c)
    ensures NextBlock(c, chain, entry, miner, coinbaseTime, headerTime)
    ensures VerifiedSelection(c, u, mempool, maxTxs, entry.block.txs[1..], left)
  {
    var selected;
    selected, left := SelectTxs(c, u, mempool, maxTxs);
    var height := |chain| - 1;
    var reward := BlockReward(height + 1);
    var coinbase := Coinbase(miner, reward, coinbaseTime);
    var txs := [coinbase] + selected;
    assert txs[1..] == selected;
    var root := MerkleRoot(c, txs);
    var start := Header(chain[|chain| - 1].hash, root, headerTime, 0, DifficultyPrefix);
    var header, hash := ProofOfWork(c, start);
    entry := ChainEntry(hash, Block(header, txs));
  }

  // ---------------------------------------------------------------------------
  // The node

  class Node {
    const crypto: Crypto
    /** PMVP_API_KEY, None when the variable is not set. */
    const apiKey: Option<string>
    var chain: seq<ChainEntry>
    var mempool: seq<Tx>
    var unsigned: seq<map<string, Json>>
    var utxo: Utxo

    /** The chain is well formed and UTXO is what replaying it gives. */
    predicate Valid()
      reads this`chain, this`utxo
    {
      WellFormedChain(crypto, chain) && utxo == Replay(crypto, chain)
    }

    /** main: mk_genesis, then rebuild_utxo. */
    constructor (c: Crypto, key: Option<string>, now: int)
      ensures Valid()
      ensures crypto == c && apiKey == key
      ensures chain == [GenesisEntry(c, now)] && mempool == [] && unsigned == []
    {
      crypto := c;
      apiKey := key;
      chain := [GenesisEntry(c, now)];
      mempool := [];
      unsigned := [];
      utxo := map[];
      new;
      GenesisWellFormed(c, now);
      RebuildUtxo();
    }

    /** The deletion loop of rebuild_utxo for one transaction: absent keys are skipped. */
    method SpendInputs(ins: seq<TxIn>)
      modifies this`utxo
      ensures utxo == Spend(old(utxo), ins)
    {
      var i := 0;
      while i < |ins|
        invariant 0 <= i <= |ins|
        invariant utxo == Spend(old(utxo), ins[..i])
      {
        var key := KeyOf(ins[i]);
        assert ins[..i + 1][..i] == ins[..i];
        if key in utxo {
          utxo := utxo - {key};
        } else {
          assert utxo - {key} == utxo;
        }
        i := i + 1;
      }
      assert ins[..i] == ins;
    }

    /** The insertion loop of rebuild_utxo for one transaction: output i goes under (tid, i). */
    method AddTxOutputs(tid: string, outs: seq<TxOut>)
      modifies this`utxo
      ensures utxo == AddOutputs(old(utxo), tid, outs)
    {
      var i := 0;
      while i < |outs|
        invariant 0 <= i <= |outs|
        invariant utxo == AddOutputs(old(utxo), tid, outs[..i])
      {
        assert outs[..i + 1][..i] == outs[..i];
        utxo := utxo[OutPoint(tid, i) := outs[i]];
        i := i + 1;
      }
      assert outs[..i] == outs;
    }

    /** One transaction of rebuild_utxo's inner loop. */
    method ReplayTx(tx: Tx)
      modifies this`utxo
      ensures utxo == ApplyTx(crypto, old(utxo), tx)
    {
      var tid := crypto.txId(tx);
      SpendInputs(tx.inputs);
      AddTxOutputs(tid, tx.outputs);
    }

    /** rebuild_utxo: clear UTXO and replay every transaction of the chain in order. */
    method RebuildUtxo()
      modifies this`utxo
      ensures utxo == Replay(crypto, chain)
    {
      utxo := map[];
      var b := 0;
      assert chain[..0] == [];
      while b < |chain|
        invariant 0 <= b <= |chain|
        invariant utxo == Replay(crypto, chain[..b])
      {
        var txs := chain[b].block.txs;
        ghost var before := utxo;
        var t := 0;
        assert txs[..0] == [];
        while t < |txs|
          invariant 0 <= t <= |txs|
          invariant utxo == ApplyTxs(crypto, before, txs[..t])
        {
          assert txs[..t + 1][..t] == txs[..t];
          ReplayTx(txs[t]);
          t := t + 1;
        }
        assert txs[..t] == txs;
        assert chain[..b + 1][..b] == chain[..b];
        b := b + 1;
      }
      assert chain[..b] == chain;
    }

    /** submit_tx: verify against UTXO and append to MEMPOOL only when accepted. */
    method SubmitTx(tx: Tx) returns (reply: Reply)
      modifies this`mempool
      ensures Verify(crypto, utxo, tx) == Accept ==>
        mempool == old(mempool) + [tx] && reply == Submitted(crypto.txId(tx))
      ensures Verify(crypto, utxo, tx) != Accept ==>
        mempool == old(mempool) && reply == TxRefused(Verify(crypto, utxo, tx))
    {
      var v := VerifyTx(crypto, utxo, tx);
      if v != Accept {
        return TxRefused(v);
      }
      mempool := mempool + [tx];
      return Submitted(crypto.txId(tx));
    }

    /** post_unsigned: format check (400), then authorization (403), then append. */
    method PostUnsigned(body: Option<map<string, Json>>, origin: Option<string>, keyHeader: Option<string>, now: int)
      returns (reply: Reply)
      modifies this`unsigned
      ensures !WellFormedProposal(body) ==>
        reply == Fail(400, "invalid unsigned tx format") && unsigned == old(unsigned)
      ensures WellFormedProposal(body) && Authorization(apiKey, origin, keyHeader).Some? ==>
        reply == Fail(403, Authorization(apiKey, origin, keyHeader).value) && unsigned == old(unsigned)
      ensures WellFormedProposal(body) && Authorization(apiKey, origin, keyHeader).None? ==>
        unsigned == old(unsigned) + [Stamp(body.value, now)] && reply == Queued(|unsigned| - 1)
    {
      if body.None? || "inputs" !in body.value || "outputs" !in body.value {
        return Fail(400, "invalid unsigned tx format");
      }
      var data := body.value;
      if "timestamp" !in data {
        data := data["timestamp" := JNum(now)];
      }
      if KeyConfigured(apiKey) {
        if keyHeader.None? || keyHeader.value == "" || keyHeader.value != apiKey.value {
          return Fail(403, "missing or invalid API key");
        }
      } else if origin.None? || origin.value !in AllowedOrigins {
        return Fail(403, "origin not allowed");
      }
      unsigned := unsigned + [data];
      return Queued(|unsigned| - 1);
    }

    /**
     * mine_block: assemble and solve the next block, append it to CHAIN,
     * store what is left of MEMPOOL and rebuild UTXO.
     */
    method MineBlock(miner: string, maxTxs: int, coinbaseTime: int, headerTime: int) returns (entry: ChainEntry)
      requires Valid() && PowSound(crypto)
      modifies this`chain, this`mempool, this`utxo
      ensures Valid()
      ensures chain == old(chain) + [entry]
      ensures NextBlock(crypto, old(chain), entry, miner, coinbaseTime, headerTime)
      ensures VerifiedSelection(crypto, old(utxo), old(mempool), maxTxs, entry.block.txs[1..], mempool)
      ensures utxo == ApplyTxs(crypto, old(utxo), entry.block.txs)
    {
      var tip, u, pool := chain, utxo, mempool;
      var left;
      entry, left := AssembleBlock(crypto, u, tip, pool, miner, maxTxs, coinbaseTime, headerTime);
      mempool := left;
      NextBlockExtends(crypto, tip, entry, miner, coinbaseTime, headerTime);
      ReplayExtend(crypto, tip, entry);
      chain := tip + [entry];
      RebuildUtxo();
      assert mempool == left && old(mempool) == pool && old(utxo) == u;
    }

    /** The /mine handler: a miner address is required; at most 100 transactions per block. */
    method Mine(miner: Option<string>, coinbaseTime: int, headerTime: int) returns (reply: Reply)
      requires Valid() && PowSound(crypto)
      modifies this`chain, this`mempool, this`utxo
      ensures Valid()
      ensures miner.None? || miner.value == "" ==>
        reply == Fail(400, "miner address required") && chain == old(chain) && mempool == old(mempool) && utxo == old(utxo)
      ensures miner.Some? && miner.value != "" ==>
        |chain| == |old(chain)| + 1 && chain[..|old(chain)|] == old(chain)
        && reply == Mined(chain[|chain| - 1].hash)
        && NextBlock(crypto, old(chain), chain[|chain| - 1], miner.value, coinbaseTime, headerTime)
        && VerifiedSelection(crypto, old(utxo), old(mempool), 100, chain[|chain| - 1].block.txs[1..], mempool)
    {
      if miner.None? || miner.value == "" {
        return Fail(400, "miner address required");
      }
      var entry := MineBlock(miner.value, 100, coinbaseTime, headerTime);
      return Mined(entry.hash);
    }
  }

  // ---------------------------------------------------------------------------
  // Mining and balances

  /**
   * Mining a block that holds only its coinbase, when the coinbase's key is
   * new, strictly increases the miner's balance, by the block reward.
   */
  lemma MiningEmptyPoolCredits(c: Crypto, chain: seq<ChainEntry>, e: ChainEntry, miner: string, now: int)
    requires e.block.txs == [Coinbase(miner, BlockReward(|chain|), now)]
    requires OutPoint(c.txId(Coinbase(miner, BlockReward(|chain|), now)), 0) !in Replay(c, chain)
    ensures Balance(Replay(c, chain + [e]), miner) == Balance(Replay(c, chain), miner) + BlockReward(|chain|)
    ensures Balance(Replay(c, chain + [e]), miner) > Balance(Replay(c, chain), miner)
  {
    var u := Replay(c, chain);
    var cb := Coinbase(miner, BlockReward(|chain|), now);
    ReplayExtend(c, chain, e);
    assert [cb][..0] == [];
    assert ApplyTxs(c, u, [cb]) == ApplyTx(c, u, cb);
    FreshCoinbaseCredits(c, u, miner, BlockReward(|chain|), now);
  }

  /**
   * When the previous block's identical coinbase is still unspent (same miner,
   * same reward, same second), mining an empty block leaves the miner's
   * balance unchanged: the new coinbase overwrites the old one.
   */
  lemma MiningCollidingCoinbaseCreditsNothing(c: Crypto, chain: seq<ChainEntry>, e: ChainEntry, miner: string, now: int)
    requires e.block.txs == [Coinbase(miner, BlockReward(|chain|), now)]
    requires var k := OutPoint(c.txId(Coinbase(miner, BlockReward(|chain|), now)), 0);
      k in Replay(c, chain) && Replay(c, chain)[k] == TxOut(BlockReward(|chain|), miner)
    ensures Balance(Replay(c, chain + [e]), miner) == Balance(Replay(c, chain), miner)
  {
    var u := Replay(c, chain);
    var cb := Coinbase(miner, BlockReward(|chain|), now);
    ReplayExtend(c, chain, e);
    assert [cb][..0] == [];
    assert ApplyTxs(c, u, [cb]) == ApplyTx(c, u, cb);
    RepeatedCoinbaseAddsNothing(c, u, miner, BlockReward(|chain|), now);
  }
}
