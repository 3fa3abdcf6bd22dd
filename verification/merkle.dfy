/**
 * merkle_root: the txids of a block, hashed pairwise level by level; a level
 * of odd length first duplicates its last hash. The empty list has root "".
 */
module MerkleTree {
  import opened LedgerTypes

  /** An odd-length level gets its last hash appended again. */
  function Pad(hs: seq<string>): (r: seq<string>)
    requires |hs| > 0
    ensures |r| % 2 == 0 && |r| == |hs| + |hs| % 2
    ensures r[..|hs|] == hs && r[|r| - 1] == hs[|hs| - 1]
  {
    if |hs| % 2 == 1 then hs + [hs[|hs| - 1]] else hs
  }

  /** sha256(hs[i] + hs[i + 1]) for i = 0, 2, 4, ... of an even-length level. */
  function Pairs(c: Crypto, hs: seq<string>): (r: seq<string>)
    requires |hs| % 2 == 0
    ensures |r| == |hs| / 2
    decreases |hs|
  {
    if hs == [] then [] else Pairs(c, hs[..|hs| - 2]) + [c.sha(hs[|hs| - 2] + hs[|hs| - 1])]
  }

  /** One round of the while loop; a level of n hashes shrinks to ceil(n / 2). */
  function NextLevel(c: Crypto, hs: seq<string>): (r: seq<string>)
    requires |hs| > 0
    ensures |r| == (|hs| + 1) / 2
    ensures |hs| > 1 ==> |r| < |hs|
  {
    Pairs(c, Pad(hs))
  }

  /** Rounds until a single hash remains. */
  function Fold(c: Crypto, hs: seq<string>): string
    requires |hs| > 0
    decreases |hs|
  {
    if |hs| == 1 then hs[0] else Fold(c, NextLevel(c, hs))
  }

  function TxIds(c: Crypto, txs: seq<Tx>): (r: seq<string>)
    ensures |r| == |txs| && forall i :: 0 <= i < |txs| ==> r[i] == c.txId(txs[i])
  {
    seq(|txs|, i requires 0 <= i < |txs| => c.txId(txs[i]))
  }

  /** The root merkle_root returns: "" for no transactions, the txid itself for one. */
  function RootOf(c: Crypto, txs: seq<Tx>): (r: string)
    ensures txs == [] ==> r == ""
    ensures |txs| == 1 ==> r == c.txId(txs[0])
  {
    if txs == [] then "" else Fold(c, TxIds(c, txs))
  }

  /** Extending the paired prefix of a level by one more pair. */
  lemma PairsStep(c: Crypto, hs: seq<string>, i: nat)
    requires i % 2 == 0 && i + 2 <= |hs|
    ensures Pairs(c, hs[..i + 2]) == Pairs(c, hs[..i]) + [c.sha(hs[i] + hs[i + 1])]
  {
    assert hs[..i + 2][..i] == hs[..i];
  }

  lemma EvenGap(i: nat, n: nat)
    requires i % 2 == 0 && n % 2 == 0 && i < n
    ensures i + 2 <= n
  {
  }

  /** The body of merkle_root's while loop: pad an odd level, then hash it pairwise. */
  method HashLevel(c: Crypto, hs: seq<string>) returns (next: seq<string>)
    requires |hs| > 0
    ensures next == NextLevel(c, hs)
  {
    var level := hs;
    if |level| % 2 == 1 {
      level := level + [level[|level| - 1]];
    }
    assert level == Pad(hs);
    next := [];
    var i := 0;
    assert level[..i] == [];
    while i < |level|
      invariant 0 <= i <= |level| && i % 2 == 0
      invariant next == Pairs(c, level[..i])
    {
      EvenGap(i, |level|);
      PairsStep(c, level, i);
      next := next + [c.sha(level[i] + level[i + 1])];
      i := i + 2;
    }
    assert level[..i] == level;
  }

  /** merkle_root: "" for no transactions, otherwise rounds of HashLevel until one hash remains. */
  method MerkleRoot(c: Crypto, txs: seq<Tx>) returns (root: string)
    ensures root == RootOf(c, txs)
  {
    if txs == [] {
      return "";
    }
    var hs := TxIds(c, txs);
    while |hs| > 1
      invariant |hs| > 0
      invariant Fold(c, hs) == RootOf(c, txs)
      decreases |hs|
    {
      hs := HashLevel(c, hs);
    }
    return hs[0];
  }

  /** Three transactions: the third txid is paired with itself. */
  lemma RootOfThree(c: Crypto, a: Tx, b: Tx, d: Tx)
    ensures RootOf(c, [a, b, d]) ==
      c.sha(c.sha(c.txId(a) + c.txId(b)) + c.sha(c.txId(d) + c.txId(d)))
  {
    var ids := TxIds(c, [a, b, d]);
    assert ids == [c.txId(a), c.txId(b), c.txId(d)];
    var padded := ids + [c.txId(d)];
    assert Pad(ids) == padded;
    PairsStep(c, padded, 0);
    PairsStep(c, padded, 2);
    assert padded[..0] == [] && padded[..4] == padded;
    var level1 := [c.sha(c.txId(a) + c.txId(b)), c.sha(c.txId(d) + c.txId(d))];
    assert NextLevel(c, ids) == level1;
    PairsStep(c, level1, 0);
    assert level1[..0] == [] && level1[..2] == level1;
    assert NextLevel(c, level1) == [c.sha(level1[0] + level1[1])];
    assert Fold(c, ids) == Fold(c, level1);
    assert Fold(c, level1) == Fold(c, [c.sha(level1[0] + level1[1])]);
  }

  /**
   * A list of an odd number (at least three) of transactions has the same
   * root as the list with its last transaction repeated: the padding makes
   * the two indistinguishable to the header.
   */
  lemma DuplicateLastSameRoot(c: Crypto, txs: seq<Tx>)
    requires |txs| % 2 == 1 && |txs| >= 3
    ensures RootOf(c, txs + [txs[|txs| - 1]]) == RootOf(c, txs)
  {
    var ids := TxIds(c, txs);
    var ids2 := TxIds(c, txs + [txs[|txs| - 1]]);
    assert ids2 == ids + [ids[|ids| - 1]];
    assert Pad(ids) == ids2 && Pad(ids2) == ids2;
    assert NextLevel(c, ids) == NextLevel(c, ids2);
  }
}
