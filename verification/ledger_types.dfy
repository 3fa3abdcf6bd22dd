/**
 * Data model of the PMVP reference node (reference/pmvp_node.py): transactions,
 * outputs, block headers, chain entries and the UTXO map, together with the
 * protocol constants and the cryptographic primitives, which are abstracted.
 */
module LedgerTypes {

  datatype Option<T> = None | Some(value: T)

  /** A UTXO key. The node writes it as the string "<txid>:<index>". */
  datatype OutPoint = OutPoint(txid: string, index: int)

  /** A transaction input: the output it spends, the spender's public key and its signature. */
  datatype TxIn = TxIn(txid: string, index: int, pubkey: string, sig: string)

  /** A transaction output, and also the value stored in the UTXO map. */
  datatype TxOut = TxOut(amount: int, pubkeyHash: string)

  datatype Tx = Tx(inputs: seq<TxIn>, outputs: seq<TxOut>, timestamp: int)

  datatype Header = Header(prevHash: string, merkleRoot: string, timestamp: int, nonce: int, difficulty: string)

  datatype Block = Block(header: Header, txs: seq<Tx>)

  /** One element of CHAIN: the header hash next to the block. */
  datatype ChainEntry = ChainEntry(hash: string, block: Block)

  /** The UTXO set: key to {amount, pubkey_hash}. */
  type Utxo = map<OutPoint, TxOut>

  /**
   * The primitives the node borrows from hashlib, ecdsa and json, left uninterpreted.
   *  - txId: sha256 of the canonical JSON of a transaction (txid_of)
   *  - sha: sha256 of a UTF-8 string, as hex (used by the Merkle root)
   *  - address: address_from_pubkey_hex
   *  - sigOk: verify_sig(pubkey, sig, serialize_tx(message)), false on any decoding error
   *  - headerHash: sha256 of json.dumps(header, sort_keys=True)
   *  - nonceFor: for a header, a larger nonce at which its hash has the
   *    difficulty prefix; it bounds the otherwise unbounded nonce search
   */
  datatype Crypto = Crypto(
    txId: Tx -> string,
    sha: string -> string,
    address: string -> string,
    sigOk: (string, string, Tx) -> bool,
    headerHash: Header -> string,
    nonceFor: Header -> int)

  const RewardInitial: nat := 50
  const HalvingInterval: nat := 100
  const DifficultyPrefix: string := "0000"

  /** "0" * 64, the previous hash recorded in the genesis header. */
  const GenesisPrevHash: string := seq(64, _ => '0')

  /** The UTXO key an input refers to. */
  function KeyOf(inp: TxIn): OutPoint {
    OutPoint(inp.txid, inp.index)
  }

  /** The set of UTXO keys a list of inputs refers to. */
  function InputKeys(ins: seq<TxIn>): (r: set<OutPoint>)
    ensures forall i :: 0 <= i < |ins| ==> KeyOf(ins[i]) in r
    ensures forall k :: k in r ==> exists i :: 0 <= i < |ins| && KeyOf(ins[i]) == k
  {
    set i | 0 <= i < |ins| :: KeyOf(ins[i])
  }

  /** create_coinbase: no inputs and a single output paying the miner. */
  function Coinbase(miner: string, amount: int, now: int): Tx {
    Tx([], [TxOut(amount, miner)], now)
  }

  /**
   * A coinbase is fixed by its miner, amount and second: two coinbases are
   * the same transaction, and so have the same txid, exactly when all three agree.
   */
  lemma CoinbaseIdentity(m1: string, a1: int, n1: int, m2: string, a2: int, n2: int)
    ensures Coinbase(m1, a1, n1) == Coinbase(m2, a2, n2) <==> m1 == m2 && a1 == a2 && n1 == n2
    ensures Coinbase(m1, a1, n1).inputs == [] && |Coinbase(m1, a1, n1).outputs| == 1
  {
  }

  predicate StartsWith(s: string, prefix: string) {
    |prefix| <= |s| && s[..|prefix|] == prefix
  }

  /** Header h with nonce n hashes to a string with the difficulty prefix. */
  predicate Solves(c: Crypto, h: Header, n: int) {
    StartsWith(c.headerHash(h.(nonce := n)), DifficultyPrefix)
  }

  /**
   * What the proof-of-work loop relies on: past the nonce of every header
   * there is one that solves it. This is the one assumption made about the
   * hash function; it is what makes the nonce search terminate.
   */
  ghost predicate PowSound(c: Crypto) {
    forall h: Header :: c.nonceFor(h) > h.nonce && Solves(c, h, c.nonceFor(h))
  }
}
