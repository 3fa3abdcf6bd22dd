# SNOZCOIN demo ledger and creator API, modelled in Dafny

This project models three parts of the SNOZCOIN repository and proves properties of them.

- **The PMVP reference node** (`reference/pmvp_node.py`) is a small UTXO ledger behind an HTTP API. Its state is four in-memory globals: `CHAIN`, `MEMPOOL`, `UNSIGNED_MEMPOOL` and `UTXO`. The model makes them the fields of a `PmvpNode.Node` object, and its handlers are methods of that class:
  - `rebuild_utxo` replays the chain into the UTXO set;
  - `submit_tx` verifies a transaction and queues it;
  - `post_unsigned` stores a proposal after format and authorization checks;
  - `mine_block` and `/mine` select mempool transactions, build the coinbase and Merkle root, search the proof-of-work nonce and append the block.

  The pure parts are functions with lemmas. These are the halving schedule (`Rewards`), the UTXO replay and its characterization (`UtxoSet`), `verify_tx` (`TxValidation`), the Merkle root (`MerkleTree`), the balance query (`Balances`) and the selection loop (`MempoolSelection`). SHA-256, txids, addresses, ECDSA verification and header hashing are the uninterpreted fields of a `Crypto` value passed in.
- **The mock creator API** (`server/index.js`) serves a read-only table of two creators. It lists them, looks one up by exact slug, and runs an unlock stub (`CreatorApi`). The stub checks that its three parameters are truthy and then always returns a URL carrying 18 random bytes in hex. The random bytes are a parameter.
- **`escapeHtml`** is the same three chained `replace` calls in `js/creators.js` and `js/creator.js` (`CreatorsPage`, `CreatorPage`, with shared definitions in `HtmlText`). It is proved to be the per-character map `&`→`&amp;`, `<`→`&lt;`, `>`→`&gt;`, and to be injective. It leaves quotes alone, so an id containing `"` closes the `data-id="…"` attribute that `js/creator.js` builds early. This gap is stated, not fixed.

The code keeps three behaviours that are stated, not corrected:

- Identical coinbases (same miner, reward and second) have the same txid. While the first is still unspent, the second overwrites it in the UTXO set and adds nothing to the miner's balance; once the first has been spent, the second re-creates the key and credits the miner again.
- Selection verifies every candidate against the same, unchanged UTXO set. Two mempool transactions spending one output can therefore both be selected.
- An input listed twice counts twice towards `total_in`.

The unlock stub refuses any *falsy* parameter, not only an absent one: an empty string, `0`, `false` or `null` counts as missing.

## Model

| member | source | states |
|---|---|---|
| Rewards.ShiftRight | reference/pmvp_node.py:164 | `x >> k` never exceeds x and is strictly smaller than a positive x after at least one halving |
| Rewards.ShiftRightAntitoneInCount | reference/pmvp_node.py:163-164 | more halvings never give a larger value |
| Rewards.BlockReward | reference/pmvp_node.py:162-164 | the reward is always between 1 and REWARD_INITIAL, and is the full REWARD_INITIAL exactly below the first halving height |
| Rewards.RewardNonIncreasing | reference/pmvp_node.py:162-164 | the reward never increases as the height grows |
| Rewards.RewardSchedule | reference/pmvp_node.py:162-164 | the concrete schedule 50, 25, 12, 6, 3, then 1 from height 500 on |
| LedgerTypes.Coinbase | reference/pmvp_node.py:142-144 | create_coinbase: no inputs and one output paying the amount to the miner, stamped with the given second; its effect on UTXO is CoinbaseEffect, its identity CoinbaseIdentity |
| LedgerTypes.CoinbaseIdentity | reference/pmvp_node.py:142-144 | two coinbases are the same transaction iff miner, amount and second agree; a coinbase spends nothing and has one output |
| UtxoSet.Replay | reference/pmvp_node.py:89-104 | rebuild_utxo's result: the blocks' transactions applied in chain order to the empty set; characterized key by key by ReplayAt and for all keys by ReplayCharacterization |
| UtxoSet.SpendRemovesKeys | reference/pmvp_node.py:97-100 | the deletion loop removes exactly the keys the inputs name and changes no other entry |
| UtxoSet.AddOutputsWrites | reference/pmvp_node.py:102-104 | output i is stored under (txid, i); every other key keeps its entry |
| UtxoSet.ApplyTxAt | reference/pmvp_node.py:94-104 | per key, one transaction writes it if it creates it, deletes it if it only spends it, and otherwise leaves it alone |
| UtxoSet.ReplayAt | reference/pmvp_node.py:89-104 | a key survives a replay iff some transaction created it and no later input spent it; its value is that of its last writer |
| UtxoSet.ReplayCharacterization | reference/pmvp_node.py:89-104 | the same for all keys at once: UTXO holds exactly the outputs not spent by a later input, in chain order |
| UtxoSet.CoinbaseEffect | reference/pmvp_node.py:142-144 | a coinbase writes its single output under (its txid, 0) and touches nothing else |
| UtxoSet.ApplyTxsAppend | reference/pmvp_node.py:92-104 | replaying a concatenation replays the first part, then the second |
| UtxoSet.ReplayIsFlat | reference/pmvp_node.py:92-94 | rebuilding block by block is replaying the flat list of the chain's transactions |
| UtxoSet.ReplayExtend | reference/pmvp_node.py:196-197 | proof step: unfolds the replay once, so rebuilding after an append applies the new block's transactions to the old set |
| UtxoSet.SpendMissingIgnored | reference/pmvp_node.py:99-100 | spending an absent key is ignored, not an error |
| UtxoSet.IdenticalCoinbasesCollide | reference/pmvp_node.py:102-104 | two identical coinbases leave the same set as one: the second overwrites the first |
| TxValidation.SignedMessageIgnoresSigs | reference/pmvp_node.py:126-131 | two transactions get the same signed message iff they differ only in their sigs; blanking twice is blanking once |
| TxValidation.Verify | reference/pmvp_node.py:113-140 | verify_tx's verdict: the first failing check input by input, then the output total; characterized by VerifyAcceptIff, CheckFromAccepts and CheckFromReason |
| TxValidation.VerifyTx | reference/pmvp_node.py:113-140 | the verify_tx loop returns the verdict of the specification and changes nothing |
| TxValidation.CheckFromAccepts | reference/pmvp_node.py:118-139 | from input i on, acceptance iff every remaining input passes and outputs do not exceed inputs |
| TxValidation.VerifyAcceptIff | reference/pmvp_node.py:113-140 | accepted iff every input exists, is signed and matches its pubkey hash, and total_out <= total_in |
| TxValidation.CheckFromReason | reference/pmvp_node.py:118-121 | a missing-input verdict from position i names a key of a later input that the set lacks |
| TxValidation.MissingInputIsMissing | reference/pmvp_node.py:119-121 | a missing-input rejection names a key some input refers to and the set lacks |
| TxValidation.DuplicateInputCountsTwice | reference/pmvp_node.py:118-123 | an input listed twice adds its amount to total_in twice |
| TxValidation.DuplicateInputDoublesValue | reference/pmvp_node.py:118-140 | hence a transaction spending one output twice may pay out twice its value and be accepted |
| MerkleTree.Pad | reference/pmvp_node.py:151-152 | the padded level is even, keeps the level as its prefix, is one longer exactly when the level is odd, and ends with the level's last hash |
| MerkleTree.Pairs | reference/pmvp_node.py:153-155 | pairwise hashing halves an even level |
| MerkleTree.NextLevel | reference/pmvp_node.py:150-156 | one round shrinks n hashes to ceil(n/2), strictly fewer when n > 1, so the loop ends |
| MerkleTree.PairsStep | reference/pmvp_node.py:154-155 | proof step for HashLevel's loop invariant: one more pair appends the hash of that pair |
| MerkleTree.HashLevel | reference/pmvp_node.py:151-156 | the body of the while loop computes the next level |
| MerkleTree.MerkleRoot | reference/pmvp_node.py:146-157 | merkle_root computes the specified root |
| MerkleTree.RootOf | reference/pmvp_node.py:146-157 | the root merkle_root returns: "" for no transactions, the txid itself for one; MerkleRoot computes it, RootOfThree and DuplicateLastSameRoot show the padding |
| MerkleTree.RootOfThree | reference/pmvp_node.py:150-157 | with three transactions the third txid is paired with itself |
| MerkleTree.DuplicateLastSameRoot | reference/pmvp_node.py:151-152 | an odd list of at least three transactions and the same list with its last transaction repeated have the same root (for one transaction they differ: txid against the hash of the txid twice) |
| Balances.Balance | reference/pmvp_node.py:265-273 | the sum of the amounts of the UTXO entries owned by the address; BalanceOf computes it, SumOwnedRemove makes it independent of visiting order |
| Balances.SumOwnedRemove | reference/pmvp_node.py:269-271 | the balance sum does not depend on the order in which UTXO entries are visited |
| Balances.SumOwnedAgree | reference/pmvp_node.py:269-271 | sets agreeing on the visited keys have the same sum |
| Balances.BalanceAfterWrite | reference/pmvp_node.py:103-104 | writing an entry replaces that key's old contribution to a balance by the new one |
| Balances.BalanceOf | reference/pmvp_node.py:265-273 | the balance loop sums exactly the entries owned by the address and lists each owned key once |
| Balances.FreshCoinbaseCredits | reference/pmvp_node.py:142-144 | a coinbase under a new key adds its amount to the miner's balance |
| Balances.RepeatedCoinbaseAddsNothing | reference/pmvp_node.py:103-104 | an identical coinbase still unspent is overwritten and the balance does not change |
| MempoolSelection.Accepted | reference/pmvp_node.py:169-172 | the selected transactions are no more than the pool |
| MempoolSelection.Rejected | reference/pmvp_node.py:169-173 | the transactions left are no more than the pool |
| MempoolSelection.ExaminedFrom | reference/pmvp_node.py:174-175 | the loop stops at or after position i and within the pool |
| MempoolSelection.Examined | reference/pmvp_node.py:169-175 | the number of transactions looked at is within the pool |
| MempoolSelection.RemoveFirst | reference/pmvp_node.py:173 | list.remove: the first occurrence is taken out; see RemoveFirstRemovesOne and RemoveFirstAt |
| MempoolSelection.RemoveFirstRemovesOne | reference/pmvp_node.py:173 | removing a present transaction shortens the list by one and takes exactly one copy out of its multiset; an absent one changes nothing |
| MempoolSelection.RemoveFirstAt | reference/pmvp_node.py:173 | list.remove(tx) removes exactly the current position when no earlier equal element remains |
| MempoolSelection.SplitSound | reference/pmvp_node.py:169-173 | every selected transaction comes from the pool and verifies; every left one comes from the pool and does not |
| MempoolSelection.AcceptedStep | reference/pmvp_node.py:170-173 | proof step for the selection loop's invariant: one more transaction goes to the selection if it verifies and to the refused list otherwise |
| MempoolSelection.SelectStep | reference/pmvp_node.py:171-173 | removing an accepted transaction leaves the refused ones followed by the unseen ones |
| MempoolSelection.ExaminedStep | reference/pmvp_node.py:174-175 | the break fires exactly when the selection reaches max_txs |
| MempoolSelection.ExaminedEnd | reference/pmvp_node.py:169 | proof step for the selection loop's exit: without a break every transaction is looked at |
| MempoolSelection.SplitIsPermutation | reference/pmvp_node.py:169-173 | selected plus left is a permutation of the transactions looked at: nothing is lost or duplicated |
| MempoolSelection.ExaminedFromIsFirstStop | reference/pmvp_node.py:174-175 | the loop stops at the first position where max_txs are selected, or at the end |
| MempoolSelection.SelectionBound | reference/pmvp_node.py:174-175 | at most max_txs are selected (at most one when max_txs < 1, since the test follows the first transaction) |
| MempoolSelection.DoubleSpendBothSelected | reference/pmvp_node.py:169-173 | two transactions spending the same output are both selected when each verifies alone |
| PmvpNode.GenesisWellFormed | reference/pmvp_node.py:75-87 | the genesis block alone is a well-formed chain |
| PmvpNode.ExtendWellFormed | reference/pmvp_node.py:176-196 | a block linked to the tip, solved, with its Merkle root and the right coinbase keeps the chain well formed |
| PmvpNode.ProofOfWork | reference/pmvp_node.py:188-193 | the nonce loop returns the first nonce after the start whose header hash has the difficulty prefix |
| PmvpNode.Authorization | reference/pmvp_node.py:233-242 | with an API key configured, pass iff the header equals it; otherwise pass iff the origin is allowed; with the 403 reasons |
| PmvpNode.StampKeepsFirstTimestamp | reference/pmvp_node.py:230-232 | a client timestamp is kept whatever the clock says; stamping twice is stamping once; the stored timestamp is the client's, else the clock's |
| PmvpNode.SelectTxs | reference/pmvp_node.py:168-175 | the selection loop yields the accepted transactions looked at, in order, and leaves the rest in order |
| PmvpNode.NextBlockExtends | reference/pmvp_node.py:176-196 | a block as mine_block builds it keeps the chain well formed |
| PmvpNode.AssembleBlock | reference/pmvp_node.py:166-195 | builds the block linked to the tip, coinbase paying block_reward(height + 1), Merkle root, header timestamp from the clock, difficulty prefix, minimal solving nonce, and the selection |
| PmvpNode.Node.constructor | reference/pmvp_node.py:278-280 | start-up: genesis chain, empty mempools, UTXO rebuilt and consistent |
| PmvpNode.Node.SpendInputs | reference/pmvp_node.py:97-100 | the deletion loop of rebuild_utxo, skipping absent keys |
| PmvpNode.Node.AddTxOutputs | reference/pmvp_node.py:102-104 | the insertion loop of rebuild_utxo |
| PmvpNode.Node.ReplayTx | reference/pmvp_node.py:94-104 | one transaction of rebuild_utxo's inner loop |
| PmvpNode.Node.RebuildUtxo | reference/pmvp_node.py:89-104 | UTXO becomes the replay of the whole chain |
| PmvpNode.Node.SubmitTx | reference/pmvp_node.py:247-254 | the mempool grows by the transaction, with its txid as reply, iff it verifies; otherwise nothing changes and the reason is returned |
| PmvpNode.Node.PostUnsigned | reference/pmvp_node.py:224-245 | 400 before authorization, then 403, else append the stamped proposal and reply with its index |
| PmvpNode.Node.MineBlock | reference/pmvp_node.py:166-198 | the chain grows by exactly the next block, the mempool keeps exactly the unselected transactions in order, and UTXO stays the replay |
| PmvpNode.Node.Mine | reference/pmvp_node.py:256-263 | 400 without a miner; otherwise the next block paying the miner is appended and its selection runs with max_txs = 100 |
| PmvpNode.MiningEmptyPoolCredits | reference/pmvp_node.py:176-197 | mining an empty pool with a fresh coinbase key raises the miner's balance by exactly the reward |
| PmvpNode.MiningCollidingCoinbaseCreditsNothing | reference/pmvp_node.py:142-144 | mining an identical coinbase that is still unspent leaves the miner's balance unchanged |
| HtmlText.ReplaceAllAbsent | js/creators.js:27 | a global replace of a character that does not occur changes nothing |
| HtmlText.ReplaceAllOne | js/creators.js:27 | proof step for EscapeHtmlChar: on one character, a global replace gives the replacement or the character |
| HtmlText.ReplaceAllAppend | js/creators.js:27 | a single-character global replace distributes over concatenation |
| HtmlText.EscapeEachAppend | js/creators.js:27 | the per-character escape distributes over concatenation |
| HtmlText.UnescapeStep | js/creators.js:27 | decoding reads one escaped character back off the front |
| HtmlText.UnescapeEscapeEach | js/creators.js:27 | decoding the three entities undoes the escape |
| HtmlText.EscapeEachInjective | js/creators.js:27 | distinct strings have distinct per-character escapes |
| CreatorsPage.EscapeHtml | js/creators.js:27 | the three chained replaces; proved the per-character escape (EscapeHtmlIsPerChar), free of `<` and `>` (NoAngleBrackets), undone by decoding (UnescapeEscapeEach) |
| CreatorsPage.EscapeHtmlAppend | js/creators.js:27 | escaping a concatenation is concatenating the escapes |
| CreatorsPage.EscapeHtmlChar | js/creators.js:27 | on one character the chain gives its entity or the character itself |
| CreatorsPage.EscapeHtmlIsPerChar | js/creators.js:27 | the chained replaces are the per-character map, so produced entities are not escaped again |
| CreatorsPage.OtherOrderEscapesTwice | js/creators.js:27 | replacing `<` before `&` would double-escape; the actual order gives `&lt;` |
| CreatorsPage.EscapeEachNoAngles | js/creators.js:27 | the per-character escape contains no `<` and no `>` |
| CreatorsPage.NoAngleBrackets | js/creators.js:27 | escapeHtml's output contains no `<` and no `>` |
| CreatorsPage.PlainTextUnchanged | js/creators.js:27 | text without `&`, `<`, `>` is returned unchanged |
| CreatorsPage.EscapeCharCounts | js/creators.js:27 | one character's escape has the entity's length and keeps its quotes |
| CreatorsPage.EscapeEachCounts | js/creators.js:27 | length grows by 4 per `&` and 3 per `<` or `>`; quote counts are kept |
| CreatorsPage.EscapedLength | js/creators.js:27 | output length = input length + 4·#`&` + 3·#`<` + 3·#`>` |
| CreatorsPage.QuotesPassThrough | js/creators.js:27 | every `"` and `'` passes through unescaped, and no more appear |
| CreatorPage.EscapeHtml | js/creator.js:59 | the profile page's own copy of the chain; equal to the list page's (AgreesWithCreatorsPage) and injective (Injective) |
| CreatorPage.AgreesWithCreatorsPage | js/creator.js:59 | the profile page's copy agrees with the list page's on every input |
| CreatorPage.NoAngleBrackets | js/creator.js:59 | its output contains no `<` and no `>` |
| CreatorPage.Injective | js/creator.js:59 | distinct inputs give distinct escaped outputs |
| CreatorPage.AttributeReadsBack | js/creator.js:29 | a browser reading `data-id` up to the first `"` gets back the escaped id iff the id holds no `"` |
| CreatorPage.QuoteEndsAttributeEarly | js/creator.js:29 | the quoted value contains a `"` iff the id does, since `"` is not escaped |
| CreatorApi.ListCreators | server/index.js:19-21 | one {slug, name, bio} per creator, same length, same order |
| CreatorApi.GetCreator | server/index.js:23-27 | the first record whose slug is exactly equal, unchanged; 404 "Not found" iff none matches |
| CreatorApi.ListedSlugsFound | server/index.js:19-27 | with distinct slugs, every listed slug looks up its own record |
| CreatorApi.SampleSlugsDistinct | server/index.js:14-17 | the sample table `Creators` has distinct slugs, and both sample creators are found |
| CreatorApi.LookupIsCaseSensitive | server/index.js:24 | no case folding: "Luna-Arts" is not found |
| CreatorApi.Hex | server/index.js:37 | the hex rendering has two characters per byte |
| CreatorApi.UnhexHex | server/index.js:37 | the hex rendering decodes back to the bytes |
| CreatorApi.HexAlphabet | server/index.js:37 | the rendering uses only lower-case hex digits |
| CreatorApi.Unlock | server/index.js:30-42 | 400 "Missing parameters" iff slug, assetId or txHash is falsy |
| CreatorApi.EmptyOrAbsentIsMissing | server/index.js:31-32 | an empty-string parameter and a body that is not an object are refused |
| CreatorApi.UnlockGrants | server/index.js:34-41 | with all three present it always succeeds, whatever the values, with a URL ending in a 36-digit token that decodes to the random bytes |
| CreatorApi.DistinctTokensDistinctUrls | server/index.js:37-38 | the same URL twice means the same random bytes were drawn |

## Left out

- SHA-256, txid serialisation, address derivation, ECDSA verification and header hashing are uninterpreted functions in a `Crypto` value; JSON canonical serialisation is not modelled.
- PmvpNode.ProofOfWork: requires `PowSound`, an assumption that every header has a larger nonce whose hash has the difficulty prefix. The source loop simply runs until it finds one.
- PmvpNode.Node.MineBlock: requires `PowSound` for the same reason; timestamps from `time.time()` are parameters (`coinbaseTime`, `headerTime`, `now`).
- PmvpNode.Node.Mine: a non-string `miner` value is not modelled; the miner is an optional string, and `None` or `""` is refused.
- CreatorApi.Unlock: requires exactly 18 random bytes, which is what `crypto.randomBytes(18)` delivers; the random source itself is a parameter.
- A transaction is always the three fields `inputs`, `outputs` and `timestamp`. The source reads missing `inputs` or `outputs` as empty lists (`tx.get(..., [])`), which the model represents as `[]`; a transaction with no inputs and no outputs therefore verifies and is queued in both. Extra fields and a missing `timestamp` cannot be represented, although they change the txid and the signed message.
- Amounts are integers; float amounts, which the source adds without raising, are not modelled.
- `/tx` bodies that are not JSON objects are not modelled.
- PmvpNode.Node.MineBlock, PmvpNode.Node.RebuildUtxo: input and output records always carry all their fields (`txid`, `index`, `pubkey`, `sig`; `amount`, `pubkey_hash`). In the source `verify_tx` reads only an output's `amount`, so a transaction such as `{"inputs": [], "outputs": [{"amount": 0}], "timestamp": 1}` is accepted and queued, and can be mined; after `CHAIN.append`, `rebuild_utxo` then raises `KeyError` on the missing `pubkey_hash`, leaving UTXO partly rebuilt, and every later rebuild fails at the same transaction. The model cannot build such a transaction, so its promise that UTXO stays the replay of the chain does not cover this path. An input missing `txid`, `index` or `pubkey` makes `verify_tx` raise (a 500 reply with no state change), which is not modelled either; a missing `sig` is read as `""`, which the model represents.
- CreatorApi.Unlock: `express.json()` in its default strict mode refuses a top-level JSON `null`, number or string with its own 400 reply before the handler runs; the model passes such bodies to the handler, which answers 400 "Missing parameters" instead. Arrays and objects reach the handler as modelled.
- The order of the `utxos` list in the balance reply follows dict insertion order in the source; the model proves each owned key is listed once but not that order.
- Each handler is modelled as one atomic step; concurrent requests, which Flask's threaded server allows, are not modelled. In the source a `/tx` arriving during selection may be lost or kept depending on timing, and a partly rebuilt UTXO is visible while `rebuild_utxo` runs. The model selects on a local copy of MEMPOOL and writes the remainder back after the loop.
- `post_unsigned` bodies that are JSON but not objects are not modelled; a body is an optional map of fields.
- Flask routing, CORS headers (`add_cors_headers`), the read-only routes `/chain`, `/mempool`, `/unsigned`, and `new_wallet` key generation are not modelled.
- `escapeHtml` applies `String(s)` first; only string arguments are modelled.
- Express, static-file serving and `sendFile` for the asset route are not modelled; neither are `loadProfile`, `unlockContent`, `fetchCreators`, `makeCard` and the DOM glue around them.
- `js/main.js`, `reference/ui/app.js`, `reference/client.py`, `reference/smoke_test.py` and `scripts/generate_whitepaper_pdf.py` are not part of this model.
- JavaScript numbers are integers here; NaN (falsy) is not modelled.
