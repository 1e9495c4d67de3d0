# UTXO ledger, fork ledger and gossip node in Dafny

This project models three sequential cores of a small cryptocurrency course
repository:

- **`TxHandler`**: the transaction validator and applier over an
  unspent-transaction-output (UTXO) pool. `isValidTx` enforces five rules:
  (1) every claimed output is in the pool, (2) every input signature verifies,
  (3) no output is claimed twice, (4) no output value is negative, and
  (5) the inputs are worth at least the outputs. `handleTxs` walks a batch in
  order and re-checks each transaction against the pool as changed by the
  transactions accepted before it. Each accepted transaction has its claimed
  outputs removed and its own outputs added.
- **`BlockChain`**: the fork ledger. It keeps, per block hash, the block, its
  height and the UTXO pool after it. It also keeps the best height and a
  pending-transaction pool. `addBlock` accepts a block only when three things
  hold: its parent is on record, it is not stale against `CUT_OFF_AGE = 10`,
  and the handler accepts every one of its transactions starting from the
  parent's pool. The best block is the first recorded block, in insertion
  order, at the best height.
- **`CompliantNode`**: a gossip node with a round counter, a set of
  transactions it has forwarded, and a count of how often it has seen each
  transaction. While rounds remain, it forwards each newly known
  transaction once. After that, it reports the transactions it has seen more
  than once.

The model is functional. Pools are `map<UTXO, Output>`. The ledger is a
record, and `AddBlock` is a function that returns whether the block was
accepted, together with the new record. The Java loops are methods. Each is
proved to compute a declarative reference definition:

- `IsValidTx` computes the five-rule conjunction `Valid`.
- `HandleTxs` computes the in-order batch semantics `Handle`.
- `ApplyInPlace` computes `Apply`.

`Handle` and its lemmas take the validity test as a parameter of type
`TxTest`. `ValidTest(crypto)` is the test `isValidTx` performs, and it is the
one `HandleTxs` and `BlockChain` use.

Modules: `Transactions` holds the value types. `TxHandler`, `BlockChain`
and `CompliantNode` each follow their Java class. `Scenarios` holds worked
examples on concrete blocks.

Hashing and signatures are parameters. Transaction and block hashes are
fields. `verifySignature` and `getRawDataToSign` are function-valued fields
of a `Crypto` record, which every validating operation takes as an argument.
Because values are immutable, the handler's "copy of the pool" and the
ledger's per-block snapshots are independent by construction.
`AddBlockAccepted` proves that accepting a block leaves every other entry
unchanged, including the parent's snapshot, unless the block's hash is its
parent's hash.

## Model

| member | source | states |
|---|---|---|
| TxHandler.IsValidTx | assignment3starterCode/TxHandler.java:27-63 | the transaction is reported valid exactly when all five rules hold: claims in pool, signatures verify, no double claim, outputs non-negative, input sum at least output sum |
| TxHandler.ScanInputs | assignment3starterCode/TxHandler.java:31-49 | the input pass succeeds exactly when every claim is in the pool, every signature verifies against the claimed output's address and payload i, and no claim repeats; on success it has summed the claimed values |
| TxHandler.ScanOutputs | assignment3starterCode/TxHandler.java:50-57 | the output pass succeeds exactly when no output value is negative; on success it has summed the output values |
| TxHandler.Apply | assignment3starterCode/TxHandler.java:75-85 | after applying a transaction, output i sits at (tx hash, i); claimed outputs it does not re-create are gone; every other entry is unchanged, and nothing else appears |
| TxHandler.ApplyInPlace | assignment3starterCode/TxHandler.java:75-84 | the remove-each-input then add-each-output loops produce exactly `Apply` |
| TxHandler.HandleSubsequence | assignment3starterCode/TxHandler.java:70-88 | the accepted transactions are a subsequence of the candidates, in their original order |
| TxHandler.HandleSnoc | assignment3starterCode/TxHandler.java:72-85 | the greedy rule: one more candidate at the end of a batch is kept and applied exactly when it is valid against the pool the earlier candidates left; otherwise the batch's accepted list and pool are unchanged |
| TxHandler.HandleOne | assignment3starterCode/TxHandler.java:72-85 | one pass of Java's loop body, validity check then in-place update, extends the batch of the first n candidates to that of the first n + 1 |
| TxHandler.HandleTxs | assignment3starterCode/TxHandler.java:70-88 | Java's batch loop, with its per-call validity re-check and pool mutation, returns the same accepted list and final pool as the reference semantics `Handle` |
| TxHandler.HandleSound | assignment3starterCode/TxHandler.java:72-85 | each accepted transaction was valid against the pool left by the accepted ones before it, and the final pool is their in-order application |
| TxHandler.HandleAllIff | assignment3starterCode/TxHandler.java:70-87 | a batch keeps every candidate exactly when they are all valid in order, and then the final pool is their in-order application |
| TxHandler.ValidTestChecksClaims | assignment3starterCode/TxHandler.java:35-37 | `isValidTx` accepts a transaction only when every output it claims is in the pool |
| TxHandler.NoDoubleSpend | assignment3starterCode/TxHandler.java:72-85 | for any validity test that, like `isValidTx`, insists claimed outputs are in the pool, and with fresh transaction hashes, no output is spent by two accepted transactions of one batch |
| TxHandler.DeadStaysDead | assignment3starterCode/TxHandler.java:35-37 | for any validity test that insists claimed outputs are in the pool, an output absent from the pool that no batch transaction can re-create is spent by no accepted transaction |
| TxHandler.NewHandler | assignment3starterCode/TxHandler.java:14-16 | the handler starts from the given pool |
| TxHandler.GetUTXOPool | assignment3starterCode/TxHandler.java:90-92 | the returned pool is the handler's whole state: building a handler from it gives back the same handler |
| BlockChain.AddCoinBase | assignment3starterCode/BlockChain.java:98-105 | coinbase output i is added at (coinbase hash, i), without validation; every other entry is unchanged |
| BlockChain.NewBlockChain | assignment3starterCode/BlockChain.java:23-30 | genesis is the only block, at height 1, with maxHeight 1, and its snapshot holds exactly the coinbase outputs keyed (coinbase hash, i) |
| BlockChain.NewBlockChainInv | assignment3starterCode/BlockChain.java:23-30 | a fresh ledger, from a genesis block without parent, satisfies the ledger invariant |
| BlockChain.FirstAtHeight | assignment3starterCode/BlockChain.java:33-41 | the result is the first position in insertion order whose height matches; no result means no recorded block has that height |
| BlockChain.GetMaxHeightBlock | assignment3starterCode/BlockChain.java:33-41 | a block is returned exactly when some recorded block sits at maxHeight, and then it is the first such block in insertion order; otherwise the result is Java's `null` |
| BlockChain.GetMaxHeightUTXOPool | assignment3starterCode/BlockChain.java:44-46 | a pool is returned exactly when there is a max-height block and its hash is recorded, and it is the snapshot recorded under that hash; with no max-height block there is no pool (Java throws) |
| BlockChain.MaxHeightBlockFound | assignment3starterCode/BlockChain.java:33-46 | under the invariant, `getMaxHeightBlock` never reaches `null`: it returns the first block in insertion order at maxHeight, and `getMaxHeightUTXOPool` returns that block's snapshot |
| BlockChain.AddBlock | assignment3starterCode/BlockChain.java:65-96 | a block is accepted exactly when its parent is on record, it is not stale, and its transactions are valid in order on the parent's snapshot; a rejection changes nothing; an acceptance records the block with the replayed snapshot plus coinbase, and sets maxHeight from the parent's height as re-read after the block's own height is written |
| BlockChain.AddBlockRejects | assignment3starterCode/BlockChain.java:66-79 | rejection for a missing parent hash, an unknown parent, height parent+1 at or below maxHeight - CUT_OFF_AGE, or a handler that drops any transaction |
| BlockChain.AddBlockAccepted | assignment3starterCode/BlockChain.java:80-93 | on acceptance the block sits at parent height + 1 with the handler's pool plus the coinbase; all other entries, including the parent's snapshot unless the block's hash is its parent's hash, are unchanged; maxHeight becomes the larger of the old value and parent height + 1, or parent height + 2 when the block's hash is its parent's hash, because line 92 re-reads the height line 91 just wrote; the block's transactions leave the pending pool and no other pending entry changes |
| BlockChain.AddBlockMonotone | assignment3starterCode/BlockChain.java:65-96 | maxHeight never decreases, and a rejected block leaves the whole state, pending pool included, unchanged |
| BlockChain.PendingPool | assignment3starterCode/BlockChain.java:48-51 | the pool `getTransactionPool` returns holds a transaction under its hash after `addTransaction`, loses an accepted block's transactions, and is unchanged by a rejected block |
| BlockChain.AddTransaction | assignment3starterCode/BlockChain.java:108-110 | the transaction is inserted under its hash; no other pending entry and no ledger entry changes |
| BlockChain.AddBlockInv | assignment3starterCode/BlockChain.java:65-96 | `addBlock` preserves the ledger invariant, given that the block's hash does not collide with a different recorded block |
| BlockChain.ReAddKeepsEntries | assignment3starterCode/BlockChain.java:90-93 | when a block already on record is offered again and passes the parent, staleness and validity checks, accepting it changes no entry, order or best height |
| BlockChain.AddNewBlockInv | assignment3starterCode/BlockChain.java:89-93 | accepting a block with a new hash keeps order, heights and parent links consistent |
| BlockChain.AcceptedEntryLinked | assignment3starterCode/BlockChain.java:74-93 | the recorded entry of an accepted block is one above its parent, with transactions valid in order on the parent's snapshot and the resulting snapshot |
| BlockChain.LinkedExtend | assignment3starterCode/BlockChain.java:90-93 | recording a new linked entry keeps every entry linked to its parent |
| BlockChain.AddNewBlockOrder | assignment3starterCode/BlockChain.java:14 | the insertion order keeps every recorded hash exactly once |
| BlockChain.AddNewBlockHeights | assignment3starterCode/BlockChain.java:91-92 | all heights stay within 1..maxHeight and some block sits at maxHeight |
| BlockChain.AddTransactionInv | assignment3starterCode/BlockChain.java:108-110 | `addTransaction` preserves the ledger invariant |
| BlockChain.ExecInv | assignment3starterCode/BlockChain.java:26 | over any run of calls whose block hashes identify blocks, the invariant holds and `getMaxHeightBlock` never returns `null` |
| BlockChain.Exec | assignment3starterCode/BlockChain.java:92 | maxHeight never decreases across a run of calls |
| BlockChain.IdentityLookupMissesEqualHash | assignment3starterCode/BlockChain.java:66 | with `byte[]` keys, a parent named by an equal-content but distinct array is not found |
| BlockChain.ValueLookupFindsEqualHash | assignment3starterCode/BlockChain.java:66 | with value-typed hashes, a block naming a recorded hash as its parent finds it: it is accepted exactly when it is not stale and its transactions are valid in order on that parent's snapshot |
| BlockChain.ContainsByIdentity | assignment3starterCode/BlockChain.java:14-16 | an identity-keyed lookup succeeds whenever the very same array is a key, only when a key with the same contents is present, and never when no key has the same identity, whatever the contents |
| Scenarios.PaymentScenario | assignment3starterCode/BlockChain.java:65-96 | genesis mints 100 to Alice; a block paying 60 to Bob and 40 to Carol is accepted and is the best block at height 2; its snapshot holds Bob's and Carol's outputs but not Alice's; genesis keeps Alice's |
| Scenarios.StaleScenario | assignment3starterCode/BlockChain.java:58-61 | a block on the genesis block (height 2) is accepted exactly when maxHeight is at most CUT_OFF_AGE + 1 and its transactions are valid in order; above that it is rejected and nothing changes |
| Scenarios.SelfParentScenario | assignment3starterCode/BlockChain.java:90-92 | a block whose hash equals its parent's is accepted on the genesis ledger; the entry moves to height 2 but maxHeight becomes 3, so `getMaxHeightBlock` finds no block and the pool getter has none |
| CompliantNode.NewNode | assignment2starterCode/CompliantNode.java:12-23 | a new node has used no rounds, sent nothing and seen nothing |
| CompliantNode.SetPendingTransaction | assignment2starterCode/CompliantNode.java:28-32 | each given transaction's count rises by exactly 1; all other counts, the round and the sent set are unchanged |
| CompliantNode.ReceiveFromFollowees | assignment2starterCode/CompliantNode.java:58-63 | each transaction's count rises by the number of candidates carrying it; the round and the sent set are unchanged |
| CompliantNode.CarryingStep | assignment2starterCode/CompliantNode.java:59-62 | one more candidate adds one to the number of candidates carrying its transaction and none to the others |
| CompliantNode.SendToFollowers | assignment2starterCode/CompliantNode.java:34-56 | while rounds remain: returns exactly the known, not-yet-sent transactions, adds them to the sent set, and uses one round; afterwards: returns exactly the transactions seen more than once and changes nothing, so repeated calls agree |
| CompliantNode.Run | assignment2starterCode/CompliantNode.java:34-45 | across any run of calls, no transaction is forwarded twice; each forwarding call uses one round; the round never passes numRounds, or its starting value if that was larger |

## Left out

- Java `double` values are modelled as unbounded integers, so rounding, overflow, infinities and NaN are not modelled. With NaN, `op.value < 0` (TxHandler.java:53) and `totalInputValue < totalOutputValue` (line 59) are both false, so rules (4) and (5) pass; spending an output worth NaN would let a transaction create any amount. The integer model cannot show this.
- `Crypto.verifySignature`, `Transaction.getRawDataToSign` and the SHA-256 hashing behind `getHash` are not part of this model. The first two are parameters; hashes are fields.
- `Transaction`, `Block`, `UTXO`, `UTXOPool` and `TransactionPool` are not part of this model. They are replaced by datatypes and maps with the same observable behaviour: the pending pool is a map keyed by transaction hash.
- The three Java maps of `BlockChain` (lines 14-16) are one map of entries plus the insertion order, which is the only thing the `LinkedHashMap` adds. The maps' keys are compared by contents, not by array identity; see Findings.
- Pruning is not modelled. The header comment of `BlockChain.java` mentions limited memory, but no code removes entries, so the retention-window property does not hold of `BlockChain.java` and is not claimed.
- `addBlock` has no duplicate check. A block whose hash is already on record is accepted again whenever it passes the parent, staleness and validity checks, and the entry keeps its place in insertion order. A duplicate offered once maxHeight has moved far enough past its parent is rejected as stale, like any other block.
- The coinbase transaction is never validated, as in `BlockChain.java`.
- `GetMaxHeightUTXOPool` returns `None` where Java would throw a `NullPointerException`.
- Aliasing of the returned `UTXOPool` and `TransactionPool` objects is not modelled, since values are immutable. A caller mutating them in Java would change the ledger.
- BlockChain.AddBlockInv: requires that the block's hash does not name a different recorded block. Under such a collision `addBlock` overwrites an entry, can lower the height stored for a hash, and can leave no block at `maxHeight`. This excludes a block whose hash is its own parent's hash. `SelfParentScenario` shows `addBlock` accepting such a block and leaving no block at `maxHeight`.
- TxHandler.NoDoubleSpend: requires fresh transaction hashes: pairwise distinct within the batch, and not already in the pool. Without them, a later transaction with a repeated hash can re-create an output that was already spent, which lets it be spent again.
- BlockChain.NewBlockChainInv: requires the genesis block to have no parent hash. The Java constructor assumes a valid genesis block and does not check this.
- In `CompliantNode`: the probability fields, the unused `receivedTxs` set and the empty `setFollowees` (lines 9-11, 15, 25-26) carry no behaviour. The simulation driver and the `Candidate`/`Node` types are not part of this model. `Candidate` is a pair of a transaction and a sender.
- The Java integer counts in `CompliantNode` are unbounded here.
- Block heights, `maxHeight` and output indices are Java `int` (BlockChain.java:12, 14, 91-92; the index loops of TxHandler.java) and are unbounded here. Overflow would need about 2^31 blocks or outputs, so it is not modelled.

## Findings

| source | as written | input that shows it | evidently intended | confidence | as-written member | corrected member |
|---|---|---|---|---|---|---|
| assignment3starterCode/BlockChain.java:14-16 | the ledger maps are keyed by `byte[]`, which Java compares by identity, so `containsKey(block.getPrevBlockHash())` at line 66 finds the parent only if the block holds the very array stored as the key | a block whose previous hash equals the genesis hash in contents but is a different array | look up parents by hash contents | medium, not executed: it only bites callers that do not reuse the parent's own hash array | BlockChain.IdentityLookupMissesEqualHash | BlockChain.ValueLookupFindsEqualHash |
