/**
 * The block-chain fork ledger (`BlockChain`).
 *
 * `BlockChain.java` keeps three maps keyed by block hash (height in a
 * `LinkedHashMap`, block and unspent-output snapshot in plain maps), all
 * written together. Here they are one map from hash to `Entry` plus the
 * insertion order of its keys, which is all the `LinkedHashMap` contributes.
 * `AddBlock` is a state transition returning whether the block was accepted
 * and the new ledger state.
 */
module BlockChain {

  import opened Optional
  import opened Transactions
  import opened TxHandler

  /** How far behind the best height a block may extend a branch. */
  const CUT_OFF_AGE: int := 10

  /** A block: its hash, its parent's hash (absent for genesis), its coinbase and its transactions. */
  datatype Block = Block(hash: Hash, prevBlockHash: Option<Hash>, coinbase: Transaction, txs: seq<Transaction>)

  /** What the ledger records for one block hash. */
  datatype Entry = Entry(block: Block, height: int, utxoPool: Pool)

  /**
   * The ledger state: entries by block hash, the keys in first-insertion
   * order, the best height, and the pending-transaction pool keyed by
   * transaction hash.
   */
  datatype Chain = Chain(order: seq<Hash>, entries: map<Hash, Entry>, maxHeight: int, txPool: map<Hash, Transaction>)

  /** The result of `addBlock`: whether the block was accepted, and the ledger afterwards. */
  datatype Step = Step(accepted: bool, chain: Chain)

  /** `addCoinBase`: add every coinbase output `(coinbase.hash, i)`, without validating the coinbase. */
  function AddCoinBase(block: Block, pool: Pool): (r: Pool)
    ensures forall i :: 0 <= i < |block.coinbase.outputs| ==>
      UTXO(block.coinbase.hash, i) in r && r[UTXO(block.coinbase.hash, i)] == block.coinbase.outputs[i]
    ensures forall u :: !Creates(block.coinbase.hash, block.coinbase.outputs, u) ==>
      (u in r <==> u in pool) && (u in r ==> r[u] == pool[u])
  {
    pool + OutputsMap(block.coinbase.hash, block.coinbase.outputs)
  }

  /** The constructor: the genesis block alone, at height 1, with a snapshot of its coinbase outputs. */
  function NewBlockChain(genesisBlock: Block): (c: Chain)
    ensures c.order == [genesisBlock.hash] && c.entries.Keys == {genesisBlock.hash}
    ensures c.entries[genesisBlock.hash].block == genesisBlock
    ensures c.entries[genesisBlock.hash].height == 1 && c.maxHeight == 1
    ensures forall u :: u in c.entries[genesisBlock.hash].utxoPool <==>
      u.txHash == genesisBlock.coinbase.hash && 0 <= u.index < |genesisBlock.coinbase.outputs|
    ensures forall i :: 0 <= i < |genesisBlock.coinbase.outputs| ==>
      c.entries[genesisBlock.hash].utxoPool[UTXO(genesisBlock.coinbase.hash, i)] == genesisBlock.coinbase.outputs[i]
    ensures c.txPool == map[]
  {
    var utxoPool := AddCoinBase(genesisBlock, map[]);
    Chain([genesisBlock.hash], map[genesisBlock.hash := Entry(genesisBlock, 1, utxoPool)], 1, map[])
  }

  /** The index of the first hash in `order` whose recorded height is `h`, if any. */
  function FirstAtHeight(order: seq<Hash>, entries: map<Hash, Entry>, h: int): (r: Option<nat>)
    ensures r.Some? ==> r.value < |order| && order[r.value] in entries && entries[order[r.value]].height == h
    ensures r.Some? ==> forall j :: 0 <= j < r.value ==> !(order[j] in entries && entries[order[j]].height == h)
    ensures r.None? ==> forall j :: 0 <= j < |order| ==> !(order[j] in entries && entries[order[j]].height == h)
  {
    if |order| == 0 then None
    else if order[0] in entries && entries[order[0]].height == h then Some(0)
    else
      match FirstAtHeight(order[1..], entries, h)
      case None => None
      case Some(i) => Some(i + 1)
  }

  /** `getMaxHeightBlock`: the first recorded block, in insertion order, at the best height; `None` for Java's `null`. */
  function GetMaxHeightBlock(c: Chain): (r: Option<Block>)
    ensures r.Some? <==> exists i :: 0 <= i < |c.order| && c.order[i] in c.entries && c.entries[c.order[i]].height == c.maxHeight
    ensures r.Some? ==> exists i ::
      && 0 <= i < |c.order| && c.order[i] in c.entries && c.entries[c.order[i]].height == c.maxHeight
      && r.value == c.entries[c.order[i]].block
      && (forall j :: 0 <= j < i ==> !(c.order[j] in c.entries && c.entries[c.order[j]].height == c.maxHeight))
  {
    match FirstAtHeight(c.order, c.entries, c.maxHeight)
    case None => None
    case Some(i) => Some(c.entries[c.order[i]].block)
  }

  /** `getMaxHeightUTXOPool`: the snapshot recorded under the best block's hash (`None` where Java would fail). */
  function GetMaxHeightUTXOPool(c: Chain): (r: Option<Pool>)
    ensures r.Some? <==> GetMaxHeightBlock(c).Some? && GetMaxHeightBlock(c).value.hash in c.entries
    ensures r.Some? ==> r.value == c.entries[GetMaxHeightBlock(c).value.hash].utxoPool
  {
    match GetMaxHeightBlock(c)
    case None => None
    case Some(b) => if b.hash in c.entries then Some(c.entries[b.hash].utxoPool) else None
  }

  /** `getTransactionPool`. */
  function GetTransactionPool(c: Chain): map<Hash, Transaction>
  {
    c.txPool
  }

  /** The hashes of a sequence of transactions. */
  function TxHashes(txs: seq<Transaction>): (s: set<Hash>)
    ensures forall i :: 0 <= i < |txs| ==> txs[i].hash in s
    ensures forall h :: h in s ==> exists i :: 0 <= i < |txs| && txs[i].hash == h
  {
    set i | 0 <= i < |txs| :: txs[i].hash
  }

  /** The parent entry of a block, when the block names one that is on record. */
  function Parent(c: Chain, block: Block): Option<Entry>
  {
    if block.prevBlockHash.Some? && block.prevBlockHash.value in c.entries
    then Some(c.entries[block.prevBlockHash.value])
    else None
  }

  /** The snapshot a block leaves on top of its parent's: its transactions in order, then its coinbase. */
  function Snapshot(parentPool: Pool, block: Block): Pool
  {
    AddCoinBase(block, Replay(parentPool, block.txs))
  }

  /** The acceptance condition of `addBlock`: known parent, not stale, every transaction valid in order. */
  predicate Acceptable(crypto: Crypto, c: Chain, block: Block)
  {
    && Parent(c, block).Some?
    && Parent(c, block).value.height + 1 > c.maxHeight - CUT_OFF_AGE
    && ValidInOrder(ValidTest(crypto), Parent(c, block).value.utxoPool, block.txs)
  }

  /**
   * The ledger after accepting `block` one above `parent` with snapshot
   * `utxoPool`: the block's transactions leave the pending pool, the entry is
   * recorded (keeping its place in the order if the hash is already on
   * record), and the best height is raised if need be. As `BlockChain.java`
   * does, the best height is computed from the parent's height read back
   * from the map after the new entry is written; so a block whose hash is
   * its own parent's hash raises it to the parent's height plus two.
   */
  function Extend(c: Chain, block: Block, parent: Entry, utxoPool: Pool): (r: Chain)
    ensures r.entries == c.entries[block.hash := Entry(block, parent.height + 1, utxoPool)]
    ensures block.prevBlockHash != Some(block.hash) ==>
      r.maxHeight == (if parent.height + 1 > c.maxHeight then parent.height + 1 else c.maxHeight)
    ensures block.prevBlockHash == Some(block.hash) ==>
      r.maxHeight == (if parent.height + 2 > c.maxHeight then parent.height + 2 else c.maxHeight)
    ensures r.txPool.Keys == c.txPool.Keys - TxHashes(block.txs)
    ensures forall h :: h in r.txPool ==> r.txPool[h] == c.txPool[h]
    ensures r.order == (if block.hash in c.entries then c.order else c.order + [block.hash])
  {
    var txPool := c.txPool - TxHashes(block.txs);
    var height := parent.height + 1;
    var order := if block.hash in c.entries then c.order else c.order + [block.hash];
    var entries := c.entries[block.hash := Entry(block, height, utxoPool)];
    // The parent's height as read back after the write: the new height when the parent's hash is the block's own.
    var reread := if block.prevBlockHash == Some(block.hash) then height else parent.height;
    var maxHeight := if reread + 1 > c.maxHeight then reread + 1 else c.maxHeight;
    Chain(order, entries, maxHeight, txPool)
  }

  /**
   * `addBlock`. Rejects, leaving the ledger untouched, a block whose parent
   * is absent or unknown, a block that would sit at or below
   * `maxHeight - CUT_OFF_AGE`, and a block one of whose transactions the
   * handler drops. Otherwise records the block one above its parent with
   * the handler's pool plus the coinbase outputs.
   */
  function AddBlock(crypto: Crypto, c: Chain, block: Block): (r: Step)
    ensures r.accepted <==> Acceptable(crypto, c, block)
    ensures !r.accepted ==> r.chain == c
    ensures r.accepted ==>
      r.chain == Extend(c, block, Parent(c, block).value, Snapshot(Parent(c, block).value.utxoPool, block))
  {
    if block.prevBlockHash.None? || block.prevBlockHash.value !in c.entries then
      Step(false, c)
    else
      var parent := c.entries[block.prevBlockHash.value];
      if parent.height + 1 <= c.maxHeight - CUT_OFF_AGE then
        Step(false, c)
      else
        var batch := Handle(ValidTest(crypto), parent.utxoPool, block.txs);
        HandleAllIff(ValidTest(crypto), parent.utxoPool, block.txs);
        if |batch.accepted| != |block.txs| then
          Step(false, c)
        else
          var utxoPool := AddCoinBase(block, batch.pool);
          Step(true, Extend(c, block, parent, utxoPool))
  }

  /** `maxHeight` never decreases, and a rejected block changes nothing, pending pool included. */
  lemma AddBlockMonotone(crypto: Crypto, c: Chain, block: Block)
    ensures AddBlock(crypto, c, block).chain.maxHeight >= c.maxHeight
    ensures !AddBlock(crypto, c, block).accepted ==> AddBlock(crypto, c, block).chain == c
  {
  }

  /** The three ways `addBlock` rejects a block. */
  lemma AddBlockRejects(crypto: Crypto, c: Chain, block: Block)
    ensures block.prevBlockHash.None? ==> !AddBlock(crypto, c, block).accepted
    ensures block.prevBlockHash.Some? && block.prevBlockHash.value !in c.entries ==> !AddBlock(crypto, c, block).accepted
    ensures block.prevBlockHash.Some? && block.prevBlockHash.value in c.entries
         && c.entries[block.prevBlockHash.value].height + 1 <= c.maxHeight - CUT_OFF_AGE
        ==> !AddBlock(crypto, c, block).accepted
    ensures block.prevBlockHash.Some? && block.prevBlockHash.value in c.entries
         && |Handle(ValidTest(crypto), c.entries[block.prevBlockHash.value].utxoPool, block.txs).accepted| < |block.txs|
        ==> !AddBlock(crypto, c, block).accepted
  {
    if block.prevBlockHash.Some? && block.prevBlockHash.value in c.entries {
      HandleAllIff(ValidTest(crypto), c.entries[block.prevBlockHash.value].utxoPool, block.txs);
    }
  }

  /**
   * What an accepted block changes: it is recorded one above its parent,
   * with the handler's pool on the parent's snapshot plus the coinbase
   * outputs; no other entry changes, the parent's snapshot included; the
   * best height becomes the larger of the old one and the new block's; its
   * transactions leave the pending pool and no other pending entry changes.
   */
  lemma AddBlockAccepted(crypto: Crypto, c: Chain, block: Block)
    requires AddBlock(crypto, c, block).accepted
    ensures block.prevBlockHash.Some? && block.prevBlockHash.value in c.entries
    ensures var parent := c.entries[block.prevBlockHash.value];
      var c' := AddBlock(crypto, c, block).chain;
      && block.hash in c'.entries
      && c'.entries[block.hash].block == block
      && c'.entries[block.hash].height == parent.height + 1
      && c'.entries[block.hash].utxoPool == AddCoinBase(block, Handle(ValidTest(crypto), parent.utxoPool, block.txs).pool)
      && (forall h :: h in c.entries && h != block.hash ==> h in c'.entries && c'.entries[h] == c.entries[h])
      && (block.hash != block.prevBlockHash.value ==>
            c'.maxHeight == (if parent.height + 1 > c.maxHeight then parent.height + 1 else c.maxHeight))
      && (block.hash == block.prevBlockHash.value ==>
            c'.maxHeight == (if parent.height + 2 > c.maxHeight then parent.height + 2 else c.maxHeight))
      && (forall i :: 0 <= i < |block.txs| ==> block.txs[i].hash !in c'.txPool)
      && (forall h :: h in c.txPool && h !in TxHashes(block.txs) ==> h in c'.txPool && c'.txPool[h] == c.txPool[h])
      && (forall h :: h in c'.txPool ==> h in c.txPool)
  {
    var parent := c.entries[block.prevBlockHash.value];
    HandleAllIff(ValidTest(crypto), parent.utxoPool, block.txs);
  }

  /**
   * The pending pool as `getTransactionPool` shows it: `addTransaction` puts
   * a transaction in under its hash, an accepted block takes its own
   * transactions out, and a rejected block leaves the pool as it was.
   */
  lemma PendingPool(crypto: Crypto, c: Chain, tx: Transaction, block: Block)
    ensures tx.hash in GetTransactionPool(AddTransaction(c, tx))
         && GetTransactionPool(AddTransaction(c, tx))[tx.hash] == tx
    ensures AddBlock(crypto, c, block).accepted ==>
      forall i :: 0 <= i < |block.txs| ==> block.txs[i].hash !in GetTransactionPool(AddBlock(crypto, c, block).chain)
    ensures !AddBlock(crypto, c, block).accepted ==>
      GetTransactionPool(AddBlock(crypto, c, block).chain) == GetTransactionPool(c)
  {
  }

  /** `addTransaction`: insert into the pending pool, no validation. */
  function AddTransaction(c: Chain, tx: Transaction): (r: Chain)
    ensures r.txPool.Keys == c.txPool.Keys + {tx.hash} && r.txPool[tx.hash] == tx
    ensures forall h :: h in c.txPool && h != tx.hash ==> r.txPool[h] == c.txPool[h]
    ensures r.order == c.order && r.entries == c.entries && r.maxHeight == c.maxHeight
  {
    c.(txPool := c.txPool[tx.hash := tx])
  }

  /**
   * The ledger invariant:
   * - the insertion order lists each recorded hash exactly once;
   * - each entry is stored under its block's hash;
   * - every height lies in 1..maxHeight, and some entry sits at maxHeight;
   * - a block without parent is at height 1; any other block's parent is
   *   on record, the block sits one above it, its transactions were valid
   *   in order against the parent's snapshot, and its snapshot is the
   *   parent's after those transactions and the coinbase.
   */
  ghost predicate Inv(crypto: Crypto, c: Chain)
  {
    && OrderOk(c)
    && HeightsOk(c)
    && Linked(crypto, c.entries)
  }

  ghost predicate Linked(crypto: Crypto, entries: map<Hash, Entry>)
  {
    forall h {:trigger WellLinked(crypto, entries, entries[h])} :: h in entries ==> WellLinked(crypto, entries, entries[h])
  }

  ghost predicate OrderOk(c: Chain)
  {
    && (forall i, j :: 0 <= i < j < |c.order| ==> c.order[i] != c.order[j])
    && (forall h :: h in c.entries <==> h in c.order)
    && (forall h :: h in c.entries ==> c.entries[h].block.hash == h)
  }

  ghost predicate HeightsOk(c: Chain)
  {
    && (forall h :: h in c.entries ==> 1 <= c.entries[h].height <= c.maxHeight)
    && (exists h :: h in c.entries && c.entries[h].height == c.maxHeight)
  }

  /** An entry's link to its parent among `entries`, as `addBlock` establishes it. */
  ghost predicate WellLinked(crypto: Crypto, entries: map<Hash, Entry>, e: Entry)
  {
    match e.block.prevBlockHash
    case None => e.height == 1
    case Some(p) =>
      && p in entries
      && e.height == entries[p].height + 1
      && ValidInOrder(ValidTest(crypto), entries[p].utxoPool, e.block.txs)
      && e.utxoPool == Snapshot(entries[p].utxoPool, e.block)
  }

  /** A block either has a new hash or is the very block already recorded under it. */
  predicate Consistent(c: Chain, block: Block)
  {
    block.hash in c.entries ==> c.entries[block.hash].block == block
  }

  /** A fresh ledger satisfies the invariant, given a genesis block without parent. */
  lemma NewBlockChainInv(crypto: Crypto, genesisBlock: Block)
    requires genesisBlock.prevBlockHash.None?
    ensures Inv(crypto, NewBlockChain(genesisBlock))
  {
    var c := NewBlockChain(genesisBlock);
    assert c.entries[genesisBlock.hash].height == c.maxHeight;
  }

  /**
   * `addBlock` preserves the invariant, provided the block's hash does not
   * collide with a different recorded block.
   */
  lemma AddBlockInv(crypto: Crypto, c: Chain, block: Block)
    requires Inv(crypto, c) && Consistent(c, block)
    ensures Inv(crypto, AddBlock(crypto, c, block).chain)
  {
    if AddBlock(crypto, c, block).accepted {
      if block.hash in c.entries {
        ReAddKeepsEntries(crypto, c, block);
      } else {
        AddNewBlockInv(crypto, c, block);
      }
    }
  }

  /** Accepting a block that is already on record changes no entry, no order and no best height. */
  lemma ReAddKeepsEntries(crypto: Crypto, c: Chain, block: Block)
    requires HeightsOk(c) && Consistent(c, block) && block.hash in c.entries
    requires WellLinked(crypto, c.entries, c.entries[block.hash])
    requires AddBlock(crypto, c, block).accepted
    ensures var c' := AddBlock(crypto, c, block).chain;
      c'.entries == c.entries && c'.order == c.order && c'.maxHeight == c.maxHeight
  {
    var parent := Parent(c, block).value;
    var e := c.entries[block.hash];
    assert e.block == block;
    assert e.height == parent.height + 1;
    assert e.utxoPool == Snapshot(parent.utxoPool, block);
  }

  /** Accepting a block with a new hash keeps every invariant. */
  lemma AddNewBlockInv(crypto: Crypto, c: Chain, block: Block)
    requires Inv(crypto, c)
    requires block.hash !in c.entries && AddBlock(crypto, c, block).accepted
    ensures Inv(crypto, AddBlock(crypto, c, block).chain)
  {
    var c' := AddBlock(crypto, c, block).chain;
    var e := AcceptedEntryLinked(crypto, c, block);
    LinkedExtend(crypto, c.entries, block.hash, e);
    AddNewBlockOrder(crypto, c, block);
    AddNewBlockHeights(crypto, c, block);
  }

  /** The entry `addBlock` records for an accepted block is linked to its parent. */
  lemma AcceptedEntryLinked(crypto: Crypto, c: Chain, block: Block) returns (e: Entry)
    requires AddBlock(crypto, c, block).accepted
    ensures AddBlock(crypto, c, block).chain.entries == c.entries[block.hash := e]
    ensures WellLinked(crypto, c.entries, e)
  {
    assert Acceptable(crypto, c, block);
    var p := block.prevBlockHash.value;
    var parent := c.entries[p];
    assert Parent(c, block) == Some(parent);
    e := Entry(block, parent.height + 1, Snapshot(parent.utxoPool, block));
    assert AddBlock(crypto, c, block).chain == Extend(c, block, parent, e.utxoPool);
  }

  /** Recording a new entry whose parent is on record keeps every entry linked. */
  lemma LinkedExtend(crypto: Crypto, entries: map<Hash, Entry>, k: Hash, e: Entry)
    requires Linked(crypto, entries) && k !in entries && WellLinked(crypto, entries, e)
    ensures Linked(crypto, entries[k := e])
  {
    var entries' := entries[k := e];
    forall h | h in entries' ensures WellLinked(crypto, entries', entries'[h]) {
      if h != k {
        assert WellLinked(crypto, entries, entries[h]);
      }
    }
  }

  lemma AddNewBlockOrder(crypto: Crypto, c: Chain, block: Block)
    requires OrderOk(c)
    requires block.hash !in c.entries && AddBlock(crypto, c, block).accepted
    ensures OrderOk(AddBlock(crypto, c, block).chain)
  {
    var c' := AddBlock(crypto, c, block).chain;
    forall i, j | 0 <= i < j < |c'.order| ensures c'.order[i] != c'.order[j] {
      if j == |c.order| {
        assert c.order[i] in c.entries;
      }
    }
  }

  lemma AddNewBlockHeights(crypto: Crypto, c: Chain, block: Block)
    requires HeightsOk(c)
    requires block.hash !in c.entries && AddBlock(crypto, c, block).accepted
    ensures HeightsOk(AddBlock(crypto, c, block).chain)
  {
    var c' := AddBlock(crypto, c, block).chain;
    var parent := Parent(c, block).value;
    if parent.height + 1 > c.maxHeight {
      assert c'.entries[block.hash].height == c'.maxHeight;
    } else {
      var h :| h in c.entries && c.entries[h].height == c.maxHeight;
      assert c'.entries[h].height == c'.maxHeight;
    }
  }

  /** `addTransaction` preserves the invariant. */
  lemma AddTransactionInv(crypto: Crypto, c: Chain, tx: Transaction)
    requires Inv(crypto, c)
    ensures Inv(crypto, AddTransaction(c, tx))
  {
    var c' := AddTransaction(c, tx);
    var h :| h in c.entries && c.entries[h].height == c.maxHeight;
    assert c'.entries[h].height == c'.maxHeight;
  }

  /**
   * Under the invariant `getMaxHeightBlock` never reaches its `null` branch:
   * it returns the first block in insertion order at the best height, and
   * `getMaxHeightUTXOPool` returns that block's snapshot.
   */
  lemma MaxHeightBlockFound(c: Chain)
    requires OrderOk(c) && HeightsOk(c)
    ensures GetMaxHeightBlock(c).Some?
    ensures exists i ::
      && 0 <= i < |c.order|
      && c.entries[c.order[i]].height == c.maxHeight
      && GetMaxHeightBlock(c).value == c.entries[c.order[i]].block
      && (forall j :: 0 <= j < i ==> c.entries[c.order[j]].height != c.maxHeight)
    ensures GetMaxHeightUTXOPool(c).Some?
    ensures GetMaxHeightUTXOPool(c).value == c.entries[GetMaxHeightBlock(c).value.hash].utxoPool
  {
    var h :| h in c.entries && c.entries[h].height == c.maxHeight;
    assert h in c.order;
    var k :| 0 <= k < |c.order| && c.order[k] == h;
    var r := FirstAtHeight(c.order, c.entries, c.maxHeight);
    assert r.Some?;
    var i := r.value;
    assert forall j :: 0 <= j < i ==> c.order[j] in c.entries;
  }

  /** A call on the ledger. */
  datatype Op = AddBlockOp(block: Block) | AddTransactionOp(tx: Transaction)

  /** The ledger after a sequence of calls, each rejected block leaving it as it was. */
  function Exec(crypto: Crypto, c: Chain, ops: seq<Op>): (r: Chain)
    ensures r.maxHeight >= c.maxHeight
    decreases |ops|
  {
    if |ops| == 0 then c
    else
      var next := match ops[0]
        case AddBlockOp(b) => AddBlock(crypto, c, b).chain
        case AddTransactionOp(tx) => AddTransaction(c, tx);
      Exec(crypto, next, ops[1..])
  }

  /**
   * Block hashes identify blocks: no offered block collides with a
   * different recorded block, nor with a different offered block.
   */
  ghost predicate HashesIdentify(c: Chain, ops: seq<Op>)
  {
    && (forall i :: 0 <= i < |ops| && ops[i].AddBlockOp? ==> Consistent(c, ops[i].block))
    && (forall i, j ::
          (0 <= i < |ops| && 0 <= j < |ops| && ops[i].AddBlockOp? && ops[j].AddBlockOp?
           && ops[i].block.hash == ops[j].block.hash)
          ==> ops[i].block == ops[j].block)
  }

  /** After the first call, the remaining calls still identify blocks by hash. */
  lemma HashesIdentifyStep(crypto: Crypto, c: Chain, ops: seq<Op>)
    requires |ops| > 0 && HashesIdentify(c, ops)
    ensures ops[0].AddBlockOp? ==> HashesIdentify(AddBlock(crypto, c, ops[0].block).chain, ops[1..])
    ensures ops[0].AddTransactionOp? ==> HashesIdentify(AddTransaction(c, ops[0].tx), ops[1..])
  {
    var rest := ops[1..];
    forall i, j | 0 <= i < |rest| && 0 <= j < |rest| && rest[i].AddBlockOp? && rest[j].AddBlockOp?
        && rest[i].block.hash == rest[j].block.hash
      ensures rest[i].block == rest[j].block
    {
      assert rest[i] == ops[i + 1] && rest[j] == ops[j + 1];
    }
    if ops[0].AddBlockOp? {
      var b := ops[0].block;
      var r := AddBlock(crypto, c, b);
      forall i | 0 <= i < |rest| && rest[i].AddBlockOp? ensures Consistent(r.chain, rest[i].block) {
        assert rest[i] == ops[i + 1];
        assert Consistent(c, rest[i].block);
        if r.accepted && rest[i].block.hash == b.hash {
          assert rest[i].block == b;
        }
      }
    } else {
      forall i | 0 <= i < |rest| && rest[i].AddBlockOp? ensures Consistent(AddTransaction(c, ops[0].tx), rest[i].block) {
        assert rest[i] == ops[i + 1];
      }
    }
  }

  /**
   * Over any run of calls whose block hashes identify blocks, the invariant
   * holds throughout, so `getMaxHeightBlock` never returns `null`.
   */
  lemma {:induction false} ExecInv(crypto: Crypto, c: Chain, ops: seq<Op>)
    requires Inv(crypto, c) && HashesIdentify(c, ops)
    ensures Inv(crypto, Exec(crypto, c, ops))
    ensures GetMaxHeightBlock(Exec(crypto, c, ops)).Some?
    decreases |ops|
  {
    if |ops| == 0 {
      MaxHeightBlockFound(c);
    } else {
      HashesIdentifyStep(crypto, c, ops);
      match ops[0] {
        case AddBlockOp(b) =>
          AddBlockInv(crypto, c, b);
          ExecInv(crypto, AddBlock(crypto, c, b).chain, ops[1..]);
        case AddTransactionOp(tx) =>
          AddTransactionInv(crypto, c, tx);
          ExecInv(crypto, AddTransaction(c, tx), ops[1..]);
      }
    }
  }

  /**
   * A Java `byte[]` used as a `HashMap` key: arrays hash and compare by
   * identity, so a key is its array's identity together with its contents.
   */
  datatype ArrayKey = ArrayKey(identity: nat, contents: Hash)

  /** `containsKey` on a map keyed by `byte[]`: found only if the very same array is a key. */
  function ContainsByIdentity(keys: set<ArrayKey>, k: ArrayKey): (found: bool)
    ensures found ==> exists k' :: k' in keys && k'.contents == k.contents
    ensures (forall k' :: k' in keys ==> k'.identity != k.identity) ==> !found
    ensures k in keys ==> found
  {
    k in keys
  }

  /**
   * With identity keys, a block naming its parent through an array equal in
   * contents to the recorded hash, but a different array, is taken to have
   * no known parent.
   */
  lemma IdentityLookupMissesEqualHash()
    ensures var recorded := ArrayKey(0, [10]);
      var named := ArrayKey(1, [10]);
      recorded.contents == named.contents && !ContainsByIdentity({recorded}, named)
  {
  }

  /**
   * With value-typed hashes, a block naming a recorded hash as its parent
   * finds that parent: it is accepted exactly when it is not stale and its
   * transactions are valid in order on that parent's snapshot.
   */
  lemma ValueLookupFindsEqualHash(crypto: Crypto, c: Chain, block: Block, h: Hash)
    requires h in c.entries && block.prevBlockHash == Some(h)
    ensures AddBlock(crypto, c, block).accepted
        <==> c.entries[h].height + 1 > c.maxHeight - CUT_OFF_AGE
             && ValidInOrder(ValidTest(crypto), c.entries[h].utxoPool, block.txs)
  {
  }
}
