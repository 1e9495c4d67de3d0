/**
 * Worked ledger scenarios on concrete blocks, with a signature check that
 * accepts every signature (so only the ledger rules are exercised).
 */
module Scenarios {

  import opened Optional
  import opened Transactions
  import opened TxHandler
  import opened BlockChain

  const Alice: Address := [1]
  const Bob: Address := [2]
  const Carol: Address := [3]

  function AcceptAll(): Crypto
  {
    Crypto((a: Address, m: Bytes, s: Signature) => true, (tx: Transaction, i: nat) => [])
  }

  /** Genesis mints 100 to Alice. */
  function GenesisBlock(): Block
  {
    Block([10], None, Transaction([20], [], [Output(100, Alice)]), [])
  }

  /** Alice's 100 paid out as 60 to Bob and 40 to Carol. */
  function Payment(): Transaction
  {
    Transaction([30], [Input([20], 0, [7])], [Output(60, Bob), Output(40, Carol)])
  }

  function Block1(): Block
  {
    Block([11], Some([10]), Transaction([21], [], [Output(25, Alice)]), [Payment()])
  }

  /** The genesis snapshot holds exactly Alice's 100. */
  lemma GenesisSnapshot()
    ensures NewBlockChain(GenesisBlock()).entries[[10]].utxoPool == map[UTXO([20], 0) := Output(100, Alice)]
  {
    var pool := NewBlockChain(GenesisBlock()).entries[[10]].utxoPool;
    assert pool.Keys == {UTXO([20], 0)};
  }

  /** The payment's inputs are worth 100 and its outputs 100. */
  lemma PaymentSums()
    ensures InputSum(map[UTXO([20], 0) := Output(100, Alice)], Payment().inputs) == 100
    ensures OutputSum(Payment().outputs) == 100
  {
    var tx := Payment();
    assert ClaimOf(tx.inputs[0]) == UTXO([20], 0);
    assert tx.inputs[..0] == [];
    assert tx.outputs[..1] == [Output(60, Bob)];
    assert tx.outputs[..1][..0] == [];
  }

  /** The payment passes all five rules on the genesis snapshot. */
  lemma PaymentIsValid()
    ensures Valid(AcceptAll(), map[UTXO([20], 0) := Output(100, Alice)], Payment())
  {
    PaymentSums();
    assert ClaimOf(Payment().inputs[0]) == UTXO([20], 0);
  }

  /** Applying the payment leaves exactly Bob's 60 and Carol's 40. */
  lemma PaymentApplied()
    ensures Apply(map[UTXO([20], 0) := Output(100, Alice)], Payment())
         == map[UTXO([30], 0) := Output(60, Bob), UTXO([30], 1) := Output(40, Carol)]
  {
    var after := Apply(map[UTXO([20], 0) := Output(100, Alice)], Payment());
    assert ClaimOf(Payment().inputs[0]) == UTXO([20], 0);
    assert after.Keys == {UTXO([30], 0), UTXO([30], 1)};
  }

  /** The payment is valid against the genesis snapshot, and applying it leaves Bob's 60 and Carol's 40. */
  lemma PaymentValid()
    ensures ValidInOrder(ValidTest(AcceptAll()), map[UTXO([20], 0) := Output(100, Alice)], [Payment()])
    ensures Replay(map[UTXO([20], 0) := Output(100, Alice)], [Payment()])
         == map[UTXO([30], 0) := Output(60, Bob), UTXO([30], 1) := Output(40, Carol)]
  {
    PaymentIsValid();
    PaymentApplied();
    assert [Payment()][1..] == [];
  }

  /** The ledger after block 1 is offered on top of genesis. */
  function AfterBlock1(): Step
  {
    AddBlock(AcceptAll(), NewBlockChain(GenesisBlock()), Block1())
  }

  /** On the genesis snapshot, block 1's transactions are valid in order and leave Bob's 60 and Carol's 40. */
  lemma Block1OnGenesis()
    ensures var pool := NewBlockChain(GenesisBlock()).entries[[10]].utxoPool;
      && ValidInOrder(ValidTest(AcceptAll()), pool, Block1().txs)
      && Snapshot(pool, Block1())
         == AddCoinBase(Block1(), map[UTXO([30], 0) := Output(60, Bob), UTXO([30], 1) := Output(40, Carol)])
  {
    GenesisSnapshot();
    PaymentValid();
  }

  /** A block with a new hash, valid on the genesis snapshot, becomes the second block, at height 2. */
  lemma AcceptOnGenesis(crypto: Crypto, g: Block, b: Block)
    requires b.hash != g.hash && b.prevBlockHash == Some(g.hash)
    requires ValidInOrder(ValidTest(crypto), NewBlockChain(g).entries[g.hash].utxoPool, b.txs)
    ensures var c := NewBlockChain(g);
      var r := AddBlock(crypto, c, b);
      && r.accepted
      && r.chain.maxHeight == 2
      && r.chain.order == [g.hash, b.hash]
      && r.chain.entries == c.entries[b.hash := Entry(b, 2, Snapshot(c.entries[g.hash].utxoPool, b))]
  {
    var c := NewBlockChain(g);
    assert Parent(c, b) == Some(c.entries[g.hash]);
  }

  /** Block 1 is accepted, at height 2, and is the only block above genesis. */
  lemma Block1Accepted()
    ensures AfterBlock1().accepted
    ensures AfterBlock1().chain.maxHeight == 2
    ensures AfterBlock1().chain.order == [[10], [11]]
    ensures AfterBlock1().chain.entries[[10]] == NewBlockChain(GenesisBlock()).entries[[10]]
    ensures AfterBlock1().chain.entries[[11]].block == Block1()
    ensures AfterBlock1().chain.entries[[11]].height == 2
    ensures AfterBlock1().chain.entries[[11]].utxoPool
         == AddCoinBase(Block1(), map[UTXO([30], 0) := Output(60, Bob), UTXO([30], 1) := Output(40, Carol)])
  {
    Block1OnGenesis();
    AcceptOnGenesis(AcceptAll(), GenesisBlock(), Block1());
  }

  /** With genesis at height 1 followed by a block at height 2, the second block is the best one. */
  lemma SecondOfTwoIsBest(c: Chain)
    requires c.order == [[10], [11]] && c.maxHeight == 2
    requires [10] in c.entries && c.entries[[10]].height == 1
    requires [11] in c.entries && c.entries[[11]].height == 2 && c.entries[[11]].block.hash == [11]
    ensures GetMaxHeightBlock(c) == Some(c.entries[[11]].block)
    ensures GetMaxHeightUTXOPool(c) == Some(c.entries[[11]].utxoPool)
  {
    assert FirstAtHeight(c.order, c.entries, 2) == Some(1) by {
      assert c.order[1..] == [[11]];
    }
  }

  /**
   * Block 1 on top of genesis is accepted, becomes the best block at
   * height 2, and its snapshot holds Bob's 60 and Carol's 40 but no longer
   * Alice's 100; genesis keeps its own snapshot with Alice's 100.
   */
  lemma PaymentScenario()
    ensures var c := AfterBlock1().chain;
      && AfterBlock1().accepted
      && c.maxHeight == 2
      && GetMaxHeightBlock(c) == Some(Block1())
      && GetMaxHeightUTXOPool(c).Some?
      && GetMaxHeightUTXOPool(c).value[UTXO([30], 0)] == Output(60, Bob)
      && GetMaxHeightUTXOPool(c).value[UTXO([30], 1)] == Output(40, Carol)
      && UTXO([20], 0) !in GetMaxHeightUTXOPool(c).value
      && c.entries[[10]].utxoPool[UTXO([20], 0)] == Output(100, Alice)
  {
    Block1Accepted();
    GenesisSnapshot();
    var c := AfterBlock1().chain;
    SecondOfTwoIsBest(c);
    assert [30] != [21] && [20] != [21];
    assert !Creates(Block1().coinbase.hash, Block1().coinbase.outputs, UTXO([30], 0));
    assert !Creates(Block1().coinbase.hash, Block1().coinbase.outputs, UTXO([30], 1));
    assert !Creates(Block1().coinbase.hash, Block1().coinbase.outputs, UTXO([20], 0));
  }

  /**
   * A block on the genesis block (height 2) is accepted exactly while the
   * best height is at most `CUT_OFF_AGE + 1` and its transactions are valid;
   * once the best height passes that, it is rejected and nothing changes.
   */
  lemma StaleScenario(crypto: Crypto, c: Chain, block: Block)
    requires [10] in c.entries && c.entries[[10]].height == 1 && block.prevBlockHash == Some([10])
    ensures AddBlock(crypto, c, block).accepted
        <==> c.maxHeight <= CUT_OFF_AGE + 1 && ValidInOrder(ValidTest(crypto), c.entries[[10]].utxoPool, block.txs)
    ensures c.maxHeight > CUT_OFF_AGE + 1 ==> AddBlock(crypto, c, block).chain == c
  {
  }

  /** A block whose hash is its own parent's: genesis recorded again one level up. */
  function SelfParentBlock(): Block
  {
    Block([10], Some([10]), Transaction([22], [], []), [])
  }

  /**
   * On the genesis ledger, a block whose hash equals its parent's is
   * accepted; the entry under that hash moves to height 2 while the best
   * height becomes 3, so no block sits at the best height and
   * `getMaxHeightBlock` finds none.
   */
  lemma SelfParentScenario()
    ensures var r := AddBlock(AcceptAll(), NewBlockChain(GenesisBlock()), SelfParentBlock());
      && r.accepted
      && r.chain.entries[[10]].height == 2
      && r.chain.maxHeight == 3
      && GetMaxHeightBlock(r.chain).None?
      && GetMaxHeightUTXOPool(r.chain).None?
  {
    var c := NewBlockChain(GenesisBlock());
    assert Acceptable(AcceptAll(), c, SelfParentBlock());
    AddBlockAccepted(AcceptAll(), c, SelfParentBlock());
    var c' := AddBlock(AcceptAll(), c, SelfParentBlock()).chain;
    assert c'.order == [[10]];
    assert FirstAtHeight(c'.order, c'.entries, 3) == None by {
      assert c'.order[1..] == [];
    }
  }
}
