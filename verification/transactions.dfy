/** Optional values, standing in for Java's nullable references. */
module Optional {

  datatype Option<+T> = None | Some(value: T)
}

/**
 * The value types shared by the transaction handler and the block chain:
 * unspent-output references, outputs, inputs, transactions and the
 * unspent-output pool.
 *
 * Hashes, addresses and signatures are opaque byte strings. A transaction
 * carries its own hash, as the Java `Transaction` object does once it has
 * been finalised. Signature verification and the per-input signed payload
 * are cryptographic and are passed in as a `Crypto` record of functions.
 */
module Transactions {

  type Bytes = seq<bv8>
  type Hash = Bytes
  type Address = Bytes
  type Signature = Bytes

  /** An output reference: the hash of the producing transaction and the output's index in it. */
  datatype UTXO = UTXO(txHash: Hash, index: int)

  /** A transaction output. Java stores `value` as a double; here it is an integer. */
  datatype Output = Output(value: int, address: Address)

  /** A transaction input: the output it claims and the signature authorising the claim. */
  datatype Input = Input(prevTxHash: Hash, outputIndex: int, signature: Signature)

  datatype Transaction = Transaction(hash: Hash, inputs: seq<Input>, outputs: seq<Output>)

  /** The unspent-output pool. */
  type Pool = map<UTXO, Output>

  /**
   * The cryptographic collaborators: `verifySignature(address, message, signature)`
   * and `rawDataToSign(tx, i)`, the payload input `i` of `tx` signs.
   */
  datatype Crypto = Crypto(
    verifySignature: (Address, Bytes, Signature) -> bool,
    rawDataToSign: (Transaction, nat) -> Bytes)

  /** The output an input claims. */
  function ClaimOf(input: Input): UTXO
  {
    UTXO(input.prevTxHash, input.outputIndex)
  }

  /** All outputs claimed by a sequence of inputs. */
  function Claims(inputs: seq<Input>): (s: set<UTXO>)
    ensures forall i :: 0 <= i < |inputs| ==> ClaimOf(inputs[i]) in s
    ensures forall u :: u in s ==> exists i :: 0 <= i < |inputs| && ClaimOf(inputs[i]) == u
  {
    set i | 0 <= i < |inputs| :: ClaimOf(inputs[i])
  }

  /** The outputs a transaction spends. */
  function Spent(tx: Transaction): set<UTXO>
  {
    Claims(tx.inputs)
  }

  /** True iff `u` is one of the output references a transaction with hash `h` and outputs `outs` creates. */
  predicate Creates(h: Hash, outs: seq<Output>, u: UTXO)
  {
    u.txHash == h && 0 <= u.index < |outs|
  }

  /** The pool entries `(h, i) -> outs[i]` a transaction with hash `h` and outputs `outs` creates. */
  function OutputsMap(h: Hash, outs: seq<Output>): (m: Pool)
    ensures forall u :: u in m <==> Creates(h, outs, u)
    ensures forall i :: 0 <= i < |outs| ==> UTXO(h, i) in m && m[UTXO(h, i)] == outs[i]
  {
    map i | 0 <= i < |outs| :: UTXO(h, i) := outs[i]
  }

  /** The total value of a sequence of outputs, summed from the front as Java's loop in `isValidTx` does. */
  function OutputSum(outs: seq<Output>): int
  {
    if |outs| == 0 then 0 else OutputSum(outs[..|outs| - 1]) + outs[|outs| - 1].value
  }

  /** The total value of the outputs that `inputs` claim in `pool`. */
  function InputSum(pool: Pool, inputs: seq<Input>): int
    requires forall i :: 0 <= i < |inputs| ==> ClaimOf(inputs[i]) in pool
  {
    if |inputs| == 0 then 0
    else InputSum(pool, inputs[..|inputs| - 1]) + pool[ClaimOf(inputs[|inputs| - 1])].value
  }
}
