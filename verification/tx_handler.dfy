/**
 * The transaction validator and applier (`TxHandler`).
 *
 * `Valid` states the five validity rules as one conjunction; `IsValidTx`
 * is Java's input-by-input loop with early returns and is proved to
 * decide exactly `Valid`. `Handle` is the reference semantics of a batch
 * (process in order, re-check each transaction against the pool as changed
 * by the ones accepted before it); `HandleTxs` is Java's loop and is
 * proved to compute `Handle`.
 */
module TxHandler {

  import opened Transactions

  /** Rule (1): every output the transaction claims is in the pool. */
  predicate ClaimsInPool(pool: Pool, tx: Transaction)
  {
    forall i :: 0 <= i < |tx.inputs| ==> ClaimOf(tx.inputs[i]) in pool
  }

  /** Rule (2): input `i` is signed by the address of the output it claims, over payload `i`. */
  predicate SignatureOk(crypto: Crypto, pool: Pool, tx: Transaction, i: nat)
    requires i < |tx.inputs| && ClaimOf(tx.inputs[i]) in pool
  {
    crypto.verifySignature(pool[ClaimOf(tx.inputs[i])].address, crypto.rawDataToSign(tx, i), tx.inputs[i].signature)
  }

  predicate SignaturesOk(crypto: Crypto, pool: Pool, tx: Transaction)
    requires ClaimsInPool(pool, tx)
  {
    forall i :: 0 <= i < |tx.inputs| ==> SignatureOk(crypto, pool, tx, i)
  }

  /** Rule (3): no output is claimed by two inputs. */
  predicate NoDoubleClaim(tx: Transaction)
  {
    forall i, j :: 0 <= i < j < |tx.inputs| ==> ClaimOf(tx.inputs[i]) != ClaimOf(tx.inputs[j])
  }

  /** Rule (4): no output value is negative. */
  predicate OutputsNonNegative(tx: Transaction)
  {
    forall i :: 0 <= i < |tx.outputs| ==> tx.outputs[i].value >= 0
  }

  /** The five validity rules of a transaction against a pool. */
  predicate Valid(crypto: Crypto, pool: Pool, tx: Transaction)
  {
    && ClaimsInPool(pool, tx)
    && SignaturesOk(crypto, pool, tx)
    && NoDoubleClaim(tx)
    && OutputsNonNegative(tx)
    // Rule (5): no value is created.
    && InputSum(pool, tx.inputs) >= OutputSum(tx.outputs)
  }

  /**
   * Java's `isValidTx`: one pass over the inputs checking rules (1)-(3)
   * and accumulating the input value, one pass over the outputs checking
   * rule (4) and accumulating the output value, then rule (5).
   */
  method IsValidTx(crypto: Crypto, pool: Pool, tx: Transaction) returns (valid: bool)
    ensures valid <==> Valid(crypto, pool, tx)
  {
    var inputsOk, totalInputValue := ScanInputs(crypto, pool, tx);
    if !inputsOk {
      return false;
    }
    var outputsOk, totalOutputValue := ScanOutputs(tx);
    if !outputsOk {
      return false;
    }
    if totalInputValue < totalOutputValue {
      return false;
    }
    return true;
  }

  /** The input pass of `isValidTx`: rules (1)-(3) per input, summing the claimed values. */
  method ScanInputs(crypto: Crypto, pool: Pool, tx: Transaction) returns (ok: bool, totalInputValue: int)
    ensures ok <==> ClaimsInPool(pool, tx) && SignaturesOk(crypto, pool, tx) && NoDoubleClaim(tx)
    ensures ok ==> totalInputValue == InputSum(pool, tx.inputs)
  {
    var claimed: set<UTXO> := {};
    totalInputValue := 0;
    var i := 0;
    while i < |tx.inputs|
      invariant 0 <= i <= |tx.inputs|
      invariant InputsOkBefore(crypto, pool, tx, i)
      invariant claimed == Claims(tx.inputs[..i])
      invariant totalInputValue == InputSum(pool, tx.inputs[..i])
    {
      var input := tx.inputs[i];
      var utxo := ClaimOf(input);
      // (1)
      if utxo !in pool {
        return false, totalInputValue;
      }
      // (2)
      var previousOp := pool[utxo];
      if !crypto.verifySignature(previousOp.address, crypto.rawDataToSign(tx, i), input.signature) {
        assert !SignatureOk(crypto, pool, tx, i);
        return false, totalInputValue;
      }
      // (3)
      if utxo in claimed {
        ClaimedTwice(tx, i);
        return false, totalInputValue;
      }
      ScanInputsStep(crypto, pool, tx, i);
      claimed := claimed + {utxo};
      totalInputValue := totalInputValue + previousOp.value;
      i := i + 1;
    }
    InputsOkAll(crypto, pool, tx);
    assert tx.inputs[..i] == tx.inputs;
    return true, totalInputValue;
  }

  /** Rules (1)-(3) hold of the inputs before index `i`. */
  predicate InputsOkBefore(crypto: Crypto, pool: Pool, tx: Transaction, i: nat)
    requires i <= |tx.inputs|
  {
    && (forall k :: 0 <= k < i ==> ClaimOf(tx.inputs[k]) in pool && SignatureOk(crypto, pool, tx, k))
    && (forall k, l :: 0 <= k < l < i ==> ClaimOf(tx.inputs[k]) != ClaimOf(tx.inputs[l]))
  }

  /** An input that passes rules (1)-(3) extends the checked prefix by one. */
  lemma ScanInputsStep(crypto: Crypto, pool: Pool, tx: Transaction, i: nat)
    requires i < |tx.inputs| && InputsOkBefore(crypto, pool, tx, i)
    requires ClaimOf(tx.inputs[i]) in pool && SignatureOk(crypto, pool, tx, i)
    requires ClaimOf(tx.inputs[i]) !in Claims(tx.inputs[..i])
    ensures InputsOkBefore(crypto, pool, tx, i + 1)
    ensures Claims(tx.inputs[..i + 1]) == Claims(tx.inputs[..i]) + {ClaimOf(tx.inputs[i])}
    ensures InputSum(pool, tx.inputs[..i + 1]) == InputSum(pool, tx.inputs[..i]) + pool[ClaimOf(tx.inputs[i])].value
  {
    forall k | 0 <= k < i ensures ClaimOf(tx.inputs[k]) != ClaimOf(tx.inputs[i]) {
      assert tx.inputs[..i][k] == tx.inputs[k];
    }
    InputSumStep(pool, tx.inputs, i);
  }

  /** When the whole of the inputs is checked, rules (1)-(3) hold of the transaction. */
  lemma InputsOkAll(crypto: Crypto, pool: Pool, tx: Transaction)
    requires InputsOkBefore(crypto, pool, tx, |tx.inputs|)
    ensures ClaimsInPool(pool, tx) && SignaturesOk(crypto, pool, tx) && NoDoubleClaim(tx)
  {
  }

  /** An input whose claim is already among the earlier inputs' claims breaks rule (3). */
  lemma ClaimedTwice(tx: Transaction, i: nat)
    requires i < |tx.inputs| && ClaimOf(tx.inputs[i]) in Claims(tx.inputs[..i])
    ensures !NoDoubleClaim(tx)
  {
    var k :| 0 <= k < i && ClaimOf(tx.inputs[..i][k]) == ClaimOf(tx.inputs[i]);
    assert tx.inputs[..i][k] == tx.inputs[k];
  }

  /** Extending a prefix of the inputs by one adds that input's claimed value. */
  lemma InputSumStep(pool: Pool, inputs: seq<Input>, i: nat)
    requires i < |inputs|
    requires forall k :: 0 <= k <= i ==> ClaimOf(inputs[k]) in pool
    ensures InputSum(pool, inputs[..i + 1]) == InputSum(pool, inputs[..i]) + pool[ClaimOf(inputs[i])].value
    ensures Claims(inputs[..i + 1]) == Claims(inputs[..i]) + {ClaimOf(inputs[i])}
  {
    assert inputs[..i + 1][..i] == inputs[..i];
  }

  /** The output pass of `isValidTx`: rule (4) per output, summing the output values. */
  method ScanOutputs(tx: Transaction) returns (ok: bool, totalOutputValue: int)
    ensures ok <==> OutputsNonNegative(tx)
    ensures ok ==> totalOutputValue == OutputSum(tx.outputs)
  {
    totalOutputValue := 0;
    var j := 0;
    while j < |tx.outputs|
      invariant 0 <= j <= |tx.outputs|
      invariant forall k :: 0 <= k < j ==> tx.outputs[k].value >= 0
      invariant totalOutputValue == OutputSum(tx.outputs[..j])
    {
      var op := tx.outputs[j];
      // (4)
      if op.value < 0 {
        return false, totalOutputValue;
      }
      assert tx.outputs[..j + 1][..j] == tx.outputs[..j];
      totalOutputValue := totalOutputValue + op.value;
      j := j + 1;
    }
    assert tx.outputs[..j] == tx.outputs;
    return true, totalOutputValue;
  }

  /**
   * The pool after a transaction is applied: its claimed outputs removed,
   * then `(tx.hash, i) -> tx.outputs[i]` added for every output index.
   */
  function Apply(pool: Pool, tx: Transaction): (r: Pool)
    ensures forall i :: 0 <= i < |tx.outputs| ==> UTXO(tx.hash, i) in r && r[UTXO(tx.hash, i)] == tx.outputs[i]
    ensures forall u :: u in r ==> Creates(tx.hash, tx.outputs, u) || (u in pool && u !in Spent(tx))
    ensures forall u :: u in Spent(tx) && !Creates(tx.hash, tx.outputs, u) ==> u !in r
    ensures forall u :: u in pool && u !in Spent(tx) && !Creates(tx.hash, tx.outputs, u) ==> u in r && r[u] == pool[u]
  {
    (pool - Spent(tx)) + OutputsMap(tx.hash, tx.outputs)
  }

  /** The outcome of a batch: the accepted transactions, in order, and the resulting pool. */
  datatype Batch = Batch(accepted: seq<Transaction>, pool: Pool)

  /** `a` is `b` with some elements dropped, the rest kept in order. */
  predicate IsSubsequence<T(==)>(a: seq<T>, b: seq<T>)
    decreases |b|
  {
    if |a| == 0 then true
    else if |b| == 0 then false
    else (a[0] == b[0] && IsSubsequence(a[1..], b[1..])) || IsSubsequence(a, b[1..])
  }

  /** A validity test of a transaction against a pool. */
  type TxTest = (Pool, Transaction) -> bool

  /** The test `isValidTx` applies: the five rules under the given signature scheme. */
  function ValidTest(crypto: Crypto): (t: TxTest)
    ensures forall pool, tx :: t(pool, tx) <==> Valid(crypto, pool, tx)
  {
    (pool: Pool, tx: Transaction) => Valid(crypto, pool, tx)
  }

  /**
   * The batch semantics of `handleTxs` under validity test `valid`: walk the
   * candidates in order, accept each one valid against the current pool and
   * apply it; drop the others. `handleTxs` itself uses `ValidTest(crypto)`.
   */
  function Handle(valid: TxTest, pool: Pool, txs: seq<Transaction>): (r: Batch)
    ensures |r.accepted| <= |txs|
    decreases |txs|
  {
    if |txs| == 0 then Batch([], pool)
    else if valid(pool, txs[0]) then
      var rest := Handle(valid, Apply(pool, txs[0]), txs[1..]);
      Batch([txs[0]] + rest.accepted, rest.pool)
    else
      Handle(valid, pool, txs[1..])
  }

  /** The accepted transactions are candidates, kept in their original order. */
  lemma {:induction false} HandleSubsequence(valid: TxTest, pool: Pool, txs: seq<Transaction>)
    ensures IsSubsequence(Handle(valid, pool, txs).accepted, txs)
    decreases |txs|
  {
    if |txs| > 0 {
      if valid(pool, txs[0]) {
        var rest := Handle(valid, Apply(pool, txs[0]), txs[1..]);
        HandleSubsequence(valid, Apply(pool, txs[0]), txs[1..]);
        assert ([txs[0]] + rest.accepted)[1..] == rest.accepted;
      } else {
        HandleSubsequence(valid, pool, txs[1..]);
      }
    }
  }

  /** Every transaction of `txs` is valid against the pool left by the ones before it. */
  predicate ValidInOrder(valid: TxTest, pool: Pool, txs: seq<Transaction>)
    decreases |txs|
  {
    |txs| == 0 || (valid(pool, txs[0]) && ValidInOrder(valid, Apply(pool, txs[0]), txs[1..]))
  }

  /** The pool after applying every transaction of `txs` in order, without checks. */
  function Replay(pool: Pool, txs: seq<Transaction>): Pool
    decreases |txs|
  {
    if |txs| == 0 then pool else Replay(Apply(pool, txs[0]), txs[1..])
  }

  /** Soundness of a batch: the accepted transactions are valid in order and the final pool is theirs. */
  lemma {:induction false} HandleSound(valid: TxTest, pool: Pool, txs: seq<Transaction>)
    ensures ValidInOrder(valid, pool, Handle(valid, pool, txs).accepted)
    ensures Handle(valid, pool, txs).pool == Replay(pool, Handle(valid, pool, txs).accepted)
    decreases |txs|
  {
    if |txs| > 0 {
      if valid(pool, txs[0]) {
        var r := Handle(valid, pool, txs);
        HandleSound(valid, Apply(pool, txs[0]), txs[1..]);
        assert r.accepted[1..] == Handle(valid, Apply(pool, txs[0]), txs[1..]).accepted;
      } else {
        HandleSound(valid, pool, txs[1..]);
      }
    }
  }

  /**
   * All-or-nothing: a batch keeps every transaction exactly when they are all
   * valid in order, and then the final pool is the in-order replay.
   */
  lemma {:induction false} HandleAllIff(valid: TxTest, pool: Pool, txs: seq<Transaction>)
    ensures |Handle(valid, pool, txs).accepted| == |txs| <==> ValidInOrder(valid, pool, txs)
    ensures ValidInOrder(valid, pool, txs) ==> Handle(valid, pool, txs) == Batch(txs, Replay(pool, txs))
    decreases |txs|
  {
    if |txs| > 0 {
      var t := txs[0];
      if valid(pool, t) {
        var p := Apply(pool, t);
        var rest := Handle(valid, p, txs[1..]);
        HandleAllIff(valid, p, txs[1..]);
        assert Handle(valid, pool, txs) == Batch([t] + rest.accepted, rest.pool);
        assert ValidInOrder(valid, pool, txs) == ValidInOrder(valid, p, txs[1..]);
        assert Replay(pool, txs) == Replay(p, txs[1..]);
        assert [t] + txs[1..] == txs;
      } else {
        assert Handle(valid, pool, txs) == Handle(valid, pool, txs[1..]);
        assert !ValidInOrder(valid, pool, txs);
      }
    }
  }

  /**
   * The greedy rule, seen from the end of the batch: one more candidate is
   * kept, and applied, exactly when it is valid against the pool the batch
   * has left so far; otherwise the batch's result is unchanged.
   */
  lemma {:induction false} HandleSnoc(valid: TxTest, pool: Pool, txs: seq<Transaction>, t: Transaction)
    ensures Handle(valid, pool, txs + [t])
         == (var r := Handle(valid, pool, txs);
             if valid(r.pool, t) then Batch(r.accepted + [t], Apply(r.pool, t)) else r)
    decreases |txs|
  {
    if |txs| == 0 {
      assert [] + [t] == [t];
      assert [t][1..] == [];
    } else {
      assert (txs + [t])[0] == txs[0];
      assert (txs + [t])[1..] == txs[1..] + [t];
      if valid(pool, txs[0]) {
        var p := Apply(pool, txs[0]);
        HandleSnoc(valid, p, txs[1..], t);
        var rest := Handle(valid, p, txs[1..]);
        assert [txs[0]] + (rest.accepted + [t]) == ([txs[0]] + rest.accepted) + [t];
      } else {
        HandleSnoc(valid, pool, txs[1..], t);
      }
    }
  }

  /**
   * The transaction hashes of a batch are pairwise distinct and none of them
   * is the hash of an output reference already in the pool: what the
   * collision resistance of the hash function gives for honest batches.
   */
  predicate FreshHashes(pool: Pool, txs: seq<Transaction>)
  {
    && (forall i, j :: 0 <= i < j < |txs| ==> txs[i].hash != txs[j].hash)
    && (forall i, u :: 0 <= i < |txs| && u in pool ==> u.txHash != txs[i].hash)
  }

  /** Dropping the first transaction of a fresh batch leaves it fresh. */
  lemma FreshTail(pool: Pool, txs: seq<Transaction>)
    requires |txs| > 0 && FreshHashes(pool, txs)
    ensures FreshHashes(pool, txs[1..])
  {
    forall i, j | 0 <= i < j < |txs| - 1 ensures txs[1..][i].hash != txs[1..][j].hash {
      assert txs[1..][i] == txs[i + 1] && txs[1..][j] == txs[j + 1];
    }
  }

  /** Pairwise-disjoint spending survives putting in front a transaction disjoint from all the rest. */
  lemma DisjointCons(t: Transaction, rest: seq<Transaction>)
    requires forall i :: 0 <= i < |rest| ==> Spent(rest[i]) !! Spent(t)
    requires forall i, j :: 0 <= i < j < |rest| ==> Spent(rest[i]) !! Spent(rest[j])
    ensures forall i, j :: 0 <= i < j < |[t] + rest| ==> Spent(([t] + rest)[i]) !! Spent(([t] + rest)[j])
  {
    var acc := [t] + rest;
    forall i, j | 0 <= i < j < |acc| ensures Spent(acc[i]) !! Spent(acc[j]) {
      assert acc[j] == rest[j - 1];
      if i > 0 {
        assert acc[i] == rest[i - 1];
      }
    }
  }

  /** Applying the first transaction of a fresh batch leaves the rest fresh and its spent outputs gone for good. */
  lemma ApplyKeepsFresh(pool: Pool, txs: seq<Transaction>)
    requires |txs| > 0 && FreshHashes(pool, txs)
    requires Spent(txs[0]) <= pool.Keys
    ensures FreshHashes(Apply(pool, txs[0]), txs[1..])
    ensures Spent(txs[0]) !! Apply(pool, txs[0]).Keys
    ensures forall u, i :: u in Spent(txs[0]) && 0 <= i < |txs| - 1 ==> u.txHash != txs[1..][i].hash
  {
    var p := Apply(pool, txs[0]);
    forall i, u | 0 <= i < |txs| - 1 && u in p
      ensures u.txHash != txs[1..][i].hash
    {
      assert txs[1..][i] == txs[i + 1];
    }
  }

  /** A test that accepts a transaction only when every output it claims is in the pool. */
  ghost predicate ChecksClaims(valid: TxTest)
  {
    forall pool, tx :: valid(pool, tx) ==> Spent(tx) <= pool.Keys
  }

  /** `isValidTx`'s test checks claims: that is its rule (1). */
  lemma ValidTestChecksClaims(crypto: Crypto)
    ensures ChecksClaims(ValidTest(crypto))
  {
    forall pool, tx | ValidTest(crypto)(pool, tx) ensures Spent(tx) <= pool.Keys {
      forall u | u in Spent(tx) ensures u in pool {
        var i :| 0 <= i < |tx.inputs| && ClaimOf(tx.inputs[i]) == u;
      }
    }
  }

  /** Outputs that are gone from the pool and cannot be re-created by the batch are never spent by it. */
  lemma {:induction false} DeadStaysDead(valid: TxTest, pool: Pool, txs: seq<Transaction>, dead: set<UTXO>)
    requires ChecksClaims(valid)
    requires dead !! pool.Keys
    requires forall u, i :: u in dead && 0 <= i < |txs| ==> u.txHash != txs[i].hash
    ensures forall i :: 0 <= i < |Handle(valid, pool, txs).accepted| ==> Spent(Handle(valid, pool, txs).accepted[i]) !! dead
    decreases |txs|
  {
    if |txs| > 0 {
      var t := txs[0];
      if valid(pool, t) {
        var p := Apply(pool, t);
        forall u | u in dead ensures u !in p {
          assert u.txHash != t.hash;
        }
        DeadStaysDead(valid, p, txs[1..], dead);
        var rest := Handle(valid, p, txs[1..]).accepted;
        assert Handle(valid, pool, txs).accepted == [t] + rest;
      } else {
        DeadStaysDead(valid, pool, txs[1..], dead);
      }
    }
  }

  /** No output is spent by two accepted transactions of one fresh batch. */
  lemma {:induction false} NoDoubleSpend(valid: TxTest, pool: Pool, txs: seq<Transaction>)
    requires ChecksClaims(valid) && FreshHashes(pool, txs)
    ensures forall i, j :: 0 <= i < j < |Handle(valid, pool, txs).accepted| ==>
      Spent(Handle(valid, pool, txs).accepted[i]) !! Spent(Handle(valid, pool, txs).accepted[j])
    decreases |txs|
  {
    if |txs| > 0 {
      var t := txs[0];
      FreshTail(pool, txs);
      if valid(pool, t) {
        var p := Apply(pool, t);
        ApplyKeepsFresh(pool, txs);
        DeadStaysDead(valid, p, txs[1..], Spent(t));
        NoDoubleSpend(valid, p, txs[1..]);
        var rest := Handle(valid, p, txs[1..]).accepted;
        assert Handle(valid, pool, txs).accepted == [t] + rest;
        DisjointCons(t, rest);
      } else {
        NoDoubleSpend(valid, pool, txs[1..]);
      }
    }
  }

  /** The handler object: its private copy of the pool. */
  datatype Handler = Handler(utxoPool: Pool)

  /** The constructor: the handler starts from (a copy of) the given pool. */
  function NewHandler(utxoPool: Pool): (h: Handler)
    ensures h.utxoPool == utxoPool
  {
    Handler(utxoPool)
  }

  /**
   * Java's `handleTxs`: for each candidate in order, check it against the
   * handler's current pool and, if valid, keep it, remove the outputs it claims
   * one input at a time, then add its outputs one index at a time.
   */
  method HandleTxs(crypto: Crypto, h: Handler, possibleTxs: seq<Transaction>) returns (validTxs: seq<Transaction>, updated: Handler)
    ensures Batch(validTxs, updated.utxoPool) == Handle(ValidTest(crypto), h.utxoPool, possibleTxs)
  {
    validTxs := [];
    var pool := h.utxoPool;
    var n := 0;
    while n < |possibleTxs|
      invariant 0 <= n <= |possibleTxs|
      invariant validTxs == Handle(ValidTest(crypto), h.utxoPool, possibleTxs[..n]).accepted
      invariant pool == Handle(ValidTest(crypto), h.utxoPool, possibleTxs[..n]).pool
    {
      validTxs, pool := HandleOne(crypto, h.utxoPool, possibleTxs, n, validTxs, pool);
      n := n + 1;
    }
    assert possibleTxs[..n] == possibleTxs;
    updated := Handler(pool);
  }

  /**
   * The body of `handleTxs`'s loop for one candidate: check it against the
   * current pool and, if valid, keep it and apply it in place.
   */
  method HandleOne(crypto: Crypto, start: Pool, possibleTxs: seq<Transaction>, n: nat,
                   validTxs: seq<Transaction>, pool: Pool) returns (validTxs': seq<Transaction>, pool': Pool)
    requires n < |possibleTxs|
    requires validTxs == Handle(ValidTest(crypto), start, possibleTxs[..n]).accepted
    requires pool == Handle(ValidTest(crypto), start, possibleTxs[..n]).pool
    ensures validTxs' == Handle(ValidTest(crypto), start, possibleTxs[..n + 1]).accepted
    ensures pool' == Handle(ValidTest(crypto), start, possibleTxs[..n + 1]).pool
  {
    var tx := possibleTxs[n];
    var ok := IsValidTx(crypto, pool, tx);
    var applied := pool;
    if ok {
      applied := ApplyInPlace(pool, tx);
    }
    HandleTxsStep(ValidTest(crypto), start, possibleTxs, n, validTxs, pool, ok, applied);
    if ok {
      validTxs' := validTxs + [tx];
      pool' := applied;
    } else {
      validTxs' := validTxs;
      pool' := pool;
    }
  }

  /** One iteration of `handleTxs`: the batch so far, extended by candidate `n` as the greedy rule says. */
  lemma HandleTxsStep(valid: TxTest, start: Pool, txs: seq<Transaction>, n: nat,
                      validTxs: seq<Transaction>, pool: Pool, ok: bool, applied: Pool)
    requires n < |txs|
    requires validTxs == Handle(valid, start, txs[..n]).accepted && pool == Handle(valid, start, txs[..n]).pool
    requires ok <==> valid(pool, txs[n])
    requires ok ==> applied == Apply(pool, txs[n])
    ensures ok ==> Handle(valid, start, txs[..n + 1]) == Batch(validTxs + [txs[n]], applied)
    ensures !ok ==> Handle(valid, start, txs[..n + 1]) == Batch(validTxs, pool)
  {
    assert txs[..n + 1] == txs[..n] + [txs[n]];
    HandleSnoc(valid, start, txs[..n], txs[n]);
  }

  /** The two mutation loops of `handleTxs` for one accepted transaction. */
  method ApplyInPlace(pool: Pool, tx: Transaction) returns (r: Pool)
    ensures r == Apply(pool, tx)
  {
    r := pool;
    var i := 0;
    while i < |tx.inputs|
      invariant 0 <= i <= |tx.inputs|
      invariant r == pool - Claims(tx.inputs[..i])
    {
      RemoveClaimStep(pool, tx.inputs, i);
      r := r - {ClaimOf(tx.inputs[i])};
      i := i + 1;
    }
    assert tx.inputs[..i] == tx.inputs;
    var j := 0;
    while j < |tx.outputs|
      invariant 0 <= j <= |tx.outputs|
      invariant r == (pool - Spent(tx)) + OutputsMap(tx.hash, tx.outputs[..j])
    {
      AddOutputStep(pool - Spent(tx), tx.hash, tx.outputs, j);
      r := r[UTXO(tx.hash, j) := tx.outputs[j]];
      j := j + 1;
    }
    assert tx.outputs[..j] == tx.outputs;
  }

  /** Removing one more input's claim from the pool. */
  lemma RemoveClaimStep(pool: Pool, inputs: seq<Input>, i: nat)
    requires i < |inputs|
    ensures pool - Claims(inputs[..i + 1]) == (pool - Claims(inputs[..i])) - {ClaimOf(inputs[i])}
  {
    assert inputs[..i + 1][..i] == inputs[..i];
    assert Claims(inputs[..i + 1]) == Claims(inputs[..i]) + {ClaimOf(inputs[i])};
  }

  /** Adding one more output to the pool. */
  lemma AddOutputStep(base: Pool, h: Hash, outs: seq<Output>, j: nat)
    requires j < |outs|
    ensures base + OutputsMap(h, outs[..j + 1]) == (base + OutputsMap(h, outs[..j]))[UTXO(h, j) := outs[j]]
  {
    assert OutputsMap(h, outs[..j + 1]) == OutputsMap(h, outs[..j])[UTXO(h, j) := outs[j]];
  }

  /** `getUTXOPool`: the handler's current pool, from which the handler can be rebuilt. */
  function GetUTXOPool(h: Handler): (p: Pool)
    ensures NewHandler(p) == h
  {
    h.utxoPool
  }
}
