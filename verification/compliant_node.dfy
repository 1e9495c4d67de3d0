/**
 * The compliant gossip node (`CompliantNode`).
 *
 * A node counts how often it has seen each transaction (from its own
 * pending set and from the candidates its followees send). For its first
 * `numRounds` calls to `sendToFollowers` it forwards every transaction it
 * knows and has not yet forwarded; after that it reports the transactions
 * it has seen more than once. Transactions are of any equality type `T`.
 */
module CompliantNode {

  /** A transaction proposed by a followee. */
  datatype Candidate<T> = Candidate(tx: T, sender: int)

  /** The node's state: round budget, rounds used, transactions forwarded, sighting counts. */
  datatype Node<T> = Node(numRounds: int, currentRound: int, sentTxs: set<T>, receivedTxsCount: map<T, int>)

  /** The constructor: no rounds used, nothing sent, nothing seen. */
  function NewNode<T>(numRounds: int): (n: Node<T>)
    ensures n.numRounds == numRounds && n.currentRound == 0
    ensures n.sentTxs == {} && n.receivedTxsCount == map[]
  {
    Node(numRounds, 0, {}, map[])
  }

  /** `receivedTxsCount.getOrDefault(t, 0)`. */
  function Count<T(==)>(counts: map<T, int>, t: T): int
  {
    if t in counts then counts[t] else 0
  }

  /** The candidates carrying transaction `t`. */
  function Carrying<T(==)>(candidates: set<Candidate<T>>, t: T): set<Candidate<T>>
  {
    set c | c in candidates && c.tx == t
  }

  /** The transactions carried by a set of candidates. */
  function TxsOf<T(==)>(candidates: set<Candidate<T>>): set<T>
  {
    set c | c in candidates :: c.tx
  }

  /** The state other than the counts is the same in both nodes. */
  predicate SameRoundState<T(==)>(n: Node<T>, n': Node<T>)
  {
    n'.numRounds == n.numRounds && n'.currentRound == n.currentRound && n'.sentTxs == n.sentTxs
  }

  /** `setPendingTransaction`: each given transaction is seen once more. */
  method SetPendingTransaction<T(==)>(n: Node<T>, pendingTransactions: set<T>) returns (n': Node<T>)
    ensures SameRoundState(n, n')
    ensures n'.receivedTxsCount.Keys == n.receivedTxsCount.Keys + pendingTransactions
    ensures forall t :: Count(n'.receivedTxsCount, t)
                     == Count(n.receivedTxsCount, t) + (if t in pendingTransactions then 1 else 0)
  {
    var counts := n.receivedTxsCount;
    var remaining := pendingTransactions;
    while remaining != {}
      invariant remaining <= pendingTransactions
      invariant counts.Keys == n.receivedTxsCount.Keys + (pendingTransactions - remaining)
      invariant forall t :: Count(counts, t)
                         == Count(n.receivedTxsCount, t) + (if t in pendingTransactions - remaining then 1 else 0)
      decreases remaining
    {
      var tx :| tx in remaining;
      counts := counts[tx := Count(counts, tx) + 1];
      remaining := remaining - {tx};
    }
    n' := n.(receivedTxsCount := counts);
  }

  /** Adding one candidate adds one to the number of candidates carrying its transaction, and none to the others. */
  lemma CarryingStep<T>(done: set<Candidate<T>>, c: Candidate<T>)
    requires c !in done
    ensures forall t :: |Carrying(done + {c}, t)| == |Carrying(done, t)| + (if c.tx == t then 1 else 0)
  {
    forall t ensures |Carrying(done + {c}, t)| == |Carrying(done, t)| + (if c.tx == t then 1 else 0) {
      if c.tx == t {
        assert Carrying(done + {c}, t) == Carrying(done, t) + {c};
      } else {
        assert Carrying(done + {c}, t) == Carrying(done, t);
      }
    }
  }

  /** `receiveFromFollowees`: each transaction is seen once more per candidate carrying it. */
  method ReceiveFromFollowees<T(==)>(n: Node<T>, candidates: set<Candidate<T>>) returns (n': Node<T>)
    ensures SameRoundState(n, n')
    ensures n'.receivedTxsCount.Keys == n.receivedTxsCount.Keys + TxsOf(candidates)
    ensures forall t :: Count(n'.receivedTxsCount, t) == Count(n.receivedTxsCount, t) + |Carrying(candidates, t)|
  {
    var counts := n.receivedTxsCount;
    var remaining := candidates;
    while remaining != {}
      invariant remaining <= candidates
      invariant counts.Keys == n.receivedTxsCount.Keys + TxsOf(candidates - remaining)
      invariant forall t :: Count(counts, t) == Count(n.receivedTxsCount, t) + |Carrying(candidates - remaining, t)|
      decreases remaining
    {
      var candidate :| candidate in remaining;
      var tx := candidate.tx;
      CarryingStep(candidates - remaining, candidate);
      assert candidates - (remaining - {candidate}) == (candidates - remaining) + {candidate};
      counts := counts[tx := Count(counts, tx) + 1];
      remaining := remaining - {candidate};
    }
    assert candidates - remaining == candidates;
    n' := n.(receivedTxsCount := counts);
  }

  /**
   * `sendToFollowers`. While rounds remain: forward every known transaction
   * not forwarded before, mark it forwarded, and use up a round. Afterwards:
   * report the transactions seen more than once, changing nothing.
   */
  method SendToFollowers<T(==)>(n: Node<T>) returns (txs: set<T>, n': Node<T>)
    ensures n'.numRounds == n.numRounds && n'.receivedTxsCount == n.receivedTxsCount
    ensures n.currentRound < n.numRounds ==>
      && (forall t :: t in txs <==> t in n.receivedTxsCount && t !in n.sentTxs)
      && n'.sentTxs == n.sentTxs + txs
      && n'.currentRound == n.currentRound + 1
    ensures n.currentRound >= n.numRounds ==>
      && (forall t :: t in txs <==> Count(n.receivedTxsCount, t) > 1)
      && n' == n
  {
    var keys := n.receivedTxsCount.Keys;
    txs := {};
    if n.currentRound < n.numRounds {
      var sentTxs := n.sentTxs;
      var remaining := keys;
      while remaining != {}
        invariant remaining <= keys
        invariant forall t :: t in txs <==> t in keys - remaining && t !in n.sentTxs
        invariant sentTxs == n.sentTxs + txs
        decreases remaining
      {
        var tx :| tx in remaining;
        if tx !in sentTxs {
          txs := txs + {tx};
          sentTxs := sentTxs + {tx};
        }
        remaining := remaining - {tx};
      }
      n' := n.(sentTxs := sentTxs, currentRound := n.currentRound + 1);
    } else {
      var remaining := keys;
      while remaining != {}
        invariant remaining <= keys
        invariant forall t :: t in txs <==> t in keys - remaining && n.receivedTxsCount[t] > 1
        decreases remaining
      {
        var tx :| tx in remaining;
        if n.receivedTxsCount[tx] > 1 {
          txs := txs + {tx};
        }
        remaining := remaining - {tx};
      }
      n' := n;
    }
  }

  /** One call on a node, as its simulation driver would make it. */
  datatype Event<T> = Pending(pendingTransactions: set<T>) | Receive(candidates: set<Candidate<T>>) | Send

  /**
   * A run of calls on one node. `forwarded` lists the results of the calls
   * to `sendToFollowers` made while rounds remained. No transaction is
   * forwarded twice, nor one already forwarded before the run, and each
   * forwarding call uses up exactly one round of the budget.
   */
  method Run<T(==)>(n: Node<T>, events: seq<Event<T>>) returns (final: Node<T>, forwarded: seq<set<T>>)
    ensures final.numRounds == n.numRounds
    ensures forall i, j :: 0 <= i < j < |forwarded| ==> forwarded[i] !! forwarded[j]
    ensures forall i :: 0 <= i < |forwarded| ==> forwarded[i] !! n.sentTxs && forwarded[i] <= final.sentTxs
    ensures final.currentRound == n.currentRound + |forwarded|
    ensures final.currentRound <= (if n.currentRound > n.numRounds then n.currentRound else n.numRounds)
  {
    final := n;
    forwarded := [];
    var k := 0;
    while k < |events|
      invariant 0 <= k <= |events|
      invariant final.numRounds == n.numRounds
      invariant n.sentTxs <= final.sentTxs
      invariant forall i, j :: 0 <= i < j < |forwarded| ==> forwarded[i] !! forwarded[j]
      invariant forall i :: 0 <= i < |forwarded| ==> forwarded[i] !! n.sentTxs && forwarded[i] <= final.sentTxs
      invariant final.currentRound == n.currentRound + |forwarded|
      invariant final.currentRound <= (if n.currentRound > n.numRounds then n.currentRound else n.numRounds)
      decreases |events| - k
    {
      match events[k] {
        case Pending(p) =>
          final := SetPendingTransaction(final, p);
        case Receive(cs) =>
          final := ReceiveFromFollowees(final, cs);
        case Send =>
          var forwarding := final.currentRound < final.numRounds;
          var txs;
          txs, final := SendToFollowers(final);
          if forwarding {
            forwarded := forwarded + [txs];
          }
      }
      k := k + 1;
    }
  }
}
