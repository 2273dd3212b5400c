/** Reconciling locally pending transactions with the chain
    (KNTransactionCoordinator.updatePendingTranscation, checkTransactionReceipt,
    updateTransactionStateIfNeeded) and the start block of the history poll.

    The transaction store is a map from transaction id to record; the
    "transaction updated" notifications a step posts are returned as a list of
    ids. The receipt and by-hash lookups are given as their outcomes, and the
    current time `now` is in seconds. */
module TransactionTracker {
  import opened Common

  type TxId = string

  datatype TxState = Pending | Completed | Failed

  /** A stored transaction; `date` is its submission time in seconds. */
  datatype Transaction = Transaction(
    id: TxId, blockNumber: int, from: string, to: string, value: string, date: int, state: TxState)

  type Store = map<TxId, Transaction>

  /** The outcome of `getReceipt`: the transaction rebuilt from its receipt, or an error. */
  datatype ReceiptOutcome = ReceiptOk(newTx: Transaction) | ReceiptFailed

  /** The outcome of `getTransactionByHash`: no error, a JSON-RPC response
      error, a result-object parse error, or any other error. */
  datatype ByHashOutcome = ByHashOk | RpcResponseError(code: int, message: string) | ResultParseError | OtherByHashError

  /** The store after a step, and the ids of the notifications it posted, in order. */
  datatype Step = Step(store: Store, updated: seq<TxId>)

  /** How long, in seconds, a transaction may go unanswered before the by-hash
      lookup is allowed to settle it. */
  const GracePeriod: int := 60

  /** The stored record exists and has left the pending state: the guard
      that keeps a timer-driven update from running twice. */
  predicate Settled(store: Store, id: TxId) {
    id in store && store[id].state != Pending
  }

  predicate PastGrace(tx: Transaction, now: int) {
    tx.date + GracePeriod < now
  }

  /** The ids whose records differ between two stores (added, removed or changed). */
  predicate SameRecord(a: Store, b: Store, id: TxId) {
    (id in a <==> id in b) && (id in a ==> a[id] == b[id])
  }

  /** updateTransactionStateIfNeeded: unless the record is settled, write the
      transaction with its new state and post one notification. */
  function UpdateStateIfNeeded(store: Store, tx: Transaction, state: TxState): (r: Step)
    ensures Settled(store, tx.id) ==> r == Step(store, [])
    ensures !Settled(store, tx.id) ==> r.updated == [tx.id] && tx.id in r.store && r.store[tx.id] == tx.(state := state)
    ensures forall id :: id != tx.id ==> SameRecord(store, r.store, id)
  {
    if Settled(store, tx.id) then Step(store, [])
    else Step(store[tx.id := tx.(state := state)], [tx.id])
  }

  /** The by-hash callback of updatePendingTranscation for `tx`. */
  function ApplyByHash(store: Store, tx: Transaction, outcome: ByHashOutcome, now: int): (r: Step)
    ensures Settled(store, tx.id) ==> r == Step(store, [])
    ensures !Settled(store, tx.id) && outcome.RpcResponseError? ==> r == Step(store - {tx.id}, [])
    ensures !Settled(store, tx.id) && outcome.ResultParseError? ==>
              r == (if PastGrace(tx, now) then Step(store[tx.id := tx.(state := Failed)], [tx.id]) else Step(store, []))
    ensures !Settled(store, tx.id) && outcome.ByHashOk? ==>
              r == (if PastGrace(tx, now) then Step(store[tx.id := tx.(state := Completed)], [tx.id]) else Step(store, []))
    ensures outcome.OtherByHashError? ==> r == Step(store, [])
  {
    if Settled(store, tx.id) then Step(store, [])
    else
      match outcome
      case RpcResponseError(_, _) => Step(store - {tx.id}, [])
      case ResultParseError => if PastGrace(tx, now) then UpdateStateIfNeeded(store, tx, Failed) else Step(store, [])
      case ByHashOk => if PastGrace(tx, now) then UpdateStateIfNeeded(store, tx, Completed) else Step(store, [])
      case OtherByHashError => Step(store, [])
  }

  /** checkTransactionReceipt, and whether its completion asks for the by-hash
      fallback (`fallback`). A settled record swallows the receipt: no write,
      no notification, and the completion is never called. */
  datatype ReceiptStep = ReceiptStep(step: Step, fallback: bool)

  function CheckReceipt(store: Store, receipt: ReceiptOutcome): (r: ReceiptStep)
    ensures r.fallback <==> receipt.ReceiptFailed?
    ensures receipt.ReceiptFailed? ==> r.step == Step(store, [])
    ensures receipt.ReceiptOk? && Settled(store, receipt.newTx.id) ==> r.step == Step(store, [])
    ensures receipt.ReceiptOk? && !Settled(store, receipt.newTx.id) ==>
              r.step == Step(store[receipt.newTx.id := receipt.newTx], [receipt.newTx.id])
  {
    match receipt
    case ReceiptFailed => ReceiptStep(Step(store, []), true)
    case ReceiptOk(newTx) =>
      if Settled(store, newTx.id) then ReceiptStep(Step(store, []), false)
      else ReceiptStep(Step(store[newTx.id := newTx], [newTx.id]), false)
  }

  /** updatePendingTranscation for one pending transaction, once both lookups
      have answered. */
  function UpdatePending(store: Store, tx: Transaction, receipt: ReceiptOutcome, byHash: ByHashOutcome, now: int): (r: Step)
    // a settled record is never rewritten, deleted or notified again
    ensures forall id :: Settled(store, id) ==> SameRecord(store, r.store, id)
    ensures forall id :: Settled(store, id) ==> id !in r.updated
    // at most one notification, about the transaction or its receipt
    ensures |r.updated| <= 1
    ensures forall id :: id in r.updated ==> id == tx.id || (receipt.ReceiptOk? && id == receipt.newTx.id)
    // nothing but those records changes
    ensures forall id :: id != tx.id && !(receipt.ReceiptOk? && id == receipt.newTx.id) ==> SameRecord(store, r.store, id)
    // the by-hash lookup only matters when the receipt lookup failed
    ensures receipt.ReceiptOk? ==> r == CheckReceipt(store, receipt).step
    ensures receipt.ReceiptFailed? ==> r == ApplyByHash(store, tx, byHash, now)
  {
    var rs := CheckReceipt(store, receipt);
    if rs.fallback then ApplyByHash(rs.step.store, tx, byHash, now) else rs.step
  }

  /** One completed poll: a pending transaction and the answers its lookups got. */
  datatype Poll = Poll(tx: Transaction, receipt: ReceiptOutcome, byHash: ByHashOutcome, now: int)

  /** The callbacks of a poll pass, applied in the order they complete: records
      settled beforehand stay as they were and are never notified, and each poll
      posts at most one notification. */
  method ApplyPolls(store: Store, polls: seq<Poll>) returns (r: Step)
    ensures forall id :: Settled(store, id) ==> SameRecord(store, r.store, id)
    ensures forall id :: Settled(store, id) ==> id !in r.updated
    ensures |r.updated| <= |polls|
  {
    var s := store;
    var updated: seq<TxId> := [];
    var i := 0;
    while i < |polls|
      invariant 0 <= i <= |polls|
      invariant forall id :: Settled(store, id) ==> SameRecord(store, s, id)
      invariant forall id :: Settled(store, id) ==> id !in updated
      invariant |updated| <= i
    {
      var p := polls[i];
      var step := UpdatePending(s, p.tx, p.receipt, p.byHash, p.now);
      s := step.store;
      updated := updated + step.updated;
      i := i + 1;
    }
    r := Step(s, updated);
  }

  /** Once the by-hash path has posted a notification for a transaction, a
      later by-hash answer for the same transaction changes nothing and posts
      nothing: the transition fires once. */
  lemma ByHashTransitionFiresOnce(
    store: Store, tx: Transaction, first: ByHashOutcome, second: ByHashOutcome, now1: int, now2: int)
    requires ApplyByHash(store, tx, first, now1).updated != []
    ensures Settled(ApplyByHash(store, tx, first, now1).store, tx.id)
    ensures var s1 := ApplyByHash(store, tx, first, now1).store;
            ApplyByHash(s1, tx, second, now2) == Step(s1, [])
  {
  }

  /** A JSON-RPC response error removes the record at any age: afterwards the
      store has no entry for the transaction. */
  lemma RpcErrorDeletesAtAnyAge(store: Store, tx: Transaction, code: int, message: string, now: int)
    requires !Settled(store, tx.id)
    ensures tx.id !in UpdatePending(store, tx, ReceiptFailed, RpcResponseError(code, message), now).store
  {
  }

  /** A transaction that is not settled, past its grace period, whose receipt
      lookup fails and whose by-hash lookup reports a parse error becomes
      failed with one notification; any later pass over the same answers, at
      any time, does nothing. */
  lemma ParseErrorAfterGraceFailsOnce(store: Store, tx: Transaction, now: int, later: int)
    requires !Settled(store, tx.id) && PastGrace(tx, now)
    ensures var s1 := UpdatePending(store, tx, ReceiptFailed, ResultParseError, now);
            s1 == Step(store[tx.id := tx.(state := Failed)], [tx.id]) &&
            UpdatePending(s1.store, tx, ReceiptFailed, ResultParseError, later) == Step(s1.store, [])
  {
  }

  /** The first block of the history poll (`startUpdatingAllTransactions`):
      `history` is the store's transactions, most recent first. With no
      completed transaction it is block 1, else 2000 blocks before the most
      recent completed one. */
  function StartBlock(history: seq<Transaction>): (b: int)
    ensures (forall i :: 0 <= i < |history| ==> history[i].state != Completed) ==> b == 1
    ensures forall k :: 0 <= k < |history| && history[k].state == Completed &&
                        (forall j :: 0 <= j < k ==> history[j].state != Completed) ==>
                          b == history[k].blockNumber - 2000
  {
    match FirstIndex(history, (t: Transaction) => t.state == Completed)
    case None => 1
    case Some(k) => history[k].blockNumber - 2000
  }
}
