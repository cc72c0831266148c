/**
 * The job log (repository/TransactionRepositoryInMemory.java): a map from
 * transaction id to the stored record. `Created` never overwrites, `Updated`
 * always does.
 */
module TransactionRepository {
  import opened Wrappers
  import opened Client
  import opened Domain

  type TransactionLog = map<TransactionId, TransactionDO>

  /** `createTransaction`: putIfAbsent under the record's id. */
  function Created(log: TransactionLog, t: TransactionDO): (r: TransactionLog)
    requires t.transactionId.Some?
    ensures r.Keys == log.Keys + {t.transactionId.value}
    ensures r[t.transactionId.value] == if t.transactionId.value in log then log[t.transactionId.value] else t
    ensures forall k :: k in log ==> r[k] == log[k]
  {
    if t.transactionId.value in log then log else log[t.transactionId.value := t]
  }

  /** `findTransactionById`: the stored record, or null. */
  function Lookup(log: TransactionLog, id: TransactionId): (r: Option<TransactionDO>)
    ensures r.Some? <==> id in log
    ensures r.Some? ==> r.value == log[id] && r.value in log.Values
  {
    if id in log then Some(log[id]) else None
  }

  /** `updateTransactionJob`: put under the record's id, inserting or overwriting. */
  function Updated(log: TransactionLog, t: TransactionDO): (r: TransactionLog)
    requires t.transactionId.Some?
    ensures r.Keys == log.Keys + {t.transactionId.value}
    ensures r[t.transactionId.value] == t
    ensures forall k :: k in log && k != t.transactionId.value ==> r[k] == log[k]
  {
    log[t.transactionId.value := t]
  }

  /** A second create with an id already present leaves the first record in place. */
  lemma CreateNeverOverwrites(log: TransactionLog, t1: TransactionDO, t2: TransactionDO)
    requires t1.transactionId.Some? && t2.transactionId == t1.transactionId
    ensures Created(Created(log, t1), t2) == Created(log, t1)
    ensures Lookup(Created(Created(log, t1), t2), t1.transactionId.value) == Lookup(Created(log, t1), t1.transactionId.value)
  {
  }

  /** A find after an update of the same id returns the updated record; other ids are unaffected. */
  lemma FindAfterUpdate(log: TransactionLog, t: TransactionDO, id: TransactionId)
    requires t.transactionId.Some?
    ensures id == t.transactionId.value ==> Lookup(Updated(log, t), id) == Some(t)
    ensures id != t.transactionId.value ==> Lookup(Updated(log, t), id) == Lookup(log, id)
  {
  }

  class TransactionRepositoryInMemory {
    var transactions: TransactionLog

    constructor ()
      ensures transactions == map[]
    {
      transactions := map[];
    }

    method CreateTransaction(t: TransactionDO)
      requires t.transactionId.Some?
      modifies this
      ensures transactions == Created(old(transactions), t)
    {
      if t.transactionId.value !in transactions {
        transactions := transactions[t.transactionId.value := t];
      }
    }

    method FindTransactionById(id: TransactionId) returns (r: Option<TransactionDO>)
      ensures r.Some? <==> id in transactions
      ensures r.Some? ==> r.value == transactions[id]
    {
      r := if id in transactions then Some(transactions[id]) else None;
    }

    /** After `clearTransactions` every find returns null. */
    method ClearTransactions()
      modifies this
      ensures transactions == map[]
      ensures forall id :: Lookup(transactions, id).None?
    {
      transactions := map[];
    }

    method UpdateTransactionJob(t: TransactionDO)
      requires t.transactionId.Some?
      modifies this
      ensures transactions == Updated(old(transactions), t)
    {
      transactions := transactions[t.transactionId.value := t];
    }
  }
}
