/** Field-copying conversions between the stored record and the client job (util/TransactionUtil.java). */
module TransactionUtil {
  import opened Wrappers
  import opened Client
  import opened Domain

  /** DO -> Job: a job built with the id constructor, then four setters. */
  function ConvertTransactionDOToTransactionJob(d: TransactionDO): (j: TransactionJob)
    ensures j.transactionJobId == d.transactionId
    ensures j.transactionStatus == d.transactionStatus
    ensures j.sourceAccountId == d.sourceAccountId && j.targetAccountId == d.targetAccountId
    ensures j.amount == d.amount
    ensures j.version == DefaultVersion && j.links.None?
  {
    TransactionJobWithId(d.transactionId).(
      transactionStatus := d.transactionStatus,
      sourceAccountId := d.sourceAccountId,
      targetAccountId := d.targetAccountId,
      amount := d.amount)
  }

  /** Job -> DO: a fresh record and five setters; version and links are dropped. */
  function ConvertTransactionJobToTransactionDO(j: TransactionJob): (d: TransactionDO)
    ensures d.transactionId == j.transactionJobId
    ensures d.transactionStatus == j.transactionStatus
    ensures d.sourceAccountId == j.sourceAccountId && d.targetAccountId == j.targetAccountId
    ensures d.amount == j.amount
  {
    EmptyTransactionDO.(
      sourceAccountId := j.sourceAccountId,
      targetAccountId := j.targetAccountId,
      transactionId := j.transactionJobId,
      amount := j.amount,
      transactionStatus := j.transactionStatus)
  }

  /** DO -> Job -> DO gives back the record, field by field. */
  lemma RoundTripTransactionDO(d: TransactionDO)
    ensures ConvertTransactionJobToTransactionDO(ConvertTransactionDOToTransactionJob(d)) == d
  {
  }

  /** Job -> DO -> Job keeps the five fields; links are lost and version returns to its default. */
  lemma RoundTripTransactionJob(j: TransactionJob)
    ensures ConvertTransactionDOToTransactionJob(ConvertTransactionJobToTransactionDO(j))
            == j.(version := DefaultVersion, links := None)
  {
  }

  /** Two records convert to the same job only if they are equal: DO -> Job loses nothing. */
  lemma ConvertTransactionDOToTransactionJobInjective(d1: TransactionDO, d2: TransactionDO)
    requires ConvertTransactionDOToTransactionJob(d1) == ConvertTransactionDOToTransactionJob(d2)
    ensures d1 == d2
  {
    RoundTripTransactionDO(d1);
    RoundTripTransactionDO(d2);
  }
}
