/**
 * The client representation of a transfer job (client/TransactionJob.java):
 * the status enum with its display strings, the job record and its two constructors.
 */
module Client {
  import opened Wrappers

  type AccountId = string
  type TransactionId = string

  /** BigDecimal amounts are exact; they are modelled as reals. */
  type Amount = real

  /**
   * The five constants of the enum, plus DebitSuccess, which the stage logic
   * stores after a successful debit although the enum does not declare it.
   */
  datatype TransactionStatus =
    | Success
    | Failed
    | InsufficientFunds
    | InProgress
    | TransactionTimeout
    | DebitSuccess

  /** `toString` of the enum; DebitSuccess has no declared display string. */
  function DisplayString(s: TransactionStatus): (r: Option<string>)
    ensures r.None? <==> s == DebitSuccess
    ensures r.Some? ==> |r.value| > 0
  {
    match s
    case Success => Some("Success")
    case Failed => Some("Failed")
    case InsufficientFunds => Some("Insufficient Funds")
    case InProgress => Some("In Progress")
    case TransactionTimeout => Some("Transaction timeout")
    case DebitSuccess => None
  }

  /** The display strings are pairwise distinct: `toString` is injective over the enum. */
  lemma DisplayStringInjective(s1: TransactionStatus, s2: TransactionStatus)
    requires DisplayString(s1).Some?
    requires DisplayString(s1) == DisplayString(s2)
    ensures s1 == s2
  {
  }

  /** A HATEOAS link carried by a job; links are never set by the core. */
  datatype Link = Link(version: int, title: string, httpMethod: string, rel: string, uri: string, linkType: string)

  datatype TransactionJob = TransactionJob(
    transactionJobId: Option<TransactionId>,
    version: int,
    transactionStatus: Option<TransactionStatus>,
    sourceAccountId: Option<AccountId>,
    targetAccountId: Option<AccountId>,
    amount: Option<Amount>,
    links: Option<seq<Link>>)

  /** The field initialiser of `version`. */
  const DefaultVersion: int := 1

  /** The no-argument constructor: only `version` has a value. */
  function NewTransactionJob(): (j: TransactionJob)
    ensures j.version == 1
    ensures j.transactionJobId.None? && j.transactionStatus.None?
    ensures j.sourceAccountId.None? && j.targetAccountId.None? && j.amount.None? && j.links.None?
  {
    TransactionJob(None, DefaultVersion, None, None, None, None, None)
  }

  /** The id constructor: sets `transactionJobId` (which may itself be null) and nothing else. */
  function TransactionJobWithId(id: Option<TransactionId>): (j: TransactionJob)
    ensures j.transactionJobId == id && j.version == 1
    ensures j.transactionStatus.None?
    ensures j.sourceAccountId.None? && j.targetAccountId.None? && j.amount.None? && j.links.None?
  {
    NewTransactionJob().(transactionJobId := id)
  }
}
