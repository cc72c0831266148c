/** Domain records: the stored account and the stored transaction (domain/TransactionDO.java). */
module Domain {
  import opened Wrappers
  import opened Client

  /** An account as the ledger stores it. */
  datatype Account = Account(accountId: AccountId, balance: Amount)

  /** The persisted transaction record; every field of the Java bean may be null. */
  datatype TransactionDO = TransactionDO(
    sourceAccountId: Option<AccountId>,
    targetAccountId: Option<AccountId>,
    amount: Option<Amount>,
    transactionId: Option<TransactionId>,
    transactionStatus: Option<TransactionStatus>)

  /** `new TransactionDO()`: every field null. */
  const EmptyTransactionDO: TransactionDO := TransactionDO(None, None, None, None, None)
}
