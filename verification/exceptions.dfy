/**
 * The exceptions of the core, reduced to what the core inspects: the
 * application error code of a ResourceException and the message of a
 * DuplicateAccountIdException.
 */
module Exceptions {

  /** The application error codes the core raises. */
  datatype ErrorCode =
    | EmptyTransactionRequest
    | InvalidSourceAccountId
    | InvalidTargetAccountId
    | SourceAccountSameAsTargetAccount
    | InvalidFundTransferAmount
    | InsufficientFundsInSourceAccount
    | NullEmptyTransactionId
    | InvalidTransactionId

  datatype ResourceException = ResourceException(errorCode: ErrorCode)

  datatype DuplicateAccountIdException = DuplicateAccountIdException(message: string)
}
