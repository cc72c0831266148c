# Funds transfer between accounts — a Dafny model

This project models the core of a REST service that transfers money between bank accounts.

- **Accepting a request.** `TransactionService.transferFunds` checks a transfer request, stores a transaction job with status IN PROGRESS, starts the transfer and returns the job.
- **Debit and credit stages.** `FundsTransferManager` runs the transfer in two stages, a debit of the source account and then a credit of the target account. A set of busy account ids is meant to keep two stages from touching the same account at once. A stage that finds its account busy is re-issued with a higher retry count. The debit stage and the credit stage test and mark that set under two different locks, so in the Java code a debit from an account and a credit to the same account can both pass the test; the sequential model does not show this.
- **Replay sets.** The in-memory account repository remembers which transaction ids have already debited and which have already credited. A replayed debit or credit therefore moves no money.
- **Job log.** The in-memory transaction repository holds the job records. Clients poll it for the status.

The model works in layers, and each layer has two parts:

- **Specification functions on values.**
  - `Ledger`: the accounts plus the two replay sets.
  - `TransactionLog`: the job records.
  - `System`: the ledger, the log and the busy set together.
- **Classes that mirror the Java objects.** These are `AccountsRepositoryInMemory`, `TransactionRepositoryInMemory`, `FundsTransferManager` and `TransactionService`. Each holds the same fields and updates them in place. Each method is proved to leave exactly the state, and return exactly the result, that the matching function computes from the old state.

The modules:

| module | Java file |
|---|---|
| `Wrappers` | `Option` (a Java null), `Result` and `Outcome` (a thrown exception) |
| `Client` | `client/TransactionJob.java` |
| `Domain` | `domain/TransactionDO.java` and the account record |
| `Exceptions` | the error codes carried by `ResourceException` |
| `TransactionUtil` | `util/TransactionUtil.java` |
| `AccountsRepository` | `repository/AccountsRepositoryInMemory.java` |
| `TransactionRepository` | `repository/TransactionRepositoryInMemory.java` |
| `FundsTransfer` | `service/FundsTransferManager.java` |
| `TransactionServices` | `service/TransactionService.java` |

How Java constructs are modelled:

- `BigDecimal` amounts are `real`, which is exact.
- The fields of `TransactionJob` and `TransactionDO`, which the code leaves null or reads as null, are `Option`s. The request's two account ids and amount are taken as present; a request with a null field is left out, as listed under "## Left out".
- A `NullPointerException` that the Java code would throw is excluded by a precondition. `DebitDefined`, `CreditDefined`, `DebitReady` and `CreditReady` state these preconditions. They follow Java's short-circuit `&&`: a replayed debit id never reads the account map.
- Each attempt of a stage is one atomic step, with three outcomes:
  - `Done`: the stage completed;
  - `Busy(n)`: the account was busy, and the stage must be re-issued with retry count `n`;
  - `Raised(e)`: the stage threw `e`.

## Model

All paths below start with `src/main/java/com/db/awmd/challenge/` or `src/test/java/com/db/awmd/challenge/`.

| member | source | states |
|---|---|---|
| Client.DisplayString | src/main/java/com/db/awmd/challenge/client/TransactionJob.java:41-55 | each enum constant has a non-empty display string; only DEBIT_SUCCESS, which the enum does not declare, has none |
| Client.DisplayStringInjective | src/main/java/com/db/awmd/challenge/client/TransactionJob.java:41-43 | two constants with the same display string are the same constant |
| Client.NewTransactionJob | src/main/java/com/db/awmd/challenge/client/TransactionJob.java:24-35 | the no-argument constructor leaves version 1 and every other field null |
| Client.TransactionJobWithId | src/main/java/com/db/awmd/challenge/client/TransactionJob.java:37-39 | the id constructor sets exactly the job id; version stays 1 |
| TransactionUtil.ConvertTransactionDOToTransactionJob | src/main/java/com/db/awmd/challenge/util/TransactionUtil.java:8-16 | the job carries the record's id, status, accounts and amount; version is 1 and links are null |
| TransactionUtil.ConvertTransactionJobToTransactionDO | src/main/java/com/db/awmd/challenge/util/TransactionUtil.java:18-27 | the record carries the job's id, status, accounts and amount |
| TransactionUtil.RoundTripTransactionDO | src/main/java/com/db/awmd/challenge/util/TransactionUtil.java:8-27 | record → job → record is the identity |
| TransactionUtil.RoundTripTransactionJob | src/main/java/com/db/awmd/challenge/util/TransactionUtil.java:8-27 | job → record → job keeps the five data fields; version resets to 1 and links are lost |
| TransactionUtil.ConvertTransactionDOToTransactionJobInjective | src/main/java/com/db/awmd/challenge/util/TransactionUtil.java:8-16 | distinct records convert to distinct jobs |
| AccountsRepository.AccountCreated | src/main/java/com/db/awmd/challenge/repository/AccountsRepositoryInMemory.java:31-37 | succeeds exactly when the id is new, and then adds just that account; a duplicate raises DuplicateAccountIdException with the source's message and changes nothing |
| AccountsRepository.Lookup | src/main/java/com/db/awmd/challenge/repository/AccountsRepositoryInMemory.java:40-42 | returns the stored account exactly when the id is present, otherwise null |
| AccountsRepository.AccountsCleared | src/main/java/com/db/awmd/challenge/repository/AccountsRepositoryInMemory.java:45-47 | no account is left; both replay sets are kept |
| AccountsRepository.Debited | src/main/java/com/db/awmd/challenge/repository/AccountsRepositoryInMemory.java:50-57 | succeeds exactly when the id has not debited before and the balance covers the amount; then the source loses exactly the amount and stays non-negative, no other account changes, and the id joins the debit set; otherwise it raises INSUFFICIENT_FUNDS_IN_SOURCE_ACCOUNT |
| AccountsRepository.Credited | src/main/java/com/db/awmd/challenge/repository/AccountsRepositoryInMemory.java:60-66 | a new id adds exactly the amount to the target and joins the credit set, and nothing else changes; a replayed id changes nothing |
| AccountsRepository.CreateThenLookup | src/main/java/com/db/awmd/challenge/repository/AccountsRepositoryInMemory.java:31-42 | a created account reads back; a duplicate id was already readable |
| AccountsRepository.DebitAtMostOnce | src/main/java/com/db/awmd/challenge/repository/AccountsRepositoryInMemory.java:50-57 | after a successful debit, every debit with the same id raises |
| AccountsRepository.CreditReplayIsNoOp | src/main/java/com/db/awmd/challenge/repository/AccountsRepositoryInMemory.java:60-66 | crediting twice with one id equals crediting once |
| AccountsRepository.OperationsKeepWellKeyed | src/main/java/com/db/awmd/challenge/repository/AccountsRepositoryInMemory.java:31-66 | create, debit, credit and clear all keep every account stored under its own id |
| AccountsRepository.DebitLowersTotal | src/main/java/com/db/awmd/challenge/repository/AccountsRepositoryInMemory.java:50-57 | a successful debit lowers the sum of all balances by exactly the amount |
| AccountsRepository.CreditRaisesTotal | src/main/java/com/db/awmd/challenge/repository/AccountsRepositoryInMemory.java:60-66 | a first credit raises the sum of all balances by exactly the amount; a replay leaves it unchanged |
| AccountsRepository.DebitExample | src/test/java/com/db/awmd/challenge/AccountsServiceTest.java:51-67 | debiting 100 from 1000 leaves 900 |
| AccountsRepository.AccountsRepositoryInMemory.constructor | src/main/java/com/db/awmd/challenge/repository/AccountsRepositoryInMemory.java:21-28 | starts with no accounts and empty replay sets |
| AccountsRepository.AccountsRepositoryInMemory.CreateAccount | src/main/java/com/db/awmd/challenge/repository/AccountsRepositoryInMemory.java:31-37 | updates the fields and returns as AccountCreated does |
| AccountsRepository.AccountsRepositoryInMemory.GetAccount | src/main/java/com/db/awmd/challenge/repository/AccountsRepositoryInMemory.java:40-42 | returns the stored account or null; a returned account carries the id asked for |
| AccountsRepository.AccountsRepositoryInMemory.ClearAccounts | src/main/java/com/db/awmd/challenge/repository/AccountsRepositoryInMemory.java:45-47 | new state is AccountsCleared of the old one |
| AccountsRepository.AccountsRepositoryInMemory.DebitAccountForTransaction | src/main/java/com/db/awmd/challenge/repository/AccountsRepositoryInMemory.java:50-57 | new state and outcome are those of Debited; on failure nothing changes |
| AccountsRepository.AccountsRepositoryInMemory.CreditAccountForTransaction | src/main/java/com/db/awmd/challenge/repository/AccountsRepositoryInMemory.java:60-66 | new state is Credited of the old one |
| TransactionRepository.Created | src/main/java/com/db/awmd/challenge/repository/TransactionRepositoryInMemory.java:21-23 | puts the record under its id only when the id is absent; no existing record changes |
| TransactionRepository.Lookup | src/main/java/com/db/awmd/challenge/repository/TransactionRepositoryInMemory.java:26-28 | returns the stored record exactly when the id is present |
| TransactionRepository.Updated | src/main/java/com/db/awmd/challenge/repository/TransactionRepositoryInMemory.java:36-38 | the record is stored under its id, inserting or overwriting; other ids are untouched |
| TransactionRepository.CreateNeverOverwrites | src/main/java/com/db/awmd/challenge/repository/TransactionRepositoryInMemory.java:21-23 | a second create with the same id leaves the first record |
| TransactionRepository.FindAfterUpdate | src/main/java/com/db/awmd/challenge/repository/TransactionRepositoryInMemory.java:26-38 | a find after an update returns the updated record; finds of other ids are unaffected |
| TransactionRepository.TransactionRepositoryInMemory.constructor | src/main/java/com/db/awmd/challenge/repository/TransactionRepositoryInMemory.java:18 | starts with no records |
| TransactionRepository.TransactionRepositoryInMemory.CreateTransaction | src/main/java/com/db/awmd/challenge/repository/TransactionRepositoryInMemory.java:21-23 | new map is Created of the old one |
| TransactionRepository.TransactionRepositoryInMemory.FindTransactionById | src/main/java/com/db/awmd/challenge/repository/TransactionRepositoryInMemory.java:26-28 | returns the stored record exactly when present |
| TransactionRepository.TransactionRepositoryInMemory.ClearTransactions | src/main/java/com/db/awmd/challenge/repository/TransactionRepositoryInMemory.java:31-33 | the map is empty afterwards, so every find returns null |
| TransactionRepository.TransactionRepositoryInMemory.UpdateTransactionJob | src/main/java/com/db/awmd/challenge/repository/TransactionRepositoryInMemory.java:36-38 | new map is Updated of the old one |
| FundsTransfer.WithStatus | src/main/java/com/db/awmd/challenge/service/FundsTransferManager.java:99-109 | the persisted record is the converted job with only its status replaced |
| FundsTransfer.DebitStep | src/main/java/com/db/awmd/challenge/service/FundsTransferManager.java:84-119 | a busy source asks for a re-issue with retryCount + 1 and changes nothing. Otherwise the debit succeeds exactly when Debited allows it: on success it stores DEBIT_SUCCESS and releases the source; on failure it stores INSUFFICIENT_FUNDS, raises, and leaves the source marked busy |
| FundsTransfer.CreditStep | src/main/java/com/db/awmd/challenge/service/FundsTransferManager.java:130-167 | never raises. A busy target asks for a re-issue with retryCount + 1 and changes nothing; otherwise it credits as Credited does, stores SUCCESS, and releases the target |
| FundsTransfer.FinishStep | src/main/java/com/db/awmd/challenge/service/FundsTransferManager.java:74-76 | the credit stage starts exactly when retryCount is 0 |
| FundsTransfer.StartStep | src/main/java/com/db/awmd/challenge/service/FundsTransferManager.java:58-77 | one debit attempt; a credit follows exactly when the call is top-level and the debit completed |
| FundsTransfer.StepsKeepAccounts | src/main/java/com/db/awmd/challenge/service/FundsTransferManager.java:58-167 | for a well-formed job the stages raise no null dereference and never add or remove an account |
| FundsTransfer.UncontendedTransferSucceeds | src/main/java/com/db/awmd/challenge/service/FundsTransferManager.java:58-167 | with idle accounts, an unseen id and a covering balance, both stages complete and the job ends SUCCESS. The source loses and the target gains exactly the amount; other accounts and the busy set are unchanged; the sum of all balances is kept |
| FundsTransfer.FailedDebitLeavesSourceBusy | src/main/java/com/db/awmd/challenge/service/FundsTransferManager.java:106-117 | after a raised debit, no credit starts, no money moves and the job shows INSUFFICIENT_FUNDS; the source stays marked, so every later debit from it or credit to it finds it busy |
| FundsTransfer.ReplayedDebitMovesNothing | src/main/java/com/db/awmd/challenge/service/FundsTransferManager.java:84-119 | re-running a completed debit raises and moves no money |
| FundsTransfer.ReplayedCreditMovesNothing | src/main/java/com/db/awmd/challenge/service/FundsTransferManager.java:130-167 | re-running a completed credit moves no money |
| FundsTransfer.CreditStartsOnlyAfterDebitAtTopLevel | src/main/java/com/db/awmd/challenge/service/FundsTransferManager.java:72-76 | a credit is started only by the retryCount-0 call and only after its debit completed: the job id was new to the debit set and is now in it, and the source account has paid the amount |
| FundsTransfer.StrandedSourceExample | src/main/java/com/db/awmd/challenge/service/FundsTransferManager.java:106-117 | as written, a source of 50 asked for 100 raises, and every later debit from that source finds it busy at every retry count |
| FundsTransfer.DebitStepReleasing | src/main/java/com/db/awmd/challenge/service/FundsTransferManager.java:84-119 | the debit stage with the release made unconditional: same outcome, ledger and log as the stage as written, and the busy set is always left as it was found |
| FundsTransfer.ReleasingDebitFreesSource | src/main/java/com/db/awmd/challenge/service/FundsTransferManager.java:106-117 | with the release made unconditional, a raised debit leaves its source free, and a later debit from it that the ledger allows completes |
| FundsTransfer.FundsTransferManager.constructor | src/main/java/com/db/awmd/challenge/service/FundsTransferManager.java:35-48 | wires the two repositories; the busy set starts empty |
| FundsTransfer.FundsTransferManager.StartAsyncTransaction | src/main/java/com/db/awmd/challenge/service/FundsTransferManager.java:58-77 | new state and both attempts are those of StartStep |
| FundsTransfer.FundsTransferManager.FinishStartAsyncTransaction | src/main/java/com/db/awmd/challenge/service/FundsTransferManager.java:74-76 | new state and credit attempt are those of FinishStep |
| FundsTransfer.FundsTransferManager.DebitFundsFromSourceAccount | src/main/java/com/db/awmd/challenge/service/FundsTransferManager.java:84-119 | new state and attempt are those of DebitStep |
| FundsTransfer.FundsTransferManager.StartAsyncCreditTransaction | src/main/java/com/db/awmd/challenge/service/FundsTransferManager.java:130-167 | new state and attempt are those of CreditStep |
| TransactionServices.ValidateTransferRequest | src/main/java/com/db/awmd/challenge/service/TransactionService.java:82-107 | passes only when no check fails. On failure it reports a failing check, and no failing check comes earlier in the order null request, source, target, same account, amount, balance |
| TransactionServices.SameAccountCheckComparesIds | src/main/java/com/db/awmd/challenge/service/TransactionService.java:96-98 | with accounts stored under their own ids, the same-account check fires exactly when the two requested ids are equal |
| TransactionServices.ExactBalancePasses | src/main/java/com/db/awmd/challenge/service/TransactionService.java:103-105 | an amount equal to the whole source balance is accepted |
| TransactionServices.ValidationExamples | src/test/java/com/db/awmd/challenge/TransactionControllerTest.java:63-182 | the rejected requests of the controller tests get the error code each test expects |
| TransactionServices.TransactionJobStatus | src/main/java/com/db/awmd/challenge/service/TransactionService.java:109-116 | an unknown id raises INVALID_TRANSACTION_ID; a known id returns the stored record in client form |
| TransactionServices.UpdatedTransactionJob | src/main/java/com/db/awmd/challenge/service/TransactionService.java:46-57 | a null id raises NULL_EMPTY_TRANSACTION_ID and an unknown id raises INVALID_TRANSACTION_ID, both leaving the log unchanged; a known id overwrites just that record |
| TransactionServices.StatusAfterUpdate | src/test/java/com/db/awmd/challenge/TransactionServiceTest.java:112-117 | after an accepted update, the status lookup returns the new record and its status |
| TransactionServices.InProgressRecord | src/main/java/com/db/awmd/challenge/service/TransactionService.java:63-69 | the new record holds the request's accounts and amount, the generated id and IN_PROGRESS |
| TransactionServices.Persisted | src/main/java/com/db/awmd/challenge/service/TransactionService.java:59-79 | creates the IN_PROGRESS record if absent. With a fresh id exactly that record is added, and a status lookup then returns the job handed back |
| TransactionServices.Submitted | src/main/java/com/db/awmd/challenge/service/TransactionService.java:36-44 | raises exactly when validation fails, then with validation's error and no change. Otherwise it returns the persisted IN_PROGRESS job and adds exactly one record to the log |
| TransactionServices.UncontendedSubmissionSucceeds | src/main/java/com/db/awmd/challenge/service/TransactionService.java:36-44 | an accepted request with idle accounts and an unseen id ends SUCCESS, visible through a status lookup. The source loses and the target gains exactly the amount; nothing else changes; the sum of all balances is kept |
| TransactionServices.SubmittedRepeatedly | src/main/java/com/db/awmd/challenge/service/TransactionService.java:36-44 | the same request submitted once per id never adds or removes an account |
| TransactionServices.RepeatedTransfersMoveExactly | src/main/java/com/db/awmd/challenge/service/TransactionService.java:36-44 | n uncontended submissions with distinct unseen ids move exactly n times the amount: no update is lost or doubled, other accounts are untouched and the total is kept |
| TransactionServices.RepeatedTransfersAllSucceed | src/main/java/com/db/awmd/challenge/service/TransactionService.java:36-44 | under the same conditions every one of the n jobs ends SUCCESS and records of other ids are untouched |
| TransactionServices.TwentyTransfersExample | src/test/java/com/db/awmd/challenge/TransactionControllerTest.java:260-305 | twenty transfers of 100 between accounts of 5000 and 4000 leave 3000 and 6000 |
| TransactionServices.SingleTransferExample | src/test/java/com/db/awmd/challenge/TransactionControllerTest.java:184-229 | one transfer of 100 between accounts of 1000 and 2000 returns IN_PROGRESS, ends SUCCESS and leaves 900 and 2100 |
| TransactionServices.TransactionService.constructor | src/main/java/com/db/awmd/challenge/service/TransactionService.java:26-33 | wires the repositories and a manager that shares them |
| TransactionServices.TransactionService.TransferFunds | src/main/java/com/db/awmd/challenge/service/TransactionService.java:36-44 | new state and result are those of Submitted |
| TransactionServices.TransactionService.UpdateTransactionJob | src/main/java/com/db/awmd/challenge/service/TransactionService.java:46-57 | new log and outcome are those of UpdatedTransactionJob |
| TransactionServices.TransactionService.PersistTransaction | src/main/java/com/db/awmd/challenge/service/TransactionService.java:59-79 | new log and returned job are those of Persisted |
| TransactionServices.TransactionService.GetTransactionJobStatus | src/main/java/com/db/awmd/challenge/service/TransactionService.java:109-116 | the result is that of TransactionJobStatus: INVALID_TRANSACTION_ID exactly for an unknown id, otherwise the stored record in client form with version 1 and no links |
| TransactionServices.TransactionService.ClearTransactions | src/main/java/com/db/awmd/challenge/service/TransactionService.java:118-120 | the log is empty afterwards |

## Left out

- Concurrency is not modelled. This covers the thread pools, the `@Async` dispatch, the two `synchronized` lock objects and the concurrent collections. Stages run one after another, and each attempt is one atomic step. A debit and a credit that take different locks therefore never interleave in the model. The double check of the busy set (outside and inside the lock) collapses into one test.
- The `Thread.sleep` back-off before a retried stage is timing only and is left out.
- The model does not re-issue a busy stage itself. The Java code calls `startAsyncTransaction(job, retryCount + 1)` or `startAsyncCreditTransaction(job, retryCount + 1)` itself; here the attempt returns `Busy(retryCount + 1)` and the caller re-issues it. The Java call is a self-call that bypasses the `@Async` proxy, so it runs synchronously. Its continuation in the suspended top-level frame is `FinishStartAsyncTransaction`, but the model does not chain it automatically once the re-issued debit completes. No retry ceiling or TRANSACTION_TIMEOUT marking exists in the source, so none exists here.
- Notifications (`sendNotification`, `NotificationService`) are left out, because they do not affect balances or job statuses.
- `AccountsService` is not part of this model. The service and the manager call the account repository directly, in place of `accountsService.getAccount`, `debitSourceAccountForTransaction` and `creditTargetAccountForTransaction`.
- `transferFunds` calls a one-argument `startAsyncTransaction(job)`, which is not part of this model. It is modelled as the two-argument method with retry count 0.
- The REST controller is left out. So are the HATEOAS `Link` contents (links are never set by the core), the bean validation of `FundsTransferRequest`, and the media types.
- Of `ResourceException` only the error code is kept. The HTTP status and the message text are left out. The numeric values of `AccountTransactionErrorCodes` are not part of this model; the codes are an enumeration.
- `UUID.randomUUID()` is a parameter `uuid`. Lemmas that need a fresh id require it.
- Accounts are values in a map. Java's `setBalance` on a shared `Account` object is aliasing the model does not capture: an `Account` reference handed out by `getAccount` sees later balance changes in Java, but not here.
- `NullPointerException` paths become preconditions or are excluded by the types, rather than modelled as exceptions. These are a null id passed to a `ConcurrentHashMap`, a debit or credit of a missing account, a job with a missing field, and a transfer request with a null account id or a null amount. No bean validation runs on the request (the controller takes it without `@Valid`), so `validateTransferRequest` would throw on a null account id at the account lookup and on a null amount at the amount check.
- TransactionStatus: the enum declares five constants. The debit stage stores `DEBIT_SUCCESS`, which the enum does not declare. The model adds it as a sixth constant with no display string.
- AccountsRepository.AccountsCleared: like the source, clearing accounts keeps the debit and credit replay sets. A cleared repository therefore still refuses earlier transaction ids.
- A debit that raises leaves its source account in the busy set, as the source does, because the rethrow skips the release. The lemma `FailedDebitLeavesSourceBusy` states the consequence, and "## Findings" records it. The stage functions and the manager keep the behaviour as written; `DebitStepReleasing` is the corrected stage, stated beside them.
- BigDecimal scale is left out. Amounts are exact reals, so `compareTo` and `equals` cannot differ in the model.

## Findings

| source | as written | input that shows it | evidently intended | confidence | as-written member | corrected member |
|---|---|---|---|---|---|---|
| src/main/java/com/db/awmd/challenge/service/FundsTransferManager.java:106-117 | when the debit raises, the catch block rethrows before the source account is removed from the busy set, so the account stays marked for good | source "123" with balance 50, a job debiting 100 from it (a balance drained after validation, or a replayed id), then any later job debiting "123" | the release runs whether or not the debit raises, like a `finally`, so a failed debit does not block the account for every later transfer | not executed; proved on the model | FundsTransfer.StrandedSourceExample | FundsTransfer.DebitStepReleasing |
