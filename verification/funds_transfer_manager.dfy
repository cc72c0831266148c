/**
 * The transfer stages (service/FundsTransferManager.java), run sequentially.
 *
 * Every debit or credit attempt is one atomic step over the set of busy
 * account ids (`activeTransactionSet`). It either finds its account busy and
 * asks to be re-issued with `retryCount + 1` without touching anything, or
 * marks the account, moves the money, persists the job status and clears the
 * mark. A failed debit persists INSUFFICIENT_FUNDS and rethrows before the
 * mark is cleared, so its source account stays marked.
 */
module FundsTransfer {
  import opened Wrappers
  import opened Client
  import opened Domain
  import opened Exceptions
  import opened TransactionUtil
  import opened AccountsRepository
  import opened TransactionRepository

  /**
   * The outcome of one stage attempt: it completed, it found its account busy
   * and must be re-issued with the given retry count, or it threw.
   */
  datatype Attempt = Done | Busy(retryCount: nat) | Raised(error: ResourceException)

  /** Everything the stages read and write: the ledger, the job log and the busy account ids. */
  datatype System = System(ledger: Ledger, log: TransactionLog, active: set<AccountId>)

  /** The record a stage persists: the job converted to a record, with a new status. */
  function WithStatus(job: TransactionJob, status: TransactionStatus): (d: TransactionDO)
    ensures d.transactionId == job.transactionJobId && d.transactionStatus == Some(status)
    ensures d.sourceAccountId == job.sourceAccountId && d.targetAccountId == job.targetAccountId
    ensures d.amount == job.amount
  {
    ConvertTransactionJobToTransactionDO(job).(transactionStatus := Some(status))
  }

  // ---------------------------------------------------------------- debit stage

  /** What a debit attempt needs to run without a NullPointerException. */
  predicate DebitReady(s: System, job: TransactionJob) {
    && job.sourceAccountId.Some?
    && (job.sourceAccountId.value !in s.active ==>
          DebitDefined(s.ledger, ConvertTransactionJobToTransactionDO(job)))
  }

  /** One pass of `debitFundsFromSourceAccount`. */
  function DebitStep(s: System, job: TransactionJob, retryCount: nat): (r: (System, Attempt))
    requires DebitReady(s, job)
    ensures r.1.Busy? <==> job.sourceAccountId.value in s.active
    ensures r.1.Busy? ==> r.0 == s && r.1.retryCount == retryCount + 1
    ensures !r.1.Busy? ==>
      var d := ConvertTransactionJobToTransactionDO(job);
      && (r.1.Done? <==> DebitAllowed(s.ledger, d))
      && (r.1.Done? ==>
            && r.0.ledger == Debited(s.ledger, d).value
            && r.0.log == Updated(s.log, WithStatus(job, DebitSuccess))
            && r.0.active == s.active)
      && (r.1.Raised? ==>
            && r.1.error == ResourceException(InsufficientFundsInSourceAccount)
            && r.0.ledger == s.ledger
            && r.0.log == Updated(s.log, WithStatus(job, InsufficientFunds))
            && r.0.active == s.active + {job.sourceAccountId.value})
  {
    var src := job.sourceAccountId.value;
    if src in s.active then
      (s, Busy(retryCount + 1))
    else
      var marked := s.active + {src};
      var d := ConvertTransactionJobToTransactionDO(job);
      match Debited(s.ledger, d)
      case Ok(ledger') =>
        (System(ledger', Updated(s.log, WithStatus(job, DebitSuccess)), marked - {src}), Done)
      case Err(e) =>
        (System(s.ledger, Updated(s.log, WithStatus(job, InsufficientFunds)), marked), Raised(e))
  }

  // ---------------------------------------------------------------- credit stage

  /** What a credit attempt needs to run without a NullPointerException. */
  predicate CreditReady(s: System, job: TransactionJob) {
    && job.targetAccountId.Some?
    && (job.targetAccountId.value !in s.active ==>
          CreditDefined(s.ledger, ConvertTransactionJobToTransactionDO(job)))
  }

  /** One pass of `startAsyncCreditTransaction`; the credit itself never throws. */
  function CreditStep(s: System, job: TransactionJob, retryCount: nat): (r: (System, Attempt))
    requires CreditReady(s, job)
    ensures !r.1.Raised?
    ensures r.1.Busy? <==> job.targetAccountId.value in s.active
    ensures r.1.Busy? ==> r.0 == s && r.1.retryCount == retryCount + 1
    ensures r.1.Done? ==>
      && r.0.ledger == Credited(s.ledger, ConvertTransactionJobToTransactionDO(job))
      && r.0.log == Updated(s.log, WithStatus(job, Success))
      && r.0.active == s.active
  {
    var tgt := job.targetAccountId.value;
    if tgt in s.active then
      (s, Busy(retryCount + 1))
    else
      var marked := s.active + {tgt};
      var d := ConvertTransactionJobToTransactionDO(job);
      (System(Credited(s.ledger, d), Updated(s.log, WithStatus(job, Success)), marked - {tgt}), Done)
  }

  // ---------------------------------------------------------------- startAsyncTransaction

  /**
   * What `startAsyncTransaction` needs: a runnable debit and, when the credit is
   * started, a runnable credit in the state the debit leaves.
   */
  predicate StartReady(s: System, job: TransactionJob, retryCount: nat) {
    && DebitReady(s, job)
    && (retryCount == 0 && DebitStep(s, job, 0).1.Done? ==> CreditReady(DebitStep(s, job, 0).0, job))
  }

  /**
   * The tail of `startAsyncTransaction`, run once the debit has returned
   * normally: only the top-level call (retryCount 0) starts the credit.
   */
  function FinishStep(s: System, job: TransactionJob, retryCount: nat): (r: (System, Option<Attempt>))
    requires retryCount == 0 ==> CreditReady(s, job)
    ensures r.1.Some? <==> retryCount == 0
    ensures r.1.None? ==> r.0 == s
    ensures r.1.Some? ==> (r.0, r.1.value) == CreditStep(s, job, 0)
  {
    if retryCount == 0 then
      var (s', c) := CreditStep(s, job, 0);
      (s', Some(c))
    else
      (s, None)
  }

  /**
   * `startAsyncTransaction(job, retryCount)` with one debit attempt. A busy
   * debit leaves the call suspended in its re-issue, so no credit starts; a
   * raised debit propagates, so no credit starts either.
   */
  function StartStep(s: System, job: TransactionJob, retryCount: nat): (r: (System, Attempt, Option<Attempt>))
    requires StartReady(s, job, retryCount)
    ensures (r.1 == DebitStep(s, job, retryCount).1)
    ensures r.2.Some? <==> retryCount == 0 && r.1.Done?
    ensures !r.1.Done? ==> r.0 == DebitStep(s, job, retryCount).0
    ensures r.1.Done? ==>
      (r.0, r.2) == FinishStep(DebitStep(s, job, retryCount).0, job, retryCount)
  {
    var (s1, debit) := DebitStep(s, job, retryCount);
    if debit.Done? then
      var (s2, credit) := FinishStep(s1, job, retryCount);
      (s2, debit, credit)
    else
      (s1, debit, None)
  }

  // ---------------------------------------------------------------- properties

  /** A job whose fields are all set and whose two accounts exist. */
  predicate JobWellFormed(s: System, job: TransactionJob) {
    && job.transactionJobId.Some?
    && job.sourceAccountId.Some? && job.targetAccountId.Some? && job.amount.Some?
    && job.sourceAccountId.value in s.ledger.accounts
    && job.targetAccountId.value in s.ledger.accounts
  }

  /** No stage ever adds or removes an account. */
  lemma StepsKeepAccounts(s: System, job: TransactionJob, retryCount: nat)
    requires JobWellFormed(s, job)
    ensures StartReady(s, job, retryCount)
    ensures StartStep(s, job, retryCount).0.ledger.accounts.Keys == s.ledger.accounts.Keys
  {
  }

  /**
   * Without contention, a top-level call with an unseen id and a covering
   * balance debits the source and credits the target by exactly the amount,
   * ends with status SUCCESS, leaves every other account and the busy set as
   * they were, and keeps the sum of all balances.
   */
  lemma UncontendedTransferSucceeds(s: System, job: TransactionJob)
    requires JobWellFormed(s, job)
    requires job.sourceAccountId.value != job.targetAccountId.value
    requires job.sourceAccountId.value !in s.active && job.targetAccountId.value !in s.active
    requires job.transactionJobId.value !in s.ledger.activeDebitTransactionSet
    requires job.transactionJobId.value !in s.ledger.activeCreditTransactionSet
    requires s.ledger.accounts[job.sourceAccountId.value].balance >= job.amount.value
    ensures StartReady(s, job, 0)
    ensures
      var (s', debit, credit) := StartStep(s, job, 0);
      var src, tgt, amount := job.sourceAccountId.value, job.targetAccountId.value, job.amount.value;
      && debit == Done && credit == Some(Done)
      && s'.log == s.log[job.transactionJobId.value := WithStatus(job, Success)]
      && s'.ledger.accounts.Keys == s.ledger.accounts.Keys
      && s'.ledger.accounts[src].balance == s.ledger.accounts[src].balance - amount
      && s'.ledger.accounts[tgt].balance == s.ledger.accounts[tgt].balance + amount
      && (forall k :: k in s.ledger.accounts && k != src && k != tgt ==> s'.ledger.accounts[k] == s.ledger.accounts[k])
      && s'.ledger.activeDebitTransactionSet == s.ledger.activeDebitTransactionSet + {job.transactionJobId.value}
      && s'.ledger.activeCreditTransactionSet == s.ledger.activeCreditTransactionSet + {job.transactionJobId.value}
      && s'.active == s.active
      && TotalBalance(s'.ledger.accounts) == TotalBalance(s.ledger.accounts)
  {
    var d := ConvertTransactionJobToTransactionDO(job);
    var (s1, debit) := DebitStep(s, job, 0);
    DebitLowersTotal(s.ledger, d);
    CreditRaisesTotal(s1.ledger, d);
  }

  /**
   * A debit that raises leaves its source account marked: every later debit
   * from that account and every later credit to it finds it busy.
   */
  lemma FailedDebitLeavesSourceBusy(s: System, job: TransactionJob, retryCount: nat, other: TransactionJob, n: nat)
    requires StartReady(s, job, retryCount)
    requires StartStep(s, job, retryCount).1.Raised?
    requires other.sourceAccountId == job.sourceAccountId || other.targetAccountId == job.sourceAccountId
    ensures
      var s' := StartStep(s, job, retryCount).0;
      && StartStep(s, job, retryCount).2.None?
      && s'.ledger == s.ledger
      && s'.log[job.transactionJobId.value].transactionStatus == Some(InsufficientFunds)
      && job.sourceAccountId.value in s'.active
      && (other.sourceAccountId == job.sourceAccountId ==> DebitStep(s', other, n) == (s', Busy(n + 1)))
      && (other.targetAccountId == job.sourceAccountId ==> CreditStep(s', other, n) == (s', Busy(n + 1)))
  {
  }

  /**
   * Re-running the debit stage of a job whose debit already happened moves no
   * money: the replay guard sends it down the insufficient-funds branch.
   */
  lemma ReplayedDebitMovesNothing(s: System, job: TransactionJob, retryCount: nat)
    requires DebitReady(s, job)
    requires DebitStep(s, job, retryCount).1.Done?
    ensures
      var s1 := DebitStep(s, job, retryCount).0;
      DebitReady(s1, job) && DebitStep(s1, job, retryCount).1.Raised? &&
      DebitStep(s1, job, retryCount).0.ledger == s1.ledger
  {
  }

  /** Re-running the credit stage of a job whose credit already happened moves no money. */
  lemma ReplayedCreditMovesNothing(s: System, job: TransactionJob, retryCount: nat)
    requires CreditReady(s, job)
    requires CreditStep(s, job, retryCount).1.Done?
    ensures
      var s1 := CreditStep(s, job, retryCount).0;
      CreditReady(s1, job) && CreditStep(s1, job, retryCount).1.Done? &&
      CreditStep(s1, job, retryCount).0.ledger == s1.ledger
  {
  }

  /**
   * The credit stage is started only by the top-level call and only after a
   * debit that completed: by then the job id is recorded as debited and the
   * source account has paid the amount, which the credit does not give back.
   */
  lemma CreditStartsOnlyAfterDebitAtTopLevel(s: System, job: TransactionJob, retryCount: nat)
    requires StartReady(s, job, retryCount)
    ensures
      var (s', debit, credit) := StartStep(s, job, retryCount);
      credit.Some? ==>
        && retryCount == 0 && debit == Done
        && job.transactionJobId.value !in s.ledger.activeDebitTransactionSet
        && job.transactionJobId.value in s'.ledger.activeDebitTransactionSet
        && job.sourceAccountId.value in s.ledger.accounts
        && job.sourceAccountId.value in s'.ledger.accounts
        && (job.sourceAccountId != job.targetAccountId ==>
              s'.ledger.accounts[job.sourceAccountId.value].balance
                == s.ledger.accounts[job.sourceAccountId.value].balance - job.amount.value)
  {
  }

  // ---------------------------------------------------------------- a failed debit strands its source

  /**
   * The debit of the code as written, on a concrete input: a source of 50
   * asked for 100 raises, and from then on every debit from that source,
   * whatever its amount and retry count, finds it busy.
   */
  lemma StrandedSourceExample(n: nat)
    ensures
      var s := System(Ledger(map["123" := Account("123", 50.0), "abc" := Account("abc", 0.0)], {}, {}), map[], {});
      var job := TransactionJob(Some("t1"), 1, Some(InProgress), Some("123"), Some("abc"), Some(100.0), None);
      var later := TransactionJob(Some("t2"), 1, Some(InProgress), Some("123"), Some("abc"), Some(10.0), None);
      var s' := DebitStep(s, job, 0).0;
      && DebitStep(s, job, 0).1.Raised?
      && DebitReady(s', later)
      && DebitStep(s', later, n) == (s', Busy(n + 1))
  {
  }

  /**
   * The debit stage as evidently intended: the release of the source
   * account runs whether or not the debit raises, as a `finally` would.
   */
  function DebitStepReleasing(s: System, job: TransactionJob, retryCount: nat): (r: (System, Attempt))
    requires DebitReady(s, job)
    ensures r.1 == DebitStep(s, job, retryCount).1
    ensures r.0.ledger == DebitStep(s, job, retryCount).0.ledger
    ensures r.0.log == DebitStep(s, job, retryCount).0.log
    ensures r.0.active == s.active
  {
    var (s', a) := DebitStep(s, job, retryCount);
    if a.Raised? then (s'.(active := s'.active - {job.sourceAccountId.value}), a) else (s', a)
  }

  /**
   * With the release in place a raised debit leaves its source free: a later
   * debit from it that the ledger allows completes instead of waiting.
   */
  lemma ReleasingDebitFreesSource(s: System, job: TransactionJob, retryCount: nat, later: TransactionJob, n: nat)
    requires DebitReady(s, job)
    requires DebitStepReleasing(s, job, retryCount).1.Raised?
    requires later.sourceAccountId == job.sourceAccountId
    requires DebitReady(DebitStepReleasing(s, job, retryCount).0, later)
    requires DebitAllowed(DebitStepReleasing(s, job, retryCount).0.ledger, ConvertTransactionJobToTransactionDO(later))
    ensures job.sourceAccountId.value !in DebitStepReleasing(s, job, retryCount).0.active
    ensures DebitStepReleasing(DebitStepReleasing(s, job, retryCount).0, later, n).1 == Done
  {
  }

  // ---------------------------------------------------------------- the manager

  class FundsTransferManager {
    const accountsRepository: AccountsRepositoryInMemory
    const transactionRepository: TransactionRepositoryInMemory
    var activeTransactionSet: set<AccountId>

    constructor (accounts: AccountsRepositoryInMemory, transactions: TransactionRepositoryInMemory)
      ensures accountsRepository == accounts && transactionRepository == transactions
      ensures activeTransactionSet == {}
    {
      accountsRepository := accounts;
      transactionRepository := transactions;
      activeTransactionSet := {};
    }

    ghost function State(): System
      reads this, accountsRepository, transactionRepository
    {
      System(accountsRepository.State(), transactionRepository.transactions, activeTransactionSet)
    }

    method StartAsyncTransaction(job: TransactionJob, retryCount: nat) returns (debit: Attempt, credit: Option<Attempt>)
      requires accountsRepository.Valid() && StartReady(State(), job, retryCount)
      modifies this, accountsRepository, transactionRepository
      ensures accountsRepository.Valid()
      ensures (State(), debit, credit) == StartStep(old(State()), job, retryCount)
    {
      debit := DebitFundsFromSourceAccount(job, retryCount);
      credit := None;
      if debit.Done? {
        credit := FinishStartAsyncTransaction(job, retryCount);
      }
    }

    method FinishStartAsyncTransaction(job: TransactionJob, retryCount: nat) returns (credit: Option<Attempt>)
      requires accountsRepository.Valid()
      requires retryCount == 0 ==> CreditReady(State(), job)
      modifies this, accountsRepository, transactionRepository
      ensures accountsRepository.Valid()
      ensures (State(), credit) == FinishStep(old(State()), job, retryCount)
    {
      credit := None;
      if retryCount == 0 {
        var c := StartAsyncCreditTransaction(job, 0);
        credit := Some(c);
      }
    }

    method DebitFundsFromSourceAccount(job: TransactionJob, retryCount: nat) returns (a: Attempt)
      requires accountsRepository.Valid() && DebitReady(State(), job)
      modifies this, accountsRepository, transactionRepository
      ensures accountsRepository.Valid()
      ensures (State(), a) == DebitStep(old(State()), job, retryCount)
    {
      var src := job.sourceAccountId.value;
      // The unsynchronised test and the test under the lock agree when run sequentially.
      if src in activeTransactionSet {
        return Busy(retryCount + 1);
      }
      activeTransactionSet := activeTransactionSet + {src};
      var d := ConvertTransactionJobToTransactionDO(job);
      var debited := accountsRepository.DebitAccountForTransaction(d);
      if debited.Fail? {
        d := d.(transactionStatus := Some(InsufficientFunds));
        transactionRepository.UpdateTransactionJob(d);
        // Rethrown: the release of the source account below is skipped.
        return Raised(debited.error);
      }
      d := d.(transactionStatus := Some(DebitSuccess));
      transactionRepository.UpdateTransactionJob(d);
      activeTransactionSet := activeTransactionSet - {src};
      a := Done;
    }

    method StartAsyncCreditTransaction(job: TransactionJob, retryCount: nat) returns (a: Attempt)
      requires accountsRepository.Valid() && CreditReady(State(), job)
      modifies this, accountsRepository, transactionRepository
      ensures accountsRepository.Valid()
      ensures (State(), a) == CreditStep(old(State()), job, retryCount)
    {
      var tgt := job.targetAccountId.value;
      if tgt in activeTransactionSet {
        return Busy(retryCount + 1);
      }
      activeTransactionSet := activeTransactionSet + {tgt};
      var d := ConvertTransactionJobToTransactionDO(job);
      accountsRepository.CreditAccountForTransaction(d);
      d := d.(transactionStatus := Some(Success));
      transactionRepository.UpdateTransactionJob(d);
      activeTransactionSet := activeTransactionSet - {tgt};
      a := Done;
    }
  }
}
