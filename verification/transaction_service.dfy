/**
 * The service layer (service/TransactionService.java): request validation,
 * job creation, status lookup and status update.
 *
 * Validation and status lookup read a snapshot and are functions; the
 * operations that change the job log are methods of `TransactionService`.
 * `Submitted` is the whole of `transferFunds` on a `System` value, with the
 * debit and credit stages run straight after submission.
 */
module TransactionServices {
  import opened Wrappers
  import opened Client
  import opened Domain
  import opened Exceptions
  import opened TransactionUtil
  import opened AccountsRepository
  import opened TransactionRepository
  import opened FundsTransfer

  /** The request body: two account ids and an amount; the model takes all three as present. */
  datatype FundsTransferRequest = FundsTransferRequest(sourceAccountId: AccountId, targetAccountId: AccountId, amount: Amount)

  // ---------------------------------------------------------------- validateTransferRequest

  /** The position of each check in the validation sequence; codes validation never raises come last. */
  function Rank(c: ErrorCode): nat {
    match c
    case EmptyTransactionRequest => 0
    case InvalidSourceAccountId => 1
    case InvalidTargetAccountId => 2
    case SourceAccountSameAsTargetAccount => 3
    case InvalidFundTransferAmount => 4
    case InsufficientFundsInSourceAccount => 5
    case _ => 6
  }

  /** Check `c` on its own fails for this request, whatever the other checks say. */
  predicate Violates(l: Ledger, request: Option<FundsTransferRequest>, c: ErrorCode) {
    match c
    case EmptyTransactionRequest => request.None?
    case InvalidSourceAccountId => request.Some? && request.value.sourceAccountId !in l.accounts
    case InvalidTargetAccountId => request.Some? && request.value.targetAccountId !in l.accounts
    case SourceAccountSameAsTargetAccount =>
      && request.Some?
      && request.value.sourceAccountId in l.accounts && request.value.targetAccountId in l.accounts
      && l.accounts[request.value.sourceAccountId].accountId == l.accounts[request.value.targetAccountId].accountId
    case InvalidFundTransferAmount => request.Some? && request.value.amount <= 0.0
    case InsufficientFundsInSourceAccount =>
      && request.Some?
      && request.value.sourceAccountId in l.accounts
      && l.accounts[request.value.sourceAccountId].balance < request.value.amount
    case _ => false
  }

  /**
   * `validateTransferRequest`: a request passes exactly when no check fails,
   * and otherwise the error reported is the earliest failing check.
   */
  function ValidateTransferRequest(l: Ledger, request: Option<FundsTransferRequest>): (r: Outcome<ResourceException>)
    ensures r.Pass? ==> forall c :: !Violates(l, request, c)
    ensures r.Fail? ==> Violates(l, request, r.error.errorCode)
    ensures r.Fail? ==> forall c :: Violates(l, request, c) ==> Rank(r.error.errorCode) <= Rank(c)
  {
    if request.None? then
      Fail(ResourceException(EmptyTransactionRequest))
    else
      var req := request.value;
      var sourceAccount := AccountsRepository.Lookup(l, req.sourceAccountId);
      if sourceAccount.None? then
        Fail(ResourceException(InvalidSourceAccountId))
      else
        var targetAccount := AccountsRepository.Lookup(l, req.targetAccountId);
        if targetAccount.None? then
          Fail(ResourceException(InvalidTargetAccountId))
        else if sourceAccount.value.accountId == targetAccount.value.accountId then
          Fail(ResourceException(SourceAccountSameAsTargetAccount))
        else if req.amount <= 0.0 then
          Fail(ResourceException(InvalidFundTransferAmount))
        else if sourceAccount.value.balance < req.amount then
          Fail(ResourceException(InsufficientFundsInSourceAccount))
        else
          Pass
  }

  /** With every account stored under its own id, the same-account check compares the request's ids. */
  lemma SameAccountCheckComparesIds(l: Ledger, request: Option<FundsTransferRequest>)
    requires WellKeyed(l.accounts)
    ensures Violates(l, request, SourceAccountSameAsTargetAccount) <==>
              && request.Some?
              && request.value.sourceAccountId in l.accounts
              && request.value.targetAccountId in l.accounts
              && request.value.sourceAccountId == request.value.targetAccountId
  {
  }

  /** An amount equal to the whole source balance passes: the balance check is strict. */
  lemma ExactBalancePasses(l: Ledger, req: FundsTransferRequest)
    requires WellKeyed(l.accounts)
    requires req.sourceAccountId in l.accounts && req.targetAccountId in l.accounts
    requires req.sourceAccountId != req.targetAccountId
    requires req.amount > 0.0 && l.accounts[req.sourceAccountId].balance == req.amount
    ensures ValidateTransferRequest(l, Some(req)) == Pass
  {
  }

  /** The validation cases of the transfer tests, each with a zero or bad amount that a later check would also reject. */
  lemma ValidationExamples()
    ensures
      var onlyTarget := Ledger(map["abc" := Account("abc", 2000.0)], {}, {});
      ValidateTransferRequest(onlyTarget, Some(FundsTransferRequest("123", "abc", 0.0)))
        == Fail(ResourceException(InvalidSourceAccountId))
    ensures
      var onlySource := Ledger(map["123" := Account("123", 2000.0)], {}, {});
      && ValidateTransferRequest(onlySource, Some(FundsTransferRequest("123", "abc", 0.0)))
           == Fail(ResourceException(InvalidTargetAccountId))
      && ValidateTransferRequest(onlySource, Some(FundsTransferRequest("123", "123", 0.0)))
           == Fail(ResourceException(SourceAccountSameAsTargetAccount))
    ensures
      var both := Ledger(map["123" := Account("123", 2000.0), "abc" := Account("abc", 2000.0)], {}, {});
      && ValidateTransferRequest(both, Some(FundsTransferRequest("123", "abc", -10.0)))
           == Fail(ResourceException(InvalidFundTransferAmount))
      && ValidateTransferRequest(both, Some(FundsTransferRequest("123", "abc", 0.0)))
           == Fail(ResourceException(InvalidFundTransferAmount))
      && ValidateTransferRequest(both, Some(FundsTransferRequest("123", "abc", 3000.0)))
           == Fail(ResourceException(InsufficientFundsInSourceAccount))
    ensures ValidateTransferRequest(EmptyLedger, None) == Fail(ResourceException(EmptyTransactionRequest))
  {
  }

  // ---------------------------------------------------------------- getTransactionJobStatus

  /** `getTransactionJobStatus`: the stored record as a client job, or INVALID_TRANSACTION_ID. */
  function TransactionJobStatus(log: TransactionLog, id: TransactionId): (r: Result<TransactionJob, ResourceException>)
    ensures r.Err? <==> id !in log
    ensures r.Err? ==> r.error == ResourceException(InvalidTransactionId)
    ensures r.Ok? ==> ConvertTransactionJobToTransactionDO(r.value) == log[id]
    ensures r.Ok? ==> r.value.version == DefaultVersion && r.value.links.None?
  {
    match TransactionRepository.Lookup(log, id)
    case None => Err(ResourceException(InvalidTransactionId))
    case Some(d) => Ok(ConvertTransactionDOToTransactionJob(d))
  }

  // ---------------------------------------------------------------- updateTransactionJob

  /**
   * `updateTransactionJob`: a null id and an unknown id are rejected with the
   * log unchanged; otherwise the record is overwritten.
   */
  function UpdatedTransactionJob(log: TransactionLog, d: TransactionDO): (r: Result<TransactionLog, ResourceException>)
    ensures d.transactionId.None? ==> r == Err(ResourceException(NullEmptyTransactionId))
    ensures d.transactionId.Some? && d.transactionId.value !in log ==> r == Err(ResourceException(InvalidTransactionId))
    ensures r.Ok? <==> d.transactionId.Some? && d.transactionId.value in log
    ensures r.Ok? ==>
      && r.value.Keys == log.Keys
      && r.value[d.transactionId.value] == d
      && (forall k :: k in log && k != d.transactionId.value ==> r.value[k] == log[k])
  {
    if d.transactionId.None? then
      Err(ResourceException(NullEmptyTransactionId))
    else if TransactionRepository.Lookup(log, d.transactionId.value).None? then
      Err(ResourceException(InvalidTransactionId))
    else
      Ok(Updated(log, d))
  }

  /** After an accepted update, a status lookup returns the new status (and the whole new record). */
  lemma StatusAfterUpdate(log: TransactionLog, d: TransactionDO)
    requires UpdatedTransactionJob(log, d).Ok?
    ensures TransactionJobStatus(UpdatedTransactionJob(log, d).value, d.transactionId.value)
              == Ok(ConvertTransactionDOToTransactionJob(d))
    ensures TransactionJobStatus(UpdatedTransactionJob(log, d).value, d.transactionId.value).value.transactionStatus
              == d.transactionStatus
  {
  }

  // ---------------------------------------------------------------- persistTransaction

  /** The record `persistTransaction` builds: IN_PROGRESS, under the generated id. */
  function InProgressRecord(request: FundsTransferRequest, uuid: TransactionId): (d: TransactionDO)
    ensures d.transactionId == Some(uuid) && d.transactionStatus == Some(InProgress)
    ensures d.sourceAccountId == Some(request.sourceAccountId)
    ensures d.targetAccountId == Some(request.targetAccountId)
    ensures d.amount == Some(request.amount)
  {
    EmptyTransactionDO.(
      amount := Some(request.amount),
      sourceAccountId := Some(request.sourceAccountId),
      targetAccountId := Some(request.targetAccountId),
      transactionId := Some(uuid),
      transactionStatus := Some(InProgress))
  }

  /**
   * `persistTransaction`: create the IN_PROGRESS record and hand back its client
   * form. With a fresh id exactly one record is added and the job mirrors it.
   */
  function Persisted(log: TransactionLog, request: FundsTransferRequest, uuid: TransactionId): (r: (TransactionLog, TransactionJob))
    ensures r.0 == Created(log, InProgressRecord(request, uuid))
    ensures uuid !in log ==> r.0 == log[uuid := InProgressRecord(request, uuid)]
    ensures uuid !in log ==> TransactionJobStatus(r.0, uuid) == Ok(r.1)
    ensures r.1.transactionJobId == Some(uuid) && r.1.transactionStatus == Some(InProgress)
    ensures r.1.sourceAccountId == Some(request.sourceAccountId) && r.1.targetAccountId == Some(request.targetAccountId)
    ensures r.1.amount == Some(request.amount) && r.1.version == DefaultVersion
  {
    var d := InProgressRecord(request, uuid);
    (Created(log, d), ConvertTransactionDOToTransactionJob(d))
  }

  // ---------------------------------------------------------------- transferFunds

  /**
   * `transferFunds`: validate; on failure raise and change nothing; otherwise
   * persist the IN_PROGRESS job, run the top-level stage call with retry count
   * 0, and return the job as it was persisted.
   */
  function Submitted(s: System, request: Option<FundsTransferRequest>, uuid: TransactionId): (r: (System, Result<TransactionJob, ResourceException>))
    ensures r.1.Err? <==> ValidateTransferRequest(s.ledger, request).Fail?
    ensures r.1.Err? ==> r.0 == s && r.1.error == ValidateTransferRequest(s.ledger, request).error
    ensures r.1.Ok? ==> r.1.value == Persisted(s.log, request.value, uuid).1
    ensures r.1.Ok? ==> r.0.log.Keys == s.log.Keys + {uuid} && r.0.ledger.accounts.Keys == s.ledger.accounts.Keys
  {
    match ValidateTransferRequest(s.ledger, request)
    case Fail(e) => (s, Err(e))
    case Pass =>
      var (log', job) := Persisted(s.log, request.value, uuid);
      StepsKeepAccounts(s.(log := log'), job, 0);
      var (s', _, _) := StartStep(s.(log := log'), job, 0);
      (s', Ok(job))
  }

  /**
   * Without contention, an accepted request with an unseen id ends SUCCESS:
   * the source loses and the target gains exactly the amount, no other
   * account changes and the sum of all balances is kept.
   */
  lemma UncontendedSubmissionSucceeds(s: System, req: FundsTransferRequest, uuid: TransactionId)
    requires WellKeyed(s.ledger.accounts)
    requires ValidateTransferRequest(s.ledger, Some(req)).Pass?
    requires req.sourceAccountId !in s.active && req.targetAccountId !in s.active
    requires uuid !in s.ledger.activeDebitTransactionSet && uuid !in s.ledger.activeCreditTransactionSet
    ensures
      var (s', response) := Submitted(s, Some(req), uuid);
      var src, tgt := req.sourceAccountId, req.targetAccountId;
      && response.Ok?
      && uuid in s'.log && s'.log[uuid].transactionStatus == Some(Success)
      && TransactionJobStatus(s'.log, uuid).Ok?
      && TransactionJobStatus(s'.log, uuid).value.transactionStatus == Some(Success)
      && (forall k :: k in s.log && k != uuid ==> s'.log[k] == s.log[k])
      && s'.ledger.accounts.Keys == s.ledger.accounts.Keys
      && s'.ledger.accounts[src].balance == s.ledger.accounts[src].balance - req.amount
      && s'.ledger.accounts[tgt].balance == s.ledger.accounts[tgt].balance + req.amount
      && (forall k :: k in s.ledger.accounts && k != src && k != tgt ==> s'.ledger.accounts[k] == s.ledger.accounts[k])
      && WellKeyed(s'.ledger.accounts)
      && s'.ledger.activeDebitTransactionSet == s.ledger.activeDebitTransactionSet + {uuid}
      && s'.ledger.activeCreditTransactionSet == s.ledger.activeCreditTransactionSet + {uuid}
      && s'.active == s.active
      && TotalBalance(s'.ledger.accounts) == TotalBalance(s.ledger.accounts)
  {
    var (log', job) := Persisted(s.log, req, uuid);
    assert !Violates(s.ledger, Some(req), SourceAccountSameAsTargetAccount);
    UncontendedTransferSucceeds(s.(log := log'), job);
  }

  /** The same request submitted once per id in `uuids`, in order. */
  function SubmittedRepeatedly(s: System, req: FundsTransferRequest, uuids: seq<TransactionId>): (r: System)
    ensures r.ledger.accounts.Keys == s.ledger.accounts.Keys
    decreases |uuids|
  {
    if uuids == [] then s
    else SubmittedRepeatedly(Submitted(s, Some(req), uuids[0]).0, req, uuids[1..])
  }

  /** The amount n transfers of `a` move together, built by repeated addition. */
  ghost function Repeated(n: nat, a: real): (r: real)
    ensures r == n as real * a
    ensures a >= 0.0 ==> r >= 0.0
  {
    if n == 0 then 0.0 else Repeated(n - 1, a) + a
  }

  /**
   * Between two states, `amount` has moved from `src` to `tgt`: no account was
   * added or removed, no other account changed, the sum of all balances and
   * the busy set are as they were, and the ledger stays well keyed.
   */
  ghost predicate Moved(s: System, s': System, src: AccountId, tgt: AccountId, amount: real) {
    && src in s.ledger.accounts && tgt in s.ledger.accounts
    && s'.ledger.accounts.Keys == s.ledger.accounts.Keys
    && s'.ledger.accounts[src].balance == s.ledger.accounts[src].balance - amount
    && s'.ledger.accounts[tgt].balance == s.ledger.accounts[tgt].balance + amount
    && (forall k :: k in s.ledger.accounts && k != src && k != tgt ==> s'.ledger.accounts[k] == s.ledger.accounts[k])
    && TotalBalance(s'.ledger.accounts) == TotalBalance(s.ledger.accounts)
    && s'.active == s.active
    && WellKeyed(s'.ledger.accounts)
  }

  /** One uncontended submission, stated as a move plus what it does to the replay sets and the log. */
  lemma SubmissionStep(s: System, req: FundsTransferRequest, uuid: TransactionId)
    requires WellKeyed(s.ledger.accounts)
    requires req.sourceAccountId in s.ledger.accounts && req.targetAccountId in s.ledger.accounts
    requires req.sourceAccountId != req.targetAccountId && req.amount > 0.0
    requires req.amount <= s.ledger.accounts[req.sourceAccountId].balance
    requires req.sourceAccountId !in s.active && req.targetAccountId !in s.active
    requires uuid !in s.ledger.activeDebitTransactionSet && uuid !in s.ledger.activeCreditTransactionSet
    ensures
      var s' := Submitted(s, Some(req), uuid).0;
      && Moved(s, s', req.sourceAccountId, req.targetAccountId, req.amount)
      && s'.ledger.activeDebitTransactionSet == s.ledger.activeDebitTransactionSet + {uuid}
      && s'.ledger.activeCreditTransactionSet == s.ledger.activeCreditTransactionSet + {uuid}
      && uuid in s'.log && s'.log[uuid].transactionStatus == Some(Success)
      && (forall k :: k in s.log && k != uuid ==> k in s'.log && s'.log[k] == s.log[k])
  {
    assert !Violates(s.ledger, Some(req), SourceAccountSameAsTargetAccount);
    assert ValidateTransferRequest(s.ledger, Some(req)).Pass?;
    UncontendedSubmissionSucceeds(s, req, uuid);
  }

  /** Every id of `uuids` ends with status SUCCESS; records of other ids are untouched. */
  ghost predicate AllSucceeded(log: TransactionLog, log': TransactionLog, uuids: seq<TransactionId>) {
    && (forall i :: 0 <= i < |uuids| ==> uuids[i] in log' && log'[uuids[i]].transactionStatus == Some(Success))
    && (forall k :: k in log && k !in uuids ==> k in log' && log'[k] == log[k])
  }

  /**
   * The conditions under which a run of submissions of `req` meets no
   * contention and no refusal: a valid request between two idle accounts,
   * distinct ids never seen by the ledger, and enough funds for all of them.
   */
  ghost predicate Uncontended(s: System, req: FundsTransferRequest, uuids: seq<TransactionId>) {
    && WellKeyed(s.ledger.accounts)
    && req.sourceAccountId in s.ledger.accounts && req.targetAccountId in s.ledger.accounts
    && req.sourceAccountId != req.targetAccountId && req.amount > 0.0
    && req.sourceAccountId !in s.active && req.targetAccountId !in s.active
    && (forall i, j :: 0 <= i < j < |uuids| ==> uuids[i] != uuids[j])
    && (forall i :: 0 <= i < |uuids| ==>
          uuids[i] !in s.ledger.activeDebitTransactionSet && uuids[i] !in s.ledger.activeCreditTransactionSet)
    && Repeated(|uuids|, req.amount) <= s.ledger.accounts[req.sourceAccountId].balance
  }

  /** After the first submission of an uncontended run, the rest of the run is still uncontended. */
  lemma UncontendedAfterStep(s: System, req: FundsTransferRequest, uuids: seq<TransactionId>)
    requires Uncontended(s, req, uuids) && uuids != []
    ensures
      var s1 := Submitted(s, Some(req), uuids[0]).0;
      && Uncontended(s1, req, uuids[1..])
      && Moved(s, s1, req.sourceAccountId, req.targetAccountId, req.amount)
      && uuids[0] in s1.log && s1.log[uuids[0]].transactionStatus == Some(Success)
      && (forall k :: k in s.log && k != uuids[0] ==> k in s1.log && s1.log[k] == s.log[k])
  {
    var rest := uuids[1..];
    assert Repeated(|uuids|, req.amount) == Repeated(|rest|, req.amount) + req.amount;
    SubmissionStep(s, req, uuids[0]);
    assert forall i :: 0 <= i < |rest| ==> rest[i] == uuids[i + 1];
  }

  /** A move by the first submission followed by a move by the rest of the run is a move by the whole run. */
  lemma MovedThenRest(s: System, req: FundsTransferRequest, uuids: seq<TransactionId>)
    requires uuids != []
    requires
      var s1 := Submitted(s, Some(req), uuids[0]).0;
      && Moved(s, s1, req.sourceAccountId, req.targetAccountId, req.amount)
      && Moved(s1, SubmittedRepeatedly(s1, req, uuids[1..]), req.sourceAccountId, req.targetAccountId, Repeated(|uuids[1..]|, req.amount))
    ensures Moved(s, SubmittedRepeatedly(s, req, uuids), req.sourceAccountId, req.targetAccountId, Repeated(|uuids|, req.amount))
  {
  }

  /**
   * n uncontended submissions of the same valid request with distinct unseen
   * ids move exactly n times the amount from source to target: no update is
   * lost or applied twice, and no other account changes.
   */
  lemma {:induction false} RepeatedTransfersMoveExactly(s: System, req: FundsTransferRequest, uuids: seq<TransactionId>)
    requires Uncontended(s, req, uuids)
    ensures Moved(s, SubmittedRepeatedly(s, req, uuids), req.sourceAccountId, req.targetAccountId, Repeated(|uuids|, req.amount))
    decreases |uuids|
  {
    if uuids == [] {
      assert SubmittedRepeatedly(s, req, uuids) == s;
    } else {
      UncontendedAfterStep(s, req, uuids);
      var s1 := Submitted(s, Some(req), uuids[0]).0;
      RepeatedTransfersMoveExactly(s1, req, uuids[1..]);
      MovedThenRest(s, req, uuids);
    }
  }

  /**
   * Under the same conditions every one of the n transactions ends SUCCESS
   * and no record of another id is touched.
   */
  lemma {:induction false} RepeatedTransfersAllSucceed(s: System, req: FundsTransferRequest, uuids: seq<TransactionId>)
    requires Uncontended(s, req, uuids)
    ensures AllSucceeded(s.log, SubmittedRepeatedly(s, req, uuids).log, uuids)
    decreases |uuids|
  {
    if uuids != [] {
      UncontendedAfterStep(s, req, uuids);
      var s1 := Submitted(s, Some(req), uuids[0]).0;
      var rest := uuids[1..];
      assert SubmittedRepeatedly(s, req, uuids) == SubmittedRepeatedly(s1, req, rest);
      RepeatedTransfersAllSucceed(s1, req, rest);
      var s' := SubmittedRepeatedly(s1, req, rest);
      forall i | 0 <= i < |uuids|
        ensures uuids[i] in s'.log && s'.log[uuids[i]].transactionStatus == Some(Success)
      {
        if i == 0 {
          assert uuids[0] !in rest;
        } else {
          assert uuids[i] == rest[i - 1];
        }
      }
      forall k | k in s.log && k !in uuids
        ensures k in s'.log && s'.log[k] == s.log[k]
      {
        assert k != uuids[0] && k !in rest;
      }
    }
  }

  /** The sequential form of the parallel transfer test: twenty transfers of 100 from 5000 to 4000 give 3000 and 6000. */
  lemma TwentyTransfersExample(uuids: seq<TransactionId>)
    requires |uuids| == 20
    requires forall i, j :: 0 <= i < j < |uuids| ==> uuids[i] != uuids[j]
    ensures
      var s := System(Ledger(map["123" := Account("123", 5000.0), "abc" := Account("abc", 4000.0)], {}, {}), map[], {});
      var s' := SubmittedRepeatedly(s, FundsTransferRequest("123", "abc", 100.0), uuids);
      s'.ledger.accounts["123"].balance == 3000.0 && s'.ledger.accounts["abc"].balance == 6000.0
  {
    var s := System(Ledger(map["123" := Account("123", 5000.0), "abc" := Account("abc", 4000.0)], {}, {}), map[], {});
    RepeatedTransfersMoveExactly(s, FundsTransferRequest("123", "abc", 100.0), uuids);
  }

  /** The single transfer test: 100 from 1000 to 2000 gives 900 and 2100, status SUCCESS. */
  lemma SingleTransferExample(uuid: TransactionId)
    ensures
      var s := System(Ledger(map["123" := Account("123", 1000.0), "abc" := Account("abc", 2000.0)], {}, {}), map[], {});
      var (s', response) := Submitted(s, Some(FundsTransferRequest("123", "abc", 100.0)), uuid);
      && response.Ok? && response.value.transactionStatus == Some(InProgress)
      && s'.log[uuid].transactionStatus == Some(Success)
      && s'.ledger.accounts["123"].balance == 900.0 && s'.ledger.accounts["abc"].balance == 2100.0
  {
  }

  // ---------------------------------------------------------------- the service

  class TransactionService {
    const accountsRepository: AccountsRepositoryInMemory
    const transactionRepository: TransactionRepositoryInMemory
    const fundsTransferManager: FundsTransferManager

    /** The manager works on the same two repositories as the service. */
    ghost predicate Valid()
      reads this, accountsRepository
    {
      && fundsTransferManager.accountsRepository == accountsRepository
      && fundsTransferManager.transactionRepository == transactionRepository
      && accountsRepository.Valid()
    }

    ghost function State(): System
      reads this, accountsRepository, transactionRepository, fundsTransferManager
    {
      System(accountsRepository.State(), transactionRepository.transactions, fundsTransferManager.activeTransactionSet)
    }

    constructor (accounts: AccountsRepositoryInMemory, transactions: TransactionRepositoryInMemory, manager: FundsTransferManager)
      requires manager.accountsRepository == accounts && manager.transactionRepository == transactions
      requires accounts.Valid()
      ensures Valid()
      ensures accountsRepository == accounts && transactionRepository == transactions && fundsTransferManager == manager
    {
      accountsRepository := accounts;
      transactionRepository := transactions;
      fundsTransferManager := manager;
    }

    method TransferFunds(request: Option<FundsTransferRequest>, uuid: TransactionId) returns (r: Result<TransactionJob, ResourceException>)
      requires Valid()
      modifies accountsRepository, transactionRepository, fundsTransferManager
      ensures Valid()
      ensures (State(), r) == Submitted(old(State()), request, uuid)
    {
      var validation := ValidateTransferRequest(accountsRepository.State(), request);
      if validation.Fail? {
        return Err(validation.error);
      }
      var job := PersistTransaction(request.value, uuid);
      StepsKeepAccounts(State(), job, 0);
      // The entry call passes no retry count; it is the top-level call, retry count 0.
      var debit, credit := fundsTransferManager.StartAsyncTransaction(job, 0);
      r := Ok(job);
    }

    method UpdateTransactionJob(d: TransactionDO) returns (r: Outcome<ResourceException>)
      modifies transactionRepository
      ensures UpdatedTransactionJob(old(transactionRepository.transactions), d).Ok? ==>
                r == Pass && transactionRepository.transactions == UpdatedTransactionJob(old(transactionRepository.transactions), d).value
      ensures UpdatedTransactionJob(old(transactionRepository.transactions), d).Err? ==>
                r == Fail(UpdatedTransactionJob(old(transactionRepository.transactions), d).error)
                && transactionRepository.transactions == old(transactionRepository.transactions)
    {
      if d.transactionId.None? {
        return Fail(ResourceException(NullEmptyTransactionId));
      }
      var validated := transactionRepository.FindTransactionById(d.transactionId.value);
      if validated.None? {
        return Fail(ResourceException(InvalidTransactionId));
      }
      transactionRepository.UpdateTransactionJob(d);
      r := Pass;
    }

    method PersistTransaction(request: FundsTransferRequest, uuid: TransactionId) returns (job: TransactionJob)
      modifies transactionRepository
      ensures (transactionRepository.transactions, job) == Persisted(old(transactionRepository.transactions), request, uuid)
    {
      var d := EmptyTransactionDO;
      d := d.(amount := Some(request.amount));
      d := d.(sourceAccountId := Some(request.sourceAccountId));
      d := d.(targetAccountId := Some(request.targetAccountId));
      d := d.(transactionId := Some(uuid));
      d := d.(transactionStatus := Some(InProgress));
      transactionRepository.CreateTransaction(d);
      job := ConvertTransactionDOToTransactionJob(d);
    }

    method GetTransactionJobStatus(id: TransactionId) returns (r: Result<TransactionJob, ResourceException>)
      ensures r == TransactionJobStatus(transactionRepository.transactions, id)
    {
      var d := transactionRepository.FindTransactionById(id);
      if d.None? {
        return Err(ResourceException(InvalidTransactionId));
      }
      r := Ok(ConvertTransactionDOToTransactionJob(d.value));
    }

    method ClearTransactions()
      modifies transactionRepository
      ensures transactionRepository.transactions == map[]
    {
      transactionRepository.ClearTransactions();
    }
  }
}
