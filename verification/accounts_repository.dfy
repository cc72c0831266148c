/**
 * The account ledger (repository/AccountsRepositoryInMemory.java): a map from
 * account id to account, plus the two replay sets of transaction ids that
 * have already debited or credited.
 *
 * The spec functions below work on a `Ledger` value; the class
 * `AccountsRepositoryInMemory` updates its fields in place and is proved to
 * follow them.
 */
module AccountsRepository {
  import opened Wrappers
  import opened Client
  import opened Domain
  import opened Exceptions

  type Accounts = map<AccountId, Account>

  datatype Ledger = Ledger(
    accounts: Accounts,
    activeDebitTransactionSet: set<TransactionId>,
    activeCreditTransactionSet: set<TransactionId>)

  const EmptyLedger: Ledger := Ledger(map[], {}, {})

  /** Every account is stored under its own id. */
  ghost predicate WellKeyed(accounts: Accounts) {
    forall id :: id in accounts ==> accounts[id].accountId == id
  }

  /** `setBalance` on the stored account `id`. */
  function WithBalance(accounts: Accounts, id: AccountId, b: Amount): (r: Accounts)
    requires id in accounts
    ensures r.Keys == accounts.Keys
    ensures r[id].accountId == accounts[id].accountId && r[id].balance == b
    ensures forall k :: k in accounts && k != id ==> r[k] == accounts[k]
  {
    accounts[id := accounts[id].(balance := b)]
  }

  // ---------------------------------------------------------------- createAccount

  function DuplicateAccountMessage(id: AccountId): string {
    "Account id " + id + " already exists!"
  }

  /** `createAccount`: insert-if-absent, failing on a duplicate id. */
  function AccountCreated(l: Ledger, a: Account): (r: Result<Ledger, DuplicateAccountIdException>)
    ensures r.Ok? <==> a.accountId !in l.accounts
    ensures r.Err? ==> r.error == DuplicateAccountIdException(DuplicateAccountMessage(a.accountId))
    ensures r.Ok? ==>
      && r.value.accounts.Keys == l.accounts.Keys + {a.accountId}
      && r.value.accounts[a.accountId] == a
      && (forall k :: k in l.accounts ==> r.value.accounts[k] == l.accounts[k])
      && r.value.activeDebitTransactionSet == l.activeDebitTransactionSet
      && r.value.activeCreditTransactionSet == l.activeCreditTransactionSet
  {
    if a.accountId in l.accounts then
      Err(DuplicateAccountIdException(DuplicateAccountMessage(a.accountId)))
    else
      Ok(l.(accounts := l.accounts[a.accountId := a]))
  }

  // ---------------------------------------------------------------- getAccount

  /** `getAccount`: the stored account, or null. */
  function Lookup(l: Ledger, id: AccountId): (r: Option<Account>)
    ensures r.Some? <==> id in l.accounts
    ensures r.Some? ==> r.value == l.accounts[id]
  {
    if id in l.accounts then Some(l.accounts[id]) else None
  }

  // ---------------------------------------------------------------- clearAccounts

  /** `clearAccounts`: empties the account map; the replay sets are kept. */
  function AccountsCleared(l: Ledger): (r: Ledger)
    ensures r.accounts == map[]
    ensures r.activeDebitTransactionSet == l.activeDebitTransactionSet
    ensures r.activeCreditTransactionSet == l.activeCreditTransactionSet
  {
    l.(accounts := map[])
  }

  // ---------------------------------------------------------------- debit

  /**
   * What the debit needs to run without a NullPointerException: an id, and,
   * unless that id is already in the debit set (the check short-circuits),
   * an existing source account and an amount.
   */
  predicate DebitDefined(l: Ledger, t: TransactionDO) {
    && t.transactionId.Some?
    && (t.transactionId.value !in l.activeDebitTransactionSet ==>
          t.sourceAccountId.Some? && t.sourceAccountId.value in l.accounts && t.amount.Some?)
  }

  /** The guard of `debitAccountForTransaction`: an unseen id and a covering balance. */
  predicate DebitAllowed(l: Ledger, t: TransactionDO)
    requires DebitDefined(l, t)
  {
    && t.transactionId.value !in l.activeDebitTransactionSet
    && l.accounts[t.sourceAccountId.value].balance >= t.amount.value
  }

  /**
   * `debitAccountForTransaction`. A replayed id and a short balance both raise
   * INSUFFICIENT_FUNDS_IN_SOURCE_ACCOUNT and change nothing; otherwise the source
   * loses exactly `amount`, never going below zero, and the id is remembered.
   */
  function Debited(l: Ledger, t: TransactionDO): (r: Result<Ledger, ResourceException>)
    requires DebitDefined(l, t)
    ensures r.Ok? <==> DebitAllowed(l, t)
    ensures r.Err? ==> r.error == ResourceException(InsufficientFundsInSourceAccount)
    ensures r.Ok? ==>
      var src := t.sourceAccountId.value;
      && r.value.accounts.Keys == l.accounts.Keys
      && r.value.accounts[src].accountId == l.accounts[src].accountId
      && r.value.accounts[src].balance == l.accounts[src].balance - t.amount.value
      && r.value.accounts[src].balance >= 0.0
      && (forall k :: k in l.accounts && k != src ==> r.value.accounts[k] == l.accounts[k])
      && r.value.activeDebitTransactionSet == l.activeDebitTransactionSet + {t.transactionId.value}
      && r.value.activeCreditTransactionSet == l.activeCreditTransactionSet
  {
    if DebitAllowed(l, t) then
      var src := t.sourceAccountId.value;
      var newBalance := l.accounts[src].balance - t.amount.value;
      Ok(l.(activeDebitTransactionSet := l.activeDebitTransactionSet + {t.transactionId.value},
            accounts := WithBalance(l.accounts, src, newBalance)))
    else
      Err(ResourceException(InsufficientFundsInSourceAccount))
  }

  // ---------------------------------------------------------------- credit

  /** What the credit needs to run without a NullPointerException. */
  predicate CreditDefined(l: Ledger, t: TransactionDO) {
    && t.transactionId.Some?
    && (t.transactionId.value !in l.activeCreditTransactionSet ==>
          t.targetAccountId.Some? && t.targetAccountId.value in l.accounts && t.amount.Some?)
  }

  /**
   * `creditAccountForTransaction`: an unseen id adds exactly `amount` to the target
   * and is remembered; a replayed id changes nothing.
   */
  function Credited(l: Ledger, t: TransactionDO): (r: Ledger)
    requires CreditDefined(l, t)
    ensures t.transactionId.value in l.activeCreditTransactionSet ==> r == l
    ensures t.transactionId.value !in l.activeCreditTransactionSet ==>
      var tgt := t.targetAccountId.value;
      && r.accounts.Keys == l.accounts.Keys
      && r.accounts[tgt].accountId == l.accounts[tgt].accountId
      && r.accounts[tgt].balance == l.accounts[tgt].balance + t.amount.value
      && (forall k :: k in l.accounts && k != tgt ==> r.accounts[k] == l.accounts[k])
      && r.activeCreditTransactionSet == l.activeCreditTransactionSet + {t.transactionId.value}
      && r.activeDebitTransactionSet == l.activeDebitTransactionSet
  {
    if t.transactionId.value !in l.activeCreditTransactionSet then
      var tgt := t.targetAccountId.value;
      var newBalance := l.accounts[tgt].balance + t.amount.value;
      l.(activeCreditTransactionSet := l.activeCreditTransactionSet + {t.transactionId.value},
         accounts := WithBalance(l.accounts, tgt, newBalance))
    else
      l
  }

  // ---------------------------------------------------------------- properties

  /** A created account can be read back; a duplicate leaves the stored account in place. */
  lemma CreateThenLookup(l: Ledger, a: Account)
    ensures AccountCreated(l, a).Ok? ==> Lookup(AccountCreated(l, a).value, a.accountId) == Some(a)
    ensures AccountCreated(l, a).Err? ==> Lookup(l, a.accountId).Some?
  {
  }

  /** One transaction id debits at most once: after a successful debit, any debit with that id raises. */
  lemma DebitAtMostOnce(l: Ledger, t: TransactionDO, t': TransactionDO)
    requires DebitDefined(l, t) && Debited(l, t).Ok?
    requires t'.transactionId == t.transactionId
    ensures DebitDefined(Debited(l, t).value, t')
    ensures Debited(Debited(l, t).value, t') == Err(ResourceException(InsufficientFundsInSourceAccount))
  {
  }

  /** Crediting twice with the same id is the same as crediting once. */
  lemma CreditReplayIsNoOp(l: Ledger, t: TransactionDO, t': TransactionDO)
    requires CreditDefined(l, t)
    requires t'.transactionId == t.transactionId
    ensures CreditDefined(Credited(l, t), t')
    ensures Credited(Credited(l, t), t') == Credited(l, t)
  {
  }

  /** Every ledger operation keeps each account stored under its own id. */
  lemma OperationsKeepWellKeyed(l: Ledger, a: Account, t: TransactionDO)
    requires WellKeyed(l.accounts)
    ensures AccountCreated(l, a).Ok? ==> WellKeyed(AccountCreated(l, a).value.accounts)
    ensures DebitDefined(l, t) && Debited(l, t).Ok? ==> WellKeyed(Debited(l, t).value.accounts)
    ensures CreditDefined(l, t) ==> WellKeyed(Credited(l, t).accounts)
    ensures WellKeyed(AccountsCleared(l).accounts)
  {
  }

  // ---------------------------------------------------------------- total balance

  /** The sum of the balances of the accounts in `ids`. */
  ghost function TotalOver(accounts: Accounts, ids: set<AccountId>): real
    requires ids <= accounts.Keys
    decreases ids
  {
    if ids == {} then 0.0
    else
      var id :| id in ids;
      accounts[id].balance + TotalOver(accounts, ids - {id})
  }

  /** The sum of all balances in the ledger. */
  ghost function TotalBalance(accounts: Accounts): real {
    TotalOver(accounts, accounts.Keys)
  }

  /** Any account of `ids` can be taken out of the sum first. */
  lemma {:induction false} TotalOverRemove(accounts: Accounts, ids: set<AccountId>, id: AccountId)
    requires ids <= accounts.Keys && id in ids
    ensures TotalOver(accounts, ids) == accounts[id].balance + TotalOver(accounts, ids - {id})
    decreases ids
  {
    var j :| j in ids && TotalOver(accounts, ids) == accounts[j].balance + TotalOver(accounts, ids - {j});
    if j != id {
      TotalOverRemove(accounts, ids - {j}, id);
      TotalOverRemove(accounts, ids - {id}, j);
      assert ids - {j} - {id} == ids - {id} - {j};
    }
  }

  /** The sum depends only on the balances of the summed accounts. */
  lemma {:induction false} TotalOverAgree(a1: Accounts, a2: Accounts, ids: set<AccountId>)
    requires ids <= a1.Keys && ids <= a2.Keys
    requires forall k :: k in ids ==> a1[k].balance == a2[k].balance
    ensures TotalOver(a1, ids) == TotalOver(a2, ids)
    decreases ids
  {
    if ids != {} {
      var j :| j in ids;
      TotalOverRemove(a1, ids, j);
      TotalOverRemove(a2, ids, j);
      TotalOverAgree(a1, a2, ids - {j});
    }
  }

  /** Setting one balance moves the total by exactly the difference. */
  lemma TotalBalanceWithBalance(accounts: Accounts, id: AccountId, b: Amount)
    requires id in accounts
    ensures TotalBalance(WithBalance(accounts, id, b)) == TotalBalance(accounts) - accounts[id].balance + b
  {
    var after := WithBalance(accounts, id, b);
    TotalOverRemove(accounts, accounts.Keys, id);
    TotalOverRemove(after, after.Keys, id);
    TotalOverAgree(accounts, after, accounts.Keys - {id});
  }

  /** A successful debit lowers the sum of all balances by exactly the amount. */
  lemma DebitLowersTotal(l: Ledger, t: TransactionDO)
    requires DebitDefined(l, t) && Debited(l, t).Ok?
    ensures TotalBalance(Debited(l, t).value.accounts) == TotalBalance(l.accounts) - t.amount.value
  {
    var src := t.sourceAccountId.value;
    TotalBalanceWithBalance(l.accounts, src, l.accounts[src].balance - t.amount.value);
  }

  /** A first credit raises the sum of all balances by exactly the amount; a replay leaves it. */
  lemma CreditRaisesTotal(l: Ledger, t: TransactionDO)
    requires CreditDefined(l, t)
    ensures t.transactionId.value !in l.activeCreditTransactionSet ==>
              TotalBalance(Credited(l, t).accounts) == TotalBalance(l.accounts) + t.amount.value
    ensures t.transactionId.value in l.activeCreditTransactionSet ==>
              TotalBalance(Credited(l, t).accounts) == TotalBalance(l.accounts)
  {
    if t.transactionId.value !in l.activeCreditTransactionSet {
      var tgt := t.targetAccountId.value;
      TotalBalanceWithBalance(l.accounts, tgt, l.accounts[tgt].balance + t.amount.value);
    }
  }

  /** The debit of the account tests: 1000 less 100 leaves 900. */
  lemma DebitExample()
    ensures
      var l := Ledger(map["123" := Account("123", 1000.0)], {}, {});
      var t := TransactionDO(Some("123"), Some("dummy"), Some(100.0), Some("12345"), None);
      Debited(l, t).Ok? && Debited(l, t).value.accounts["123"].balance == 900.0
  {
  }

  // ---------------------------------------------------------------- the repository

  class AccountsRepositoryInMemory {
    var accounts: Accounts
    var activeDebitTransactionSet: set<TransactionId>
    var activeCreditTransactionSet: set<TransactionId>

    function State(): Ledger
      reads this
    {
      Ledger(accounts, activeDebitTransactionSet, activeCreditTransactionSet)
    }

    ghost predicate Valid()
      reads this
    {
      WellKeyed(accounts)
    }

    constructor ()
      ensures Valid() && State() == EmptyLedger
    {
      accounts := map[];
      activeDebitTransactionSet := {};
      activeCreditTransactionSet := {};
    }

    method CreateAccount(a: Account) returns (r: Outcome<DuplicateAccountIdException>)
      requires Valid()
      modifies this
      ensures Valid()
      ensures AccountCreated(old(State()), a).Ok? ==> r == Pass && State() == AccountCreated(old(State()), a).value
      ensures AccountCreated(old(State()), a).Err? ==>
                r == Fail(AccountCreated(old(State()), a).error) && State() == old(State())
    {
      // putIfAbsent: the previously stored account, if any, wins.
      var previous := if a.accountId in accounts then Some(accounts[a.accountId]) else None;
      if previous.None? {
        accounts := accounts[a.accountId := a];
      }
      if previous.Some? {
        r := Fail(DuplicateAccountIdException(DuplicateAccountMessage(a.accountId)));
      } else {
        r := Pass;
      }
    }

    method GetAccount(id: AccountId) returns (r: Option<Account>)
      ensures r.Some? <==> id in accounts
      ensures r.Some? ==> r.value == accounts[id] && (Valid() ==> r.value.accountId == id)
    {
      r := if id in accounts then Some(accounts[id]) else None;
    }

    method ClearAccounts()
      requires Valid()
      modifies this
      ensures Valid() && State() == AccountsCleared(old(State()))
    {
      accounts := map[];
    }

    method DebitAccountForTransaction(t: TransactionDO) returns (r: Outcome<ResourceException>)
      requires Valid() && DebitDefined(State(), t)
      modifies this
      ensures Valid()
      ensures Debited(old(State()), t).Ok? ==> r == Pass && State() == Debited(old(State()), t).value
      ensures Debited(old(State()), t).Err? ==> r == Fail(Debited(old(State()), t).error) && State() == old(State())
    {
      var id := t.transactionId.value;
      if id !in activeDebitTransactionSet && accounts[t.sourceAccountId.value].balance >= t.amount.value {
        var src := t.sourceAccountId.value;
        activeDebitTransactionSet := activeDebitTransactionSet + {id};
        var newBalance := accounts[src].balance - t.amount.value;
        accounts := accounts[src := accounts[src].(balance := newBalance)];
        r := Pass;
      } else {
        r := Fail(ResourceException(InsufficientFundsInSourceAccount));
      }
    }

    method CreditAccountForTransaction(t: TransactionDO)
      requires Valid() && CreditDefined(State(), t)
      modifies this
      ensures Valid() && State() == Credited(old(State()), t)
    {
      var id := t.transactionId.value;
      if id !in activeCreditTransactionSet {
        var tgt := t.targetAccountId.value;
        activeCreditTransactionSet := activeCreditTransactionSet + {id};
        var newBalance := accounts[tgt].balance + t.amount.value;
        accounts := accounts[tgt := accounts[tgt].(balance := newBalance)];
      }
    }
  }
}
