/**
 * The ledger's entities: the immutable Transaction record, and the two
 * objects whose fields change in place, BankAccount and User.
 */
module Entity {
  import opened Wrappers
  import opened Errors
  import opened Enums
  import TransferValidator

  /**
   * One ledger event. `id` stands for the random UUID and `date` for the
   * clock reading taken when the record was built; source and target are
   * references to the accounts involved, null where absent.
   */
  datatype Transaction = Transaction(
    id: nat,
    amount: int,
    kind: TransactionType,
    category: Option<CategoryType>,
    date: int,
    source: BankAccount?,
    target: BankAccount?)

  /** The clock and the id generator that the Transaction constructor consults. */
  class Environment {
    var now: int
    var nextId: nat

    constructor (now: int)
      ensures this.now == now && nextId == 0
    {
      this.now := now;
      nextId := 0;
    }
  }

  /** The Transaction constructor: stores its arguments unchanged, draws a fresh id and reads the clock. */
  method NewTransaction(env: Environment, amount: int, kind: TransactionType, category: Option<CategoryType>,
                        source: BankAccount?, target: BankAccount?) returns (t: Transaction)
    modifies env
    ensures t == Transaction(old(env.nextId), amount, kind, category, env.now, source, target)
    ensures env.nextId == old(env.nextId) + 1 && env.now == old(env.now)
  {
    t := Transaction(env.nextId, amount, kind, category, env.now, source, target);
    env.nextId := env.nextId + 1;
  }

  /** Two records built one after the other never share an id. */
  method DistinctIds(env: Environment, amount: int, kind: TransactionType) returns (t1: Transaction, t2: Transaction)
    modifies env
    ensures t1.id != t2.id
    ensures t1.id < t2.id < env.nextId
  {
    t1 := NewTransaction(env, amount, kind, None, null, null);
    t2 := NewTransaction(env, amount, kind, None, null, null);
  }

  // The records deposit, withdraw, transfer and payment build.

  function DepositRecord(id: nat, amount: int, date: int, account: BankAccount): Transaction {
    Transaction(id, amount, Deposit, None, date, null, account)
  }

  function WithdrawalRecord(id: nat, amount: int, date: int, account: BankAccount): Transaction {
    Transaction(id, amount, Withdrawal, None, date, account, null)
  }

  function TransferRecord(id: nat, amount: int, date: int, source: BankAccount, target: BankAccount): Transaction {
    Transaction(id, amount, Transfer, None, date, source, target)
  }

  function PaymentRecord(id: nat, amount: int, category: CategoryType, date: int, source: BankAccount): Transaction {
    Transaction(id, amount, Payment, Some(category), date, source, null)
  }

  class BankAccount {
    const accountNumber: string
    const owner: User
    var balance: int
    var transactions: seq<Transaction>

    constructor (accountNumber: string, owner: User)
      ensures this.accountNumber == accountNumber && this.owner == owner
      ensures balance == 0 && transactions == []
    {
      this.accountNumber := accountNumber;
      this.owner := owner;
      balance := 0;
      transactions := [];
    }

    /** Credits a positive amount and records one DEPOSIT; anything else changes nothing. */
    method Deposit(env: Environment, amount: int) returns (outcome: Outcome)
      modifies this, env
      ensures outcome == TransferValidator.ValidateAmount(amount)
      ensures env.now == old(env.now)
      ensures outcome.Fail? ==>
        balance == old(balance) && transactions == old(transactions) && env.nextId == old(env.nextId)
      ensures outcome.Pass? ==>
        && balance == old(balance) + amount
        && transactions == old(transactions) + [DepositRecord(old(env.nextId), amount, env.now, this)]
        && env.nextId == old(env.nextId) + 1
      ensures old(balance) >= 0 ==> balance >= 0
    {
      outcome := TransferValidator.ValidateAmount(amount);
      if outcome.Fail? {
        return;
      }
      var t := NewTransaction(env, amount, TransactionType.Deposit, None, null, this);
      balance := balance + amount;
      transactions := transactions + [t];
    }

    /**
     * Debits the amount and records one WITHDRAWAL when the balance strictly
     * exceeds a positive amount; otherwise changes nothing.
     */
    method Withdraw(env: Environment, amount: int) returns (outcome: Outcome)
      modifies this, env
      ensures outcome == TransferValidator.CheckTransfer(old(balance), amount)
      ensures outcome.Pass? <==> old(balance) > amount > 0
      ensures env.now == old(env.now)
      ensures outcome.Fail? ==>
        balance == old(balance) && transactions == old(transactions) && env.nextId == old(env.nextId)
      ensures outcome.Pass? ==>
        && balance == old(balance) - amount
        && transactions == old(transactions) + [WithdrawalRecord(old(env.nextId), amount, env.now, this)]
        && env.nextId == old(env.nextId) + 1
      ensures outcome.Pass? ==> balance > 0
      ensures old(balance) >= 0 ==> balance >= 0
    {
      outcome := TransferValidator.CheckTransfer(balance, amount);
      if outcome.Fail? {
        return;
      }
      var t := NewTransaction(env, amount, Withdrawal, None, this, null);
      balance := balance - amount;
      transactions := transactions + [t];
    }

    /** Appends a record as it is; the balance is not touched. */
    method AddTransaction(transaction: Transaction)
      modifies this
      ensures transactions == old(transactions) + [transaction]
      ensures balance == old(balance)
    {
      transactions := transactions + [transaction];
    }

    /** A snapshot of the history: a value, so later appends do not reach it. */
    method GetTransactions() returns (history: seq<Transaction>)
      ensures history == transactions
    {
      history := transactions;
    }
  }

  /** A snapshot taken before an append still shows the history as it was. */
  method SnapshotSurvivesAppend(account: BankAccount, transaction: Transaction) returns (snapshot: seq<Transaction>)
    modifies account
    ensures snapshot == old(account.transactions)
    ensures account.transactions == snapshot + [transaction]
  {
    snapshot := account.GetTransactions();
    account.AddTransaction(transaction);
  }

  class User {
    const id: string
    const name: string
    var accounts: seq<BankAccount>

    constructor (id: string, name: string)
      ensures this.id == id && this.name == name && accounts == []
    {
      this.id := id;
      this.name := name;
      accounts := [];
    }

    /** Appends the account, with no check for duplicates; nothing is ever removed. */
    method AddAccount(account: BankAccount)
      modifies this
      ensures accounts == old(accounts) + [account]
      ensures old(accounts) <= accounts
    {
      accounts := accounts + [account];
    }

    /** A snapshot of the account list. */
    method GetAccounts() returns (list: seq<BankAccount>)
      ensures list == accounts
    {
      list := accounts;
    }
  }

  /** Adding the same account twice keeps both entries. */
  method AddSameAccountTwice(user: User, account: BankAccount)
    modifies user
    ensures user.accounts == old(user.accounts) + [account, account]
  {
    user.AddAccount(account);
    user.AddAccount(account);
  }

  /**
   * Every transaction of the accounts, account by account in list order and
   * each account's history in insertion order: the flatMap the reports run.
   */
  function FlatHistory(accounts: seq<BankAccount>): seq<Transaction>
    reads accounts
  {
    if accounts == [] then []
    else FlatHistory(accounts[..|accounts| - 1]) + accounts[|accounts| - 1].transactions
  }

  /** The flattened history of a list is that of its parts, one after the other. */
  lemma {:induction false} FlatHistoryAppend(front: seq<BankAccount>, back: seq<BankAccount>)
    ensures FlatHistory(front + back) == FlatHistory(front) + FlatHistory(back)
  {
    if back != [] {
      var all := front + back;
      assert all[..|all| - 1] == front + back[..|back| - 1];
      FlatHistoryAppend(front, back[..|back| - 1]);
    } else {
      assert front + back == front;
    }
  }

  /** The history is empty exactly when every account's history is. */
  lemma {:induction false} FlatHistoryEmpty(accounts: seq<BankAccount>)
    ensures FlatHistory(accounts) == [] <==> forall i :: 0 <= i < |accounts| ==> accounts[i].transactions == []
  {
    if accounts != [] {
      var front := accounts[..|accounts| - 1];
      FlatHistoryEmpty(front);
      assert forall i :: 0 <= i < |front| ==> front[i] == accounts[i];
    }
  }

  /** One more account in a prefix adds its history at the end. */
  lemma FlatHistoryStep(accounts: seq<BankAccount>, i: nat)
    requires i < |accounts|
    ensures FlatHistory(accounts[..i + 1]) == FlatHistory(accounts[..i]) + accounts[i].transactions
  {
    assert accounts[..i + 1][..i] == accounts[..i];
  }

  /** The history of account i sits inside the flattened history, after those of the accounts before it. */
  lemma FlatHistorySplit(accounts: seq<BankAccount>, i: nat)
    requires i < |accounts|
    ensures FlatHistory(accounts) ==
      FlatHistory(accounts[..i]) + accounts[i].transactions + FlatHistory(accounts[i + 1..])
  {
    assert accounts == accounts[..i + 1] + accounts[i + 1..];
    FlatHistoryAppend(accounts[..i + 1], accounts[i + 1..]);
    FlatHistoryStep(accounts, i);
  }

  /** The sum of the balances of the accounts. */
  function TotalBalance(accounts: seq<BankAccount>): int
    reads accounts
  {
    if accounts == [] then 0
    else TotalBalance(accounts[..|accounts| - 1]) + accounts[|accounts| - 1].balance
  }

  lemma {:induction false} TotalBalanceAppend(front: seq<BankAccount>, back: seq<BankAccount>)
    ensures TotalBalance(front + back) == TotalBalance(front) + TotalBalance(back)
  {
    if back != [] {
      var all := front + back;
      assert all[..|all| - 1] == front + back[..|back| - 1];
      TotalBalanceAppend(front, back[..|back| - 1]);
    } else {
      assert front + back == front;
    }
  }

  /** When no account is overdrawn, neither is the total. */
  lemma {:induction false} TotalBalanceNonNegative(accounts: seq<BankAccount>)
    requires forall i :: 0 <= i < |accounts| ==> accounts[i].balance >= 0
    ensures TotalBalance(accounts) >= 0
  {
    if accounts != [] {
      TotalBalanceNonNegative(accounts[..|accounts| - 1]);
    }
  }
}
