/**
 * The earlier, unvalidated version of the ledger (package org.example).
 * Deposits and withdrawals check nothing, a transfer only compares the
 * balance with the amount, every transfer record has the id "id", and the
 * getters hand out the live lists themselves rather than copies.
 */
module Draft {

  /** A java.util.List held by reference: whoever holds it sees every change. */
  class LiveList<T> {
    var items: seq<T>

    constructor ()
      ensures items == []
    {
      items := [];
    }

    method Add(x: T)
      modifies this
      ensures items == old(items) + [x]
    {
      items := items + [x];
    }
  }

  /** A record of the draft: type is free text, the id is whatever the caller passes. */
  datatype Transaction = Transaction(
    id: string,
    amount: int,
    kind: string,
    date: int,
    source: BankAccount?,
    target: BankAccount?)

  class BankAccount {
    const accountNumber: string
    var balance: int
    const owner: User
    const transactions: LiveList<Transaction>

    constructor (accountNumber: string, owner: User)
      ensures this.accountNumber == accountNumber && this.owner == owner
      ensures balance == 0 && fresh(transactions) && transactions.items == []
    {
      this.accountNumber := accountNumber;
      balance := 0;
      this.owner := owner;
      transactions := new LiveList();
    }

    /** Adds any amount, zero and negative ones included. */
    method Deposit(amount: int)
      modifies this
      ensures balance == old(balance) + amount
      ensures transactions.items == old(transactions.items)
    {
      balance := balance + amount;
    }

    /** Subtracts any amount, whatever the balance. */
    method Withdraw(amount: int)
      modifies this
      ensures balance == old(balance) - amount
      ensures transactions.items == old(transactions.items)
    {
      balance := balance - amount;
    }

    method GetBalance() returns (b: int)
      ensures b == balance
    {
      b := balance;
    }

    method AddTransaction(transaction: Transaction)
      modifies transactions
      ensures transactions.items == old(transactions.items) + [transaction]
    {
      transactions.Add(transaction);
    }

    /** The history list itself, not a copy. */
    method GetTransactions() returns (list: LiveList<Transaction>)
      ensures list == transactions
    {
      list := transactions;
    }

    /** The owner's name, not the owner. */
    method GetOwner() returns (name: string)
      ensures name == owner.name
    {
      name := owner.name;
    }
  }

  class User {
    const id: string
    const name: string
    const accounts: LiveList<BankAccount>

    constructor (id: string, name: string)
      ensures this.id == id && this.name == name
      ensures fresh(accounts) && accounts.items == []
    {
      this.id := id;
      this.name := name;
      accounts := new LiveList();
    }

    method AddAccount(account: BankAccount)
      modifies accounts
      ensures accounts.items == old(accounts.items) + [account]
    {
      accounts.Add(account);
    }

    /** The account list itself, not a copy. */
    method GetAccounts() returns (list: LiveList<BankAccount>)
      ensures list == accounts
    {
      list := accounts;
    }

    method GetName() returns (n: string)
      ensures n == name
    {
      n := name;
    }
  }

  /** A caller that appends to the list GetTransactions returned changes the account's own history. */
  method AppendThroughGetter(account: BankAccount, transaction: Transaction)
    modifies account.transactions
    ensures account.transactions.items == old(account.transactions.items) + [transaction]
  {
    var list := account.GetTransactions();
    list.Add(transaction);
  }

  method CreateAccount(user: User, accountNumber: string) returns (account: BankAccount)
    modifies user.accounts
    ensures fresh(account) && fresh(account.transactions)
    ensures account.accountNumber == accountNumber && account.owner == user
    ensures account.balance == 0 && account.transactions.items == []
    ensures user.accounts.items == old(user.accounts.items) + [account]
  {
    account := new BankAccount(accountNumber, user);
    user.AddAccount(account);
  }

  /**
   * Builds the record first (id "id", type "TRANSFER", the given clock
   * reading); then, only when the source's balance strictly exceeds the
   * amount, moves it and appends that one record to both histories.
   * There is no check on the amount's sign. Otherwise nothing changes and
   * the method reports `moved == false` where the source prints a message.
   */
  method Transfer(source: BankAccount, target: BankAccount, amount: int, now: int) returns (moved: bool)
    modifies source, target, source.transactions, target.transactions
    ensures moved <==> old(source.balance) > amount
    ensures !moved ==>
      && source.balance == old(source.balance) && target.balance == old(target.balance)
      && source.transactions.items == old(source.transactions.items)
      && target.transactions.items == old(target.transactions.items)
    ensures moved && source != target ==>
      && source.balance == old(source.balance) - amount
      && target.balance == old(target.balance) + amount
      && source.balance > 0
    ensures moved && source == target ==> source.balance == old(source.balance)
    ensures moved && source.transactions != target.transactions ==>
      && source.transactions.items == old(source.transactions.items) + [Transaction("id", amount, "TRANSFER", now, source, target)]
      && target.transactions.items == old(target.transactions.items) + [Transaction("id", amount, "TRANSFER", now, source, target)]
    ensures moved && source.transactions == target.transactions ==>
      source.transactions.items == old(source.transactions.items) +
        [Transaction("id", amount, "TRANSFER", now, source, target), Transaction("id", amount, "TRANSFER", now, source, target)]
  {
    var transaction := Transaction("id", amount, "TRANSFER", now, source, target);
    var balance := source.GetBalance();
    if balance > amount {
      source.Withdraw(amount);
      target.Deposit(amount);
      source.AddTransaction(transaction);
      target.AddTransaction(transaction);
      moved := true;
    } else {
      moved := false;
    }
  }

  /** The account's history list itself. */
  method GetTransactionHistory(account: BankAccount) returns (list: LiveList<Transaction>)
    ensures list == account.transactions
  {
    list := account.GetTransactions();
  }

  /** The sum of the balances of the accounts, in list order. */
  function TotalBalance(accounts: seq<BankAccount>): int
    reads accounts
  {
    if accounts == [] then 0
    else TotalBalance(accounts[..|accounts| - 1]) + accounts[|accounts| - 1].balance
  }

  /** The total over two lists one after the other is the sum of their totals, duplicates included. */
  lemma {:induction false} TotalBalanceAppend(front: seq<BankAccount>, back: seq<BankAccount>)
    ensures TotalBalance(front + back) == TotalBalance(front) + TotalBalance(back)
  {
    if back != [] {
      var all := front + back;
      assert all[..|all| - 1] == front + back[..|back| - 1];
      TotalBalanceAppend(front, back[..|back| - 1]);
    } else {
      assert front + back == front;
    }
  }

  /** A list that holds an account twice more, as AddAccount allows, counts its balance twice more. */
  lemma DuplicateCountsTwice(accounts: seq<BankAccount>, a: BankAccount)
    ensures TotalBalance(accounts + [a, a]) == TotalBalance(accounts) + 2 * a.balance
  {
    TotalBalanceAppend(accounts, [a, a]);
    assert [a, a][..1] == [a];
    assert TotalBalance([a, a]) == TotalBalance([a]) + a.balance;
    assert [a][..0] == [];
    assert TotalBalance([a]) == TotalBalance([]) + a.balance;
  }

  method GetTotalBalance(user: User) returns (total: int)
    ensures total == TotalBalance(user.accounts.items)
  {
    var list := user.GetAccounts();
    var accounts := list.items;
    total := 0;
    for i := 0 to |accounts|
      invariant total == TotalBalance(accounts[..i])
    {
      assert accounts[..i + 1][..i] == accounts[..i];
      var b := accounts[i].GetBalance();
      total := total + b;
    }
    assert accounts[..|accounts|] == accounts;
  }
}
