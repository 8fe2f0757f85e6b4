/**
 * The ledger service: opening accounts, transfers and payments that change
 * accounts in place, and the read-only reports. Each report's loops are
 * proved equal to the function in module Reports that says what it means.
 * `cutoff` stands for the instant one month before the clock reading.
 */
module BankService {
  import opened Wrappers
  import opened Errors
  import opened Enums
  import opened Entity
  import opened StableSort
  import opened Reports
  import TransferValidator
  import TransactionValidator

  /** Opens a new, empty account for the user and appends it to the user's list. */
  method CreateAccount(user: User, accountNumber: string) returns (account: BankAccount)
    modifies user
    ensures fresh(account)
    ensures account.accountNumber == accountNumber && account.owner == user
    ensures account.balance == 0 && account.transactions == []
    ensures user.accounts == old(user.accounts) + [account]
  {
    account := new BankAccount(accountNumber, user);
    user.AddAccount(account);
  }

  /**
   * Moves a positive amount that the source's balance strictly exceeds.
   * The source gets a WITHDRAWAL, the target a DEPOSIT, and both the one
   * shared TRANSFER record; a refused transfer changes nothing.
   */
  method Transfer(env: Environment, source: BankAccount, target: BankAccount, amount: int)
    returns (outcome: Outcome)
    modifies source, target, env
    ensures outcome == TransferValidator.CheckTransfer(old(source.balance), amount)
    ensures outcome.Pass? <==> old(source.balance) > amount > 0
    ensures env.now == old(env.now)
    ensures outcome.Fail? ==>
      && source.balance == old(source.balance) && source.transactions == old(source.transactions)
      && target.balance == old(target.balance) && target.transactions == old(target.transactions)
      && env.nextId == old(env.nextId)
    ensures outcome.Pass? ==> env.nextId == old(env.nextId) + 3
    ensures outcome.Pass? && source != target ==>
      && source.balance == old(source.balance) - amount
      && target.balance == old(target.balance) + amount
      && source.transactions == old(source.transactions) + [
           WithdrawalRecord(old(env.nextId), amount, env.now, source),
           TransferRecord(old(env.nextId) + 2, amount, env.now, source, target)]
      && target.transactions == old(target.transactions) + [
           DepositRecord(old(env.nextId) + 1, amount, env.now, target),
           TransferRecord(old(env.nextId) + 2, amount, env.now, source, target)]
    ensures outcome.Pass? && source == target ==>
      && source.balance == old(source.balance)
      && source.transactions == old(source.transactions) + [
           WithdrawalRecord(old(env.nextId), amount, env.now, source),
           DepositRecord(old(env.nextId) + 1, amount, env.now, source),
           TransferRecord(old(env.nextId) + 2, amount, env.now, source, source),
           TransferRecord(old(env.nextId) + 2, amount, env.now, source, source)]
    ensures source != target ==>
      source.balance + target.balance == old(source.balance) + old(target.balance)
    ensures old(source.balance) >= 0 && old(target.balance) >= 0 ==>
      source.balance >= 0 && target.balance >= 0
  {
    outcome := TransferValidator.CheckTransfer(source.balance, amount);
    if outcome.Fail? {
      return;
    }
    var withdrawn := source.Withdraw(env, amount);
    var deposited := target.Deposit(env, amount);
    var t := NewTransaction(env, amount, TransactionType.Transfer, None, source, target);
    source.AddTransaction(t);
    target.AddTransaction(t);
  }

  /**
   * Debits a checked amount with a WITHDRAWAL, then resolves the category:
   * a known one adds the PAYMENT record; an unknown one fails, and the
   * debit and the WITHDRAWAL record stay.
   */
  method Payment(env: Environment, source: BankAccount, category: string, amount: int)
    returns (outcome: Outcome)
    modifies source, env
    ensures outcome.Pass? <==> old(source.balance) > amount > 0 && ValueOf(category).Some?
    ensures env.now == old(env.now)
    ensures TransferValidator.CheckTransfer(old(source.balance), amount).Fail? ==>
      && outcome == TransferValidator.CheckTransfer(old(source.balance), amount)
      && source.balance == old(source.balance) && source.transactions == old(source.transactions)
      && env.nextId == old(env.nextId)
    ensures old(source.balance) > amount > 0 && ValueOf(category).None? ==>
      && outcome == Fail(UnknownCategory)
      && source.balance == old(source.balance) - amount
      && source.transactions == old(source.transactions) + [WithdrawalRecord(old(env.nextId), amount, env.now, source)]
      && env.nextId == old(env.nextId) + 1
    ensures outcome.Pass? ==>
      && source.balance == old(source.balance) - amount
      && source.transactions == old(source.transactions) + [
           WithdrawalRecord(old(env.nextId), amount, env.now, source),
           PaymentRecord(old(env.nextId) + 1, amount, ValueOf(category).value, env.now, source)]
      && env.nextId == old(env.nextId) + 2
    ensures old(source.balance) >= 0 ==> source.balance >= 0
  {
    outcome := TransferValidator.CheckTransfer(source.balance, amount);
    if outcome.Fail? {
      return;
    }
    var withdrawn := source.Withdraw(env, amount);
    var known := ValueOf(category);
    if known.None? {
      outcome := Fail(UnknownCategory);
      return;
    }
    var t := NewTransaction(env, amount, TransactionType.Payment, Some(known.value), source, null);
    source.AddTransaction(t);
  }

  /** The account's history, as a snapshot. */
  method GetTransactionHistory(account: BankAccount) returns (history: seq<Transaction>)
    ensures history == account.transactions
  {
    history := account.GetTransactions();
  }

  /** The sum of the balances of the user's accounts. */
  method GetTotalBalance(user: User) returns (total: int)
    ensures total == TotalBalance(user.accounts)
  {
    var accounts := user.GetAccounts();
    total := 0;
    for i := 0 to |accounts|
      invariant total == TotalBalance(accounts[..i])
    {
      assert accounts[..i + 1][..i] == accounts[..i];
      total := total + accounts[i].balance;
    }
    assert accounts[..|accounts|] == accounts;
  }

  /** The loop over CategoryType.values() looking for a constant with the given name. */
  method IsCategoryName(category: string) returns (flag: bool)
    ensures flag <==> ValueOf(category).Some?
  {
    flag := false;
    var i := 0;
    while i < |AllCategories|
      invariant 0 <= i <= |AllCategories|
      invariant forall j :: 0 <= j < i ==> AllCategories[j].Name() != category
    {
      if AllCategories[i].Name() == category {
        flag := true;
        break;
      }
      i := i + 1;
    }
    if !flag {
      forall c: CategoryType ensures c.Name() != category {
        assert c == AllCategories[if c == Taxi then 0 else 1];
      }
    }
  }

  /**
   * What the account spent on the named category in PAYMENTs after the
   * cutoff; zero for an unknown name or a null account. The loop reads
   * every PAYMENT's category, so those must be set.
   */
  method GetMonthlySpendingByCategory(account: BankAccount?, category: string, cutoff: int)
    returns (spending: int)
    requires account != null && ValueOf(category).Some? ==> PaymentsCategorized(account.transactions)
    ensures account == null || ValueOf(category).None? ==> spending == 0
    ensures account != null && ValueOf(category).Some? ==>
      spending == SpendingIn(account.transactions, category, cutoff)
  {
    var flag := IsCategoryName(category);
    if !flag || account == null {
      return 0;
    }
    var history := account.GetTransactions();
    spending := SumRecentOfCategory(history, category, cutoff);
  }

  /** The summing loop of getMonthlySpendingByCategory; it reads the category of every PAYMENT. */
  method SumRecentOfCategory(history: seq<Transaction>, category: string, cutoff: int) returns (spending: int)
    requires PaymentsCategorized(history)
    ensures spending == SpendingIn(history, category, cutoff)
  {
    spending := 0;
    for j := 0 to |history|
      invariant spending == SpendingIn(history[..j], category, cutoff)
    {
      var t := history[j];
      ghost var before := history[..j];
      assert history[..j + 1] == before + [t];
      SpendingInSnoc(before, t, category, cutoff);
      if t.kind == TransactionType.Payment && t.category.value.Name() == category && t.date > cutoff {
        spending := spending + t.amount;
      }
    }
    assert history[..|history|] == history;
  }

  /** The check that every requested name is a CategoryType constant, over a set in any order. */
  method AllCategoryNames(categories: set<string>) returns (allKnown: bool)
    ensures allKnown <==> categories <= TransactionValidator.KnownNames()
  {
    var rest := categories;
    while rest != {}
      invariant rest <= categories
      invariant categories - rest <= TransactionValidator.KnownNames()
      decreases |rest|
    {
      var category :| category in rest;
      var known := ValueOf(category);
      if known.None? {
        assert !TransactionValidator.IsValidCategory(category);
        return false;
      }
      assert TransactionValidator.IsValidCategory(category);
      rest := rest - {category};
    }
    return true;
  }

  /**
   * Recent spending of the user, per category name, over ALL categories: the
   * requested set only gates the report. An empty set, or one holding a name
   * that is not a constant, gives an empty map. Every recent PAYMENT's
   * category is read, so those must be set.
   */
  method GetMonthlySpendingByCategories(user: User?, categories: set<string>, cutoff: int)
    returns (spending: map<string, int>)
    requires user != null && categories != {} && categories <= TransactionValidator.KnownNames() ==>
      RecentPaymentsCategorized(FlatHistory(user.accounts), cutoff)
    ensures user == null || categories == {} || !(categories <= TransactionValidator.KnownNames()) ==>
      spending == map[]
    ensures user != null && categories != {} && categories <= TransactionValidator.KnownNames() ==>
      spending == SpendingMap(FlatHistory(user.accounts), cutoff)
  {
    if user == null || categories == {} {
      return map[];
    }
    var allKnown := AllCategoryNames(categories);
    if !allKnown {
      return map[];
    }
    var accounts := user.GetAccounts();
    spending := map[];
    for i := 0 to |accounts|
      invariant spending == SpendingMap(FlatHistory(accounts[..i]), cutoff)
    {
      var history := accounts[i].GetTransactions();
      FlatHistorySplit(accounts, i);
      CategorizedPart(FlatHistory(accounts[..i]), history, FlatHistory(accounts[i + 1..]), cutoff);
      spending := MergeSpending(spending, FlatHistory(accounts[..i]), history, cutoff);
      FlatHistoryStep(accounts, i);
    }
    assert accounts[..|accounts|] == accounts;
  }

  /** The inner loop: every recent PAYMENT of one history adds its amount under its category's name. */
  method MergeSpending(start: map<string, int>, ghost done: seq<Transaction>, history: seq<Transaction>, cutoff: int)
    returns (spending: map<string, int>)
    requires start == SpendingMap(done, cutoff)
    requires RecentPaymentsCategorized(history, cutoff)
    ensures spending == SpendingMap(done + history, cutoff)
  {
    spending := start;
    assert done + history[..0] == done;
    for j := 0 to |history|
      invariant spending == SpendingMap(done + history[..j], cutoff)
    {
      var t := history[j];
      ghost var s := done + history[..j];
      assert s + [t] == done + history[..j + 1];
      SpendingMapSnoc(s, t, cutoff);
      if t.kind == TransactionType.Payment && t.date > cutoff {
        var key := t.category.value.Name();
        if key in spending {
          spending := spending[key := spending[key] + t.amount];
        } else {
          spending := spending[key := t.amount];
        }
      }
    }
    assert history[..|history|] == history;
  }

  /** The loop that collects every PAYMENT of the accounts, account by account. */
  method CollectPayments(accounts: seq<BankAccount>) returns (payments: seq<Transaction>)
    ensures payments == Payments(FlatHistory(accounts))
  {
    payments := [];
    for i := 0 to |accounts|
      invariant payments == Payments(FlatHistory(accounts[..i]))
    {
      var history := accounts[i].GetTransactions();
      payments := CollectFrom(payments, FlatHistory(accounts[..i]), history);
      FlatHistoryStep(accounts, i);
    }
    assert accounts[..|accounts|] == accounts;
  }

  /** The inner loop: the PAYMENTs of one more history join the collected ones, in order. */
  method CollectFrom(start: seq<Transaction>, ghost done: seq<Transaction>, history: seq<Transaction>)
    returns (payments: seq<Transaction>)
    requires start == Payments(done)
    ensures payments == Payments(done + history)
  {
    payments := start;
    assert done + history[..0] == done;
    for j := 0 to |history|
      invariant payments == Payments(done + history[..j])
    {
      var t := history[j];
      assert done + history[..j + 1] == (done + history[..j]) + [t];
      PaymentsSnoc(done + history[..j], t);
      if t.kind == TransactionType.Payment {
        payments := payments + [t];
      }
    }
    assert history[..|history|] == history;
  }

  /** The position of the entry for `name` (the LinkedHashMap lookup), or |groups| when absent. */
  method FindGroup(groups: seq<CategoryGroup>, name: string) returns (at: nat)
    ensures at == IndexOfName(groups, name)
  {
    at := 0;
    while at < |groups| && groups[at].name != name
      invariant at <= |groups|
      invariant forall j :: 0 <= j < at ==> groups[j].name != name
    {
      at := at + 1;
    }
  }

  /** The grouping loop: each payment joins the list of its category's name, opened on first sight. */
  method GroupPayments(payments: seq<Transaction>) returns (groups: seq<CategoryGroup>)
    requires forall i :: 0 <= i < |payments| ==> payments[i].category.Some?
    ensures groups == GroupByCategory(payments)
  {
    groups := [];
    for k := 0 to |payments|
      invariant groups == GroupByCategory(payments[..k])
    {
      var t := payments[k];
      var name := t.category.value.Name();
      assert name == CategoryKey(t);
      var at := FindGroup(groups, name);
      if at == |groups| {
        groups := groups + [CategoryGroup(name, [])];
      }
      groups := groups[at := CategoryGroup(groups[at].name, groups[at].payments + [t])];
      assert [] + [t] == [t];
      assert payments[..k + 1][..k] == payments[..k];
    }
    assert payments[..|payments|] == payments;
  }

  /** Sorts every entry's list by amount, largest first (List.sort is stable). */
  method SortEachGroup(groups: seq<CategoryGroup>) returns (sorted: seq<CategoryGroup>)
    ensures sorted == SortGroups(groups)
  {
    sorted := groups;
    for i := 0 to |groups|
      invariant |sorted| == |groups|
      invariant forall j :: 0 <= j < i ==> sorted[j] == SortGroups(groups)[j]
      invariant forall j :: i <= j < |groups| ==> sorted[j] == groups[j]
    {
      sorted := sorted[i := CategoryGroup(groups[i].name, SortDesc(groups[i].payments, AmountOf))];
    }
  }

  /**
   * The user's payments grouped by category name, in order of first
   * occurrence, each group sorted by amount, largest first; see
   * Reports.HistorySortedByAmountCorrect. Every PAYMENT's category is read.
   */
  method GetTransactionHistorySortedByAmount(user: User?) returns (groups: seq<CategoryGroup>)
    requires user != null ==> PaymentsCategorized(FlatHistory(user.accounts))
    ensures user == null ==> groups == []
    ensures user != null ==> groups == HistorySortedByAmount(FlatHistory(user.accounts))
  {
    if user == null {
      return [];
    }
    var accounts := user.GetAccounts();
    var payments := CollectPayments(accounts);
    PaymentsCategorizedFilter(FlatHistory(accounts));
    groups := GroupPayments(payments);
    groups := SortEachGroup(groups);
  }

  /** The flag loop: does some account have a non-empty history? */
  method AnyHistory(accounts: seq<BankAccount>) returns (found: bool)
    ensures found <==> FlatHistory(accounts) != []
  {
    found := false;
    var i := 0;
    while i < |accounts|
      invariant 0 <= i <= |accounts|
      invariant forall j :: 0 <= j < i ==> accounts[j].transactions == []
    {
      var history := accounts[i].GetTransactions();
      if history != [] {
        found := true;
        break;
      }
      i := i + 1;
    }
    FlatHistoryEmpty(accounts);
  }

  /** The addAll loop: every record of the accounts, account by account. */
  method CollectAll(accounts: seq<BankAccount>) returns (all: seq<Transaction>)
    ensures all == FlatHistory(accounts)
  {
    all := [];
    for i := 0 to |accounts|
      invariant all == FlatHistory(accounts[..i])
    {
      var history := accounts[i].GetTransactions();
      all := all + history;
      FlatHistoryStep(accounts, i);
    }
    assert accounts[..|accounts|] == accounts;
  }

  /**
   * The last n records of the user's flattened history, in history order.
   * A null user, or one with no records, gets an empty list; a negative n
   * otherwise makes List.subList throw.
   */
  method GetLastNTransactions(user: User?, n: int) returns (r: Result<seq<Transaction>>)
    ensures user == null || FlatHistory(user.accounts) == [] ==> r == Ok([])
    ensures user != null && FlatHistory(user.accounts) != [] ==>
      var all := FlatHistory(user.accounts);
      && (r.Ok? <==> n >= 0)
      && (r.Err? ==> r.error == InvalidRange)
      && (r.Ok? ==> |r.value| == (if n < |all| then n else |all|) && r.value == all[|all| - |r.value|..])
  {
    if user == null {
      return Ok([]);
    }
    var accounts := user.GetAccounts();
    if accounts == [] {
      return Ok([]);
    }
    var found := AnyHistory(accounts);
    if !found {
      return Ok([]);
    }
    var all := CollectAll(accounts);
    if |all| > n {
      if n < 0 {
        return Err(InvalidRange);
      }
      return Ok(all[|all| - n..]);
    }
    assert all[|all| - |all|..] == all;
    return Ok(all);
  }

  /** PriorityQueue.poll: the position of the first of the largest amounts. */
  method IndexOfLargest(queue: seq<Transaction>) returns (k: nat)
    requires queue != []
    ensures k < |queue|
    ensures forall j :: 0 <= j < |queue| ==> queue[j].amount <= queue[k].amount
    ensures forall j :: 0 <= j < k ==> queue[j].amount < queue[k].amount
  {
    k := 0;
    for j := 1 to |queue|
      invariant k < j
      invariant forall i :: 0 <= i < j ==> queue[i].amount <= queue[k].amount
      invariant forall i :: 0 <= i < k ==> queue[i].amount < queue[k].amount
    {
      if queue[j].amount > queue[k].amount {
        k := j;
      }
    }
  }

  /** The poll loop: min(n, |payments|) polls of a queue ordered by amount, largest first. */
  method TopNByAmount(payments: seq<Transaction>, n: int) returns (top: seq<Transaction>)
    ensures IsTopN(top, payments, n)
  {
    var count := if n < |payments| then n else |payments|;
    var queue := payments;
    top := [];
    var i := 0;
    while i < count
      invariant 0 <= i <= PollCount(n, |payments|)
      invariant |top| == i && |queue| == |payments| - i
      invariant multiset(top) + multiset(queue) == multiset(payments)
      invariant SortedDesc(top, AmountOf)
      invariant forall a, b :: 0 <= a < |top| && 0 <= b < |queue| ==> queue[b].amount <= top[a].amount
    {
      var k := IndexOfLargest(queue);
      PollStep(top, queue, k);
      top := top + [queue[k]];
      queue := queue[..k] + queue[k + 1..];
      i := i + 1;
    }
    LeftInQueue(top, queue, payments);
  }

  /** Moving the largest element of the queue to the end of `top` keeps the poll loop's invariant. */
  lemma {:induction false} PollStep(top: seq<Transaction>, queue: seq<Transaction>, k: nat)
    requires k < |queue|
    requires forall j :: 0 <= j < |queue| ==> queue[j].amount <= queue[k].amount
    requires SortedDesc(top, AmountOf)
    requires forall a, b :: 0 <= a < |top| && 0 <= b < |queue| ==> queue[b].amount <= top[a].amount
    ensures var top', rest := top + [queue[k]], queue[..k] + queue[k + 1..];
      && multiset(top') + multiset(rest) == multiset(top) + multiset(queue)
      && SortedDesc(top', AmountOf)
      && forall a, b :: 0 <= a < |top'| && 0 <= b < |rest| ==> rest[b].amount <= top'[a].amount
  {
    var top', rest := top + [queue[k]], queue[..k] + queue[k + 1..];
    assert queue == queue[..k] + [queue[k]] + queue[k + 1..];
    assert forall b :: 0 <= b < |rest| ==> rest[b] == queue[if b < k then b else b + 1];
    assert forall a :: 0 <= a < |top| ==> top'[a] == top[a];
  }

  /** When the loop ends, every copy still in the queue is no larger than any polled element. */
  lemma {:induction false} LeftInQueue(top: seq<Transaction>, queue: seq<Transaction>, payments: seq<Transaction>)
    requires multiset(top) + multiset(queue) == multiset(payments)
    requires forall a, b :: 0 <= a < |top| && 0 <= b < |queue| ==> queue[b].amount <= top[a].amount
    ensures forall a, j :: 0 <= a < |top| && 0 <= j < |payments| && multiset(top)[payments[j]] < multiset(payments)[payments[j]] ==>
      payments[j].amount <= top[a].amount
  {
    forall a, j | 0 <= a < |top| && 0 <= j < |payments| && multiset(top)[payments[j]] < multiset(payments)[payments[j]]
      ensures payments[j].amount <= top[a].amount
    {
      assert payments[j] in multiset(queue);
      var b :| 0 <= b < |queue| && queue[b] == payments[j];
    }
  }

  /**
   * Up to n of the user's payments with the largest amounts, in poll order.
   * Nothing for a null user, a user without accounts or one without
   * records, and nothing for n <= 0.
   */
  method GetTopNLargestTransactions(user: User?, n: int) returns (top: seq<Transaction>)
    ensures IsTopN(top, if user == null then [] else Payments(FlatHistory(user.accounts)), n)
  {
    if user == null {
      return [];
    }
    var accounts := user.GetAccounts();
    if accounts == [] {
      return [];
    }
    var found := AnyHistory(accounts);
    if !found {
      return [];
    }
    var payments := CollectPayments(accounts);
    top := TopNByAmount(payments, n);
  }
}
