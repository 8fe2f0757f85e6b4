/**
 * The analytics service: the same reports as BankService, gated by the
 * validator's checks and computed against the one-month-ago instant taken
 * when the service was built.
 */
module Analytics {
  import opened Wrappers
  import opened Errors
  import opened Entity
  import opened StableSort
  import opened Reports
  import opened JavaInt
  import TransactionValidator
  import TransferValidator
  import BankService

  class AnalyticsService {
    /** The instant one month before the clock reading taken at construction. */
    const monthAgo: int

    constructor (monthAgo: int)
      ensures this.monthAgo == monthAgo
    {
      this.monthAgo := monthAgo;
    }

    /** Opens a new, empty account for the user and appends it to the user's list. */
    method CreateAccount(user: User, accountNumber: string) returns (account: BankAccount)
      modifies user
      ensures fresh(account)
      ensures account.accountNumber == accountNumber && account.owner == user
      ensures account.balance == 0 && account.transactions == []
      ensures user.accounts == old(user.accounts) + [account]
    {
      account := BankService.CreateAccount(user, accountNumber);
    }

    /** The same payment as BankService's: debit and WITHDRAWAL first, then the category. */
    method Payment(env: Environment, source: BankAccount, category: string, amount: int)
      returns (outcome: Outcome)
      modifies source, env
      ensures outcome.Pass? <==> old(source.balance) > amount > 0 && TransactionValidator.IsValidCategory(category)
      ensures env.now == old(env.now)
      ensures TransferValidator.CheckTransfer(old(source.balance), amount).Fail? ==>
        && outcome == TransferValidator.CheckTransfer(old(source.balance), amount)
        && source.balance == old(source.balance) && source.transactions == old(source.transactions)
        && env.nextId == old(env.nextId)
      ensures old(source.balance) > amount > 0 && !TransactionValidator.IsValidCategory(category) ==>
        && outcome == Fail(UnknownCategory)
        && source.balance == old(source.balance) - amount
        && source.transactions == old(source.transactions) + [WithdrawalRecord(old(env.nextId), amount, env.now, source)]
        && env.nextId == old(env.nextId) + 1
      ensures outcome.Pass? ==>
        && source.balance == old(source.balance) - amount
        && source.transactions == old(source.transactions) + [
             WithdrawalRecord(old(env.nextId), amount, env.now, source),
             PaymentRecord(old(env.nextId) + 1, amount, Enums.ValueOf(category).value, env.now, source)]
        && env.nextId == old(env.nextId) + 2
      ensures old(source.balance) >= 0 ==> source.balance >= 0
    {
      outcome := BankService.Payment(env, source, category, amount);
    }

    /**
     * What the account spent on the named category in PAYMENTs after
     * monthAgo; zero for a name isValidCategory rejects or a null account.
     */
    method GetMonthlySpendingByCategory(account: BankAccount?, category: string) returns (spending: int)
      requires account != null && TransactionValidator.IsValidCategory(category) ==>
        PaymentsCategorized(account.transactions)
      ensures account == null || !TransactionValidator.IsValidCategory(category) ==> spending == 0
      ensures account != null && TransactionValidator.IsValidCategory(category) ==>
        spending == SpendingIn(account.transactions, category, monthAgo)
    {
      if !TransactionValidator.IsValidCategory(category) || account == null {
        return 0;
      }
      var history := account.GetTransactions();
      spending := BankService.SumRecentOfCategory(history, category, monthAgo);
    }

    /**
     * Recent spending per category key over all the user's PAYMENTs, a
     * payment without category counting under "null". The report is produced
     * only when isValidCategories accepts the set, which as written means
     * that NO requested name is a CategoryType constant.
     */
    method GetMonthlySpendingByCategories(user: User?, categories: set<string>) returns (spending: map<string, int>)
      ensures user == null || !TransactionValidator.IsValidCategories(categories) ==> spending == map[]
      ensures user != null && TransactionValidator.IsValidCategories(categories) ==>
        spending == SpendingMap(FlatHistory(user.accounts), monthAgo)
      ensures (exists c :: c in categories && TransactionValidator.IsValidCategory(c)) ==> spending == map[]
    {
      if user == null || !TransactionValidator.IsValidCategories(categories) {
        return map[];
      }
      var accounts := user.GetAccounts();
      spending := map[];
      for i := 0 to |accounts|
        invariant spending == SpendingMap(FlatHistory(accounts[..i]), monthAgo)
      {
        var history := accounts[i].GetTransactions();
        spending := MergeByKey(spending, FlatHistory(accounts[..i]), history);
        FlatHistoryStep(accounts, i);
      }
      assert accounts[..|accounts|] == accounts;
    }

    /** Map.merge under String.valueOf(category) for every recent PAYMENT of one history. */
    method MergeByKey(start: map<string, int>, ghost done: seq<Transaction>, history: seq<Transaction>)
      returns (spending: map<string, int>)
      requires start == SpendingMap(done, monthAgo)
      ensures spending == SpendingMap(done + history, monthAgo)
    {
      spending := start;
      assert done + history[..0] == done;
      for j := 0 to |history|
        invariant spending == SpendingMap(done + history[..j], monthAgo)
      {
        var t := history[j];
        ghost var s := done + history[..j];
        assert s + [t] == done + history[..j + 1];
        SpendingMapSnoc(s, t, monthAgo);
        if t.kind == Enums.TransactionType.Payment && t.date > monthAgo {
          var key := if t.category.Some? then t.category.value.Name() else "null";
          spending := spending[key := if key in spending then spending[key] + t.amount else t.amount];
        }
      }
      assert history[..|history|] == history;
    }

    /**
     * The user's payments grouped by category name in order of first
     * occurrence, each group sorted by amount, largest first; empty unless
     * some account has a record. Every PAYMENT's category is read.
     */
    method GetTransactionHistorySortedByAmount(user: User?) returns (groups: seq<CategoryGroup>)
      requires user != null ==> PaymentsCategorized(FlatHistory(user.accounts))
      ensures !TransactionValidator.HasUserAccountsWithTransactions(user) ==> groups == []
      ensures TransactionValidator.HasUserAccountsWithTransactions(user) ==>
        groups == HistorySortedByAmount(FlatHistory(user.accounts))
    {
      if !TransactionValidator.HasUserAccountsWithTransactions(user) {
        return [];
      }
      var accounts := user.GetAccounts();
      var payments := BankService.CollectPayments(accounts);
      PaymentsCategorizedFilter(FlatHistory(accounts));
      groups := BankService.GroupPayments(payments);
      groups := BankService.SortEachGroup(groups);
    }

    /**
     * The history sorted by date, newest first, cut to its last n records:
     * the n OLDEST records, newest of them first. subList starts at
     * max(0, size - n) with size - n computed in 32 bits: a negative n
     * throws unless the subtraction wraps, and then the whole list comes back.
     */
    method GetLastNTransactions(user: User?, n: int) returns (r: Result<seq<Transaction>>)
      requires IsInt(n)
      requires user != null ==> |FlatHistory(user.accounts)| <= IntMax
      ensures !TransactionValidator.HasUserAccountsWithTransactions(user) ==> r == Ok([])
      ensures TransactionValidator.HasUserAccountsWithTransactions(user) ==>
        var all := FlatHistory(user.accounts);
        var sorted := SortDesc(all, DateOf);
        && (r.Ok? <==> n >= 0 || |all| - n > IntMax)
        && (r.Err? ==> r.error == InvalidRange)
        && (r.Ok? && n >= 0 ==> |r.value| == (if n < |all| then n else |all|))
        && (r.Ok? && n < 0 ==> r.value == sorted)
        && (r.Ok? ==> |r.value| <= |sorted| && r.value == sorted[|sorted| - |r.value|..])
        && (r.Ok? ==> SortedDesc(r.value, DateOf) && multiset(r.value) <= multiset(all))
    {
      if !TransactionValidator.HasUserAccountsWithTransactions(user) {
        return Ok([]);
      }
      var accounts := user.GetAccounts();
      var all := BankService.CollectAll(accounts);
      r := OldestN(all, n);
    }

    /** Sorts by date, newest first (List.sort is stable), and keeps the tail subList picks. */
    static method OldestN(all: seq<Transaction>, n: int) returns (r: Result<seq<Transaction>>)
      requires IsInt(n) && |all| <= IntMax
      ensures var sorted := SortDesc(all, DateOf);
        && (r.Ok? <==> n >= 0 || |all| - n > IntMax)
        && (r.Err? ==> r.error == InvalidRange)
        && (r.Ok? && n >= 0 ==> |r.value| == (if n < |all| then n else |all|))
        && (r.Ok? && n < 0 ==> r.value == sorted)
        && (r.Ok? ==> |r.value| <= |sorted| && r.value == sorted[|sorted| - |r.value|..])
        && (r.Ok? ==> SortedDesc(r.value, DateOf) && multiset(r.value) <= multiset(all))
    {
      var sorted := SortDesc(all, DateOf);
      r := SubListFrom(sorted, n);
      if r.Ok? {
        OldestTail(all, r.value);
      }
    }

    /** subList(max(0, size - n), size) with size - n computed in 32 bits. */
    static method SubListFrom(sorted: seq<Transaction>, n: int) returns (r: Result<seq<Transaction>>)
      requires IsInt(n) && |sorted| <= IntMax
      ensures r.Ok? <==> n >= 0 || |sorted| - n > IntMax
      ensures r.Err? ==> r.error == InvalidRange
      ensures r.Ok? && n >= 0 ==> |r.value| == (if n < |sorted| then n else |sorted|)
      ensures r.Ok? && n < 0 ==> r.value == sorted
      ensures r.Ok? ==> |r.value| <= |sorted| && r.value == sorted[|sorted| - |r.value|..]
    {
      var gap := Wrap(|sorted| - n);
      var from := if gap > 0 then gap else 0;
      if from > |sorted| {
        return Err(InvalidRange);
      }
      r := Ok(sorted[from..]);
    }

    /**
     * Up to n of the user's payments with the largest amounts, in poll order;
     * nothing unless some account has a record, and nothing for n <= 0.
     */
    method GetTopNLargestTransactions(user: User?, n: int) returns (top: seq<Transaction>)
      ensures IsTopN(top, if user == null then [] else Payments(FlatHistory(user.accounts)), n)
    {
      if !TransactionValidator.HasUserAccountsWithTransactions(user) {
        if user != null {
          TransactionValidator.GuardMeansTransactions(user);
        }
        return [];
      }
      var accounts := user.GetAccounts();
      var payments := BankService.CollectPayments(accounts);
      top := BankService.TopNByAmount(payments, n);
    }
  }
}
