# Bank ledger model

A Dafny model of a small Java banking ledger. Users own bank accounts. Each
account keeps a balance and a history of transactions:

- DEPOSIT and WITHDRAWAL records are written by the account itself;
- a TRANSFER record is shared by source and target;
- a PAYMENT record carries a spending category (TAXI or OTHER).

Two services sit on top:

- `BankService` opens accounts, runs transfers and payments, and reports on
  balances, monthly spending, payments grouped by category, the last N
  records and the N largest payments.
- `AnalyticsService` produces the same reports behind the validator's
  checks.

`TransactionService` filters, maps and folds over a user's history with
caller-supplied functions. The project also models the earlier, unvalidated
version of the ledger in the root package (`Draft`). Its getters hand out
the live lists, so callers can change an account's history through them.

Modules, one per source file or concern:

- `Wrappers`, `Errors`: Option, and the failures the Java code throws
  (`InsufficientFunds`, `NonPositiveAmount`, `UnknownCategory` for
  `CategoryType.valueOf`, `InvalidRange` for `List.subList`) as `Outcome` and
  `Result` values.
- `JavaInt`: the 32-bit `int` range and its wrap-around.
- `Enums`: `TransactionType`, `CategoryType`, `name()` and `valueOf`.
- `StableSort`: the stable sort `List.sort` performs, by a descending key.
- `TransferValidator`, `TransactionValidator`: the validators.
- `Entity`: the `Transaction` record, and the `BankAccount` and `User`
  classes whose fields change in place.
- `Reports`: what each report means, as functions of a user's flattened
  history, with lemmas about them.
- `BankService`, `Analytics` (class `AnalyticsService`),
  `TransactionService`: the services. Their loops are proved equal to the
  `Reports` functions.
- `Draft`: the root-package classes.

The clock and the random UUID are modelled by an `Environment` object:

- `now` is the clock reading;
- `nextId` is a counter that stands for the UUID;
- "one month ago" is a `cutoff` parameter, or AnalyticsService's `monthAgo`
  constant.

### Where the code and its documentation disagree

The model follows the code.

- `TransactionValidator.isValidCategories` returns false as soon as ANY
  requested name IS a CategoryType constant. Its comment and the tests expect
  the opposite. So `AnalyticsService.getMonthlySpendingByCategories` returns an
  empty map for `{"TAXI", "OTHER"}` (`TransactionValidator.TaxiAndOtherRejected`).
  It produces a report only for sets made entirely of unknown names.
- `AnalyticsService.getLastNTransactions` sorts newest first and then keeps
  the TAIL. It therefore returns the n OLDEST records, newest of them first.
  Its `size - n` is 32-bit `int` arithmetic: a very negative n wraps around and
  returns the whole list, where a moderately negative one throws.
- `BankService.getMonthlySpendingByCategories` uses the requested set only as
  a gate: every name must be a constant. The map it returns covers every
  category with recent payments, requested or not.
- `TransactionValidator.java` defines `hasUserActiveAccounts`, but the services
  call `hasUserAccountsWithTransactions`, which that file does not define. The
  model gives it the meaning of the checks `BankService` writes out inline
  (`BankService.java:242-253`): the user is not null and some account has a
  record (`TransactionValidator.HasUserAccountsWithTransactions`).
  `TransactionValidator.ActiveAccountsVersusGuard` relates it to
  `hasUserActiveAccounts`.

## Model

| member | source | states |
|---|---|---|
| JavaInt.Wrap | src/main/java/org/example/service/AnalyticsService.java:165 | the 32-bit value of `size - n`: always an int, unchanged when it fits, 2^32 less just above the maximum |
| Enums.FindByName | src/main/java/org/example/validators/TransactionValidator.java:19-24 | the constant found has the name; when none is found, no constant in the list has it |
| Enums.ValueOf | src/main/java/org/example/service/BankService.java:59 | `CategoryType.valueOf` succeeds exactly for a constant's name and returns that constant |
| Enums.ValueOfName | src/main/java/org/example/service/BankService.java:136 | valueOf inverts name() for every constant |
| StableSort.Insert | src/main/java/org/example/service/BankService.java:193-195 | one insertion step adds exactly the element to the multiset |
| StableSort.SortDesc | src/main/java/org/example/service/BankService.java:193-195 | the sort is a permutation of its input |
| StableSort.InsertSorted | src/main/java/org/example/service/BankService.java:193-195 | inserting into a descending list keeps it descending |
| StableSort.InsertStable | src/main/java/org/example/service/BankService.java:193-195 | insertion keeps equal-key elements in their order |
| StableSort.SortDescCorrect | src/main/java/org/example/service/BankService.java:159-164 | the sort is descending by key, a permutation, and stable (List.sort's guarantee) |
| StableSort.TailHoldsSmallest | src/main/java/org/example/service/AnalyticsService.java:163-165 | a tail of a descending list holds its smallest keys and is itself descending |
| TransferValidator.CheckBalanceCompareToAmount | src/main/java/org/example/validators/TransferValidator.java:26-30 | passes exactly when the balance strictly exceeds the amount, else insufficient funds |
| TransferValidator.ValidateAmount | src/main/java/org/example/validators/TransferValidator.java:36-40 | passes exactly for a positive amount, else a non-positive-amount failure |
| TransferValidator.CheckTransfer | src/main/java/org/example/validators/TransferValidator.java:16-19 | passes iff balance > amount > 0; the balance failure takes precedence; a pass leaves a positive balance |
| Entity.NewTransaction | src/main/java/org/example/entity/Transaction.java:51-59 | the record stores its arguments, a fresh id and the clock reading; the id counter advances by one |
| Entity.DistinctIds | src/main/java/org/example/entity/Transaction.java:52 | two records built in turn have different ids |
| Entity.BankAccount.constructor | src/main/java/org/example/entity/BankAccount.java:39-44 | a new account has balance zero and an empty history |
| Entity.BankAccount.Deposit | src/main/java/org/example/entity/BankAccount.java:50-55 | a positive amount is credited and one DEPOSIT record appended; otherwise nothing changes |
| Entity.BankAccount.Withdraw | src/main/java/org/example/entity/BankAccount.java:61-66 | passes iff balance > amount > 0, then debits and appends one WITHDRAWAL; the balance stays positive; otherwise nothing changes |
| Entity.BankAccount.AddTransaction | src/main/java/org/example/entity/BankAccount.java:72-74 | appends the record and leaves the balance alone |
| Entity.BankAccount.GetTransactions | src/main/java/org/example/entity/BankAccount.java:80-82 | returns the history as a copy |
| Entity.SnapshotSurvivesAppend | src/main/java/org/example/entity/BankAccount.java:80-82 | a copy taken before an append still shows the old history |
| Entity.User.constructor | src/main/java/org/example/entity/User.java:25-29 | a new user has no accounts |
| Entity.User.AddAccount | src/main/java/org/example/entity/User.java:35-37 | appends the account, with no duplicate check; the old list is a prefix of the new one |
| Entity.User.GetAccounts | src/main/java/org/example/entity/User.java:43-45 | returns the account list as a copy |
| Entity.AddSameAccountTwice | src/main/java/org/example/entity/User.java:35-37 | an account added twice is listed twice |
| Entity.FlatHistory | src/main/java/org/example/service/BankService.java:223-225 | the reference for every account-by-account walk: each account's history in turn, accounts in list order |
| Entity.FlatHistoryAppend | src/main/java/org/example/service/BankService.java:223-225 | the flattened history of two account lists is theirs, one after the other |
| Entity.FlatHistoryEmpty | src/main/java/org/example/service/BankService.java:245-253 | the flattened history is empty exactly when every account's history is |
| Entity.FlatHistoryStep | src/main/java/org/example/service/BankService.java:223-225 | one more account adds its records at the end |
| Entity.FlatHistorySplit | src/main/java/org/example/service/BankService.java:223-225 | each account's records sit in the flattened history after those of the accounts before it |
| Entity.TotalBalance | src/main/java/org/example/service/BankService.java:83-85 | the reference for getTotalBalance: the balances added up in list order |
| Entity.TotalBalanceAppend | src/main/java/org/example/service/BankService.java:80-88 | the total of two account lists is the sum of their totals |
| Entity.TotalBalanceNonNegative | src/main/java/org/example/service/BankService.java:80-88 | with no account overdrawn, the total is not negative |
| TransactionValidator.KnownNames | src/main/java/org/example/validators/TransactionValidator.java:19-23 | exactly the names of the CategoryType constants |
| TransactionValidator.IsValidCategory | src/main/java/org/example/validators/TransactionValidator.java:15-25 | true exactly for a constant's name, which is exactly when valueOf succeeds |
| TransactionValidator.IsValidCategories | src/main/java/org/example/validators/TransactionValidator.java:31-41 | true exactly for a non-empty set that contains no constant's name |
| TransactionValidator.IsValidCategoriesRejectsKnownNames | src/main/java/org/example/validators/TransactionValidator.java:31-41 | any set containing a known name is rejected |
| TransactionValidator.TaxiAndOtherRejected | src/main/java/org/example/validators/TransactionValidator.java:31-41 | {"TAXI", "OTHER"} is rejected |
| TransactionValidator.HasUserActiveAccounts | src/main/java/org/example/validators/TransactionValidator.java:47-58 | true for a null user or one without accounts; otherwise true exactly when the flattened history is not empty |
| TransactionValidator.HasUserAccountsWithTransactions | src/main/java/org/example/service/BankService.java:242-253 | the guard holds exactly when the user is not null and the flattened history is not empty |
| TransactionValidator.GuardMeansTransactions | src/main/java/org/example/service/BankService.java:242-253 | the guard holds iff the user is not null and the flattened history is not empty |
| TransactionValidator.ActiveAccountsVersusGuard | src/main/java/org/example/validators/TransactionValidator.java:47-58 | hasUserActiveAccounts is true for a null user or one without accounts, and otherwise agrees with the guard |
| Reports.PaymentsMembers | src/main/java/org/example/service/BankService.java:179-185 | the collected payments are exactly the PAYMENT records of the history |
| Reports.PaymentsSnoc | src/main/java/org/example/service/BankService.java:182-183 | one more record is collected exactly when it is a PAYMENT |
| Reports.CategorizedPart | src/main/java/org/example/service/BankService.java:142-143 | one account's history inside a categorised flattened history is itself categorised |
| Reports.PaymentsCategorizedFilter | src/main/java/org/example/service/BankService.java:187-190 | in a categorised history every collected payment has a category |
| Reports.OfCategoryNonEmpty | src/main/java/org/example/service/BankService.java:188-190 | a category's list is non-empty iff some record is filed under that name |
| Reports.SumAmountsPositive | src/main/java/org/example/service/BankService.java:113 | a non-empty sum of positive amounts is positive |
| Reports.SpendingIn | src/main/java/org/example/service/BankService.java:110-115 | the reference for monthly spending: the sum of the amounts of the PAYMENTs dated after the cutoff that carry that category |
| Reports.SpendingInSnoc | src/main/java/org/example/service/BankService.java:110-115 | one more record adds its amount iff it is a PAYMENT of that category after the cutoff |
| Reports.OfCategorySnoc | src/main/java/org/example/service/BankService.java:190 | one more record joins a category's list iff it is filed under that name |
| Reports.SpendingMap | src/main/java/org/example/service/BankService.java:142-152 | the reference for the per-category map: walking the history, each recent PAYMENT adds its amount under its category key, a new key starting from zero |
| Reports.SpendingMapSnoc | src/main/java/org/example/service/BankService.java:144-150 | one more recent PAYMENT adds its amount to its key's entry, or creates the entry |
| Reports.SpendingMapCorrect | src/main/java/org/example/service/BankService.java:142-152 | the map has a key iff some recent payment is filed under it, and its value is that category's spending |
| Reports.SpendingMapAt | src/main/java/org/example/service/BankService.java:142-152 | the same for one key |
| Reports.SpendingMapPositive | src/main/java/org/example/service/BankService.java:142-152 | with positive payment amounts, no entry is zero or negative |
| Reports.RecentPositive | src/main/java/org/example/service/BankService.java:144 | the recent payments of a positive history are positive |
| Reports.OfCategorySubset | src/main/java/org/example/service/BankService.java:187-191 | a category's list holds only records of the history filed under that name |
| Reports.IndexOfName | src/main/java/org/example/service/BankService.java:188 | containsKey/get: the entry found has the name, and no earlier entry has it |
| Reports.FirstIndexOf | src/main/java/org/example/service/BankService.java:187-189 | the first position of a record filed under the name; no earlier one is |
| Reports.FirstIndexSnoc | src/main/java/org/example/service/BankService.java:187-189 | appending a record moves a first occurrence only when the name was absent and the record has it |
| Reports.FirstIndexPresent | src/main/java/org/example/service/BankService.java:188 | a name occurs iff its first index lies inside the sequence |
| Reports.GroupByCategory | src/main/java/org/example/service/BankService.java:187-191 | the reference for the LinkedHashMap of lists: each payment in turn joins its category's entry, a new category opening an entry at the end |
| Reports.GroupStepNew | src/main/java/org/example/service/BankService.java:188-190 | a payment of an unseen category opens an entry at the end and keeps the grouping invariant |
| Reports.NewEntryHolds | src/main/java/org/example/service/BankService.java:188-190 | after a new entry opens, every entry holds exactly its name's payments |
| Reports.NewEntryCovers | src/main/java/org/example/service/BankService.java:188-190 | after a new entry opens, entries exist exactly for the names seen |
| Reports.NewEntryOrdered | src/main/java/org/example/service/BankService.java:188-190 | after a new entry opens, entries stay in first-seen order |
| Reports.OldEntriesKeepFirstIndex | src/main/java/org/example/service/BankService.java:187-189 | appending a payment moves no first occurrence of a name that already has an entry |
| Reports.NewNameComesLast | src/main/java/org/example/service/BankService.java:188-189 | a name without an entry first occurs at the appended payment |
| Reports.GroupStepExisting | src/main/java/org/example/service/BankService.java:190 | a payment of a seen category joins its entry and keeps the grouping invariant |
| Reports.ExistingEntryHolds | src/main/java/org/example/service/BankService.java:190 | after a payment joins its entry, every entry holds exactly its name's payments |
| Reports.ExistingEntryCovers | src/main/java/org/example/service/BankService.java:190 | after a payment joins its entry, entries still exist exactly for the names seen |
| Reports.ExistingEntryOrdered | src/main/java/org/example/service/BankService.java:190 | after a payment joins its entry, entries stay in first-seen order |
| Reports.GroupByCategoryCorrect | src/main/java/org/example/service/BankService.java:187-191 | the LinkedHashMap has distinct keys, one per category present, in first-seen order, each holding exactly its payments in order |
| Reports.SortGroups | src/main/java/org/example/service/BankService.java:193-195 | every entry keeps its name; its list becomes a permutation of the old one, in non-increasing amount order, with equal amounts in their old order |
| Reports.SortEveryEntry | src/main/java/org/example/service/BankService.java:193-195 | List.sort's guarantees (descending, permutation, stable) hold for every entry's list |
| Reports.HistorySortedByAmount | src/main/java/org/example/service/BankService.java:180-198 | the reference for the sorted report: the user's payments grouped by category, then each group sorted by amount, largest first |
| Reports.HistorySortedByAmountCorrect | src/main/java/org/example/service/BankService.java:173-198 | distinct keys, exactly the categories with payments, in first-seen order; each list is a permutation of that category's payments, sorted by amount, largest first, with equal amounts in their original order |
| Reports.OldestByDate | src/main/java/org/example/service/AnalyticsService.java:163-165 | the kept tail is sorted newest first, drawn from the history, and no record left out is older than a kept one |
| Reports.OldestTail | src/main/java/org/example/service/AnalyticsService.java:163-165 | the tail subList returns is sorted newest first and drawn from the history |
| Reports.OldestTailSorted | src/main/java/org/example/service/AnalyticsService.java:163-165 | that tail is sorted newest first |
| Reports.OldestTailDrawn | src/main/java/org/example/service/AnalyticsService.java:163-165 | that tail holds no record more often than the history |
| Reports.TailSubMultiset | src/main/java/org/example/service/AnalyticsService.java:165 | a tail holds no element more often than the whole list |
| Reports.IsTopN | src/main/java/org/example/service/BankService.java:262-266 | the reference for the top-n queue: min(n, size) payments drawn from the list (none when n is not positive), largest first, and none left behind larger than one kept, whichever way ties are broken |
| Reports.TopNOfAll | src/main/java/org/example/service/BankService.java:262-266 | asking for at least as many as there are payments returns all of them |
| BankService.CreateAccount | src/main/java/org/example/service/BankService.java:23-26 | a fresh, empty account owned by the user is appended to the user's list |
| BankService.Transfer | src/main/java/org/example/service/BankService.java:35-45 | passes iff balance > amount > 0; a refused transfer changes nothing; the source gets WITHDRAWAL then TRANSFER and the target DEPOSIT then the same TRANSFER (all four on one account when source is target); the sum of the two balances is kept and neither goes negative |
| BankService.Payment | src/main/java/org/example/service/BankService.java:54-62 | passes iff balance > amount > 0 and the category is a constant; a failed check changes nothing; an unknown category fails after the debit and WITHDRAWAL; a pass appends WITHDRAWAL then PAYMENT |
| BankService.GetTransactionHistory | src/main/java/org/example/service/BankService.java:70-72 | the account's history |
| BankService.GetTotalBalance | src/main/java/org/example/service/BankService.java:80-88 | the sum of the balances of the user's accounts |
| BankService.IsCategoryName | src/main/java/org/example/service/BankService.java:100-106 | the flag loop finds a constant iff valueOf would succeed |
| BankService.GetMonthlySpendingByCategory | src/main/java/org/example/service/BankService.java:97-118 | zero for a null account or unknown name, otherwise the recent spending on that category |
| BankService.SumRecentOfCategory | src/main/java/org/example/service/BankService.java:110-115 | the loop sums exactly the recent PAYMENTs of the category |
| BankService.AllCategoryNames | src/main/java/org/example/service/BankService.java:134-140 | true iff every requested name is a constant |
| BankService.GetMonthlySpendingByCategories | src/main/java/org/example/service/BankService.java:127-154 | empty for a null user, an empty set or an unknown name; otherwise the spending map over the whole flattened history |
| BankService.MergeSpending | src/main/java/org/example/service/BankService.java:143-151 | the inner loop extends the spending map by one account's history |
| BankService.CollectPayments | src/main/java/org/example/service/BankService.java:179-185 | the PAYMENT records of the flattened history, in order |
| BankService.CollectFrom | src/main/java/org/example/service/BankService.java:181-184 | the inner loop appends one account's PAYMENTs, in order |
| BankService.FindGroup | src/main/java/org/example/service/BankService.java:188 | the lookup loop returns the entry's position, or the end when the name is absent |
| BankService.GroupPayments | src/main/java/org/example/service/BankService.java:187-191 | the grouping loop builds GroupByCategory |
| BankService.SortEachGroup | src/main/java/org/example/service/BankService.java:193-195 | sorts each entry by amount, largest first |
| BankService.GetTransactionHistorySortedByAmount | src/main/java/org/example/service/BankService.java:173-198 | empty for a null user, otherwise the grouped and sorted report |
| BankService.AnyHistory | src/main/java/org/example/service/BankService.java:245-252 | the flag loop finds a record iff the flattened history is not empty |
| BankService.CollectAll | src/main/java/org/example/service/BankService.java:223-225 | the addAll loop yields the flattened history |
| BankService.GetLastNTransactions | src/main/java/org/example/service/BankService.java:207-230 | empty when there is no record; otherwise the last min(n, size) records for n >= 0, and an invalid range for negative n |
| BankService.IndexOfLargest | src/main/java/org/example/service/BankService.java:265 | poll returns a largest remaining amount; among equal amounts the model takes the first |
| BankService.TopNByAmount | src/main/java/org/example/service/BankService.java:262-266 | min(n, size) payments drawn from the queue, largest first, none left out larger than one kept |
| BankService.PollStep | src/main/java/org/example/service/BankService.java:264-266 | one poll keeps the loop invariant: the polled elements and the queue make up the payments, the polled ones are descending and none left is larger |
| BankService.LeftInQueue | src/main/java/org/example/service/BankService.java:262-266 | when polling stops, no payment left out is larger than a polled one |
| BankService.GetTopNLargestTransactions | src/main/java/org/example/service/BankService.java:239-269 | the top-n payments of the user's flattened history; none without records |
| Analytics.AnalyticsService.constructor | src/main/java/org/example/service/AnalyticsService.java:20 | the one-month-ago instant is fixed when the service is built |
| Analytics.AnalyticsService.CreateAccount | src/main/java/org/example/service/AnalyticsService.java:27-30 | a fresh, empty account is appended to the user's list |
| Analytics.AnalyticsService.Payment | src/main/java/org/example/service/AnalyticsService.java:39-47 | passes exactly when the balance strictly exceeds a positive amount and the category is a known name; a failed transfer check returns that failure and changes nothing; an unknown category returns UnknownCategory after the debit and its WITHDRAWAL, with the id counter advanced by one; a pass appends the WITHDRAWAL and a PAYMENT of that category and advances the counter by two; a non-negative balance stays non-negative; the clock is untouched |
| Analytics.AnalyticsService.GetMonthlySpendingByCategory | src/main/java/org/example/service/AnalyticsService.java:56-72 | zero unless isValidCategory accepts the name and the account is not null; otherwise the recent spending on the category |
| Analytics.AnalyticsService.GetMonthlySpendingByCategories | src/main/java/org/example/service/AnalyticsService.java:81-96 | empty for a null user or when isValidCategories rejects the set, so empty whenever a known name is requested; otherwise the spending map with "null" for uncategorised payments |
| Analytics.AnalyticsService.MergeByKey | src/main/java/org/example/service/AnalyticsService.java:89-93 | the inner merge loop extends the spending map by one account's history |
| Analytics.AnalyticsService.GetTransactionHistorySortedByAmount | src/main/java/org/example/service/AnalyticsService.java:115-143 | empty unless the guard holds, otherwise the grouped and sorted report |
| Analytics.AnalyticsService.GetLastNTransactions | src/main/java/org/example/service/AnalyticsService.java:152-166 | empty when there is no record; otherwise succeeds iff n >= 0 or the 32-bit `size - n` wraps, and returns the tail of the newest-first sort: min(n, size) oldest records (all of them when the subtraction wraps), sorted and drawn from the history |
| Analytics.AnalyticsService.OldestN | src/main/java/org/example/service/AnalyticsService.java:163-165 | the sort followed by the subList |
| Analytics.AnalyticsService.SubListFrom | src/main/java/org/example/service/AnalyticsService.java:165 | subList(max(0, size - n), size) in 32-bit arithmetic: fails iff the start exceeds the size |
| Analytics.AnalyticsService.GetTopNLargestTransactions | src/main/java/org/example/service/AnalyticsService.java:175-197 | the top-n payments of the user's flattened history |
| TransactionService.Filter | src/main/java/org/example/service/TransactionService.java:27-30 | a filter is no longer than its input |
| TransactionService.FilterMembers | src/main/java/org/example/service/TransactionService.java:27-30 | kept elements are accepted and from the input; accepted ones are kept |
| TransactionService.FilterConcat | src/main/java/org/example/service/TransactionService.java:27-30 | filtering the flatMap of accounts filters each account's part |
| TransactionService.FilterIdempotent | src/main/java/org/example/service/TransactionService.java:29 | filtering twice equals filtering once |
| TransactionService.FilterAccepted | src/main/java/org/example/service/TransactionService.java:29 | a predicate that accepts everything keeps the list |
| TransactionService.PaymentsIsFilter | src/main/java/org/example/service/BankService.java:179-185 | collecting payments is filtering by type |
| TransactionService.MapAll | src/main/java/org/example/service/TransactionService.java:46-49 | mapping keeps the length |
| TransactionService.MapAllAt | src/main/java/org/example/service/TransactionService.java:48 | element i of the result is the function applied to element i |
| TransactionService.MapAllConcat | src/main/java/org/example/service/TransactionService.java:46-49 | mapping the flatMap maps each account's part |
| TransactionService.GuardedHistory | src/main/java/org/example/service/TransactionService.java:23-28 | the flattened history when the guard holds, nothing for a null user or an empty history |
| TransactionService.FilterTransactions | src/main/java/org/example/service/TransactionService.java:21-31 | exactly the accepted records of the guarded history |
| TransactionService.TransformTransactions | src/main/java/org/example/service/TransactionService.java:40-50 | one string per record of the guarded history, the function of that record |
| TransactionService.Fold | src/main/java/org/example/service/TransactionService.java:65-67 | the reference for forEach over the flattened stream: the consumer applied to each record in order |
| TransactionService.FoldConcat | src/main/java/org/example/service/TransactionService.java:65-67 | consuming a concatenation consumes the first part, then the second |
| TransactionService.ProcessTransactions | src/main/java/org/example/service/TransactionService.java:59-68 | the consumer sees every record of the guarded history, account by account, in order |
| Draft.LiveList.Add | src/main/java/org/example/BankAccount.java:32-34 | appends to the shared list |
| Draft.BankAccount.constructor | src/main/java/org/example/BankAccount.java:13-18 | balance zero, empty history |
| Draft.BankAccount.Deposit | src/main/java/org/example/BankAccount.java:20-22 | adds any amount, with no check, and writes no record |
| Draft.BankAccount.Withdraw | src/main/java/org/example/BankAccount.java:24-26 | subtracts any amount, with no check, and writes no record |
| Draft.BankAccount.GetBalance | src/main/java/org/example/BankAccount.java:28-30 | the balance |
| Draft.BankAccount.AddTransaction | src/main/java/org/example/BankAccount.java:32-34 | appends the record |
| Draft.BankAccount.GetTransactions | src/main/java/org/example/BankAccount.java:36-38 | the history list object itself |
| Draft.BankAccount.GetOwner | src/main/java/org/example/BankAccount.java:40-42 | the owner's name |
| Draft.User.constructor | src/main/java/org/example/User.java:11-15 | no accounts |
| Draft.User.AddAccount | src/main/java/org/example/User.java:17-19 | appends the account |
| Draft.User.GetAccounts | src/main/java/org/example/User.java:21-23 | the account list object itself |
| Draft.User.GetName | src/main/java/org/example/User.java:25-27 | the name |
| Draft.AppendThroughGetter | src/main/java/org/example/BankAccount.java:36-38 | appending to the list the getter returned changes the account's own history |
| Draft.CreateAccount | src/main/java/org/example/BankService.java:9-12 | a fresh, empty account is appended to the user's list |
| Draft.Transfer | src/main/java/org/example/BankService.java:14-27 | moves iff the balance strictly exceeds the amount, of any sign; appends one record with id "id" to both histories (twice to a shared list); otherwise nothing changes |
| Draft.GetTransactionHistory | src/main/java/org/example/BankService.java:29-31 | the live history list |
| Draft.TotalBalance | src/main/java/org/example/BankService.java:33-41 | the reference for the draft getTotalBalance: the balances added up in list order |
| Draft.TotalBalanceAppend | src/main/java/org/example/BankService.java:33-41 | the total over two lists one after the other is the sum of their totals, duplicates included |
| Draft.DuplicateCountsTwice | src/main/java/org/example/User.java:17-19 | an account that addAccount appends twice more counts twice more in the total |
| Draft.GetTotalBalance | src/main/java/org/example/BankService.java:33-41 | the sum of the balances of the user's accounts, in list order |

## Left out

- Console output, and the failure messages: a thrown TransferException becomes a `Fail` outcome with its reason. The draft transfer's printed message becomes `moved == false`.
- The clock and UUID generation are not modelled. A clock reading is an integer `now` or `cutoff`, and the id is a counter. `BankService` reads the clock once per record; the model uses one `cutoff` per call.
- BigDecimal scale and `equals`: amounts are integers and compared by value.
- The source of the `TransactionType` and `CategoryType` enums is not part of this model. CategoryType is modelled with the two constants TAXI and OTHER.
- Null arguments are modelled only where the source checks for them (a null user, account or category set). Elsewhere the parameters are non-null references: `addAccount(null)` or `addTransaction(null)` would make the next `getAccounts()` or `getTransactions()` throw inside `List.copyOf` (`entity/User.java:43-45`, `entity/BankAccount.java:80-82`), and the model does not represent that.
- Null accounts passed to transfer and payment are not modelled: the account parameters are non-null references. In the source a null target in `BankService.transfer` (`BankService.java:38-39`) leaves the source debited, with its WITHDRAWAL appended, before the NullPointerException; the model does not capture that partial update.
- Reports.CategoryKey: the key `String.valueOf(category)` (`AnalyticsService.java:91`) is taken to be the constant's name, which assumes CategoryType does not override `toString`.
- Null strings and null set elements are not modelled. A null category set is treated as an empty set, which gives the same result in both services.
- Lombok-generated setters, `toString`, and the `BankAccountApp` demo are not modelled.
- The performance test is not modelled.
- BankService.GetMonthlySpendingByCategory: requires every PAYMENT to carry a category when the name is known, because the source throws a NullPointerException on `getCategory().name()` otherwise. The same applies to BankService.GetMonthlySpendingByCategories (recent payments), BankService.GetTransactionHistorySortedByAmount, Analytics.AnalyticsService.GetMonthlySpendingByCategory and Analytics.AnalyticsService.GetTransactionHistorySortedByAmount (`AnalyticsService.java:132`).
- Analytics.AnalyticsService.GetLastNTransactions: requires n to be a 32-bit int and the history to have at most 2^31 - 1 records, as a Java list and `int` demand.
- BankService.TopNByAmount: the PriorityQueue is modelled by its poll order, and only tie-independent properties are stated. The heap's internal iteration order and its choice among equal amounts are not modelled.
- BankService.GetTopNLargestTransactions: the returned queue is modelled as the sequence of polled records, not as a heap.
- TransactionService.CreateTransactionList and TransactionService.MergeTransactionLists only return what the caller's supplier or merger yields, so they carry no contract.
- The functional interfaces passed to TransactionService are pure functions in the model. Side effects of the Java lambdas are not modelled.
