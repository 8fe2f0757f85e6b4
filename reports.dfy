/**
 * What the read-only reports compute, as functions of a flattened history,
 * and the properties of those functions. The services' loops are proved
 * equal to these functions.
 */
module Reports {
  import opened Wrappers
  import opened Enums
  import opened Entity
  import opened StableSort

  predicate IsPayment(t: Transaction) {
    t.kind == Payment
  }

  /** A PAYMENT dated strictly after the cutoff (LocalDateTime.isAfter). */
  predicate IsRecentPayment(t: Transaction, cutoff: int) {
    t.kind == Payment && t.date > cutoff
  }

  /** The key a record is filed under: its category's name, or "null" (String.valueOf) when it has none. */
  function CategoryKey(t: Transaction): string {
    if t.category.Some? then t.category.value.Name() else "null"
  }

  function AmountOf(t: Transaction): int {
    t.amount
  }

  function DateOf(t: Transaction): int {
    t.date
  }

  /** Every PAYMENT carries a category, so getCategory().name() does not throw a NullPointerException. */
  predicate PaymentsCategorized(s: seq<Transaction>) {
    forall i | 0 <= i < |s| && IsPayment(s[i]) :: s[i].category.Some?
  }

  /** Every PAYMENT after the cutoff carries a category. */
  predicate RecentPaymentsCategorized(s: seq<Transaction>, cutoff: int) {
    forall i | 0 <= i < |s| && IsRecentPayment(s[i], cutoff) :: s[i].category.Some?
  }

  function Payments(s: seq<Transaction>): seq<Transaction> {
    if s == [] then []
    else Payments(s[..|s| - 1]) + (if IsPayment(s[|s| - 1]) then [s[|s| - 1]] else [])
  }

  function RecentPayments(s: seq<Transaction>, cutoff: int): seq<Transaction> {
    if s == [] then []
    else RecentPayments(s[..|s| - 1], cutoff) + (if IsRecentPayment(s[|s| - 1], cutoff) then [s[|s| - 1]] else [])
  }

  /** The records filed under `name`, in their order in s. */
  function OfCategory(s: seq<Transaction>, name: string): seq<Transaction> {
    if s == [] then []
    else OfCategory(s[..|s| - 1], name) + (if CategoryKey(s[|s| - 1]) == name then [s[|s| - 1]] else [])
  }

  function SumAmounts(s: seq<Transaction>): int {
    if s == [] then 0 else SumAmounts(s[..|s| - 1]) + s[|s| - 1].amount
  }

  lemma {:induction false} PaymentsMembers(s: seq<Transaction>)
    ensures forall i :: 0 <= i < |Payments(s)| ==> Payments(s)[i] in s && IsPayment(Payments(s)[i])
    ensures forall i :: 0 <= i < |s| && IsPayment(s[i]) ==> s[i] in Payments(s)
  {
    if s != [] {
      PaymentsMembers(s[..|s| - 1]);
      assert s == s[..|s| - 1] + [s[|s| - 1]];
    }
  }

  lemma PaymentsSnoc(s: seq<Transaction>, t: Transaction)
    ensures Payments(s + [t]) == Payments(s) + (if IsPayment(t) then [t] else [])
  {
    assert (s + [t])[..|s + [t]| - 1] == s;
  }

  /** A history inside a categorised flattened history is categorised too. */
  lemma CategorizedPart(front: seq<Transaction>, part: seq<Transaction>, back: seq<Transaction>, cutoff: int)
    ensures PaymentsCategorized(front + part + back) ==> PaymentsCategorized(part)
    ensures RecentPaymentsCategorized(front + part + back, cutoff) ==> RecentPaymentsCategorized(part, cutoff)
  {
    var all := front + part + back;
    assert forall i :: 0 <= i < |part| ==> part[i] == all[|front| + i];
  }

  lemma PaymentsCategorizedFilter(s: seq<Transaction>)
    requires PaymentsCategorized(s)
    ensures PaymentsCategorized(Payments(s))
    ensures forall i :: 0 <= i < |Payments(s)| ==> Payments(s)[i].category.Some?
  {
    PaymentsMembers(s);
    var p := Payments(s);
    forall i | 0 <= i < |p| ensures p[i].category.Some? {
      var j :| 0 <= j < |s| && s[j] == p[i];
    }
  }

  /** A record filed under `name` exists exactly when OfCategory is not empty. */
  lemma {:induction false} OfCategoryNonEmpty(s: seq<Transaction>, name: string)
    ensures OfCategory(s, name) != [] <==> exists i :: 0 <= i < |s| && CategoryKey(s[i]) == name
  {
    if s != [] {
      var front, last := s[..|s| - 1], s[|s| - 1];
      OfCategoryNonEmpty(front, name);
      if OfCategory(front, name) != [] {
        var i :| 0 <= i < |front| && CategoryKey(front[i]) == name;
        assert s[i] == front[i];
      } else if CategoryKey(last) != name {
        assert OfCategory(s, name) == [];
        forall i | 0 <= i < |s| ensures CategoryKey(s[i]) != name {
          if i < |front| {
            assert s[i] == front[i];
          }
        }
      }
    }
  }

  lemma {:induction false} SumAmountsPositive(s: seq<Transaction>)
    requires s != [] && forall i :: 0 <= i < |s| ==> s[i].amount > 0
    ensures SumAmounts(s) > 0
  {
    if |s| > 1 {
      SumAmountsPositive(s[..|s| - 1]);
    }
  }

  // ---- getMonthlySpendingByCategory

  /** What was spent on the category named `name` in PAYMENTs after the cutoff. */
  function SpendingIn(h: seq<Transaction>, name: string, cutoff: int): int {
    SumAmounts(OfCategory(RecentPayments(h, cutoff), name))
  }

  /** One more record adds its amount exactly when it is a recent payment of that category. */
  lemma SpendingInSnoc(h: seq<Transaction>, t: Transaction, name: string, cutoff: int)
    ensures SpendingIn(h + [t], name, cutoff) ==
      SpendingIn(h, name, cutoff) + (if IsRecentPayment(t, cutoff) && CategoryKey(t) == name then t.amount else 0)
  {
    assert (h + [t])[..|h + [t]| - 1] == h;
    var r := RecentPayments(h, cutoff);
    if IsRecentPayment(t, cutoff) {
      assert RecentPayments(h + [t], cutoff) == r + [t];
      OfCategorySnoc(r, t, name);
      var o := OfCategory(r, name);
      if CategoryKey(t) == name {
        assert OfCategory(r + [t], name) == o + [t];
        assert SumAmounts(o + [t]) == SumAmounts(o) + t.amount by {
          assert (o + [t])[..|o + [t]| - 1] == o;
        }
      } else {
        assert OfCategory(r + [t], name) == o;
      }
    } else {
      assert RecentPayments(h + [t], cutoff) == r;
    }
  }

  lemma OfCategorySnoc(s: seq<Transaction>, t: Transaction, name: string)
    ensures OfCategory(s + [t], name) == OfCategory(s, name) + (if CategoryKey(t) == name then [t] else [])
  {
    assert (s + [t])[..|s + [t]| - 1] == s;
  }

  // ---- getMonthlySpendingByCategories

  /** The merge loop: each recent PAYMENT adds its amount to the entry for its key. */
  function SpendingMap(s: seq<Transaction>, cutoff: int): map<string, int> {
    if s == [] then map[]
    else
      var m := SpendingMap(s[..|s| - 1], cutoff);
      var t := s[|s| - 1];
      if IsRecentPayment(t, cutoff) then
        m[CategoryKey(t) := (if CategoryKey(t) in m then m[CategoryKey(t)] else 0) + t.amount]
      else m
  }

  lemma SpendingMapSnoc(s: seq<Transaction>, t: Transaction, cutoff: int)
    ensures SpendingMap(s + [t], cutoff) ==
      if IsRecentPayment(t, cutoff) then
        SpendingMap(s, cutoff)[CategoryKey(t) :=
          (if CategoryKey(t) in SpendingMap(s, cutoff) then SpendingMap(s, cutoff)[CategoryKey(t)] else 0) + t.amount]
      else SpendingMap(s, cutoff)
  {
    assert (s + [t])[..|s + [t]| - 1] == s;
  }

  /**
   * The map has an entry exactly for the keys of the recent payments, and
   * each entry is what was spent under that key.
   */
  lemma SpendingMapCorrect(s: seq<Transaction>, cutoff: int)
    ensures forall k :: k in SpendingMap(s, cutoff) <==> OfCategory(RecentPayments(s, cutoff), k) != []
    ensures forall k :: k in SpendingMap(s, cutoff) ==> SpendingMap(s, cutoff)[k] == SpendingIn(s, k, cutoff)
  {
    forall k ensures (k in SpendingMap(s, cutoff) <==> OfCategory(RecentPayments(s, cutoff), k) != [])
      && (k in SpendingMap(s, cutoff) ==> SpendingMap(s, cutoff)[k] == SpendingIn(s, k, cutoff))
    {
      SpendingMapAt(s, cutoff, k);
    }
  }

  lemma {:induction false} SpendingMapAt(s: seq<Transaction>, cutoff: int, k: string)
    ensures k in SpendingMap(s, cutoff) <==> OfCategory(RecentPayments(s, cutoff), k) != []
    ensures k in SpendingMap(s, cutoff) ==> SpendingMap(s, cutoff)[k] == SpendingIn(s, k, cutoff)
  {
    if s != [] {
      var front, t := s[..|s| - 1], s[|s| - 1];
      SpendingMapAt(front, cutoff, k);
      assert s == front + [t];
      SpendingInSnoc(front, t, k, cutoff);
      var r := RecentPayments(front, cutoff);
      if IsRecentPayment(t, cutoff) {
        assert RecentPayments(s, cutoff) == r + [t];
        OfCategorySnoc(r, t, k);
      } else {
        assert RecentPayments(s, cutoff) == r;
      }
    }
  }

  /** When every recent payment is positive, as `payment` guarantees, no entry is zero or negative. */
  lemma SpendingMapPositive(s: seq<Transaction>, cutoff: int)
    requires forall i :: 0 <= i < |s| && IsRecentPayment(s[i], cutoff) ==> s[i].amount > 0
    ensures forall k :: k in SpendingMap(s, cutoff) ==> SpendingMap(s, cutoff)[k] > 0
  {
    SpendingMapCorrect(s, cutoff);
    forall k | k in SpendingMap(s, cutoff) ensures SpendingMap(s, cutoff)[k] > 0 {
      var o := OfCategory(RecentPayments(s, cutoff), k);
      RecentPositive(s, cutoff);
      OfCategorySubset(RecentPayments(s, cutoff), k);
      SumAmountsPositive(o);
    }
  }

  lemma {:induction false} RecentPositive(s: seq<Transaction>, cutoff: int)
    requires forall i :: 0 <= i < |s| && IsRecentPayment(s[i], cutoff) ==> s[i].amount > 0
    ensures forall i :: 0 <= i < |RecentPayments(s, cutoff)| ==> RecentPayments(s, cutoff)[i].amount > 0
  {
    if s != [] {
      RecentPositive(s[..|s| - 1], cutoff);
    }
  }

  lemma {:induction false} OfCategorySubset(s: seq<Transaction>, name: string)
    ensures forall i :: 0 <= i < |OfCategory(s, name)| ==> OfCategory(s, name)[i] in s && CategoryKey(OfCategory(s, name)[i]) == name
  {
    if s != [] {
      OfCategorySubset(s[..|s| - 1], name);
      assert s == s[..|s| - 1] + [s[|s| - 1]];
    }
  }

  // ---- getTransactionHistorySortedByAmount

  /** One entry of the LinkedHashMap: a category name and its list of payments. */
  datatype CategoryGroup = CategoryGroup(name: string, payments: seq<Transaction>)

  /** The position of the entry for `name`, or |gs| when there is none. */
  function IndexOfName(gs: seq<CategoryGroup>, name: string): (i: nat)
    ensures i <= |gs|
    ensures i < |gs| ==> gs[i].name == name
    ensures forall j :: 0 <= j < i && j < |gs| ==> gs[j].name != name
  {
    if gs == [] then 0 else if gs[0].name == name then 0 else 1 + IndexOfName(gs[1..], name)
  }

  /** containsKey, put of a new list when absent, then get(...).add for one payment. */
  function AddToGroup(gs: seq<CategoryGroup>, t: Transaction): seq<CategoryGroup> {
    var i := IndexOfName(gs, CategoryKey(t));
    if i == |gs| then gs + [CategoryGroup(CategoryKey(t), [t])]
    else gs[i := CategoryGroup(gs[i].name, gs[i].payments + [t])]
  }

  /** The grouping loop over all payments. */
  function GroupByCategory(ps: seq<Transaction>): seq<CategoryGroup> {
    if ps == [] then [] else AddToGroup(GroupByCategory(ps[..|ps| - 1]), ps[|ps| - 1])
  }

  /** The index of the first record filed under `name`, or |s| when there is none. */
  function FirstIndexOf(s: seq<Transaction>, name: string): (i: nat)
    ensures i <= |s|
    ensures i < |s| ==> CategoryKey(s[i]) == name
    ensures forall j :: 0 <= j < i && j < |s| ==> CategoryKey(s[j]) != name
  {
    if s == [] then 0 else if CategoryKey(s[0]) == name then 0 else 1 + FirstIndexOf(s[1..], name)
  }

  lemma {:induction false} FirstIndexSnoc(s: seq<Transaction>, t: Transaction, name: string)
    ensures FirstIndexOf(s + [t], name) ==
      if FirstIndexOf(s, name) < |s| then FirstIndexOf(s, name)
      else if CategoryKey(t) == name then |s| else |s| + 1
  {
    if s != [] {
      assert (s + [t])[0] == s[0];
      assert (s + [t])[1..] == s[1..] + [t];
      FirstIndexSnoc(s[1..], t, name);
    }
  }

  /** A name occurs exactly when its first index is inside the sequence. */
  lemma FirstIndexPresent(s: seq<Transaction>, name: string)
    ensures OfCategory(s, name) != [] <==> FirstIndexOf(s, name) < |s|
  {
    OfCategoryNonEmpty(s, name);
  }

  /** No two entries share a name. */
  predicate DistinctNames(g: seq<CategoryGroup>) {
    forall i, j :: 0 <= i < j < |g| ==> g[i].name != g[j].name
  }

  /** Each entry holds exactly its name's records from `ps`, in their order, and is never empty. */
  predicate EntriesHold(g: seq<CategoryGroup>, ps: seq<Transaction>) {
    forall i :: 0 <= i < |g| ==> g[i].payments == OfCategory(ps, g[i].name) && g[i].payments != []
  }

  /** An entry exists exactly for the names that occur in `ps`. */
  ghost predicate EntriesCover(g: seq<CategoryGroup>, ps: seq<Transaction>) {
    forall k :: IndexOfName(g, k) < |g| <==> OfCategory(ps, k) != []
  }

  /** Entries stand in the order in which their names first occur in `ps`. */
  predicate EncounterOrder(g: seq<CategoryGroup>, ps: seq<Transaction>) {
    forall i, j :: 0 <= i < j < |g| ==> FirstIndexOf(ps, g[i].name) < FirstIndexOf(ps, g[j].name)
  }

  ghost predicate IsGrouping(g: seq<CategoryGroup>, ps: seq<Transaction>) {
    DistinctNames(g) && EntriesHold(g, ps) && EntriesCover(g, ps) && EncounterOrder(g, ps)
  }

  /** A payment under a name seen for the first time opens a new entry at the end. */
  lemma {:induction false} GroupStepNew(g0: seq<CategoryGroup>, front: seq<Transaction>, t: Transaction)
    requires IsGrouping(g0, front)
    requires IndexOfName(g0, CategoryKey(t)) == |g0|
    ensures IsGrouping(AddToGroup(g0, t), front + [t])
  {
    var g := AddToGroup(g0, t);
    assert g == g0 + [CategoryGroup(CategoryKey(t), [t])];
    NewEntryHolds(g0, front, t);
    NewEntryCovers(g0, front, t);
    NewEntryOrdered(g0, front, t);
  }

  lemma {:induction false} NewEntryHolds(g0: seq<CategoryGroup>, front: seq<Transaction>, t: Transaction)
    requires EntriesHold(g0, front) && EntriesCover(g0, front)
    requires IndexOfName(g0, CategoryKey(t)) == |g0|
    ensures EntriesHold(g0 + [CategoryGroup(CategoryKey(t), [t])], front + [t])
  {
    var ps, key := front + [t], CategoryKey(t);
    var g := g0 + [CategoryGroup(key, [t])];
    forall i | 0 <= i < |g| ensures g[i].payments == OfCategory(ps, g[i].name) && g[i].payments != [] {
      OfCategorySnoc(front, t, g[i].name);
      if i == |g0| {
        assert g[i].name == key;
        assert OfCategory(front, key) == [];
      } else {
        assert g[i] == g0[i];
      }
    }
  }

  lemma {:induction false} NewEntryCovers(g0: seq<CategoryGroup>, front: seq<Transaction>, t: Transaction)
    requires EntriesCover(g0, front)
    requires IndexOfName(g0, CategoryKey(t)) == |g0|
    ensures EntriesCover(g0 + [CategoryGroup(CategoryKey(t), [t])], front + [t])
  {
    var ps, key := front + [t], CategoryKey(t);
    var g := g0 + [CategoryGroup(key, [t])];
    forall k ensures IndexOfName(g, k) < |g| <==> OfCategory(ps, k) != [] {
      OfCategorySnoc(front, t, k);
      if IndexOfName(g0, k) < |g0| {
        assert g[IndexOfName(g0, k)].name == k;
      }
      if k == key {
        assert g[|g0|].name == k;
      } else if IndexOfName(g, k) < |g| {
        assert g0[IndexOfName(g, k)].name == k;
      }
    }
  }

  lemma {:induction false} NewEntryOrdered(g0: seq<CategoryGroup>, front: seq<Transaction>, t: Transaction)
    requires EntriesHold(g0, front) && EntriesCover(g0, front) && EncounterOrder(g0, front)
    requires IndexOfName(g0, CategoryKey(t)) == |g0|
    ensures EncounterOrder(g0 + [CategoryGroup(CategoryKey(t), [t])], front + [t])
  {
    var ps, key := front + [t], CategoryKey(t);
    var g := g0 + [CategoryGroup(key, [t])];
    OldEntriesKeepFirstIndex(g0, front, t);
    NewNameComesLast(g0, front, t);
    forall i, j | 0 <= i < j < |g| ensures FirstIndexOf(ps, g[i].name) < FirstIndexOf(ps, g[j].name) {
      assert g[i] == g0[i];
      if j < |g0| {
        assert g[j] == g0[j];
      } else {
        assert g[j].name == key;
      }
    }
  }

  /** Appending a record moves no first occurrence of a name that already has an entry. */
  lemma {:induction false} OldEntriesKeepFirstIndex(g0: seq<CategoryGroup>, front: seq<Transaction>, t: Transaction)
    requires EntriesHold(g0, front)
    ensures forall i :: 0 <= i < |g0| ==> FirstIndexOf(front + [t], g0[i].name) == FirstIndexOf(front, g0[i].name) < |front|
  {
    forall i | 0 <= i < |g0| ensures FirstIndexOf(front + [t], g0[i].name) == FirstIndexOf(front, g0[i].name) < |front| {
      FirstIndexPresent(front, g0[i].name);
      FirstIndexSnoc(front, t, g0[i].name);
    }
  }

  /** A name without an entry first occurs in the appended record, after all of `front`. */
  lemma {:induction false} NewNameComesLast(g0: seq<CategoryGroup>, front: seq<Transaction>, t: Transaction)
    requires EntriesCover(g0, front)
    requires IndexOfName(g0, CategoryKey(t)) == |g0|
    ensures FirstIndexOf(front + [t], CategoryKey(t)) >= |front|
  {
    var key := CategoryKey(t);
    FirstIndexPresent(front, key);
    FirstIndexSnoc(front, t, key);
  }

  /** A payment under a name already seen joins that entry; names and order stay. */
  lemma {:induction false} GroupStepExisting(g0: seq<CategoryGroup>, front: seq<Transaction>, t: Transaction)
    requires IsGrouping(g0, front)
    requires IndexOfName(g0, CategoryKey(t)) < |g0|
    ensures IsGrouping(AddToGroup(g0, t), front + [t])
  {
    var key := CategoryKey(t);
    var i0 := IndexOfName(g0, key);
    var g := AddToGroup(g0, t);
    assert g == g0[i0 := CategoryGroup(key, g0[i0].payments + [t])];
    assert forall i :: 0 <= i < |g| ==> g[i].name == g0[i].name;
    ExistingEntryHolds(g0, front, t);
    ExistingEntryCovers(g0, front, t);
    ExistingEntryOrdered(g0, front, t);
  }

  lemma {:induction false} ExistingEntryHolds(g0: seq<CategoryGroup>, front: seq<Transaction>, t: Transaction)
    requires DistinctNames(g0) && EntriesHold(g0, front)
    requires IndexOfName(g0, CategoryKey(t)) < |g0|
    ensures var i0 := IndexOfName(g0, CategoryKey(t));
      EntriesHold(g0[i0 := CategoryGroup(CategoryKey(t), g0[i0].payments + [t])], front + [t])
  {
    var ps, key := front + [t], CategoryKey(t);
    var i0 := IndexOfName(g0, key);
    var g := g0[i0 := CategoryGroup(key, g0[i0].payments + [t])];
    forall i | 0 <= i < |g| ensures g[i].payments == OfCategory(ps, g[i].name) && g[i].payments != [] {
      OfCategorySnoc(front, t, g[i].name);
      if i == i0 {
        assert g[i].name == key;
      } else {
        assert g[i] == g0[i] && g0[i].name != key;
      }
    }
  }

  lemma {:induction false} ExistingEntryCovers(g0: seq<CategoryGroup>, front: seq<Transaction>, t: Transaction)
    requires EntriesCover(g0, front)
    requires IndexOfName(g0, CategoryKey(t)) < |g0|
    ensures var i0 := IndexOfName(g0, CategoryKey(t));
      EntriesCover(g0[i0 := CategoryGroup(CategoryKey(t), g0[i0].payments + [t])], front + [t])
  {
    var ps, key := front + [t], CategoryKey(t);
    var i0 := IndexOfName(g0, key);
    var g := g0[i0 := CategoryGroup(key, g0[i0].payments + [t])];
    assert forall i :: 0 <= i < |g| ==> g[i].name == g0[i].name;
    forall k ensures IndexOfName(g, k) < |g| <==> OfCategory(ps, k) != [] {
      OfCategorySnoc(front, t, k);
      if IndexOfName(g0, k) < |g0| {
        assert g[IndexOfName(g0, k)].name == k;
      }
      if IndexOfName(g, k) < |g| {
        assert g0[IndexOfName(g, k)].name == k;
      }
    }
  }

  lemma {:induction false} ExistingEntryOrdered(g0: seq<CategoryGroup>, front: seq<Transaction>, t: Transaction)
    requires EntriesHold(g0, front) && EncounterOrder(g0, front)
    requires IndexOfName(g0, CategoryKey(t)) < |g0|
    ensures var i0 := IndexOfName(g0, CategoryKey(t));
      EncounterOrder(g0[i0 := CategoryGroup(CategoryKey(t), g0[i0].payments + [t])], front + [t])
  {
    var ps, key := front + [t], CategoryKey(t);
    var i0 := IndexOfName(g0, key);
    var g := g0[i0 := CategoryGroup(key, g0[i0].payments + [t])];
    forall i | 0 <= i < |g| ensures FirstIndexOf(ps, g[i].name) == FirstIndexOf(front, g0[i].name) {
      assert g[i].name == g0[i].name;
      OfCategoryNonEmpty(front, g0[i].name);
      FirstIndexPresent(front, g0[i].name);
      FirstIndexSnoc(front, t, g0[i].name);
    }
  }

  /**
   * The grouping keeps one entry per name; an entry exists exactly for each
   * name that occurs; each entry holds that name's records in their order;
   * and entries stand in the order in which their names first occur.
   */
  lemma {:induction false} GroupByCategoryCorrect(ps: seq<Transaction>)
    ensures IsGrouping(GroupByCategory(ps), ps)
  {
    if ps != [] {
      var front, t := ps[..|ps| - 1], ps[|ps| - 1];
      assert ps == front + [t];
      GroupByCategoryCorrect(front);
      if IndexOfName(GroupByCategory(front), CategoryKey(t)) == |GroupByCategory(front)| {
        GroupStepNew(GroupByCategory(front), front, t);
      } else {
        GroupStepExisting(GroupByCategory(front), front, t);
      }
    }
  }

  /**
   * List.sort with TransactionAmountComparator applied to every entry's list:
   * each entry keeps its name, and its list becomes a permutation of the old
   * one in non-increasing amount order, equal amounts in their old order.
   */
  function SortGroups(gs: seq<CategoryGroup>): (r: seq<CategoryGroup>)
    ensures |r| == |gs|
    ensures forall i :: 0 <= i < |gs| ==> r[i] == CategoryGroup(gs[i].name, SortDesc(gs[i].payments, AmountOf))
    ensures forall i :: 0 <= i < |gs| ==>
      && r[i].name == gs[i].name
      && SortedDesc(r[i].payments, AmountOf)
      && multiset(r[i].payments) == multiset(gs[i].payments)
    ensures forall i, a :: 0 <= i < |gs| ==> WithKey(r[i].payments, AmountOf, a) == WithKey(gs[i].payments, AmountOf, a)
  {
    SortEveryEntry(gs);
    seq(|gs|, i requires 0 <= i < |gs| => CategoryGroup(gs[i].name, SortDesc(gs[i].payments, AmountOf)))
  }

  /** The sort's guarantees, for the list of every entry. */
  lemma SortEveryEntry(gs: seq<CategoryGroup>)
    ensures forall i :: 0 <= i < |gs| ==>
      && SortedDesc(SortDesc(gs[i].payments, AmountOf), AmountOf)
      && multiset(SortDesc(gs[i].payments, AmountOf)) == multiset(gs[i].payments)
    ensures forall i, a :: 0 <= i < |gs| ==>
      WithKey(SortDesc(gs[i].payments, AmountOf), AmountOf, a) == WithKey(gs[i].payments, AmountOf, a)
  {
    forall i | 0 <= i < |gs| ensures
      && SortedDesc(SortDesc(gs[i].payments, AmountOf), AmountOf)
      && multiset(SortDesc(gs[i].payments, AmountOf)) == multiset(gs[i].payments)
      && forall a :: WithKey(SortDesc(gs[i].payments, AmountOf), AmountOf, a) == WithKey(gs[i].payments, AmountOf, a)
    {
      SortDescCorrect(gs[i].payments, AmountOf);
    }
  }

  /** The report: all payments grouped by category, each group sorted by amount, largest first. */
  function HistorySortedByAmount(all: seq<Transaction>): seq<CategoryGroup> {
    SortGroups(GroupByCategory(Payments(all)))
  }

  /**
   * The report has one entry per category that some payment carries, in
   * order of first occurrence; each entry is a permutation of that
   * category's payments, in non-increasing amount order, with payments of
   * equal amount in encounter order.
   */
  lemma HistorySortedByAmountCorrect(all: seq<Transaction>)
    ensures var ps, h := Payments(all), HistorySortedByAmount(all);
      && (forall i, j :: 0 <= i < j < |h| ==> h[i].name != h[j].name)
      && (forall k :: IndexOfName(h, k) < |h| <==> OfCategory(ps, k) != [])
      && (forall i, j :: 0 <= i < j < |h| ==> FirstIndexOf(ps, h[i].name) < FirstIndexOf(ps, h[j].name))
      && (forall i :: 0 <= i < |h| ==>
            && multiset(h[i].payments) == multiset(OfCategory(ps, h[i].name))
            && SortedDesc(h[i].payments, AmountOf)
            && forall a :: WithKey(h[i].payments, AmountOf, a) == WithKey(OfCategory(ps, h[i].name), AmountOf, a))
  {
    var ps := Payments(all);
    var g := GroupByCategory(ps);
    var h := HistorySortedByAmount(all);
    GroupByCategoryCorrect(ps);
    forall k ensures IndexOfName(h, k) < |h| <==> IndexOfName(g, k) < |g| {
      if IndexOfName(h, k) < |h| {
        assert g[IndexOfName(h, k)].name == k;
      }
      if IndexOfName(g, k) < |g| {
        assert h[IndexOfName(g, k)].name == k;
      }
    }
    forall i | 0 <= i < |h| ensures
      && multiset(h[i].payments) == multiset(OfCategory(ps, h[i].name))
      && SortedDesc(h[i].payments, AmountOf)
      && forall a :: WithKey(h[i].payments, AmountOf, a) == WithKey(OfCategory(ps, h[i].name), AmountOf, a)
    {
      SortDescCorrect(g[i].payments, AmountOf);
    }
  }

  // ---- getLastNTransactions in AnalyticsService

  /**
   * Taking the tail of the date-descending sort keeps the m oldest records,
   * newest of them first.
   */
  lemma OldestByDate(all: seq<Transaction>, m: nat)
    requires m <= |all|
    ensures var sorted := SortDesc(all, DateOf);
      && |sorted| == |all|
      && multiset(sorted[|sorted| - m..]) <= multiset(all)
      && SortedDesc(sorted[|sorted| - m..], DateOf)
      && forall i, j :: 0 <= i < |sorted| - m <= j < |sorted| ==> DateOf(sorted[i]) >= DateOf(sorted[j])
  {
    var sorted := SortDesc(all, DateOf);
    assert SortedDesc(sorted, DateOf) by {
      SortDescCorrect(all, DateOf);
    }
    TailHoldsSmallest(sorted, DateOf, |sorted| - m);
    TailSubMultiset(sorted, |sorted| - m);
  }

  /** A tail of the date-descending sort is itself sorted by date and drawn from the history. */
  lemma OldestTail(all: seq<Transaction>, tail: seq<Transaction>)
    requires |tail| <= |all|
    requires tail == SortDesc(all, DateOf)[|all| - |tail|..]
    ensures SortedDesc(tail, DateOf) && multiset(tail) <= multiset(all)
  {
    OldestTailSorted(all, tail);
    OldestTailDrawn(all, tail);
  }

  lemma OldestTailSorted(all: seq<Transaction>, tail: seq<Transaction>)
    requires |tail| <= |all|
    requires tail == SortDesc(all, DateOf)[|all| - |tail|..]
    ensures SortedDesc(tail, DateOf)
  {
    var sorted := SortDesc(all, DateOf);
    assert SortedDesc(sorted, DateOf) by {
      SortDescCorrect(all, DateOf);
    }
    TailHoldsSmallest(sorted, DateOf, |all| - |tail|);
  }

  lemma OldestTailDrawn(all: seq<Transaction>, tail: seq<Transaction>)
    requires |tail| <= |all|
    requires tail == SortDesc(all, DateOf)[|all| - |tail|..]
    ensures multiset(tail) <= multiset(all)
  {
    var sorted := SortDesc(all, DateOf);
    var from := |all| - |tail|;
    assert sorted == sorted[..from] + tail;
    assert multiset(all) == multiset(sorted[..from]) + multiset(tail);
  }

  /** A tail holds no element more often than the whole sequence. */
  lemma TailSubMultiset<T>(s: seq<T>, from: nat)
    requires from <= |s|
    ensures multiset(s[from..]) <= multiset(s)
  {
    assert s == s[..from] + s[from..];
    assert multiset(s) == multiset(s[..from]) + multiset(s[from..]);
  }

  // ---- getTopNLargestTransactions

  /** How many elements min(n, size) polls: none when n is zero or negative. */
  function PollCount(n: int, size: nat): nat {
    if n <= 0 then 0 else if n < size then n else size
  }

  /**
   * `top` lists, in poll order, min(n, |ps|) of the payments: largest amount
   * first, and none of the payments left out is larger than any kept one.
   */
  predicate IsTopN(top: seq<Transaction>, ps: seq<Transaction>, n: int) {
    && |top| == PollCount(n, |ps|)
    && multiset(top) <= multiset(ps)
    && SortedDesc(top, AmountOf)
    && forall i, j :: 0 <= i < |top| && 0 <= j < |ps| && multiset(top)[ps[j]] < multiset(ps)[ps[j]] ==>
         ps[j].amount <= top[i].amount
  }

  /** Asking for at least as many as there are returns all of them. */
  lemma TopNOfAll(top: seq<Transaction>, ps: seq<Transaction>, n: int)
    requires IsTopN(top, ps, n) && n >= |ps|
    ensures multiset(top) == multiset(ps)
  {
    assert |multiset(top)| == |multiset(ps)|;
    var d := multiset(ps) - multiset(top);
    assert |d| == 0;
  }
}
