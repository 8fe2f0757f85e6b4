/**
 * The functional-interface helpers: filter, map and forEach over the user's
 * flattened history, gated by the guard that some account has a record, and
 * the two pass-throughs to a supplier and a merger. The supplied lambdas are
 * modelled as pure Dafny functions.
 */
module TransactionService {
  import opened Entity
  import opened Reports
  import TransactionValidator

  /** The elements of s that `keep` accepts, in their order in s (Stream.filter). */
  function Filter<T>(s: seq<T>, keep: T -> bool): (r: seq<T>)
    ensures |r| <= |s|
  {
    if s == [] then []
    else Filter(s[..|s| - 1], keep) + (if keep(s[|s| - 1]) then [s[|s| - 1]] else [])
  }

  /** Filter keeps exactly the accepted elements: every kept one is accepted and from s, every accepted one is kept. */
  lemma {:induction false} FilterMembers<T>(s: seq<T>, keep: T -> bool)
    ensures forall i :: 0 <= i < |Filter(s, keep)| ==> Filter(s, keep)[i] in s && keep(Filter(s, keep)[i])
    ensures forall i :: 0 <= i < |s| && keep(s[i]) ==> s[i] in Filter(s, keep)
  {
    if s != [] {
      FilterMembers(s[..|s| - 1], keep);
      assert s == s[..|s| - 1] + [s[|s| - 1]];
    }
  }

  /** Filtering a concatenation filters each part. */
  lemma {:induction false} FilterConcat<T>(a: seq<T>, b: seq<T>, keep: T -> bool)
    ensures Filter(a + b, keep) == Filter(a, keep) + Filter(b, keep)
  {
    if b == [] {
      assert a + b == a;
    } else {
      var ab := a + b;
      assert ab[..|ab| - 1] == a + b[..|b| - 1];
      FilterConcat(a, b[..|b| - 1], keep);
    }
  }

  /** Filtering twice with the same predicate changes nothing more. */
  lemma {:induction false} FilterIdempotent<T>(s: seq<T>, keep: T -> bool)
    ensures Filter(Filter(s, keep), keep) == Filter(s, keep)
  {
    if s != [] {
      var front, last := s[..|s| - 1], s[|s| - 1];
      FilterIdempotent(front, keep);
      if keep(last) {
        assert Filter(s, keep) == Filter(front, keep) + [last];
        FilterConcat(Filter(front, keep), [last], keep);
        assert Filter([last], keep) == Filter([last][..0], keep) + [last];
      } else {
        assert Filter(s, keep) == Filter(front, keep);
      }
    }
  }

  /** A predicate that accepts everything keeps the sequence as it is. */
  lemma {:induction false} FilterAccepted<T>(s: seq<T>, keep: T -> bool)
    requires forall i :: 0 <= i < |s| ==> keep(s[i])
    ensures Filter(s, keep) == s
  {
    if s != [] {
      FilterAccepted(s[..|s| - 1], keep);
    }
  }

  /** The PAYMENT collection the reports run is a filter by type. */
  lemma {:induction false} PaymentsIsFilter(s: seq<Transaction>)
    ensures Payments(s) == Filter(s, IsPayment)
  {
    if s != [] {
      PaymentsIsFilter(s[..|s| - 1]);
    }
  }

  /** f applied to each element, in order (Stream.map). */
  function MapAll<T, U>(s: seq<T>, f: T -> U): (r: seq<U>)
    ensures |r| == |s|
  {
    if s == [] then [] else MapAll(s[..|s| - 1], f) + [f(s[|s| - 1])]
  }

  /** Element i of the mapped sequence is f of element i. */
  lemma {:induction false} MapAllAt<T, U>(s: seq<T>, f: T -> U)
    ensures forall i :: 0 <= i < |s| ==> MapAll(s, f)[i] == f(s[i])
  {
    if s != [] {
      MapAllAt(s[..|s| - 1], f);
    }
  }

  /** Mapping a concatenation maps each part. */
  lemma {:induction false} MapAllConcat<T, U>(a: seq<T>, b: seq<T>, f: T -> U)
    ensures MapAll(a + b, f) == MapAll(a, f) + MapAll(b, f)
  {
    if b == [] {
      assert a + b == a;
    } else {
      var ab := a + b;
      assert ab[..|ab| - 1] == a + b[..|b| - 1];
      MapAllConcat(a, b[..|b| - 1], f);
    }
  }

  /** The user's records, or none when no account of a non-null user has one. */
  function GuardedHistory(user: User?): (r: seq<Transaction>)
    reads user, if user == null then [] else user.accounts
    ensures TransactionValidator.HasUserAccountsWithTransactions(user) ==> r == FlatHistory(user.accounts)
    ensures user == null || FlatHistory(user.accounts) == [] ==> r == []
  {
    TransactionValidator.GuardMeansTransactions(user);
    if TransactionValidator.HasUserAccountsWithTransactions(user) then FlatHistory(user.accounts) else []
  }

  /** filterTransactions: the user's records that the predicate accepts, in history order. */
  function FilterTransactions(user: User?, keep: Transaction -> bool): (r: seq<Transaction>)
    reads user, if user == null then [] else user.accounts
    ensures forall i :: 0 <= i < |r| ==> keep(r[i]) && r[i] in GuardedHistory(user)
    ensures forall i :: 0 <= i < |GuardedHistory(user)| && keep(GuardedHistory(user)[i]) ==>
      GuardedHistory(user)[i] in r
  {
    FilterMembers(GuardedHistory(user), keep);
    Filter(GuardedHistory(user), keep)
  }

  /** transformTransactions: one string per record of the user, in history order. */
  function TransformTransactions(user: User?, f: Transaction -> string): (r: seq<string>)
    reads user, if user == null then [] else user.accounts
    ensures |r| == |GuardedHistory(user)|
    ensures forall i :: 0 <= i < |r| ==> r[i] == f(GuardedHistory(user)[i])
  {
    MapAllAt(GuardedHistory(user), f);
    MapAll(GuardedHistory(user), f)
  }

  /** The consumer's effect, as a state threaded through the records in order. */
  function Fold<S>(s: seq<Transaction>, state: S, consume: (S, Transaction) -> S): S {
    if s == [] then state else consume(Fold(s[..|s| - 1], state, consume), s[|s| - 1])
  }

  /** Consuming a concatenation consumes the first part, then the second. */
  lemma {:induction false} FoldConcat<S>(a: seq<Transaction>, b: seq<Transaction>, state: S, consume: (S, Transaction) -> S)
    ensures Fold(a + b, state, consume) == Fold(b, Fold(a, state, consume), consume)
  {
    if b == [] {
      assert a + b == a;
    } else {
      var ab := a + b;
      assert ab[..|ab| - 1] == a + b[..|b| - 1];
      FoldConcat(a, b[..|b| - 1], state, consume);
    }
  }

  /** processTransactions: forEach over the user's records, account by account. */
  method ProcessTransactions<S>(user: User?, state: S, consume: (S, Transaction) -> S) returns (final: S)
    ensures final == Fold(GuardedHistory(user), state, consume)
  {
    if !TransactionValidator.HasUserAccountsWithTransactions(user) {
      return state;
    }
    var accounts := user.GetAccounts();
    final := state;
    for i := 0 to |accounts|
      invariant final == Fold(FlatHistory(accounts[..i]), state, consume)
    {
      var history := accounts[i].GetTransactions();
      for j := 0 to |history|
        invariant final == Fold(history[..j], Fold(FlatHistory(accounts[..i]), state, consume), consume)
      {
        assert history[..j + 1][..j] == history[..j];
        final := consume(final, history[j]);
      }
      assert history[..|history|] == history;
      FlatHistoryStep(accounts, i);
      FoldConcat(FlatHistory(accounts[..i]), history, state, consume);
    }
    assert accounts[..|accounts|] == accounts;
  }

  /** createTransactionList: whatever the supplier returns. */
  function CreateTransactionList(supplier: () -> seq<Transaction>): seq<Transaction> {
    supplier()
  }

  /** mergeTransactionLists: whatever the merger makes of the two lists. */
  function MergeTransactionLists(list1: seq<Transaction>, list2: seq<Transaction>,
                                 merger: (seq<Transaction>, seq<Transaction>) -> seq<Transaction>): seq<Transaction> {
    merger(list1, list2)
  }
}
