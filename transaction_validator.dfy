/** TransactionValidator: static checks on category names and users. */
module TransactionValidator {
  import opened Enums
  import opened Entity

  /** The names of all CategoryType constants. */
  function KnownNames(): (names: set<string>)
    ensures forall c: CategoryType :: c.Name() in names
    ensures forall s :: s in names ==> exists c: CategoryType :: c.Name() == s
  {
    var names := set i | 0 <= i < |AllCategories| :: AllCategories[i].Name();
    assert AllCategories[0].Name() in names && AllCategories[1].Name() in names;
    names
  }

  /**
   * False for the empty string (a null string behaves the same); otherwise
   * true exactly when the string is, case-sensitively, the name of a constant.
   */
  function IsValidCategory(category: string): (valid: bool)
    ensures valid <==> category in KnownNames()
    ensures valid <==> ValueOf(category).Some?
  {
    if category == "" then false else FindByName(AllCategories, category).Some?
  }

  /**
   * As written: false for the empty set, false as soon as one element IS a
   * recognised name, true only when none is. Its documentation promises the
   * opposite test ("the passed categories exist").
   */
  function IsValidCategories(categories: set<string>): (valid: bool)
    ensures valid <==> categories != {} && categories !! KnownNames()
  {
    categories != {} && forall category | category in categories :: !IsValidCategory(category)
  }

  /** The inversion: a set that contains any recognised name is rejected, so the documented check never passes. */
  lemma IsValidCategoriesRejectsKnownNames(categories: set<string>, known: string)
    requires known in categories && known in KnownNames()
    ensures !IsValidCategories(categories)
  {
    assert !(categories !! KnownNames());
  }

  /** The two names the tests ask about are rejected together. */
  lemma TaxiAndOtherRejected()
    ensures !IsValidCategories({"TAXI", "OTHER"})
  {
    assert Taxi.Name() in KnownNames();
  }

  /**
   * True for a null user or one without accounts; otherwise true exactly when
   * some account has a non-empty history.
   */
  predicate HasUserActiveAccounts(user: User?): (active: bool)
    reads user, if user == null then [] else user.accounts
    ensures user == null || user.accounts == [] ==> active
    ensures user != null && user.accounts != [] ==> (active <==> FlatHistory(user.accounts) != [])
  {
    if user == null || user.accounts == [] then true
    else
      FlatHistoryEmpty(user.accounts);
      exists i :: 0 <= i < |user.accounts| && user.accounts[i].transactions != []
  }

  /**
   * The guard the services call hasUserAccountsWithTransactions: the user is
   * not null and some account has a non-empty history.
   */
  predicate HasUserAccountsWithTransactions(user: User?): (guard: bool)
    reads user, if user == null then [] else user.accounts
    ensures guard <==> user != null && FlatHistory(user.accounts) != []
  {
    if user == null then false
    else
      FlatHistoryEmpty(user.accounts);
      exists i :: 0 <= i < |user.accounts| && user.accounts[i].transactions != []
  }

  /** The guard holds exactly when the user's flattened history is not empty. */
  lemma GuardMeansTransactions(user: User?)
    ensures HasUserAccountsWithTransactions(user) <==> user != null && FlatHistory(user.accounts) != []
  {
    if user != null {
      FlatHistoryEmpty(user.accounts);
    }
  }

  /** The two user checks differ only on a null user and on a user with no accounts. */
  lemma ActiveAccountsVersusGuard(user: User?)
    ensures user != null && user.accounts != [] ==>
      (HasUserActiveAccounts(user) <==> HasUserAccountsWithTransactions(user))
    ensures user == null || user.accounts == [] ==>
      HasUserActiveAccounts(user) && !HasUserAccountsWithTransactions(user)
  {
  }
}
