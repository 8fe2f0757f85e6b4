/**
 * The two enumerations the ledger uses. Their Java source files are not part
 * of this model: TransactionType has the four constants the code uses, and
 * CategoryType the two constants TAXI and OTHER that the tests use.
 */
module Enums {
  import opened Wrappers

  datatype TransactionType = Deposit | Withdrawal | Transfer | Payment

  datatype CategoryType = Taxi | Other
  {
    /** The enum constant's name(). */
    function Name(): string {
      match this
      case Taxi => "TAXI"
      case Other => "OTHER"
    }
  }

  /** CategoryType.values(), in declaration order. */
  const AllCategories: seq<CategoryType> := [Taxi, Other]

  /** The first constant of `cs` whose name is exactly `name`. */
  function FindByName(cs: seq<CategoryType>, name: string): (r: Option<CategoryType>)
    ensures r.Some? ==> r.value in cs && r.value.Name() == name
    ensures r.None? ==> forall i :: 0 <= i < |cs| ==> cs[i].Name() != name
  {
    if cs == [] then None
    else if cs[0].Name() == name then Some(cs[0])
    else FindByName(cs[1..], name)
  }

  /** CategoryType.valueOf: None stands for the IllegalArgumentException it throws. */
  function ValueOf(name: string): (r: Option<CategoryType>)
    ensures r.Some? <==> exists c: CategoryType :: c.Name() == name
    ensures r.Some? ==> r.value.Name() == name
  {
    var r := FindByName(AllCategories, name);
    assert r.None? ==> forall c: CategoryType :: c.Name() != name by {
      if r.None? {
        forall c: CategoryType ensures c.Name() != name {
          assert c == AllCategories[if c == Taxi then 0 else 1];
        }
      }
    }
    r
  }

  /** valueOf inverts name(): every constant is found again under its own name. */
  lemma ValueOfName(c: CategoryType)
    ensures ValueOf(c.Name()) == Some(c)
  {
    match c
    case Taxi =>
    case Other =>
  }
}
