/** The five memory categories and the keys the application stores for them. */
module Categories {
  datatype Category = Childhood | Family | Pets | Work | Other

  const AllCategories: seq<Category> := [Childhood, Family, Pets, Work, Other]

  /** The stored key of a category. */
  function Key(c: Category): string {
    match c
    case Childhood => "childhood"
    case Family => "family"
    case Pets => "pets"
    case Work => "work"
    case Other => "other"
  }

  /** A check on the literals above: every category is listed, and distinct
      categories have distinct stored keys. No other proof relies on it. */
  lemma KeysDistinct()
    ensures forall c: Category :: c in AllCategories
    ensures forall c, d: Category :: Key(c) == Key(d) ==> c == d
  {
    forall c: Category ensures c in AllCategories {
      match c
      case Childhood => assert AllCategories[0] == c;
      case Family => assert AllCategories[1] == c;
      case Pets => assert AllCategories[2] == c;
      case Work => assert AllCategories[3] == c;
      case Other => assert AllCategories[4] == c;
    }
  }
}
