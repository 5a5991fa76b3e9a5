/** Transaction types, the fixed category lists and the default-category rule. */
module Categories {

  /** The closed set of transaction types offered by the type selector. */
  datatype TxType = Income | Expense | Saving

  type Category = string

  /** The allowed categories of each type, in display order. */
  function CategoriesFor(t: TxType): (cs: seq<Category>)
    ensures |cs| > 0 && cs[|cs| - 1] == "Other"
    ensures forall i, j :: 0 <= i < j < |cs| ==> cs[i] != cs[j]
  {
    match t
    case Income => ["Salary", "Bonus", "Other"]
    case Expense => ["Food", "Rent/Mortgage", "Bills", "Transport", "Entertainment", "Travel", "Other"]
    case Saving => ["Emergency Fund", "Retirement", "TFSA", "Other"]
  }

  /**
   * The category pre-selected in the entry form for type `t`: the one last
   * used for `t` if there is one and it is still allowed, else the first
   * allowed category.
   */
  function DefaultCategory(last: map<TxType, Category>, t: TxType): (c: Category)
    ensures c in CategoriesFor(t)
    ensures t in last && last[t] in CategoriesFor(t) ==> c == last[t]
    ensures !(t in last && last[t] in CategoriesFor(t)) ==> c == CategoriesFor(t)[0]
  {
    var categories := CategoriesFor(t);
    var remembered := if t in last then last[t] else categories[0];
    if remembered in categories then remembered else categories[0]
  }

  /** Remembering a category for one type leaves the defaults of every other type as they were. */
  lemma DefaultCategoryIndependent(last: map<TxType, Category>, t: TxType, c: Category, u: TxType)
    requires u != t
    ensures DefaultCategory(last[t := c], u) == DefaultCategory(last, u)
  {
  }

  /** Remembering an allowed category makes it the default for its type. */
  lemma DefaultCategoryRemembers(last: map<TxType, Category>, t: TxType, c: Category)
    requires c in CategoriesFor(t)
    ensures DefaultCategory(last[t := c], t) == c
  {
  }
}
