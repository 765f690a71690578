/**
  The inventory's domain types: the closed category and status enumerations,
  products, sale records, the argument of "add product" and the partial
  product record that "update product" sends.
*/
module Types {
  import opened Wrappers

  /** The nine product categories. */
  datatype Category =
    | Groceries | Dairy | Bakery | Meat | Produce | Beverages | Snacks | Household | Other

  const AllCategories: seq<Category> :=
    [Groceries, Dairy, Bakery, Meat, Produce, Beverages, Snacks, Household, Other]

  function CategoryLabel(c: Category): string {
    match c
    case Groceries => "Groceries"
    case Dairy => "Dairy"
    case Bakery => "Bakery"
    case Meat => "Meat"
    case Produce => "Produce"
    case Beverages => "Beverages"
    case Snacks => "Snacks"
    case Household => "Household"
    case Other => "Other"
  }

  /** The category a label names, if it names one. */
  function CategoryFromLabel(s: string): (r: Option<Category>)
    ensures r.Some? ==> CategoryLabel(r.value) == s
  {
    if s == "Groceries" then Some(Groceries)
    else if s == "Dairy" then Some(Dairy)
    else if s == "Bakery" then Some(Bakery)
    else if s == "Meat" then Some(Meat)
    else if s == "Produce" then Some(Produce)
    else if s == "Beverages" then Some(Beverages)
    else if s == "Snacks" then Some(Snacks)
    else if s == "Household" then Some(Household)
    else if s == "Other" then Some(Other)
    else None
  }

  /** The enumeration is closed: nine distinct labels, each read back as its category. */
  lemma CategoriesClosed()
    ensures |AllCategories| == 9
    ensures forall c: Category :: c in AllCategories
    ensures forall i, j :: 0 <= i < j < |AllCategories| ==>
              CategoryLabel(AllCategories[i]) != CategoryLabel(AllCategories[j])
    ensures forall c: Category :: CategoryFromLabel(CategoryLabel(c)) == Some(c)
  {
    forall c: Category ensures c in AllCategories {
      match c
      case Groceries => assert AllCategories[0] == c;
      case Dairy => assert AllCategories[1] == c;
      case Bakery => assert AllCategories[2] == c;
      case Meat => assert AllCategories[3] == c;
      case Produce => assert AllCategories[4] == c;
      case Beverages => assert AllCategories[5] == c;
      case Snacks => assert AllCategories[6] == c;
      case Household => assert AllCategories[7] == c;
      case Other => assert AllCategories[8] == c;
    }
  }

  /** The three stock statuses. */
  datatype ProductStatus = InStock | LowStock | OutOfStock

  function StatusLabel(s: ProductStatus): string {
    match s
    case InStock => "In Stock"
    case LowStock => "Low Stock"
    case OutOfStock => "Out of Stock"
  }

  /** A product record. Prices are exact `real` amounts; `lastUpdated` is a
      timestamp in milliseconds. A description missing from the fetched
      list is read as the empty string. */
  datatype Product = Product(
    id: string,
    name: string,
    category: Category,
    price: real,
    stock: int,
    description: string,
    salesCount: int,
    lastUpdated: int,
    status: ProductStatus)

  /** A sale. `productName` is a copy of the product's name taken at the time
      of sale, so it survives later renaming or deletion of the product. */
  datatype SaleRecord = SaleRecord(
    id: string,
    productId: string,
    productName: string,
    quantity: int,
    totalAmount: real,
    date: int)

  /** The argument of "add product": a product without id, lastUpdated,
      salesCount and status, which only the server or the store assign. */
  datatype NewProduct = NewProduct(
    name: string,
    category: Category,
    price: real,
    stock: int,
    description: string)

  /** A partial product record (`Partial<Product>`): `None` is an absent field. */
  datatype ProductPatch = ProductPatch(
    id: Option<string>,
    name: Option<string>,
    category: Option<Category>,
    price: Option<real>,
    stock: Option<int>,
    description: Option<string>,
    salesCount: Option<int>)

  /** A signed-in user; the role is free text ("manager", "staff", "cashier", ...). */
  datatype User = User(id: string, username: string, email: string, role: string)
}
