/**
  The product-management page: who may change the catalogue, the search
  box, the product form's validation schema, the form shown when editing,
  and the handlers that pass a submitted form on to the store.

  The form's number fields arrive already coerced to numbers (`real`);
  inputs that coerce to NaN are not modelled. Confirmation dialogs are a
  parameter.
*/
module ProductManagement {
  import opened Wrappers
  import opened Types
  import opened Text
  import Seqs
  import StockStore

  // ---------------------------------------------------------------------------
  // roles

  /** `userRole`: the user's role, or "cashier" without a user or with an empty role. */
  function UserRole(user: Option<User>): (role: string)
    ensures user.None? || user.value.role == "" ==> role == "cashier"
    ensures user.Some? && user.value.role != "" ==> role == user.value.role
  {
    if user.Some? && user.value.role != "" then user.value.role else "cashier"
  }

  /** `canModify`: managers and staff may add and edit products; the default
      role, cashier, and any unknown role may not. */
  predicate CanModify(role: string)
    ensures CanModify(role) ==> role != "cashier" && role != ""
  {
    role == "manager" || role == "staff"
  }

  /** `canDelete`: only managers may delete products, so whoever may delete
      may also modify. */
  predicate CanDelete(role: string)
    ensures CanDelete(role) ==> CanModify(role) && role != "staff"
  {
    role == "manager"
  }

  /** Deleting is the stronger permission, and without a user neither is granted. */
  lemma RolePermissions(role: string, user: Option<User>)
    ensures CanDelete(role) ==> CanModify(role)
    ensures CanModify(role) && !CanDelete(role) <==> role == "staff"
    ensures !CanModify(UserRole(None))
    ensures CanModify(UserRole(user)) <==> user.Some? && user.value.role in {"manager", "staff"}
  {
  }

  // ---------------------------------------------------------------------------
  // search

  predicate SearchHit(p: Product, query: string) {
    || Contains(ToLower(p.name), ToLower(query))
    || Contains(ToLower(CategoryLabel(p.category)), ToLower(query))
  }

  function SearchBy(query: string): Product -> bool {
    (p: Product) => SearchHit(p, query)
  }

  /** `filteredProducts`: the products whose lower-cased name or category
      contains the lower-cased query. */
  function SearchProducts(ps: seq<Product>, query: string): (r: seq<Product>)
    ensures forall i :: 0 <= i < |r| ==> SearchHit(r[i], query)
    ensures forall x :: multiset(r)[x] == if SearchHit(x, query) then multiset(ps)[x] else 0
  {
    Seqs.FilterMultiplicity(ps, SearchBy(query));
    Seqs.Filter(ps, SearchBy(query))
  }

  /** A product is listed exactly when its name or category matches, the
      list keeps the products' order, and the empty query lists everything. */
  lemma SearchProductsExactly(ps: seq<Product>, query: string)
    ensures var r := SearchProducts(ps, query);
      && (forall i :: 0 <= i < |ps| ==> (ps[i] in r <==> SearchHit(ps[i], query)))
      && (forall x :: multiset(r)[x] == if SearchHit(x, query) then multiset(ps)[x] else 0)
      && Seqs.IsSubsequence(r, ps)
      && (query == "" ==> r == ps)
  {
    Seqs.FilterIsSubsequence(ps, SearchBy(query));
    Seqs.FilterExactly(ps, SearchBy(query));
    if query == "" {
      SearchEmptyKeepsAll(ps);
    }
  }

  lemma SearchEmptyKeepsAll(ps: seq<Product>)
    ensures SearchProducts(ps, "") == ps
  {
    assert ToLower("") == "";
    forall i | 0 <= i < |ps| ensures SearchHit(ps[i], "") {
      ContainsEmpty(ToLower(ps[i].name));
    }
    Seqs.FilterAllKept(ps, SearchBy(""));
  }

  // ---------------------------------------------------------------------------
  // the form and its schema

  /** What the form holds on submit, numbers already coerced. */
  datatype FormInput = FormInput(name: string, category: string, price: real, stock: real, description: Option<string>)

  /** `ProductFormValues`: a form that passed the schema. */
  datatype FormValues = FormValues(name: string, category: Category, price: real, stock: int, description: Option<string>)

  datatype FormField = NameField | CategoryField | PriceField | StockField

  /** The schema's verdict: the typed values, or the fields that failed, in form order. */
  datatype Validation = Accepted(values: FormValues) | Rejected(errors: seq<FormField>)

  /** The shortest accepted name. */
  const MIN_NAME_LENGTH: nat := 2

  predicate IsWhole(x: real) {
    x == x.Floor as real
  }

  /** The schema's rule for one field. */
  predicate FieldOk(f: FormField, input: FormInput) {
    match f
    case NameField => |input.name| >= MIN_NAME_LENGTH
    case CategoryField => CategoryFromLabel(input.category).Some?
    case PriceField => input.price > 0.0
    case StockField => IsWhole(input.stock) && input.stock >= 0.0
  }

  function FailedFields(input: FormInput): (r: seq<FormField>)
    ensures forall f :: f in r <==> !FieldOk(f, input)
  {
    (if FieldOk(NameField, input) then [] else [NameField])
    + (if FieldOk(CategoryField, input) then [] else [CategoryField])
    + (if FieldOk(PriceField, input) then [] else [PriceField])
    + (if FieldOk(StockField, input) then [] else [StockField])
  }

  /** `productSchema`: a name of at least two characters, one of the nine
      categories, a positive price and a non-negative whole stock; the
      description is optional. */
  function Validate(input: FormInput): (v: Validation)
    ensures v.Accepted? <==>
              && |input.name| >= MIN_NAME_LENGTH
              && (exists c :: CategoryLabel(c) == input.category)
              && input.price > 0.0
              && IsWhole(input.stock) && input.stock >= 0.0
    ensures v.Accepted? ==>
              && CategoryLabel(v.values.category) == input.category
              && v.values.name == input.name && v.values.price == input.price
              && v.values.stock as real == input.stock && v.values.description == input.description
    ensures v.Rejected? ==> |v.errors| > 0 && forall f :: f in v.errors <==> !FieldOk(f, input)
  {
    LabelKnown(input.category);
    var errors := FailedFields(input);
    if errors == [] then
      assert FieldOk(CategoryField, input) && FieldOk(StockField, input);
      Accepted(FormValues(input.name, CategoryFromLabel(input.category).value, input.price,
                          input.stock.Floor, input.description))
    else Rejected(errors)
  }

  /** A label names a category exactly when it is one of the nine labels. */
  lemma LabelKnown(s: string)
    ensures CategoryFromLabel(s).Some? <==> exists c :: CategoryLabel(c) == s
  {
    CategoriesClosed();
    if exists c :: CategoryLabel(c) == s {
      var c :| CategoryLabel(c) == s;
      assert CategoryFromLabel(CategoryLabel(c)) == Some(c);
    }
  }

  /** The form's content before submission. */
  function InputOf(v: FormValues): FormInput {
    FormInput(v.name, CategoryLabel(v.category), v.price, v.stock as real, v.description)
  }

  /** `EmptyProductForm`. */
  const EMPTY_FORM: FormValues := FormValues("", Groceries, 0.0, 0, Some(""))

  /** Submitting the empty form fails on the name and the price only. */
  lemma EmptyFormRejected()
    ensures Validate(InputOf(EMPTY_FORM)) == Rejected([NameField, PriceField])
  {
    assert IsWhole(0.0);
    assert CategoryFromLabel("Groceries") == Some(Groceries);
  }

  /** A form whose values already satisfy the schema is accepted unchanged. */
  lemma ValidValuesAccepted(v: FormValues)
    requires |v.name| >= MIN_NAME_LENGTH && v.price > 0.0 && v.stock >= 0
    ensures Validate(InputOf(v)) == Accepted(v)
  {
    CategoriesClosed();
    assert (v.stock as real).Floor == v.stock;
  }

  /** `getCurrentProduct`: the form for the product being edited, or the
      empty form when no product has the current id. */
  function CurrentProductForm(ps: seq<Product>, current: Option<string>): (v: FormValues)
    ensures current.None? || StockStore.ProductById(ps, current.value).None? ==> v == EMPTY_FORM
    ensures current.Some? && StockStore.ProductById(ps, current.value).Some? ==>
              var p := StockStore.ProductById(ps, current.value).value;
              v == FormValues(p.name, p.category, p.price, p.stock, Some(p.description))
  {
    if current.None? then EMPTY_FORM
    else match StockStore.ProductById(ps, current.value)
      case None => EMPTY_FORM
      case Some(p) => FormValues(p.name, p.category, p.price, p.stock, Some(p.description))
  }

  /** What "add product" receives: the form with a missing description as "". */
  function NewProductOf(v: FormValues): (np: NewProduct)
    ensures np.description == v.description.GetOr("")
    ensures np.name == v.name && np.category == v.category && np.price == v.price && np.stock == v.stock
  {
    NewProduct(v.name, v.category, v.price, v.stock, v.description.GetOr(""))
  }

  /** What "update product" receives: every form field, the description only
      if given, and never an id or a sales count. */
  function PatchOf(v: FormValues): (patch: ProductPatch)
    ensures patch.id.None? && patch.salesCount.None?
    ensures patch.name == Some(v.name) && patch.category == Some(v.category)
    ensures patch.price == Some(v.price) && patch.stock == Some(v.stock)
    ensures patch.description == v.description
  {
    ProductPatch(None, Some(v.name), Some(v.category), Some(v.price), Some(v.stock), v.description, None)
  }

  // ---------------------------------------------------------------------------
  // the page

  const ADD_DENIED: string := "Permission denied: Only managers and staff can create products"
  const UPDATE_DENIED: string := "Permission denied: Only managers and staff can update products"
  const DELETE_DENIED: string := "Permission denied: Only managers can delete products"
  const EDIT_DENIED: string := "Permission denied: Only managers and staff can edit products"

  /** `currentProductId` is set when it is a non-empty string. */
  predicate IsSet(id: Option<string>) {
    id.Some? && id.value != ""
  }

  class ProductPage {
    const store: StockStore.Store
    const user: Option<User>
    var searchQuery: string
    var isAddDialogOpen: bool
    var isEditDialogOpen: bool
    var currentProductId: Option<string>
    var permissionError: Option<string>

    constructor (store: StockStore.Store, user: Option<User>)
      ensures this.store == store && this.user == user
      ensures searchQuery == "" && !isAddDialogOpen && !isEditDialogOpen
      ensures currentProductId == None && permissionError == None
    {
      this.store := store;
      this.user := user;
      searchQuery := "";
      isAddDialogOpen := false;
      isEditDialogOpen := false;
      currentProductId := None;
      permissionError := None;
    }

    function Role(): string {
      UserRole(user)
    }

    /** The rows the table shows. */
    function Listed(): seq<Product>
      reads this, store
    {
      SearchProducts(store.products, searchQuery)
    }

    /** The values the edit dialog opens with. */
    function CurrentProduct(): FormValues
      reads this, store
    {
      CurrentProductForm(store.products, currentProductId)
    }

    /** `handleAddProduct`: refused for cashiers and unknown roles, which
        never reach the store; otherwise the product is added. The add
        dialog closes either way. */
    method HandleAddProduct(values: FormValues, reply: StockStore.Reply<StockStore.CreatedProduct>, now: int)
      modifies this, store
      ensures !isAddDialogOpen
      ensures isEditDialogOpen == old(isEditDialogOpen) && currentProductId == old(currentProductId)
      ensures searchQuery == old(searchQuery)
      ensures store.sales == old(store.sales)
      ensures !CanModify(Role()) ==>
                && permissionError == Some(ADD_DENIED)
                && store.products == old(store.products) && store.requests == old(store.requests)
      ensures CanModify(Role()) ==>
                && permissionError == old(permissionError)
                && store.requests == old(store.requests) + [StockStore.CreateProduct(NewProductOf(values))]
                && (reply.Ok? ==> store.products == old(store.products) + [StockStore.FromCreated(reply.body, now)])
                && (reply.Failed? ==> store.products == old(store.products))
    {
      if !CanModify(Role()) {
        permissionError := Some(ADD_DENIED);
        isAddDialogOpen := false;
        return;
      }
      var _ := store.AddProduct(NewProductOf(values), reply, now);
      isAddDialogOpen := false;
    }

    /** `handleEditProduct`: refused without the permission; otherwise sends
        the form as an update of the product being edited, if there is one,
        and closes the dialog. */
    method HandleEditProduct(values: FormValues, reply: StockStore.Reply<StockStore.UpdatedProduct>, now: int)
      modifies this, store
      ensures isAddDialogOpen == old(isAddDialogOpen) && searchQuery == old(searchQuery)
      ensures store.sales == old(store.sales)
      ensures !CanModify(Role()) ==>
                && permissionError == Some(UPDATE_DENIED) && !isEditDialogOpen
                && currentProductId == old(currentProductId)
                && store.products == old(store.products) && store.requests == old(store.requests)
      ensures CanModify(Role()) && !IsSet(old(currentProductId)) ==>
                && permissionError == old(permissionError) && isEditDialogOpen == old(isEditDialogOpen)
                && currentProductId == old(currentProductId)
                && store.products == old(store.products) && store.requests == old(store.requests)
      ensures CanModify(Role()) && IsSet(old(currentProductId)) ==>
                && permissionError == old(permissionError) && !isEditDialogOpen && currentProductId == None
                && store.requests == old(store.requests) + [StockStore.PutProduct(old(currentProductId).value, PatchOf(values))]
                && (reply.Ok? ==>
                      store.products == StockStore.MergeById(old(store.products), old(currentProductId).value, reply.body, now))
                && (reply.Failed? ==> store.products == old(store.products))
    {
      if !CanModify(Role()) {
        permissionError := Some(UPDATE_DENIED);
        isEditDialogOpen := false;
        return;
      }
      if IsSet(currentProductId) {
        store.UpdateProduct(currentProductId.value, PatchOf(values), reply, now);
        isEditDialogOpen := false;
        currentProductId := None;
      }
    }

    /** `handleDeleteProduct`: refused for everyone but managers; a manager's
        request goes to the store once confirmed. */
    method HandleDeleteProduct(id: string, confirmed: bool, reply: StockStore.Reply<()>)
      modifies this, store
      ensures isAddDialogOpen == old(isAddDialogOpen) && isEditDialogOpen == old(isEditDialogOpen)
      ensures currentProductId == old(currentProductId) && searchQuery == old(searchQuery)
      ensures store.sales == old(store.sales)
      ensures !CanDelete(Role()) ==> permissionError == Some(DELETE_DENIED)
      ensures CanDelete(Role()) ==> permissionError == old(permissionError)
      ensures !(CanDelete(Role()) && confirmed) ==>
                store.products == old(store.products) && store.requests == old(store.requests)
      ensures CanDelete(Role()) && confirmed ==>
                && store.requests == old(store.requests) + [StockStore.RemoveProduct(id)]
                && (reply.Ok? && StockStore.ProductById(old(store.products), id).Some? ==>
                      store.products == StockStore.WithoutId(old(store.products), id))
                && (reply.Failed? || StockStore.ProductById(old(store.products), id).None? ==>
                      store.products == old(store.products))
    {
      if !CanDelete(Role()) {
        permissionError := Some(DELETE_DENIED);
        return;
      }
      if confirmed {
        var _ := store.DeleteProduct(id, reply);
      }
    }

    /** `openEditDialog`: refused without the permission; otherwise remembers
        the product and opens the dialog. */
    method OpenEditDialog(product: Product)
      modifies this
      ensures isAddDialogOpen == old(isAddDialogOpen) && searchQuery == old(searchQuery)
      ensures !CanModify(Role()) ==>
                && permissionError == Some(EDIT_DENIED)
                && currentProductId == old(currentProductId) && isEditDialogOpen == old(isEditDialogOpen)
      ensures CanModify(Role()) ==>
                && permissionError == old(permissionError)
                && currentProductId == Some(product.id) && isEditDialogOpen
    {
      if !CanModify(Role()) {
        permissionError := Some(EDIT_DENIED);
        return;
      }
      currentProductId := Some(product.id);
      isEditDialogOpen := true;
    }
  }
}
