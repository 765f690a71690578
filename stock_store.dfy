/**
  The client-side inventory store: the canonical in-memory lists of products
  and sales, the four mutations that go through the remote inventory service,
  and the derived reads over the current snapshot.

  The remote service is not modelled. Each mutation takes the reply the
  service would give (`Ok(body)` or `Failed`) as a parameter, and the store
  keeps the list of requests it has issued, so that "makes no remote call"
  can be stated. Each mutation is one atomic step.
*/
module StockStore {
  import opened Wrappers
  import opened Types
  import Seqs

  /** Above this many units a product is "In Stock". */
  const LOW_STOCK_LIMIT: int := 10

  /** The stock status of a stock level (`updateProductStatus`). */
  function StatusFor(stock: int): (s: ProductStatus)
    ensures s == OutOfStock <==> stock <= 0
    ensures s == LowStock <==> 0 < stock <= LOW_STOCK_LIMIT
    ensures s == InStock <==> LOW_STOCK_LIMIT < stock
  {
    if stock <= 0 then OutOfStock
    else if stock <= LOW_STOCK_LIMIT then LowStock
    else InStock
  }

  /** A product whose status agrees with its stock. */
  predicate StatusConsistent(p: Product) {
    p.status == StatusFor(p.stock)
  }

  predicate UniqueIds(ps: seq<Product>) {
    forall i, j :: 0 <= i < j < |ps| ==> ps[i].id != ps[j].id
  }

  // ---------------------------------------------------------------------------
  // the remote service's replies and the requests sent to it

  /** The outcome of an awaited call: the response body, or a rejection. */
  datatype Reply<T> = Ok(body: T) | Failed

  /** The record the service returns for a created product. `salesCount` and
      `updatedAt` may be missing from it; its status and description are
      taken to be present. */
  datatype CreatedProduct = CreatedProduct(
    id: string,
    name: string,
    category: Category,
    price: real,
    stock: int,
    description: string,
    salesCount: Option<int>,
    updatedAt: Option<int>,
    status: ProductStatus)

  /** The record the service returns for an updated product: the fields it
      carries, its update time if present, and its status, taken to be
      present. */
  datatype UpdatedProduct = UpdatedProduct(
    fields: ProductPatch,
    updatedAt: Option<int>,
    status: ProductStatus)

  /** The record the service returns for a recorded sale. */
  datatype CreatedSale = CreatedSale(id: string, date: Option<int>)

  datatype Request =
    | CreateProduct(product: NewProduct)
    | PutProduct(id: string, patch: ProductPatch)
    | RemoveProduct(id: string)
    | PostSale(productId: string, quantity: int)

  /** What `recordSale` reports: the two local refusals, a failed call, or the new sale. */
  datatype SaleOutcome = ProductNotFound | InsufficientStock | SaleFailed | SaleRecorded(sale: SaleRecord)

  // ---------------------------------------------------------------------------
  // derived reads

  function HasId(id: string): Product -> bool {
    (p: Product) => p.id == id
  }

  /** Position of the first product with the given id. */
  function ProductIndex(ps: seq<Product>, id: string): (r: Option<nat>)
    ensures r.Some? ==> r.value < |ps| && ps[r.value].id == id
    ensures r.Some? ==> forall j :: 0 <= j < r.value ==> ps[j].id != id
    ensures r.None? <==> forall j :: 0 <= j < |ps| ==> ps[j].id != id
  {
    Seqs.FirstIndex(ps, HasId(id))
  }

  /** `getProductById`: the first product with the given id, or nothing. */
  function ProductById(ps: seq<Product>, id: string): (r: Option<Product>)
    ensures r.None? <==> forall j :: 0 <= j < |ps| ==> ps[j].id != id
    ensures r.Some? ==> r.value.id == id && r.value == ps[ProductIndex(ps, id).value]
  {
    match ProductIndex(ps, id)
    case None => None
    case Some(k) => Some(ps[k])
  }

  function StockOf(p: Product): int { p.stock }
  function SalesCountOf(p: Product): int { p.salesCount }
  function QuantityOf(s: SaleRecord): int { s.quantity }
  function AmountOf(s: SaleRecord): real { s.totalAmount }

  /** `getTotalStock`: units on hand over all products; the `reduce` starts
      at 0, and a catalogue without negative stock has a non-negative total. */
  function TotalStock(ps: seq<Product>): (r: int)
    ensures ps == [] ==> r == 0
    ensures (forall i :: 0 <= i < |ps| ==> ps[i].stock >= 0) ==> r >= 0
  {
    if forall i :: 0 <= i < |ps| ==> ps[i].stock >= 0 then Seqs.SumIntNonNegative(ps, StockOf); Seqs.SumInt(ps, StockOf)
    else Seqs.SumInt(ps, StockOf)
  }

  /** Cumulative units sold according to the products' sales counters. */
  function TotalSalesCount(ps: seq<Product>): int { Seqs.SumInt(ps, SalesCountOf) }

  /** `getTotalSold`: units over all sales, 0 for none, never negative when
      no sale has a negative quantity. */
  function TotalSold(sales: seq<SaleRecord>): (r: int)
    ensures sales == [] ==> r == 0
    ensures (forall i :: 0 <= i < |sales| ==> sales[i].quantity >= 0) ==> r >= 0
  {
    if forall i :: 0 <= i < |sales| ==> sales[i].quantity >= 0 then Seqs.SumIntNonNegative(sales, QuantityOf); Seqs.SumInt(sales, QuantityOf)
    else Seqs.SumInt(sales, QuantityOf)
  }

  /** `getTotalRevenue`: amount over all sales, 0 for none, never negative
      when no sale has a negative amount. */
  function TotalRevenue(sales: seq<SaleRecord>): (r: real)
    ensures sales == [] ==> r == 0.0
    ensures (forall i :: 0 <= i < |sales| ==> sales[i].totalAmount >= 0.0) ==> r >= 0.0
  {
    if forall i :: 0 <= i < |sales| ==> sales[i].totalAmount >= 0.0 then Seqs.SumRealNonNegative(sales, AmountOf); Seqs.SumReal(sales, AmountOf)
    else Seqs.SumReal(sales, AmountOf)
  }

  /** Appending a sale adds its quantity and its amount to the two sales totals. */
  lemma TotalsAfterAppend(sales: seq<SaleRecord>, s: SaleRecord)
    ensures TotalSold(sales + [s]) == TotalSold(sales) + s.quantity
    ensures TotalRevenue(sales + [s]) == TotalRevenue(sales) + s.totalAmount
  {
    Seqs.SumIntConcat(sales, [s], QuantityOf);
    Seqs.SumRealConcat(sales, [s], AmountOf);
  }

  /** The totals do not depend on the order of the records. */
  lemma TotalsOrderIndependent(ps: seq<Product>, ps': seq<Product>, ss: seq<SaleRecord>, ss': seq<SaleRecord>)
    requires multiset(ps) == multiset(ps') && multiset(ss) == multiset(ss')
    ensures TotalStock(ps) == TotalStock(ps')
    ensures TotalSold(ss) == TotalSold(ss') && TotalRevenue(ss) == TotalRevenue(ss')
  {
    Seqs.SumIntPermutation(ps, ps', StockOf);
    Seqs.SumIntPermutation(ss, ss', QuantityOf);
    Seqs.SumRealPermutation(ss, ss', AmountOf);
  }

  // ---------------------------------------------------------------------------
  // the record-level effect of each mutation

  /** The product record `addProduct` builds from the service's reply: a
      missing sales count becomes 0, a missing update time becomes `now`, and
      the status is the one the service sent. */
  function FromCreated(b: CreatedProduct, now: int): (p: Product)
    ensures p.id == b.id && p.name == b.name && p.category == b.category
    ensures p.price == b.price && p.stock == b.stock && p.description == b.description
    ensures p.salesCount == (if b.salesCount.Some? then b.salesCount.value else 0)
    ensures p.lastUpdated == (if b.updatedAt.Some? then b.updatedAt.value else now)
    ensures p.status == b.status
  {
    Product(b.id, b.name, b.category, b.price, b.stock, b.description,
            b.salesCount.GetOr(0), b.updatedAt.GetOr(now), b.status)
  }

  /** The fields of the service's reply laid over a local record
      (`{...product, ...updatedProduct}`): a field the reply carries wins, an
      absent one keeps its local value; update time and status come from the
      reply, the status unrecomputed. */
  function Merge(p: Product, u: UpdatedProduct, now: int): (r: Product)
    ensures r.id == (if u.fields.id.Some? then u.fields.id.value else p.id)
    ensures r.name == (if u.fields.name.Some? then u.fields.name.value else p.name)
    ensures r.category == (if u.fields.category.Some? then u.fields.category.value else p.category)
    ensures r.price == (if u.fields.price.Some? then u.fields.price.value else p.price)
    ensures r.stock == (if u.fields.stock.Some? then u.fields.stock.value else p.stock)
    ensures r.description == (if u.fields.description.Some? then u.fields.description.value else p.description)
    ensures r.salesCount == (if u.fields.salesCount.Some? then u.fields.salesCount.value else p.salesCount)
    ensures r.lastUpdated == (if u.updatedAt.Some? then u.updatedAt.value else now)
    ensures r.status == u.status
  {
    var f := u.fields;
    Product(f.id.GetOr(p.id), f.name.GetOr(p.name), f.category.GetOr(p.category),
            f.price.GetOr(p.price), f.stock.GetOr(p.stock), f.description.GetOr(p.description),
            f.salesCount.GetOr(p.salesCount), u.updatedAt.GetOr(now), u.status)
  }

  /** `updateProduct`'s map: every record with the target id merged, the others kept. */
  function MergeById(ps: seq<Product>, id: string, u: UpdatedProduct, now: int): (r: seq<Product>)
    ensures |r| == |ps|
    ensures forall i :: 0 <= i < |ps| && ps[i].id != id ==> r[i] == ps[i]
    ensures forall i :: 0 <= i < |ps| && ps[i].id == id ==> r[i] == Merge(ps[i], u, now)
  {
    if ps == [] then []
    else [if ps[0].id == id then Merge(ps[0], u, now) else ps[0]] + MergeById(ps[1..], id, u, now)
  }

  function NotId(id: string): Product -> bool {
    (p: Product) => p.id != id
  }

  /** `deleteProduct`'s filter: every record with the id removed, the rest in order. */
  function WithoutId(ps: seq<Product>, id: string): (r: seq<Product>)
    ensures forall i :: 0 <= i < |r| ==> r[i].id != id && r[i] in ps
    ensures forall i :: 0 <= i < |ps| && ps[i].id != id ==> ps[i] in r
    ensures Seqs.IsSubsequence(r, ps)
    ensures forall x :: multiset(r)[x] == if x.id != id then multiset(ps)[x] else 0
  {
    Seqs.FilterIsSubsequence(ps, NotId(id));
    Seqs.FilterMultiplicity(ps, NotId(id));
    Seqs.Filter(ps, NotId(id))
  }

  /** A product after selling `q` units of it: stock down, sales count up,
      status recomputed from the new stock. */
  function Sold(p: Product, q: int): (r: Product)
    ensures r.stock == p.stock - q && r.salesCount == p.salesCount + q
    ensures StatusConsistent(r)
    ensures r.(stock := p.stock, salesCount := p.salesCount, status := p.status) == p
  {
    p.(stock := p.stock - q, salesCount := p.salesCount + q, status := StatusFor(p.stock - q))
  }

  /** The sale record `recordSale` builds: the id and date the service
      returned (the date defaulting to `now`), and the product's name and
      price at the time of sale. */
  function NewSale(p: Product, q: int, body: CreatedSale, now: int): (s: SaleRecord)
    ensures s.productId == p.id && s.productName == p.name && s.quantity == q
    ensures s.totalAmount == p.price * q as real
    ensures s.id == body.id
    ensures s.date == if body.date.Some? then body.date.value else now
  {
    SaleRecord(body.id, p.id, p.name, q, p.price * q as real, body.date.GetOr(now))
  }

  /** `recordSale`'s map: every record with the id sold, the others kept. */
  function ApplySale(ps: seq<Product>, id: string, q: int): (r: seq<Product>)
    ensures |r| == |ps|
    ensures forall i :: 0 <= i < |ps| && ps[i].id != id ==> r[i] == ps[i]
    ensures forall i :: 0 <= i < |ps| && ps[i].id == id ==> r[i] == Sold(ps[i], q)
  {
    if ps == [] then []
    else [if ps[0].id == id then Sold(ps[0], q) else ps[0]] + ApplySale(ps[1..], id, q)
  }

  // ---------------------------------------------------------------------------
  // properties of the mutations

  /** A sale fixes the status of the products it touches and keeps every other
      product as it was, so a snapshot whose statuses all agree with their
      stock still does afterwards. */
  lemma SaleKeepsStatusConsistent(ps: seq<Product>, id: string, q: int)
    requires forall i :: 0 <= i < |ps| ==> StatusConsistent(ps[i])
    ensures forall i :: 0 <= i < |ps| ==> StatusConsistent(ApplySale(ps, id, q)[i])
  {
  }

  lemma {:induction false} ApplySaleAbsent(ps: seq<Product>, id: string, q: int)
    requires forall i :: 0 <= i < |ps| ==> ps[i].id != id
    ensures ApplySale(ps, id, q) == ps
  {
    if ps != [] {
      ApplySaleAbsent(ps[1..], id, q);
      assert [ps[0]] + ps[1..] == ps;
    }
  }

  /** With unique ids, selling `q` units of a listed product moves exactly `q`
      units from the stock total to the sales-count total. */
  lemma {:induction false} SaleMovesUnits(ps: seq<Product>, id: string, q: int)
    requires UniqueIds(ps)
    requires ProductById(ps, id).Some?
    ensures TotalStock(ApplySale(ps, id, q)) == TotalStock(ps) - q
    ensures TotalSalesCount(ApplySale(ps, id, q)) == TotalSalesCount(ps) + q
  {
    var r := ApplySale(ps, id, q);
    var k := ProductIndex(ps, id).value;
    assert r[k] == Sold(ps[k], q);
    assert r[..k] + r[k + 1..] == ps[..k] + ps[k + 1..] by {
      forall i | 0 <= i < |ps| && i != k ensures r[i] == ps[i] {
        assert ps[i].id != id;
      }
      assert r[..k] == ps[..k];
      assert r[k + 1..] == ps[k + 1..];
    }
    Seqs.SumIntAt(r, k, StockOf);
    Seqs.SumIntAt(ps, k, StockOf);
    Seqs.SumIntAt(r, k, SalesCountOf);
    Seqs.SumIntAt(ps, k, SalesCountOf);
  }

  /** A successful sale conserves units: stock on hand plus units sold is the
      same before and after, and revenue grows by the sale's amount. */
  lemma SaleConservesUnits(ps: seq<Product>, sales: seq<SaleRecord>, s: SaleRecord)
    requires UniqueIds(ps)
    requires ProductById(ps, s.productId).Some?
    ensures TotalStock(ApplySale(ps, s.productId, s.quantity)) + TotalSold(sales + [s])
         == TotalStock(ps) + TotalSold(sales)
    ensures TotalRevenue(sales + [s]) == TotalRevenue(sales) + s.totalAmount
  {
    SaleMovesUnits(ps, s.productId, s.quantity);
    TotalsAfterAppend(sales, s);
  }

  /** With unique ids, the local pre-check (`quantity <= stock`) keeps every
      stock level non-negative through the sale. */
  lemma SaleKeepsStockNonNegative(ps: seq<Product>, id: string, q: int)
    requires UniqueIds(ps)
    requires forall i :: 0 <= i < |ps| ==> ps[i].stock >= 0
    requires ProductById(ps, id).Some? && q <= ProductById(ps, id).value.stock
    ensures forall i :: 0 <= i < |ps| ==> ApplySale(ps, id, q)[i].stock >= 0
  {
    var k := ProductIndex(ps, id).value;
    forall i | 0 <= i < |ps| ensures ApplySale(ps, id, q)[i].stock >= 0 {
      if ps[i].id == id {
        assert i == k;
      }
    }
  }

  /** A sale changes no id, so unique ids stay unique. */
  lemma SaleKeepsIds(ps: seq<Product>, id: string, q: int)
    requires UniqueIds(ps)
    ensures UniqueIds(ApplySale(ps, id, q))
  {
    var r := ApplySale(ps, id, q);
    assert forall i :: 0 <= i < |ps| ==> r[i].id == ps[i].id;
  }

  // ---------------------------------------------------------------------------
  // the store

  class Store {
    /** The canonical snapshot. */
    var products: seq<Product>
    var sales: seq<SaleRecord>
    /** Every call issued to the remote service, oldest first. */
    var requests: seq<Request>

    /** A store holding the snapshot the initial fetch delivered. */
    constructor (initialProducts: seq<Product>, initialSales: seq<SaleRecord>)
      ensures products == initialProducts && sales == initialSales && requests == []
    {
      products := initialProducts;
      sales := initialSales;
      requests := [];
    }

    /** `addProduct`: asks the service to create the product and, once it
        does, appends the returned record at the end. */
    method AddProduct(product: NewProduct, reply: Reply<CreatedProduct>, now: int) returns (added: bool)
      modifies this
      ensures requests == old(requests) + [CreateProduct(product)]
      ensures sales == old(sales)
      ensures added == reply.Ok?
      ensures added ==> products == old(products) + [FromCreated(reply.body, now)]
      ensures added ==> products[|products| - 1].salesCount == reply.body.salesCount.GetOr(0)
      ensures !added ==> products == old(products)
    {
      requests := requests + [CreateProduct(product)];
      match reply
      case Failed =>
        added := false;
      case Ok(body) =>
        products := products + [FromCreated(body, now)];
        added := true;
    }

    /** `updateProduct`: sends the patch and, once the service answers, merges
        its reply into every record with the id; on failure nothing changes. */
    method UpdateProduct(id: string, patch: ProductPatch, reply: Reply<UpdatedProduct>, now: int)
      modifies this
      ensures requests == old(requests) + [PutProduct(id, patch)]
      ensures sales == old(sales)
      ensures reply.Ok? ==> products == MergeById(old(products), id, reply.body, now)
      ensures reply.Failed? ==> products == old(products)
    {
      requests := requests + [PutProduct(id, patch)];
      if reply.Ok? {
        products := MergeById(products, id, reply.body, now);
      }
    }

    /** `deleteProduct`: asks the service to delete and, once it does and the
        product is in the snapshot, removes every record with the id. Sales
        are never touched. */
    method DeleteProduct(id: string, reply: Reply<()>) returns (removed: bool)
      modifies this
      ensures requests == old(requests) + [RemoveProduct(id)]
      ensures sales == old(sales)
      ensures removed == (reply.Ok? && ProductById(old(products), id).Some?)
      ensures removed ==> products == WithoutId(old(products), id)
      ensures !removed ==> products == old(products)
    {
      requests := requests + [RemoveProduct(id)];
      removed := false;
      if reply.Ok? {
        var found := ProductById(products, id);
        if found.Some? {
          products := WithoutId(products, id);
          removed := true;
        }
      }
    }

    /** `recordSale`: refuses locally, without calling the service, when the
        product is not in the snapshot or has less stock than asked for; else
        posts the sale and, once the service accepts it, appends the sale and
        sells the units in one step. The quantity is not checked to be positive. */
    method RecordSale(productId: string, quantity: int, reply: Reply<CreatedSale>, now: int)
      returns (outcome: SaleOutcome)
      modifies this
      ensures outcome.ProductNotFound? <==> ProductById(old(products), productId).None?
      ensures outcome.InsufficientStock? <==>
                ProductById(old(products), productId).Some? &&
                ProductById(old(products), productId).value.stock < quantity
      ensures outcome.SaleFailed? <==>
                ProductById(old(products), productId).Some? &&
                quantity <= ProductById(old(products), productId).value.stock && reply.Failed?
      ensures outcome.ProductNotFound? || outcome.InsufficientStock? ==> requests == old(requests)
      ensures outcome.SaleFailed? || outcome.SaleRecorded? ==>
                requests == old(requests) + [PostSale(productId, quantity)]
      ensures !outcome.SaleRecorded? ==> products == old(products) && sales == old(sales)
      ensures outcome.SaleRecorded? ==>
                && reply.Ok?
                && outcome.sale == NewSale(ProductById(old(products), productId).value, quantity, reply.body, now)
                && sales == old(sales) + [outcome.sale]
                && products == ApplySale(old(products), productId, quantity)
    {
      var found := ProductById(products, productId);
      if found.None? {
        return ProductNotFound;
      }
      var product := found.value;
      if product.stock < quantity {
        return InsufficientStock;
      }
      requests := requests + [PostSale(productId, quantity)];
      if reply.Failed? {
        return SaleFailed;
      }
      var sale := NewSale(product, quantity, reply.body, now);
      sales := sales + [sale];
      products := ApplySale(products, productId, quantity);
      outcome := SaleRecorded(sale);
    }
  }
}
