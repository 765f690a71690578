/**
  The dashboard's derived lists: the two stock alert lists and the five
  best-selling products.
*/
module Dashboard {
  import opened Types
  import Seqs

  function HasStatus(s: ProductStatus): Product -> bool {
    (p: Product) => p.status == s
  }

  /** `lowStockProducts`. */
  function LowStockProducts(ps: seq<Product>): (r: seq<Product>)
    ensures forall x :: multiset(r)[x] == if x.status == LowStock then multiset(ps)[x] else 0
  {
    Seqs.FilterMultiplicity(ps, HasStatus(LowStock));
    Seqs.Filter(ps, HasStatus(LowStock))
  }

  /** `outOfStockProducts`. */
  function OutOfStockProducts(ps: seq<Product>): (r: seq<Product>)
    ensures forall x :: multiset(r)[x] == if x.status == OutOfStock then multiset(ps)[x] else 0
  {
    Seqs.FilterMultiplicity(ps, HasStatus(OutOfStock));
    Seqs.Filter(ps, HasStatus(OutOfStock))
  }

  /** Each alert list holds exactly the products with its status, in product order. */
  lemma AlertListsExactly(ps: seq<Product>)
    ensures var low, out := LowStockProducts(ps), OutOfStockProducts(ps);
      && (forall i :: 0 <= i < |low| ==> low[i].status == LowStock)
      && (forall i :: 0 <= i < |ps| && ps[i].status == LowStock ==> ps[i] in low)
      && (forall i :: 0 <= i < |out| ==> out[i].status == OutOfStock)
      && (forall i :: 0 <= i < |ps| && ps[i].status == OutOfStock ==> ps[i] in out)
      && (forall x :: multiset(low)[x] == if x.status == LowStock then multiset(ps)[x] else 0)
      && (forall x :: multiset(out)[x] == if x.status == OutOfStock then multiset(ps)[x] else 0)
      && Seqs.IsSubsequence(low, ps) && Seqs.IsSubsequence(out, ps)
  {
    Seqs.FilterIsSubsequence(ps, HasStatus(LowStock));
    Seqs.FilterIsSubsequence(ps, HasStatus(OutOfStock));
  }

  /** The "no inventory alerts" message is shown. */
  predicate NoAlerts(ps: seq<Product>) {
    |OutOfStockProducts(ps)| == 0 && |LowStockProducts(ps)| == 0
  }

  /** There are no alerts exactly when every product is in stock. */
  lemma NoAlertsIffAllInStock(ps: seq<Product>)
    ensures NoAlerts(ps) <==> forall i :: 0 <= i < |ps| ==> ps[i].status == InStock
  {
    if !(forall i :: 0 <= i < |ps| ==> ps[i].status == InStock) {
      var i :| 0 <= i < |ps| && ps[i].status != InStock;
      assert ps[i] in LowStockProducts(ps) || ps[i] in OutOfStockProducts(ps);
    }
    if NoAlerts(ps) {
    } else {
      if |LowStockProducts(ps)| > 0 {
        assert LowStockProducts(ps)[0].status == LowStock && LowStockProducts(ps)[0] in ps;
      } else {
        assert OutOfStockProducts(ps)[0].status == OutOfStock && OutOfStockProducts(ps)[0] in ps;
      }
    }
  }

  /** A row of the top-selling chart. */
  datatype TopEntry = TopEntry(name: string, sales: int)

  const TOP_COUNT: nat := 5

  /** The comparator `b.salesCount - a.salesCount`: more sales first. */
  function MoreSales(a: Product, b: Product): bool {
    a.salesCount > b.salesCount
  }

  lemma MoreSalesStrict()
    ensures Seqs.StrictOrder(MoreSales)
  {
  }

  /** The products, best sellers first (`[...products].sort(...)`: a copy). */
  function BySales(ps: seq<Product>): (r: seq<Product>)
    ensures multiset(r) == multiset(ps) && |r| == |ps|
  {
    var r := Seqs.InsertionSort(ps, MoreSales);
    assert |r| == |multiset(r)| == |ps|;
    r
  }

  /** The sorted copy is a permutation of the products with sales never increasing. */
  lemma BySalesOrdered(ps: seq<Product>)
    ensures forall i, j :: 0 <= i < j < |BySales(ps)| ==> BySales(ps)[i].salesCount >= BySales(ps)[j].salesCount
  {
    MoreSalesStrict();
    Seqs.InsertionSortSorted(ps, MoreSales);
  }

  /** The first five of the sorted copy, or all of them when there are fewer. */
  function TopProducts(ps: seq<Product>): (r: seq<Product>)
    ensures |r| == if |ps| < TOP_COUNT then |ps| else TOP_COUNT
    ensures r <= BySales(ps)
  {
    var sorted := BySales(ps);
    if |sorted| < TOP_COUNT then sorted else sorted[..TOP_COUNT]
  }

  /** `topSellingProducts`. */
  function TopSelling(ps: seq<Product>): (r: seq<TopEntry>)
    ensures |r| == |TopProducts(ps)|
    ensures forall k :: 0 <= k < |r| ==> r[k] == TopEntry(TopProducts(ps)[k].name, TopProducts(ps)[k].salesCount)
  {
    var top := TopProducts(ps);
    seq(|top|, k requires 0 <= k < |top| => TopEntry(top[k].name, top[k].salesCount))
  }

  /** At most five rows, and exactly five when there are that many products;
      sales never increase down the list. */
  lemma TopSellingOrdered(ps: seq<Product>)
    ensures var r := TopSelling(ps);
      && |r| <= TOP_COUNT && (|ps| >= TOP_COUNT ==> |r| == TOP_COUNT)
      && (forall i, j :: 0 <= i < j < |r| ==> r[i].sales >= r[j].sales)
  {
    BySalesOrdered(ps);
  }

  /** Every row is a product, the rows are distinct occurrences of products,
      and no product left out has more sales than a listed one. */
  lemma TopSellingIsTop(ps: seq<Product>)
    ensures var top := TopProducts(ps);
      && (forall k :: 0 <= k < |top| ==> top[k] in ps)
      && multiset(top) <= multiset(ps)
      && (forall p :: p in multiset(ps) - multiset(top) ==>
            forall k :: 0 <= k < |top| ==> p.salesCount <= top[k].salesCount)
  {
    var sorted := BySales(ps);
    BySalesOrdered(ps);
    var top := TopProducts(ps);
    var n := |top|;
    var rest := sorted[n..];
    assert sorted == top + rest;
    assert multiset(ps) == multiset(top) + multiset(rest);
    forall k | 0 <= k < n ensures top[k] in ps {
      assert top[k] in multiset(ps);
    }
    forall p | p in multiset(ps) - multiset(top)
      ensures forall k :: 0 <= k < n ==> p.salesCount <= top[k].salesCount
    {
      assert p in multiset(rest);
      var m :| 0 <= m < |rest| && rest[m] == p;
      assert sorted[n + m] == p;
    }
  }
}
