/**
  The analytics charts' aggregations: daily sales totals over a trailing
  window of days, stock per category, and the colour cycle of the category
  pie chart.

  Timestamps are milliseconds and a calendar day is `t / DAY`; the chart's
  "MMM dd" day label is represented by that day number.
*/
module Analytics {
  import Wrappers
  import opened Types
  import Seqs
  import StockStore

  /** Milliseconds in a day. */
  const DAY: int := 86400000

  /** The calendar day of a timestamp. */
  function Day(t: int): int {
    t / DAY
  }

  /** Going back `k` whole days from `t` lands `k` calendar days earlier. */
  lemma DayShift(t: int, k: int)
    ensures Day(t - k * DAY) == Day(t) - k
  {
    var q, r := t / DAY, t % DAY;
    assert t - k * DAY == (q - k) * DAY + r;
  }

  lemma DayMonotone(a: int, b: int)
    requires a <= b
    ensures Day(a) <= Day(b)
  {
  }

  // ---------------------------------------------------------------------------
  // daily sales totals

  /** One point of the trend chart: a day and the units and revenue sold on it. */
  datatype DayTotal = DayTotal(day: int, quantity: int, revenue: real)

  /** The window test: at or after `now - days` days and not after `now`.
      It compares timestamps, not days. */
  predicate InWindow(s: SaleRecord, days: nat, now: int) {
    now - days * DAY <= s.date <= now
  }

  function QuantityOn(d: int, days: nat, now: int): SaleRecord -> int {
    (s: SaleRecord) => if InWindow(s, days, now) && Day(s.date) == d then s.quantity else 0
  }

  function RevenueOn(d: int, days: nat, now: int): SaleRecord -> real {
    (s: SaleRecord) => if InWindow(s, days, now) && Day(s.date) == d then s.totalAmount else 0.0
  }

  /** Units sold within the window on day `d`. */
  function DayQuantity(sales: seq<SaleRecord>, d: int, days: nat, now: int): int {
    Seqs.SumInt(sales, QuantityOn(d, days, now))
  }

  /** Revenue taken within the window on day `d`. */
  function DayRevenue(sales: seq<SaleRecord>, d: int, days: nat, now: int): real {
    Seqs.SumReal(sales, RevenueOn(d, days, now))
  }

  /** The first day of the chart. */
  function FirstDay(days: nat, now: int): int {
    Day(now) - days
  }

  /** The chart `groupSalesByDate` draws: `days + 1` consecutive days ending
      today, each with the window's totals for that day. */
  function DailyTotals(sales: seq<SaleRecord>, days: nat, now: int): (r: seq<DayTotal>)
    ensures |r| == days + 1
    ensures forall k :: 0 <= k < |r| ==> r[k].day == FirstDay(days, now) + k
    ensures forall k :: 0 < k < |r| ==> r[k].day == r[k - 1].day + 1
    ensures r[days].day == Day(now)
  {
    seq(days + 1, k requires 0 <= k <= days =>
      var d := FirstDay(days, now) + k;
      DayTotal(d, DayQuantity(sales, d, days, now), DayRevenue(sales, d, days, now)))
  }

  /** `groupSalesByDate`: zeroed buckets for each day from `days` days ago to
      today, in that order; then every sale inside the window is added to the
      bucket of its day. */
  method GroupSalesByDate(sales: seq<SaleRecord>, days: nat, now: int) returns (buckets: seq<DayTotal>)
    ensures buckets == DailyTotals(sales, days, now)
  {
    var result: map<int, DayTotal> := map[];
    var order: seq<int> := [];
    var i: int := days;
    while i >= 0
      invariant -1 <= i <= days
      invariant |order| == days - i
      invariant forall k :: 0 <= k < |order| ==> order[k] == FirstDay(days, now) + k
      invariant forall d :: d in result <==> d in order
      invariant forall d :: d in result ==> result[d] == DayTotal(d, 0, 0.0)
    {
      DayShift(now, i);
      var key := Day(now - i * DAY);
      result := result[key := DayTotal(key, 0, 0.0)];
      order := order + [key];
      i := i - 1;
    }
    for j := 0 to |sales|
      invariant forall d :: d in result <==> d in order
      invariant forall d :: d in result ==>
                  result[d] == DayTotal(d, DayQuantity(sales[..j], d, days, now), DayRevenue(sales[..j], d, days, now))
    {
      var sale := sales[j];
      assert sales[..j + 1] == sales[..j] + [sale];
      forall d | d in result
        ensures DayQuantity(sales[..j + 1], d, days, now) ==
                  DayQuantity(sales[..j], d, days, now) + QuantityOn(d, days, now)(sale)
        ensures DayRevenue(sales[..j + 1], d, days, now) ==
                  DayRevenue(sales[..j], d, days, now) + RevenueOn(d, days, now)(sale)
      {
        Seqs.SumIntConcat(sales[..j], [sale], QuantityOn(d, days, now));
        Seqs.SumRealConcat(sales[..j], [sale], RevenueOn(d, days, now));
      }
      if now - days * DAY <= sale.date && sale.date <= now {
        var key := Day(sale.date);
        if key in result {
          var b := result[key];
          result := result[key := b.(quantity := b.quantity + sale.quantity, revenue := b.revenue + sale.totalAmount)];
        }
      }
    }
    assert sales[..|sales|] == sales;
    buckets := seq(|order|, k requires 0 <= k < |order| => result[order[k]]);
  }

  /** A sale outside the window changes no bucket. */
  lemma OutsideWindowIgnored(sales: seq<SaleRecord>, s: SaleRecord, days: nat, now: int)
    requires !InWindow(s, days, now)
    ensures DailyTotals(sales + [s], days, now) == DailyTotals(sales, days, now)
  {
    forall d
      ensures DayQuantity(sales + [s], d, days, now) == DayQuantity(sales, d, days, now) + QuantityOn(d, days, now)(s)
      ensures DayRevenue(sales + [s], d, days, now) == DayRevenue(sales, d, days, now) + RevenueOn(d, days, now)(s)
    {
      Seqs.SumIntConcat(sales, [s], QuantityOn(d, days, now));
      Seqs.SumRealConcat(sales, [s], RevenueOn(d, days, now));
    }
  }

  /** A sale inside the window lands in the bucket of its own day, which is
      one of the chart's days, and adds its units and revenue there only. */
  lemma InsideWindowCounted(sales: seq<SaleRecord>, s: SaleRecord, days: nat, now: int)
    requires InWindow(s, days, now)
    ensures FirstDay(days, now) <= Day(s.date) <= Day(now)
    ensures var before, after := DailyTotals(sales, days, now), DailyTotals(sales + [s], days, now);
      forall k :: 0 <= k <= days ==>
        if before[k].day == Day(s.date) then
          after[k] == before[k].(quantity := before[k].quantity + s.quantity,
                                 revenue := before[k].revenue + s.totalAmount)
        else after[k] == before[k]
  {
    DayShift(now, days);
    DayMonotone(now - days * DAY, s.date);
    DayMonotone(s.date, now);
    forall d
      ensures DayQuantity(sales + [s], d, days, now) == DayQuantity(sales, d, days, now) + QuantityOn(d, days, now)(s)
      ensures DayRevenue(sales + [s], d, days, now) == DayRevenue(sales, d, days, now) + RevenueOn(d, days, now)(s)
    {
      Seqs.SumIntConcat(sales, [s], QuantityOn(d, days, now));
      Seqs.SumRealConcat(sales, [s], RevenueOn(d, days, now));
    }
  }

  /** The chart does not depend on the order of the sales. */
  lemma DailyTotalsOrderIndependent(sales: seq<SaleRecord>, sales': seq<SaleRecord>, days: nat, now: int)
    requires multiset(sales) == multiset(sales')
    ensures DailyTotals(sales, days, now) == DailyTotals(sales', days, now)
  {
    forall d
      ensures DayQuantity(sales, d, days, now) == DayQuantity(sales', d, days, now)
      ensures DayRevenue(sales, d, days, now) == DayRevenue(sales', d, days, now)
    {
      Seqs.SumIntPermutation(sales, sales', QuantityOn(d, days, now));
      Seqs.SumRealPermutation(sales, sales', RevenueOn(d, days, now));
    }
  }

  /** The earliest bucket covers only the part of its day after the current
      time of day: a sale earlier on that day is not counted anywhere. */
  lemma EarliestBucketPartial(s: SaleRecord, days: nat, now: int)
    requires Day(s.date) == FirstDay(days, now) && s.date < now - days * DAY
    ensures !InWindow(s, days, now)
    ensures DailyTotals([s], days, now) == DailyTotals([], days, now)
  {
    OutsideWindowIgnored([], s, days, now);
    assert [] + [s] == [s];
  }

  function InWindowQuantity(days: nat, now: int): SaleRecord -> int {
    (s: SaleRecord) => if InWindow(s, days, now) then s.quantity else 0
  }

  function BucketQuantity(b: DayTotal): int { b.quantity }

  /** Summing `v` at the position of `x` over consecutive days `d0 .. d0+n-1`. */
  function AtDay(x: int, v: int): int -> int {
    (d: int) => if d == x then v else 0
  }

  function DayRange(d0: int, n: nat): (r: seq<int>)
    ensures |r| == n && forall k :: 0 <= k < n ==> r[k] == d0 + k
  {
    seq(n, k requires 0 <= k < n => d0 + k)
  }

  lemma {:induction false} SumAtDay(d0: int, n: nat, x: int, v: int)
    ensures Seqs.SumInt(DayRange(d0, n), AtDay(x, v)) == if d0 <= x < d0 + n then v else 0
    decreases n
  {
    if n > 0 {
      var r := DayRange(d0, n);
      assert r == [d0] + DayRange(d0 + 1, n - 1);
      SumAtDay(d0 + 1, n - 1, x, v);
    }
  }

  function QuantityOnFn(sales: seq<SaleRecord>, days: nat, now: int): int -> int {
    (d: int) => DayQuantity(sales, d, days, now)
  }

  /** The bucket quantities, read as a sum over the chart's days. */
  lemma BucketsAsDaySum(sales: seq<SaleRecord>, days: nat, now: int)
    ensures Seqs.SumInt(DailyTotals(sales, days, now), BucketQuantity) ==
              Seqs.SumInt(DayRange(FirstDay(days, now), days + 1), QuantityOnFn(sales, days, now))
  {
    var b := DailyTotals(sales, days, now);
    var r := DayRange(FirstDay(days, now), days + 1);
    SumMapped(b, r, BucketQuantity, QuantityOnFn(sales, days, now));
  }

  lemma {:induction false} SumMapped(b: seq<DayTotal>, r: seq<int>, f: DayTotal -> int, g: int -> int)
    requires |b| == |r|
    requires forall k :: 0 <= k < |b| ==> f(b[k]) == g(r[k])
    ensures Seqs.SumInt(b, f) == Seqs.SumInt(r, g)
  {
    if b != [] {
      SumMapped(b[1..], r[1..], f, g);
    }
  }

  lemma {:induction false} DaySumIsWindowSum(sales: seq<SaleRecord>, days: nat, now: int)
    ensures Seqs.SumInt(DayRange(FirstDay(days, now), days + 1), QuantityOnFn(sales, days, now)) ==
              Seqs.SumInt(sales, InWindowQuantity(days, now))
  {
    var r := DayRange(FirstDay(days, now), days + 1);
    if sales == [] {
      forall k | 0 <= k < |r| ensures QuantityOnFn(sales, days, now)(r[k]) == 0 {
      }
      Seqs.SumIntZero(r, QuantityOnFn(sales, days, now));
    } else {
      var s, rest := sales[0], sales[1..];
      DaySumIsWindowSum(rest, days, now);
      var f := QuantityOnFn(rest, days, now);
      var g := AtDay(Day(s.date), if InWindow(s, days, now) then s.quantity else 0);
      forall k | 0 <= k < |r|
        ensures QuantityOnFn(sales, days, now)(r[k]) == f(r[k]) + g(r[k])
      {
      }
      Seqs.SumIntPointwise(r, f, g, QuantityOnFn(sales, days, now));
      SumAtDay(FirstDay(days, now), days + 1, Day(s.date), if InWindow(s, days, now) then s.quantity else 0);
      if InWindow(s, days, now) {
        DayShift(now, days);
        DayMonotone(now - days * DAY, s.date);
        DayMonotone(s.date, now);
      }
    }
  }

  /** The chart's units add up to the units of the sales inside the window. */
  lemma BucketsSumToWindow(sales: seq<SaleRecord>, days: nat, now: int)
    ensures Seqs.SumInt(DailyTotals(sales, days, now), BucketQuantity) ==
              Seqs.SumInt(sales, InWindowQuantity(days, now))
  {
    BucketsAsDaySum(sales, days, now);
    DaySumIsWindowSum(sales, days, now);
  }

  // ---------------------------------------------------------------------------
  // stock per category

  /** One slice of the category chart. */
  datatype CategoryEntry = CategoryEntry(name: string, value: int)

  function StockIfIn(c: Category): Product -> int {
    (p: Product) => if p.category == c then p.stock else 0
  }

  /** Units on hand in one category. */
  function CategoryStock(ps: seq<Product>, c: Category): int {
    Seqs.SumInt(ps, StockIfIn(c))
  }

  function CategoriesOf(ps: seq<Product>): (r: seq<Category>)
    ensures |r| == |ps| && forall i :: 0 <= i < |ps| ==> r[i] == ps[i].category
  {
    seq(|ps|, i requires 0 <= i < |ps| => ps[i].category)
  }

  /** The chart data `getStockByCategory` produces: one entry per category
      present, in first-occurrence order, with that category's stock. */
  function CategoryTotals(ps: seq<Product>): (r: seq<CategoryEntry>)
    ensures var cs := Seqs.Distinct(CategoriesOf(ps));
      |r| == |cs| && forall i :: 0 <= i < |r| ==> r[i] == CategoryEntry(CategoryLabel(cs[i]), CategoryStock(ps, cs[i]))
  {
    var cs := Seqs.Distinct(CategoriesOf(ps));
    seq(|cs|, i requires 0 <= i < |cs| => CategoryEntry(CategoryLabel(cs[i]), CategoryStock(ps, cs[i])))
  }

  /** `getStockByCategory`: a dictionary from category to running stock total,
      an entry created (at zero) the first time a category is met, read out
      in creation order. */
  method StockByCategory(ps: seq<Product>) returns (entries: seq<CategoryEntry>)
    ensures entries == CategoryTotals(ps)
  {
    var totals: map<Category, int> := map[];
    var order: seq<Category> := [];
    for j := 0 to |ps|
      invariant Tallied(ps[..j], totals, order)
    {
      var p := ps[j];
      ghost var totals0, order0 := totals, order;
      if p.category !in totals {
        order := order + [p.category];
        totals := totals[p.category := 0];
      } else if totals[p.category] == 0 {
        totals := totals[p.category := 0];
      }
      totals := totals[p.category := totals[p.category] + p.stock];
      TallyStep(ps, j, totals0, order0, totals, order);
    }
    entries := seq(|order|, i requires 0 <= i < |order| => CategoryEntry(CategoryLabel(order[i]), totals[order[i]]));
    TalliedEntries(ps, totals, order, entries);
  }

  /** Reading the finished dictionary out in key order gives the chart data. */
  lemma TalliedEntries(ps: seq<Product>, totals: map<Category, int>, order: seq<Category>, entries: seq<CategoryEntry>)
    requires Tallied(ps[..|ps|], totals, order)
    requires |entries| == |order|
    requires forall i :: 0 <= i < |order| ==> entries[i] == CategoryEntry(CategoryLabel(order[i]), totals[order[i]])
    ensures entries == CategoryTotals(ps)
  {
    assert ps[..|ps|] == ps;
  }

  /** The loop's invariant after a prefix `ps` of the products: the key order
      is the categories met so far, and each key holds its category's stock. */
  ghost predicate Tallied(ps: seq<Product>, totals: map<Category, int>, order: seq<Category>) {
    && order == Seqs.Distinct(CategoriesOf(ps))
    && (forall c :: c in totals <==> c in order)
    && (forall c :: c in totals ==> totals[c] == CategoryStock(ps, c))
  }

  /** Product `j`'s step, as the loop sees it. */
  lemma TallyStep(ps: seq<Product>, j: nat, totals: map<Category, int>, order: seq<Category>,
                  totals': map<Category, int>, order': seq<Category>)
    requires j < |ps|
    requires Tallied(ps[..j], totals, order)
    requires order' == if ps[j].category in totals then order else order + [ps[j].category]
    requires forall c :: c in totals' <==> c in totals || c == ps[j].category
    requires forall c :: c in totals && c != ps[j].category ==> totals'[c] == totals[c]
    requires totals'[ps[j].category] == (if ps[j].category in totals then totals[ps[j].category] else 0) + ps[j].stock
    ensures Tallied(ps[..j + 1], totals', order')
  {
    TallyAppend(ps[..j], ps[j], totals, order, totals', order');
    assert ps[..j + 1] == ps[..j] + [ps[j]];
  }

  /** One product's step: its category is added the first time it is met,
      and its stock is added to its category's total. */
  lemma TallyAppend(ps: seq<Product>, p: Product, totals: map<Category, int>, order: seq<Category>,
                    totals': map<Category, int>, order': seq<Category>)
    requires Tallied(ps, totals, order)
    requires order' == if p.category in totals then order else order + [p.category]
    requires forall c :: c in totals' <==> c in totals || c == p.category
    requires forall c :: c in totals && c != p.category ==> totals'[c] == totals[c]
    requires totals'[p.category] == (if p.category in totals then totals[p.category] else 0) + p.stock
    ensures Tallied(ps + [p], totals', order')
  {
    TallyOrder(ps, p, totals, order, totals', order');
    TallyValues(ps, p, totals, order, totals');
  }

  lemma TallyOrder(ps: seq<Product>, p: Product, totals: map<Category, int>, order: seq<Category>,
                   totals': map<Category, int>, order': seq<Category>)
    requires order == Seqs.Distinct(CategoriesOf(ps))
    requires forall c :: c in totals <==> c in order
    requires order' == if p.category in totals then order else order + [p.category]
    requires forall c :: c in totals' <==> c in totals || c == p.category
    ensures order' == Seqs.Distinct(CategoriesOf(ps + [p]))
    ensures forall c :: c in totals' <==> c in order'
  {
    AppendOrder(ps, p);
  }

  lemma TallyValues(ps: seq<Product>, p: Product, totals: map<Category, int>, order: seq<Category>,
                    totals': map<Category, int>)
    requires order == Seqs.Distinct(CategoriesOf(ps))
    requires forall c :: c in totals <==> c in order
    requires forall c :: c in totals ==> totals[c] == CategoryStock(ps, c)
    requires forall c :: c in totals' <==> c in totals || c == p.category
    requires forall c :: c in totals && c != p.category ==> totals'[c] == totals[c]
    requires totals'[p.category] == (if p.category in totals then totals[p.category] else 0) + p.stock
    ensures forall c :: c in totals' ==> totals'[c] == CategoryStock(ps + [p], c)
  {
    var c0 := p.category;
    AppendStock(ps, p);
    if c0 !in totals {
      AbsentCategoryStock(ps, c0);
    }
    forall c | c in totals' ensures totals'[c] == CategoryStock(ps + [p], c) {
      if c != c0 {
        assert c in totals && StockIfIn(c)(p) == 0;
      }
    }
  }

  /** A category no product has holds no stock. */
  lemma {:induction false} AbsentCategoryStock(ps: seq<Product>, c: Category)
    requires c !in Seqs.Distinct(CategoriesOf(ps))
    ensures CategoryStock(ps, c) == 0
  {
    forall i | 0 <= i < |ps| ensures StockIfIn(c)(ps[i]) == 0 {
      assert CategoriesOf(ps)[i] == ps[i].category;
    }
    Seqs.SumIntZero(ps, StockIfIn(c));
  }

  /** Appending one product extends the category list by its category, if new. */
  lemma AppendOrder(ps: seq<Product>, p: Product)
    ensures var d := Seqs.Distinct(CategoriesOf(ps));
      Seqs.Distinct(CategoriesOf(ps + [p])) == if p.category in d then d else d + [p.category]
  {
    var cats := CategoriesOf(ps + [p]);
    assert cats[..|cats| - 1] == CategoriesOf(ps);
  }

  /** Appending one product adds its stock to its own category only. */
  lemma AppendStock(ps: seq<Product>, p: Product)
    ensures forall c :: CategoryStock(ps + [p], c) == CategoryStock(ps, c) + StockIfIn(c)(p)
  {
    forall c ensures CategoryStock(ps + [p], c) == CategoryStock(ps, c) + StockIfIn(c)(p) {
      Seqs.SumIntConcat(ps, [p], StockIfIn(c));
    }
  }

  /** Every product's category has an entry. */
  predicate EntryForEachProduct(ps: seq<Product>, r: seq<CategoryEntry>) {
    forall i :: 0 <= i < |ps| ==> exists k :: 0 <= k < |r| && r[k].name == CategoryLabel(ps[i].category)
  }

  /** Every entry is the category of some product. */
  predicate ProductForEachEntry(ps: seq<Product>, r: seq<CategoryEntry>) {
    forall k :: 0 <= k < |r| ==> exists i :: 0 <= i < |ps| && r[k].name == CategoryLabel(ps[i].category)
  }

  predicate DistinctNames(r: seq<CategoryEntry>) {
    forall k, l :: 0 <= k < l < |r| ==> r[k].name != r[l].name
  }

  /** Each category present has exactly one entry and an absent one none;
      no products, no entries. */
  lemma CategoryTotalsExactly(ps: seq<Product>)
    ensures EntryForEachProduct(ps, CategoryTotals(ps))
    ensures ProductForEachEntry(ps, CategoryTotals(ps))
    ensures DistinctNames(CategoryTotals(ps))
    ensures ps == [] ==> CategoryTotals(ps) == []
  {
    EntryForEveryProduct(ps);
    ProductForEveryEntry(ps);
    EntriesDistinct(ps);
    if ps == [] {
      assert CategoriesOf(ps) == [];
    }
  }

  lemma EntryForEveryProduct(ps: seq<Product>)
    ensures EntryForEachProduct(ps, CategoryTotals(ps))
  {
    var cs := Seqs.Distinct(CategoriesOf(ps));
    var r := CategoryTotals(ps);
    forall i | 0 <= i < |ps| ensures exists k :: 0 <= k < |r| && r[k].name == CategoryLabel(ps[i].category) {
      assert CategoriesOf(ps)[i] == ps[i].category;
      var k :| 0 <= k < |cs| && cs[k] == ps[i].category;
      assert r[k].name == CategoryLabel(cs[k]);
    }
  }

  lemma ProductForEveryEntry(ps: seq<Product>)
    ensures ProductForEachEntry(ps, CategoryTotals(ps))
  {
    var cs := Seqs.Distinct(CategoriesOf(ps));
    var r := CategoryTotals(ps);
    forall k | 0 <= k < |r| ensures exists i :: 0 <= i < |ps| && r[k].name == CategoryLabel(ps[i].category) {
      var i :| 0 <= i < |ps| && CategoriesOf(ps)[i] == cs[k];
      assert r[k].name == CategoryLabel(ps[i].category);
    }
  }

  lemma EntriesDistinct(ps: seq<Product>)
    ensures DistinctNames(CategoryTotals(ps))
  {
    var cs := Seqs.Distinct(CategoriesOf(ps));
    var r := CategoryTotals(ps);
    forall k, l | 0 <= k < l < |r| ensures r[k].name != r[l].name {
      LabelInjective(cs[k], cs[l]);
    }
  }

  lemma LabelInjective(a: Category, b: Category)
    requires a != b
    ensures CategoryLabel(a) != CategoryLabel(b)
  {
    assert CategoryFromLabel(CategoryLabel(a)) == Wrappers.Some(a) by { Types.CategoriesClosed(); }
    assert CategoryFromLabel(CategoryLabel(b)) == Wrappers.Some(b) by { Types.CategoriesClosed(); }
  }

  function EntryValue(e: CategoryEntry): int { e.value }

  function CategoryStockFn(ps: seq<Product>): Category -> int {
    (c: Category) => CategoryStock(ps, c)
  }

  function IndicatorAt(x: Category, v: int): Category -> int {
    (c: Category) => if c == x then v else 0
  }

  lemma {:induction false} SumIndicatorDistinct(cs: seq<Category>, x: Category, v: int)
    requires forall i, j :: 0 <= i < j < |cs| ==> cs[i] != cs[j]
    ensures Seqs.SumInt(cs, IndicatorAt(x, v)) == if x in cs then v else 0
  {
    if cs != [] {
      SumIndicatorDistinct(cs[1..], x, v);
    }
  }

  /** Summing the per-category stock over a list of distinct categories that
      covers every product's category gives the total stock. */
  lemma {:induction false} CategorySumIsTotal(ps: seq<Product>, cs: seq<Category>)
    requires forall i, j :: 0 <= i < j < |cs| ==> cs[i] != cs[j]
    requires forall i :: 0 <= i < |ps| ==> ps[i].category in cs
    ensures Seqs.SumInt(cs, CategoryStockFn(ps)) == StockStore.TotalStock(ps)
  {
    if ps == [] {
      forall k | 0 <= k < |cs| ensures CategoryStockFn(ps)(cs[k]) == 0 {
      }
      Seqs.SumIntZero(cs, CategoryStockFn(ps));
    } else {
      var p, rest := ps[0], ps[1..];
      CategorySumIsTotal(rest, cs);
      forall k | 0 <= k < |cs|
        ensures CategoryStockFn(ps)(cs[k]) == CategoryStockFn(rest)(cs[k]) + IndicatorAt(p.category, p.stock)(cs[k])
      {
      }
      Seqs.SumIntPointwise(cs, CategoryStockFn(rest), IndicatorAt(p.category, p.stock), CategoryStockFn(ps));
      SumIndicatorDistinct(cs, p.category, p.stock);
    }
  }

  lemma {:induction false} SumEntries(r: seq<CategoryEntry>, cs: seq<Category>, ps: seq<Product>)
    requires |r| == |cs|
    requires forall k :: 0 <= k < |r| ==> r[k].value == CategoryStock(ps, cs[k])
    ensures Seqs.SumInt(r, EntryValue) == Seqs.SumInt(cs, CategoryStockFn(ps))
  {
    if r != [] {
      SumEntries(r[1..], cs[1..], ps);
    }
  }

  /** The chart's slices add up to the total stock. */
  lemma CategoryTotalsSumToStock(ps: seq<Product>)
    ensures Seqs.SumInt(CategoryTotals(ps), EntryValue) == StockStore.TotalStock(ps)
  {
    var cs := Seqs.Distinct(CategoriesOf(ps));
    forall i | 0 <= i < |ps| ensures ps[i].category in cs {
      assert CategoriesOf(ps)[i] == ps[i].category;
    }
    SumEntries(CategoryTotals(ps), cs, ps);
    CategorySumIsTotal(ps, cs);
  }

  /** Entries follow the order in which their categories first occur. */
  lemma CategoryTotalsFirstOccurrence(ps: seq<Product>)
    ensures var cs := Seqs.Distinct(CategoriesOf(ps));
      forall k, l :: 0 <= k < l < |cs| ==>
        Seqs.IndexOf(CategoriesOf(ps), cs[k]) < Seqs.IndexOf(CategoriesOf(ps), cs[l])
  {
    Seqs.DistinctFirstOccurrenceOrder(CategoriesOf(ps));
  }

  // ---------------------------------------------------------------------------
  // pie colours

  const COLORS: seq<string> := ["#8b5cf6", "#10b981", "#f97316", "#0ea5e9", "#d946ef", "#eab308"]

  /** The fill of the i-th slice. */
  function CellColor(i: nat): (c: string)
    ensures c in COLORS
  {
    COLORS[i % |COLORS|]
  }

  /** The first slice takes the first colour, the colours repeat every six
      slices, and any six consecutive slices have six different colours. */
  lemma CellColorsCycle(i: nat, j: nat)
    ensures CellColor(0) == COLORS[0]
    ensures CellColor(i + |COLORS|) == CellColor(i)
    ensures i < j < i + |COLORS| ==> CellColor(i) != CellColor(j)
  {
    assert (i + 6) % 6 == i % 6;
    if i < j < i + 6 {
      assert i % 6 != j % 6;
    }
  }
}
