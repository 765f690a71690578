/**
  The stock-overview page: the filtered and sorted product table, the list of
  category choices, the sale dialog, and CSV export and import.

  Number and date rendering (`String(price)`, `toLocaleDateString`) are
  parameters of the export, and `parseFloat` / `parseInt` are not modelled:
  an imported row keeps its price and stock as text.
*/
module StockOverview {
  import opened Wrappers
  import opened Types
  import opened Text
  import Seqs
  import StockStore

  // ---------------------------------------------------------------------------
  // filtering

  /** The status filter: "All", or one status. */
  datatype StatusFilter = AnyStatus | OnlyStatus(status: ProductStatus)

  /** The category filter's "no filter" value. */
  const ALL: string := "All"

  /** An empty query matches everything; otherwise the lower-cased query must
      occur in the lower-cased name or description. */
  predicate SearchMatches(p: Product, query: string) {
    || query == ""
    || Contains(ToLower(p.name), ToLower(query))
    || Contains(ToLower(p.description), ToLower(query))
  }

  predicate Shown(p: Product, sf: StatusFilter, cf: string, query: string) {
    && (sf == AnyStatus || p.status == sf.status)
    && (cf == ALL || CategoryLabel(p.category) == cf)
    && SearchMatches(p, query)
  }

  function ShownBy(sf: StatusFilter, cf: string, query: string): Product -> bool {
    (p: Product) => Shown(p, sf, cf, query)
  }

  /** `filteredProducts`: the products passing all three filters, in order. */
  function FilteredProducts(ps: seq<Product>, sf: StatusFilter, cf: string, query: string): (r: seq<Product>)
    ensures forall i :: 0 <= i < |r| ==> Shown(r[i], sf, cf, query)
    ensures forall x :: multiset(r)[x] == if Shown(x, sf, cf, query) then multiset(ps)[x] else 0
  {
    Seqs.FilterMultiplicity(ps, ShownBy(sf, cf, query));
    Seqs.Filter(ps, ShownBy(sf, cf, query))
  }

  /** A product is listed exactly when it passes the three filters, as often
      as it occurs, and the list keeps the products' order. */
  lemma FilteredProductsExactly(ps: seq<Product>, sf: StatusFilter, cf: string, query: string)
    ensures var r := FilteredProducts(ps, sf, cf, query);
      && (forall i :: 0 <= i < |r| ==> Shown(r[i], sf, cf, query))
      && (forall i :: 0 <= i < |ps| ==> (ps[i] in r <==> Shown(ps[i], sf, cf, query)))
      && (forall x :: multiset(r)[x] == if Shown(x, sf, cf, query) then multiset(ps)[x] else 0)
      && Seqs.IsSubsequence(r, ps)
  {
    var r := FilteredProducts(ps, sf, cf, query);
    Seqs.FilterIsSubsequence(ps, ShownBy(sf, cf, query));
    forall i | 0 <= i < |ps| && ps[i] in r ensures Shown(ps[i], sf, cf, query) {
      var k :| 0 <= k < |r| && r[k] == ps[i];
    }
  }

  /** With the filters at their defaults the list is the whole product list. */
  lemma DefaultFiltersKeepAll(ps: seq<Product>)
    ensures FilteredProducts(ps, AnyStatus, ALL, "") == ps
  {
    Seqs.FilterAllKept(ps, ShownBy(AnyStatus, ALL, ""));
  }

  // ---------------------------------------------------------------------------
  // sorting

  /** The columns the table can be sorted by. */
  datatype SortKey = ByName | ByCategory | ByPrice | ByStock | ByStatus

  datatype Direction = Asc | Desc

  /** `sortConfig`; a missing key is the unsorted table. */
  datatype SortConfig = SortConfig(key: Option<SortKey>, direction: Direction)

  const UNSORTED: SortConfig := SortConfig(None, Asc)

  /** `a[key] < b[key]`: strings compare character by character, the
      category and status by their labels, numbers numerically. */
  predicate KeyLess(k: SortKey, a: Product, b: Product) {
    match k
    case ByName => LexLess(a.name, b.name)
    case ByCategory => LexLess(CategoryLabel(a.category), CategoryLabel(b.category))
    case ByPrice => a.price < b.price
    case ByStock => a.stock < b.stock
    case ByStatus => LexLess(StatusLabel(a.status), StatusLabel(b.status))
  }

  /** Whether the comparator puts `a` strictly before `b`. */
  function Precedes(k: SortKey, d: Direction): (Product, Product) -> bool {
    (a: Product, b: Product) => if d == Asc then KeyLess(k, a, b) else KeyLess(k, b, a)
  }

  lemma KeyLessStrict(k: SortKey, a: Product, b: Product, c: Product)
    ensures KeyLess(k, a, b) ==> !KeyLess(k, b, a)
    ensures KeyLess(k, a, b) && KeyLess(k, b, c) ==> KeyLess(k, a, c)
  {
    match k
    case ByName =>
      LexLessAsymmetric(a.name, b.name);
      if LexLess(a.name, b.name) && LexLess(b.name, c.name) {
        LexLessTransitive(a.name, b.name, c.name);
      }
    case ByCategory =>
      var x, y, z := CategoryLabel(a.category), CategoryLabel(b.category), CategoryLabel(c.category);
      LexLessAsymmetric(x, y);
      if LexLess(x, y) && LexLess(y, z) {
        LexLessTransitive(x, y, z);
      }
    case ByPrice =>
    case ByStock =>
    case ByStatus =>
      var x, y, z := StatusLabel(a.status), StatusLabel(b.status), StatusLabel(c.status);
      LexLessAsymmetric(x, y);
      if LexLess(x, y) && LexLess(y, z) {
        LexLessTransitive(x, y, z);
      }
  }

  /** Every column and direction gives a consistent comparator. */
  lemma PrecedesStrictOrder(k: SortKey, d: Direction)
    ensures Seqs.StrictOrder(Precedes(k, d))
  {
    forall a: Product, b: Product, c: Product
      ensures Precedes(k, d)(a, b) ==> !Precedes(k, d)(b, a)
      ensures Precedes(k, d)(a, b) && Precedes(k, d)(b, c) ==> Precedes(k, d)(a, c)
    {
      KeyLessStrict(k, a, b, c);
      KeyLessStrict(k, c, b, a);
    }
  }

  /** `sortedProducts`: the filtered list itself when no key is chosen, else a
      sorted copy of it. */
  function SortedProducts(ps: seq<Product>, c: SortConfig): (r: seq<Product>)
    ensures multiset(r) == multiset(ps)
    ensures c.key.None? ==> r == ps
  {
    if c.key.None? then ps else Seqs.InsertionSort(ps, Precedes(c.key.value, c.direction))
  }

  /** The sorted table is a permutation of the filtered one in which no row
      has a smaller key than a row above it (ascending) or a larger one
      (descending). */
  lemma SortedProductsOrdered(ps: seq<Product>, c: SortConfig)
    requires c.key.Some?
    ensures var r := SortedProducts(ps, c);
      && multiset(r) == multiset(ps)
      && (c.direction == Asc ==> forall i, j :: 0 <= i < j < |r| ==> !KeyLess(c.key.value, r[j], r[i]))
      && (c.direction == Desc ==> forall i, j :: 0 <= i < j < |r| ==> !KeyLess(c.key.value, r[i], r[j]))
  {
    PrecedesStrictOrder(c.key.value, c.direction);
    Seqs.InsertionSortSorted(ps, Precedes(c.key.value, c.direction));
  }

  /** `handleSort`: descending only when the same column is chosen again while ascending. */
  function NextSort(c: SortConfig, key: SortKey): (r: SortConfig)
    ensures r.key == Some(key)
    ensures r.direction == Desc <==> c.key == Some(key) && c.direction == Asc
  {
    SortConfig(Some(key), if c.key == Some(key) && c.direction == Asc then Desc else Asc)
  }

  /** Choosing the same column repeatedly alternates the direction, and
      choosing a new column starts ascending. */
  lemma NextSortAlternates(c: SortConfig, key: SortKey, other: SortKey)
    requires other != key
    ensures NextSort(NextSort(c, key), key).direction != NextSort(c, key).direction
    ensures NextSort(NextSort(c, key), other).direction == Asc
  {
  }

  // ---------------------------------------------------------------------------
  // category choices and the sale dialog's limit

  function CategoryLabels(ps: seq<Product>): (r: seq<string>)
    ensures |r| == |ps| && forall i :: 0 <= i < |ps| ==> r[i] == CategoryLabel(ps[i].category)
  {
    seq(|ps|, i requires 0 <= i < |ps| => CategoryLabel(ps[i].category))
  }

  /** `categories`: "All", then each category present once. */
  function CategoryChoices(ps: seq<Product>): (r: seq<string>)
    ensures |r| >= 1 && r[0] == ALL
    ensures forall i :: 0 <= i < |ps| ==> CategoryLabel(ps[i].category) in r[1..]
    ensures forall i :: 1 <= i < |r| ==> exists j :: 0 <= j < |ps| && r[i] == CategoryLabel(ps[j].category)
  {
    var d := Seqs.Distinct(CategoryLabels(ps));
    assert forall i :: 0 <= i < |ps| ==> CategoryLabels(ps)[i] in d;
    [ALL] + d
  }

  /** The choices start with "All" and then hold each present category
      exactly once, in the order the categories first occur in the products. */
  lemma CategoryChoicesExactly(ps: seq<Product>)
    ensures var r := CategoryChoices(ps);
      && |r| >= 1 && r[0] == ALL
      && (forall i :: 0 <= i < |ps| ==> CategoryLabel(ps[i].category) in r[1..])
      && (forall i :: 1 <= i < |r| ==> r[i] in CategoryLabels(ps))
      && (forall i, j :: 1 <= i < j < |r| ==> r[i] != r[j])
      && (forall i, j :: 1 <= i < j < |r| ==>
            Seqs.IndexOf(CategoryLabels(ps), r[i]) < Seqs.IndexOf(CategoryLabels(ps), r[j]))
  {
    var labels := CategoryLabels(ps);
    var d := Seqs.Distinct(labels);
    var r := CategoryChoices(ps);
    assert r[1..] == d;
    assert forall i :: 1 <= i < |r| ==> r[i] == d[i - 1];
    Seqs.DistinctFirstOccurrenceOrder(labels);
  }

  /** A selected id counts only when it is a non-empty string. */
  predicate Selected(id: Option<string>) {
    id.Some? && id.value != ""
  }

  /** `maxQuantity`: the selected product's stock, or 1 when nothing (or a
      product no longer listed) is selected. */
  function MaxQuantity(ps: seq<Product>, selected: Option<string>): (r: int)
    ensures !Selected(selected) ==> r == 1
    ensures Selected(selected) && StockStore.ProductById(ps, selected.value).None? ==> r == 1
    ensures Selected(selected) && StockStore.ProductById(ps, selected.value).Some? ==>
              r == StockStore.ProductById(ps, selected.value).value.stock
  {
    if !Selected(selected) then 1
    else match StockStore.ProductById(ps, selected.value)
      case None => 1
      case Some(p) => p.stock
  }

  // ---------------------------------------------------------------------------
  // CSV export

  const HEADERS: seq<string> := ["Name", "Category", "Price", "Stock", "Status", "Description", "Last Updated"]

  /** The seven cells of a product's row, before quoting. */
  function ExportCells(p: Product, showPrice: real -> string, showDate: int -> string): (r: seq<string>)
    ensures |r| == |HEADERS|
  {
    [p.name, CategoryLabel(p.category), showPrice(p.price), IntText(p.stock),
     StatusLabel(p.status), p.description, showDate(p.lastUpdated)]
  }

  function Quote(cell: string): string {
    "\"" + cell + "\""
  }

  function QuoteAll(cells: seq<string>): (r: seq<string>)
    ensures |r| == |cells| && forall i :: 0 <= i < |cells| ==> r[i] == Quote(cells[i])
  {
    seq(|cells|, i requires 0 <= i < |cells| => Quote(cells[i]))
  }

  /** A cell that import reads back unchanged: no separator, quote or line break. */
  predicate CsvSafe(cell: string) {
    ',' !in cell && '"' !in cell && '\n' !in cell
  }

  /** A product whose exported row stays on one line: no cell holds a line break. */
  predicate LineSafe(p: Product, showPrice: real -> string, showDate: int -> string) {
    forall i :: 0 <= i < |HEADERS| ==> '\n' !in ExportCells(p, showPrice, showDate)[i]
  }

  /** A product whose four cells that import reads (name, category, price,
      stock) come back unchanged. The other three cells may hold anything. */
  predicate ReadsBack(p: Product, showPrice: real -> string, showDate: int -> string) {
    forall i :: 0 <= i < 4 ==> CsvSafe(ExportCells(p, showPrice, showDate)[i])
  }

  /** The category, stock and status cells never need escaping, so a row reads
      back exactly when its name and its price text are safe. */
  lemma FixedCellsSafe(p: Product, showPrice: real -> string, showDate: int -> string)
    ensures var cells := ExportCells(p, showPrice, showDate);
      CsvSafe(cells[1]) && CsvSafe(cells[3]) && CsvSafe(cells[4])
    ensures ReadsBack(p, showPrice, showDate) <==> CsvSafe(p.name) && CsvSafe(showPrice(p.price))
  {
    var cells := ExportCells(p, showPrice, showDate);
    NumeralSafe(IntText(p.stock));
    LabelsSafe(p.category, p.status);
    if CsvSafe(p.name) && CsvSafe(showPrice(p.price)) {
      forall i | 0 <= i < 4 ensures CsvSafe(cells[i]) {
      }
    }
    if ReadsBack(p, showPrice, showDate) {
      assert CsvSafe(cells[0]) && CsvSafe(cells[2]);
    }
  }

  lemma NumeralSafe(text: string)
    requires forall i :: 0 <= i < |text| ==> text[i] == '-' || '0' <= text[i] <= '9'
    ensures CsvSafe(text)
  {
    if !CsvSafe(text) {
      var k :| 0 <= k < |text| && text[k] in {',', '"', '\n'};
    }
  }

  lemma LabelsSafe(c: Category, s: ProductStatus)
    ensures CsvSafe(CategoryLabel(c)) && CsvSafe(StatusLabel(s))
  {
    CategoryLabelSafe(c);
    StatusLabelSafe(s);
  }

  lemma CategoryLabelSafe(c: Category)
    ensures CsvSafe(CategoryLabel(c))
  {
    var name := CategoryLabel(c);
    forall i | 0 <= i < |name| ensures 'A' <= name[i] <= 'z' {
      match c
      case Groceries => case Dairy => case Bakery => case Meat => case Produce =>
      case Beverages => case Snacks => case Household => case Other =>
    }
    LettersSafe(name);
  }

  lemma StatusLabelSafe(s: ProductStatus)
    ensures CsvSafe(StatusLabel(s))
  {
    var name := StatusLabel(s);
    forall i | 0 <= i < |name| ensures 'A' <= name[i] <= 'z' || name[i] == ' ' {
      match s
      case InStock => case LowStock => case OutOfStock =>
    }
    LettersSafe(name);
  }

  lemma LettersSafe(text: string)
    requires forall i :: 0 <= i < |text| ==> 'A' <= text[i] <= 'z' || text[i] == ' '
    ensures CsvSafe(text)
  {
    if !CsvSafe(text) {
      var k :| 0 <= k < |text| && text[k] in {',', '"', '\n'};
    }
  }

  /** The header line is one line and starts with a letter. */
  lemma HeaderLine()
    ensures var h := Join(HEADERS, ',');
      '\n' !in h && |h| > 0 && h[0] == 'N'
  {
    forall i | 0 <= i < |HEADERS| ensures '\n' !in HEADERS[i] {
    }
    JoinKeepsOut(HEADERS, ',', '\n');
    assert Join(HEADERS, ',') == HEADERS[0] + [','] + Join(HEADERS[1..], ',');
  }

  lemma {:induction false} JoinKeepsOut(parts: seq<string>, sep: char, ch: char)
    requires sep != ch
    requires forall i :: 0 <= i < |parts| ==> ch !in parts[i]
    ensures ch !in Join(parts, sep)
  {
    if |parts| > 1 {
      JoinKeepsOut(parts[1..], sep, ch);
    }
  }

  /** A row of quoted cells starts with a quote, and holds no line break when
      no cell does. */
  lemma QuotedLineShape(cells: seq<string>)
    requires |cells| > 0
    ensures var line := Join(QuoteAll(cells), ',');
      && |line| > 0 && line[0] == '"'
      && ((forall i :: 0 <= i < |cells| ==> '\n' !in cells[i]) ==> '\n' !in line)
  {
    var q := QuoteAll(cells);
    assert q[0] == "\"" + cells[0] + "\"";
    if forall i :: 0 <= i < |cells| ==> '\n' !in cells[i] {
      forall i | 0 <= i < |q| ensures '\n' !in q[i] {
        assert q[i] == "\"" + cells[i] + "\"";
      }
      JoinKeepsOut(q, ',', '\n');
    }
  }

  /** The export's line for one product: never blank, since it starts with a
      quote, and a single line when no cell holds a line break. */
  function ExportLine(p: Product, showPrice: real -> string, showDate: int -> string): (r: string)
    ensures |r| > 0 && r[0] == '"'
    ensures LineSafe(p, showPrice, showDate) ==> '\n' !in r
  {
    var cells := ExportCells(p, showPrice, showDate);
    QuotedLineShape(cells);
    Join(QuoteAll(cells), ',')
  }

  function ExportLines(ps: seq<Product>, showPrice: real -> string, showDate: int -> string): (r: seq<string>)
    ensures |r| == |ps| && forall i :: 0 <= i < |ps| ==> r[i] == ExportLine(ps[i], showPrice, showDate)
  {
    seq(|ps|, i requires 0 <= i < |ps| => ExportLine(ps[i], showPrice, showDate))
  }

  /** Joining the header line and the product lines with line breaks, then
      splitting at line breaks, gives those lines back when every row is one line. */
  lemma ExportSplitsIntoLines(ps: seq<Product>, showPrice: real -> string, showDate: int -> string)
    ensures var lines := [Join(HEADERS, ',')] + ExportLines(ps, showPrice, showDate);
      (forall i :: 0 <= i < |ps| ==> LineSafe(ps[i], showPrice, showDate)) ==>
        Split(Join(lines, '\n'), '\n') == lines
  {
    var lines := [Join(HEADERS, ',')] + ExportLines(ps, showPrice, showDate);
    if forall i :: 0 <= i < |ps| ==> LineSafe(ps[i], showPrice, showDate) {
      forall i | 0 <= i < |lines| ensures '\n' !in lines[i] {
        if i == 0 {
          HeaderLine();
        }
      }
      SplitJoin(lines, '\n');
    }
  }

  /** `exportToCSV`'s content: the header line, then one line per listed
      product, joined by line breaks; when no cell holds a line break, the
      text splits back into exactly those lines. */
  function ExportCsv(ps: seq<Product>, showPrice: real -> string, showDate: int -> string): (r: string)
    ensures (forall i :: 0 <= i < |ps| ==> LineSafe(ps[i], showPrice, showDate)) ==>
              Split(r, '\n') == [Join(HEADERS, ',')] + ExportLines(ps, showPrice, showDate)
  {
    ExportSplitsIntoLines(ps, showPrice, showDate);
    Join([Join(HEADERS, ',')] + ExportLines(ps, showPrice, showDate), '\n')
  }

  // ---------------------------------------------------------------------------
  // CSV import

  /** One parsed data row. Price and stock stay as text; the description is always empty. */
  datatype ImportRow = ImportRow(name: string, category: string, price: string, stock: string, description: string)

  /** A field as import reads it: trimmed, with every `"` removed. */
  function CleanField(v: string): string {
    RemoveAll(Trim(v), '"')
  }

  function CleanFields(vs: seq<string>): (r: seq<string>)
    ensures |r| == |vs| && forall i :: 0 <= i < |vs| ==> r[i] == CleanField(vs[i])
  {
    seq(|vs|, i requires 0 <= i < |vs| => CleanField(vs[i]))
  }

  /** A row from its cleaned values: fields 0 to 3, or nothing when there
      are fewer than four. */
  function RowFromValues(values: seq<string>): (r: Option<ImportRow>)
    ensures r.Some? <==> |values| >= 4
    ensures r.Some? ==> r.value == ImportRow(values[0], values[1], values[2], values[3], "")
  {
    if |values| < 4 then None
    else Some(ImportRow(values[0], values[1], values[2], values[3], ""))
  }

  /** A data row: its comma-separated values, cleaned. */
  function ParseRow(line: string): (r: Option<ImportRow>)
    ensures r.Some? <==> |Split(line, ',')| >= 4
    ensures r.Some? ==> r.value.description == ""
  {
    RowFromValues(CleanFields(Split(line, ',')))
  }

  /** The rows that parse, in order. */
  function ParseRows(lines: seq<string>): (r: seq<ImportRow>)
    ensures |r| <= |lines|
  {
    Seqs.FilterMap(lines, ParseRow)
  }

  lemma ParseRowsAll(lines: seq<string>)
    requires forall i :: 0 <= i < |lines| ==> ParseRow(lines[i]).Some?
    ensures |ParseRows(lines)| == |lines|
    ensures forall i :: 0 <= i < |lines| ==> ParseRows(lines)[i] == ParseRow(lines[i]).value
  {
    Seqs.FilterMapAll(lines, ParseRow);
  }

  /** Rows are parsed line by line: the rows of a file are those of its
      first lines followed by those of the rest. */
  lemma ParseRowsAppend(a: seq<string>, b: seq<string>)
    ensures ParseRows(a + b) == ParseRows(a) + ParseRows(b)
  {
    Seqs.FilterMapAppend(a, b, ParseRow);
  }

  /** A single line yields its row when it has four fields, and nothing
      otherwise; with `ParseRowsAppend` this fixes the rows of any file. */
  lemma ParseRowsOne(line: string)
    ensures ParseRows([line]) == if |Split(line, ',')| >= 4 then [ParseRow(line).value] else []
  {
    assert [line][1..] == [];
  }

  function NotBlank(line: string): bool {
    Trim(line) != ""
  }

  /** The lines of the file that are not only white space. */
  function NonBlankLines(text: string): seq<string> {
    Seqs.Filter(Split(text, '\n'), NotBlank)
  }

  /** What `importFromCSV` reads from a file: nothing when at most one
      non-blank line is present, else the rows after the header. */
  datatype CsvContent = HeaderOnly | DataRows(rows: seq<ImportRow>)

  function ParseCsv(text: string): (r: CsvContent)
    ensures r.HeaderOnly? <==> |NonBlankLines(text)| <= 1
    ensures r.DataRows? ==> |r.rows| < |NonBlankLines(text)|
    ensures r.DataRows? ==> r.rows == ParseRows(NonBlankLines(text)[1..])
  {
    var lines := NonBlankLines(text);
    if |lines| <= 1 then HeaderOnly else DataRows(ParseRows(lines[1..]))
  }

  /** What the import does with one row: update the first product with the
      same name, or add a new one. */
  datatype ImportAction = UpdateExisting(id: string, row: ImportRow) | AddNew(row: ImportRow)

  function HasName(name: string): Product -> bool {
    (p: Product) => p.name == name
  }

  function ActionFor(ps: seq<Product>, row: ImportRow): (a: ImportAction)
    ensures a.row == row
    ensures a.UpdateExisting? <==> exists i :: 0 <= i < |ps| && ps[i].name == row.name
    ensures a.UpdateExisting? ==>
              exists i :: 0 <= i < |ps| && ps[i].name == row.name && a.id == ps[i].id &&
                forall j :: 0 <= j < i ==> ps[j].name != row.name
  {
    match Seqs.Find(ps, HasName(row.name))
    case Some(p) => UpdateExisting(p.id, row)
    case None => AddNew(row)
  }

  lemma ActionForListed(ps: seq<Product>, row: ImportRow, i: nat)
    requires i < |ps| && ps[i].name == row.name
    ensures ActionFor(ps, row).UpdateExisting?
  {
  }

  function CountAdds(actions: seq<ImportAction>): nat {
    if actions == [] then 0 else (if actions[0].AddNew? then 1 else 0) + CountAdds(actions[1..])
  }

  /** `importFromCSV`'s loop: one action per row, each decided against the
      product list as it was when the import began, counting adds and
      updates. */
  method ImportRows(ps: seq<Product>, rows: seq<ImportRow>)
    returns (actions: seq<ImportAction>, addedCount: nat, updatedCount: nat)
    ensures |actions| == |rows|
    ensures forall i :: 0 <= i < |rows| ==> actions[i] == ActionFor(ps, rows[i])
    ensures addedCount == CountAdds(actions)
    ensures addedCount + updatedCount == |rows|
  {
    actions := [];
    addedCount, updatedCount := 0, 0;
    for k := 0 to |rows|
      invariant |actions| == k
      invariant forall i :: 0 <= i < k ==> actions[i] == ActionFor(ps, rows[i])
      invariant addedCount == CountAdds(actions)
      invariant addedCount + updatedCount == k
    {
      var action := ActionFor(ps, rows[k]);
      CountAddsAppend(actions, action);
      ghost var actions0 := actions;
      actions := actions + [action];
      assert forall i :: 0 <= i < k ==> actions[i] == actions0[i];
      if action.UpdateExisting? {
        updatedCount := updatedCount + 1;
      } else {
        addedCount := addedCount + 1;
      }
    }
  }

  lemma {:induction false} CountAddsAppend(actions: seq<ImportAction>, a: ImportAction)
    ensures CountAdds(actions + [a]) == CountAdds(actions) + (if a.AddNew? then 1 else 0)
  {
    if actions != [] {
      assert (actions + [a])[1..] == actions[1..] + [a];
      CountAddsAppend(actions[1..], a);
    }
  }

  /** The outcome of importing a file: nothing for a header-only file, else
      the actions and the two counts the completion message reports. */
  datatype ImportOutcome = NothingImported | Imported(actions: seq<ImportAction>, added: nat, updated: nat)

  method ImportCsv(ps: seq<Product>, text: string) returns (outcome: ImportOutcome)
    ensures outcome.NothingImported? <==> ParseCsv(text).HeaderOnly?
    ensures outcome.Imported? ==>
              var rows := ParseCsv(text).rows;
              && |outcome.actions| == |rows|
              && (forall i :: 0 <= i < |rows| ==> outcome.actions[i] == ActionFor(ps, rows[i]))
              && outcome.added + outcome.updated == |rows|
              && outcome.added == CountAdds(outcome.actions)
  {
    match ParseCsv(text)
    case HeaderOnly =>
      outcome := NothingImported;
    case DataRows(rows) =>
      var actions, added, updated := ImportRows(ps, rows);
      outcome := Imported(actions, added, updated);
  }

  // ---------------------------------------------------------------------------
  // export, then import

  /** The row import reads back from a product's exported line. */
  function RowOf(p: Product, showPrice: real -> string): ImportRow {
    ImportRow(p.name, CategoryLabel(p.category), showPrice(p.price), IntText(p.stock), "")
  }

  /** A quoted safe cell holds no separator and reads back as the cell. */
  lemma CleanQuoted(cell: string)
    requires CsvSafe(cell)
    ensures ',' !in Quote(cell) && CleanField(Quote(cell)) == cell
  {
    var q := Quote(cell);
    assert q == ['"'] + cell + ['"'];
    assert !IsSpace(q[0]) && !IsSpace(q[|q| - 1]);
    TrimUntouched(q);
    Unquote(cell, '"');
  }

  /** A line of four or more quoted cells parses to its first four cells when
      those are safe; later cells may hold commas and quotes. */
  lemma ParseQuotedLine(cells: seq<string>)
    requires |cells| >= 4
    requires forall i :: 0 <= i < 4 ==> CsvSafe(cells[i])
    ensures ParseRow(Join(QuoteAll(cells), ',')) == Some(ImportRow(cells[0], cells[1], cells[2], cells[3], ""))
  {
    var q := QuoteAll(cells);
    forall i | 0 <= i < 4 ensures ',' !in q[i] && CleanField(q[i]) == cells[i] {
      CleanQuoted(cells[i]);
    }
    SplitJoinPrefix(q, ',', 4);
    var pieces := Split(Join(q, ','), ',');
    var values := CleanFields(pieces);
    forall i | 0 <= i < 4 ensures values[i] == cells[i] {
      assert pieces[i] == pieces[..4][i] == q[i];
    }
  }

  lemma ParseExportLine(p: Product, showPrice: real -> string, showDate: int -> string)
    requires ReadsBack(p, showPrice, showDate)
    ensures ParseRow(ExportLine(p, showPrice, showDate)) == Some(RowOf(p, showPrice))
  {
    var cells := ExportCells(p, showPrice, showDate);
    var line := Join(QuoteAll(cells), ',');
    assert ExportLine(p, showPrice, showDate) == line;
    assert RowOf(p, showPrice) == ImportRow(cells[0], cells[1], cells[2], cells[3], "");
    ParseQuotedLine(cells);
  }

  /** Lines that each start with a visible character all survive the blank-line filter. */
  lemma VisibleLinesKept(lines: seq<string>)
    requires forall i :: 0 <= i < |lines| ==> |lines[i]| > 0 && !IsSpace(lines[i][0])
    ensures Seqs.Filter(lines, NotBlank) == lines
  {
    forall i | 0 <= i < |lines| ensures NotBlank(lines[i]) {
      TrimEmptyIffBlank(lines[i]);
    }
    Seqs.FilterAllKept(lines, NotBlank);
  }

  /** Every exported line has a visible first character, so import keeps them all. */
  lemma ExportLinesKept(ps: seq<Product>, showPrice: real -> string, showDate: int -> string)
    requires forall i :: 0 <= i < |ps| ==> LineSafe(ps[i], showPrice, showDate)
    ensures NonBlankLines(ExportCsv(ps, showPrice, showDate)) ==
              [Join(HEADERS, ',')] + ExportLines(ps, showPrice, showDate)
  {
    var body := ExportLines(ps, showPrice, showDate);
    HeaderLine();
    HeadedLinesKept(Join(HEADERS, ','), body);
  }

  /** A header line and quoted body lines all survive the blank-line filter. */
  lemma HeadedLinesKept(header: string, body: seq<string>)
    requires |header| > 0 && !IsSpace(header[0])
    requires forall i :: 0 <= i < |body| ==> |body[i]| > 0 && body[i][0] == '"'
    ensures Seqs.Filter([header] + body, NotBlank) == [header] + body
  {
    var lines := [header] + body;
    forall i | 0 <= i < |lines| ensures |lines[i]| > 0 && !IsSpace(lines[i][0]) {
      if i > 0 {
        assert lines[i] == body[i - 1];
      }
    }
    VisibleLinesKept(lines);
  }

  /** Exporting a non-empty list and importing the file reads back every
      product's name, category, price text and stock text, in order, provided
      no cell holds a line break and those four cells hold no comma or quote. */
  lemma ExportImportRoundTrip(ps: seq<Product>, showPrice: real -> string, showDate: int -> string)
    requires |ps| >= 1
    requires forall i :: 0 <= i < |ps| ==> LineSafe(ps[i], showPrice, showDate)
    requires forall i :: 0 <= i < |ps| ==> ReadsBack(ps[i], showPrice, showDate)
    ensures ParseCsv(ExportCsv(ps, showPrice, showDate)).DataRows?
    ensures var rows := ParseCsv(ExportCsv(ps, showPrice, showDate)).rows;
      |rows| == |ps| && forall i :: 0 <= i < |ps| ==> rows[i] == RowOf(ps[i], showPrice)
  {
    var text := ExportCsv(ps, showPrice, showDate);
    var body := ExportLines(ps, showPrice, showDate);
    ExportLinesKept(ps, showPrice, showDate);
    var lines := NonBlankLines(text);
    assert lines[1..] == body;
    assert ParseCsv(text) == DataRows(ParseRows(body));
    forall i | 0 <= i < |body| ensures ParseRow(body[i]) == Some(RowOf(ps[i], showPrice)) {
      ParseExportLine(ps[i], showPrice, showDate);
    }
    ParseRowsAll(body);
  }

  /** Re-importing an export of some of the products (the page exports its
      filtered list) updates a product for every row and adds none. */
  lemma ReimportAddsNothing(qs: seq<Product>, ps: seq<Product>, showPrice: real -> string, showDate: int -> string)
    requires |qs| >= 1 && multiset(qs) <= multiset(ps)
    requires forall i :: 0 <= i < |qs| ==> LineSafe(qs[i], showPrice, showDate)
    requires forall i :: 0 <= i < |qs| ==> ReadsBack(qs[i], showPrice, showDate)
    ensures ParseCsv(ExportCsv(qs, showPrice, showDate)).DataRows?
    ensures var rows := ParseCsv(ExportCsv(qs, showPrice, showDate)).rows;
      forall i :: 0 <= i < |rows| ==> ActionFor(ps, rows[i]).UpdateExisting?
  {
    ExportImportRoundTrip(qs, showPrice, showDate);
    var rows := ParseCsv(ExportCsv(qs, showPrice, showDate)).rows;
    forall i | 0 <= i < |rows| ensures ActionFor(ps, rows[i]).UpdateExisting? {
      assert rows[i] == RowOf(qs[i], showPrice);
      assert qs[i] in multiset(qs);
      assert qs[i] in ps;
      var j :| 0 <= j < |ps| && ps[j] == qs[i];
      ActionForListed(ps, rows[i], j);
    }
  }

  // ---------------------------------------------------------------------------
  // the page state

  class OverviewPage {
    var statusFilter: StatusFilter
    var categoryFilter: string
    var searchQuery: string
    var sortConfig: SortConfig
    var saleDialogOpen: bool
    var selectedProductId: Option<string>
    var saleQuantity: int
    const store: StockStore.Store

    constructor (store: StockStore.Store)
      ensures this.store == store
      ensures statusFilter == AnyStatus && categoryFilter == ALL && searchQuery == ""
      ensures sortConfig == UNSORTED
      ensures !saleDialogOpen && selectedProductId == None && saleQuantity == 1
    {
      this.store := store;
      statusFilter := AnyStatus;
      categoryFilter := ALL;
      searchQuery := "";
      sortConfig := UNSORTED;
      saleDialogOpen := false;
      selectedProductId := None;
      saleQuantity := 1;
    }

    /** The rows the table shows. */
    function Rows(): seq<Product>
      reads this, store
    {
      SortedProducts(FilteredProducts(store.products, statusFilter, categoryFilter, searchQuery), sortConfig)
    }

    /** `handleSort`. */
    method HandleSort(key: SortKey)
      modifies this
      ensures sortConfig == NextSort(old(sortConfig), key)
      ensures statusFilter == old(statusFilter) && categoryFilter == old(categoryFilter)
      ensures searchQuery == old(searchQuery)
      ensures saleDialogOpen == old(saleDialogOpen) && selectedProductId == old(selectedProductId)
      ensures saleQuantity == old(saleQuantity)
    {
      sortConfig := NextSort(sortConfig, key);
    }

    /** `resetFilters`: every filter and the sort back to their defaults, so
        the table lists every product in store order. */
    method ResetFilters()
      modifies this
      ensures statusFilter == AnyStatus && categoryFilter == ALL && searchQuery == ""
      ensures sortConfig == UNSORTED
      ensures saleDialogOpen == old(saleDialogOpen) && selectedProductId == old(selectedProductId)
      ensures saleQuantity == old(saleQuantity)
      ensures Rows() == store.products
    {
      statusFilter := AnyStatus;
      categoryFilter := ALL;
      searchQuery := "";
      sortConfig := UNSORTED;
      DefaultFiltersKeepAll(store.products);
    }

    /** `openSaleDialog`. */
    method OpenSaleDialog(productId: string)
      modifies this
      ensures selectedProductId == Some(productId) && saleDialogOpen
      ensures statusFilter == old(statusFilter) && categoryFilter == old(categoryFilter)
      ensures searchQuery == old(searchQuery) && sortConfig == old(sortConfig)
      ensures saleQuantity == old(saleQuantity)
    {
      selectedProductId := Some(productId);
      saleDialogOpen := true;
    }

    /** `handleRecordSale`: with a product selected, calls the store's
        `recordSale` with the selected id and the chosen quantity, then closes
        and resets the dialog whatever the outcome; otherwise nothing happens. */
    method HandleRecordSale(reply: StockStore.Reply<StockStore.CreatedSale>, now: int)
      returns (outcome: Option<StockStore.SaleOutcome>)
      modifies this, store
      ensures outcome.Some? <==> Selected(old(selectedProductId))
      ensures outcome.None? ==>
                && store.products == old(store.products) && store.sales == old(store.sales)
                && store.requests == old(store.requests)
                && selectedProductId == old(selectedProductId)
                && saleDialogOpen == old(saleDialogOpen) && saleQuantity == old(saleQuantity)
      ensures outcome.Some? ==> !saleDialogOpen && saleQuantity == 1 && selectedProductId == None
      ensures outcome.Some? ==>
                var id, q, found := old(selectedProductId).value, old(saleQuantity),
                                    StockStore.ProductById(old(store.products), old(selectedProductId).value);
                && (outcome.value.ProductNotFound? <==> found.None?)
                && (outcome.value.InsufficientStock? <==> found.Some? && found.value.stock < q)
                && (outcome.value.SaleFailed? <==> found.Some? && q <= found.value.stock && reply.Failed?)
                && (outcome.value.ProductNotFound? || outcome.value.InsufficientStock? ==>
                      store.requests == old(store.requests))
                && (outcome.value.SaleFailed? || outcome.value.SaleRecorded? ==>
                      store.requests == old(store.requests) + [StockStore.PostSale(id, q)])
                && (outcome.value.SaleRecorded? ==>
                      && reply.Ok?
                      && outcome.value.sale == StockStore.NewSale(found.value, q, reply.body, now)
                      && store.sales == old(store.sales) + [outcome.value.sale]
                      && store.products == StockStore.ApplySale(old(store.products), id, q))
                && (!outcome.value.SaleRecorded? ==>
                      store.products == old(store.products) && store.sales == old(store.sales))
      ensures statusFilter == old(statusFilter) && categoryFilter == old(categoryFilter)
      ensures searchQuery == old(searchQuery) && sortConfig == old(sortConfig)
    {
      if Selected(selectedProductId) {
        var id, quantity := selectedProductId.value, saleQuantity;
        var result := store.RecordSale(id, quantity, reply, now);
        outcome := Some(result);
        saleDialogOpen := false;
        saleQuantity := 1;
        selectedProductId := None;
      } else {
        outcome := None;
      }
    }

    /** The text `exportToCSV` writes: the export of the filtered table (not
        sorted), which splits back into the header and one line per filtered
        product when no cell holds a line break. */
    function ExportText(showPrice: real -> string, showDate: int -> string): (r: string)
      reads this, store
      ensures var listed := FilteredProducts(store.products, statusFilter, categoryFilter, searchQuery);
        (forall i :: 0 <= i < |listed| ==> LineSafe(listed[i], showPrice, showDate)) ==>
          && Split(r, '\n') == [Join(HEADERS, ',')] + ExportLines(listed, showPrice, showDate)
          && |Split(r, '\n')| == |listed| + 1
    {
      ExportCsv(FilteredProducts(store.products, statusFilter, categoryFilter, searchQuery), showPrice, showDate)
    }
  }
}
