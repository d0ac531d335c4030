/** The computations of the reports page (src/pages/Reports.tsx): quantity totals
    per category and per location, the total of units, the low-stock table and
    the CSV export text. Rendering, charts and the file download are not part
    of this model; the money figures are left out. */
module Reports {
  import opened Wrappers
  import opened Seqs
  import opened Text
  import opened Sorting
  import opened Inventory
  import opened Grouping

  // ---------------------------------------------------------------------------
  // Quantity totals

  /** `getCategoryData` / `getLocationData`: a `forEach` over the products fills a
      dictionary from key to summed quantity, then `Object.keys(...).map(...)`
      lists it in insertion order. A stored total of 0 is falsy, so the next
      product of that key assigns its quantity instead of adding it, which gives
      the same total. */
  method QuantityTotals(ps: seq<Product>, keyOf: Product -> string) returns (groups: seq<Group>)
    ensures groups == Grouped(ps, keyOf, QuantityOf)
  {
    var keys: seq<string> := [];
    var counts: map<string, int> := map[];
    var i := 0;
    while i < |ps|
      invariant 0 <= i <= |ps|
      invariant (keys, counts) == Tally(ps[..i], keyOf)
    {
      var p := ps[i];
      var k := keyOf(p);
      assert ps[..i + 1][..i] == ps[..i];
      if k in counts && counts[k] != 0 {
        counts := counts[k := counts[k] + p.quantity];
      } else {
        if k !in counts {
          keys := keys + [k];
        }
        counts := counts[k := p.quantity];
      }
      i := i + 1;
    }
    assert ps[..i] == ps;
    TallyListed(ps, keyOf);
    groups := Listing(keys, counts);
  }

  /** The key order and the dictionary after the `forEach` has visited `ps`. */
  function Tally(ps: seq<Product>, keyOf: Product -> string): (seq<string>, map<string, int>)
    decreases |ps|
  {
    if ps == [] then ([], map[])
    else
      var (keys, counts) := Tally(ps[..|ps| - 1], keyOf);
      var p := ps[|ps| - 1];
      var k := keyOf(p);
      if k in counts && counts[k] != 0 then (keys, counts[k := counts[k] + p.quantity])
      else (if k in counts then keys else keys + [k], counts[k := p.quantity])
  }

  /** `Object.keys(totals).map(key => ({ name: key, value: totals[key] }))`, the
      keys being listed in their insertion order `keys`. */
  function Listing(keys: seq<string>, counts: map<string, int>): (r: seq<Group>)
    requires forall k :: k in keys ==> k in counts
    ensures |r| == |keys| && forall j :: 0 <= j < |keys| ==> r[j] == Group(keys[j], counts[keys[j]])
  {
    if keys == [] then [] else [Group(keys[0], counts[keys[0]])] + Listing(keys[1..], counts)
  }

  /** The dictionary the loop builds is the one that adds every quantity to its
      key's entry: reading a stored 0 as missing changes nothing. */
  lemma {:induction false} TallyCounts(ps: seq<Product>, keyOf: Product -> string)
    ensures Tally(ps, keyOf).1 == Totals(ps, keyOf)
    decreases |ps|
  {
    if ps != [] {
      TallyCounts(ps[..|ps| - 1], keyOf);
    }
  }

  /** The keys are recorded in first-appearance order, each once. */
  lemma {:induction false} TallyKeys(ps: seq<Product>, keyOf: Product -> string)
    ensures Tally(ps, keyOf).0 == Distinct(KeysOf(ps, keyOf))
    decreases |ps|
  {
    if ps != [] {
      var q, z := ps[..|ps| - 1], ps[|ps| - 1];
      TallyKeys(q, keyOf);
      TallyCounts(q, keyOf);
      TotalsKeys(q, keyOf);
      assert ps == q + [z];
      DistinctKeysStep(q, z, keyOf);
    }
  }

  /** Listing the dictionary in the recorded key order gives the grouping by
      quantity. */
  lemma TallyListed(ps: seq<Product>, keyOf: Product -> string)
    ensures var (keys, counts) := Tally(ps, keyOf);
            && (forall k :: k in keys ==> k in counts)
            && Listing(keys, counts) == Grouped(ps, keyOf, QuantityOf)
  {
    TallyKeys(ps, keyOf);
    TallyCounts(ps, keyOf);
    TotalsKeys(ps, keyOf);
    TotalsValues(ps, keyOf);
  }

  /** The dictionary the `forEach` fills after the products `ps`, each product
      adding its quantity to its key's entry (a missing entry counting as 0). */
  function Totals(ps: seq<Product>, keyOf: Product -> string): map<string, int>
    decreases |ps|
  {
    if ps == [] then map[]
    else
      var m, z := Totals(ps[..|ps| - 1], keyOf), ps[|ps| - 1];
      m[keyOf(z) := (if keyOf(z) in m then m[keyOf(z)] else 0) + z.quantity]
  }

  /** The dictionary has an entry exactly for the keys of the products. */
  lemma {:induction false} TotalsKeys(ps: seq<Product>, keyOf: Product -> string)
    ensures forall k :: k in Totals(ps, keyOf) <==> k in KeysOf(ps, keyOf)
    decreases |ps|
  {
    if ps != [] {
      var q := ps[..|ps| - 1];
      TotalsKeys(q, keyOf);
      assert KeysOf(ps, keyOf) == KeysOf(q, keyOf) + [keyOf(ps[|ps| - 1])];
    }
  }

  /** Each entry holds the summed quantity of its key. */
  lemma {:induction false} TotalsValues(ps: seq<Product>, keyOf: Product -> string)
    ensures forall k :: k in Totals(ps, keyOf) ==> Totals(ps, keyOf)[k] == GroupTotal(ps, keyOf, QuantityOf, k)
    decreases |ps|
  {
    if ps != [] {
      var q := ps[..|ps| - 1];
      TotalsValues(q, keyOf);
      TotalsKeys(q, keyOf);
      forall k | k in Totals(ps, keyOf) ensures Totals(ps, keyOf)[k] == GroupTotal(ps, keyOf, QuantityOf, k) {
        if k !in Totals(q, keyOf) {
          GroupTotalAbsent(q, keyOf, QuantityOf, k);
        }
      }
    }
  }

  /** `getCategoryData()`. */
  method GetCategoryData(ps: seq<Product>) returns (groups: seq<Group>)
    ensures groups == Grouped(ps, CategoryOf, QuantityOf)
  {
    groups := QuantityTotals(ps, CategoryOf);
  }

  /** `getLocationData()`; the source names the fields `location` and `quantity`. */
  method GetLocationData(ps: seq<Product>) returns (groups: seq<Group>)
    ensures groups == Grouped(ps, LocationOf, QuantityOf)
  {
    groups := QuantityTotals(ps, LocationOf);
  }

  /** The "Total de Unidades" figure: `products.reduce((sum, p) => sum + p.quantity, 0)`. */
  function TotalUnits(ps: seq<Product>): (r: int)
    ensures (forall i :: 0 <= i < |ps| ==> ps[i].quantity >= 0) ==>
              && r >= 0
              && forall i :: 0 <= i < |ps| ==> ps[i].quantity <= r
  {
    TotalWeightBounds(ps, QuantityOf);
    TotalWeight(ps, QuantityOf)
  }

  /** The per-category values and the per-location values both add up to the
      total of units. */
  lemma TotalsAddUp(ps: seq<Product>)
    ensures SumValues(Grouped(ps, CategoryOf, QuantityOf)) == TotalUnits(ps)
    ensures SumValues(Grouped(ps, LocationOf, QuantityOf)) == TotalUnits(ps)
  {
    GroupedSum(ps, CategoryOf, QuantityOf);
    GroupedSum(ps, LocationOf, QuantityOf);
  }

  // ---------------------------------------------------------------------------
  // Low stock

  predicate IsLowStock(p: Product) {
    p.quantity < 10
  }

  function QuantityKey(p: Product): Key {
    Num(p.quantity as real)
  }

  /** `getLowStockProducts()`: the products with fewer than 10 units, sorted by
      increasing quantity (`(a, b) => a.quantity - b.quantity`). The result is a
      permutation of exactly that subset. */
  function LowStockProducts(ps: seq<Product>): (r: seq<Product>)
    ensures multiset(r) == multiset(Filter(ps, IsLowStock))
    ensures forall p :: p in r <==> p in ps && p.quantity < 10
    ensures SortedBy(r, QuantityKey, Asc)
  {
    var low := Filter(ps, IsLowStock);
    var r := Sort(low, QuantityKey, Asc);
    forall p ensures p in r <==> p in low {
      assert p in r <==> p in multiset(r);
      assert p in low <==> p in multiset(low);
    }
    r
  }

  // ---------------------------------------------------------------------------
  // CSV export

  const HeaderFields: seq<string> :=
    ["SKU", "Nombre", "Categoría", "Cantidad", "Precio", "Ubicación", "Última Actualización"]

  /** `headers.join(',')`. */
  const Header: string := Join(HeaderFields, ",")

  /** No header name contains a comma or a newline. */
  lemma HeaderFieldsPlain()
    ensures forall i :: 0 <= i < |HeaderFields| ==> ',' !in HeaderFields[i] && '\n' !in HeaderFields[i]
  {
  }

  /** The header line splits back into the seven column names and holds no newline. */
  lemma HeaderCells()
    ensures Split(Header, ',') == HeaderFields
    ensures '\n' !in Header
  {
    HeaderFieldsPlain();
    SplitJoin(HeaderFields, ',');
    JoinAvoids(HeaderFields, ",", '\n');
  }

  /** `s.replace(/"/g, '""')`: every double quote doubled. */
  function EscapeQuotes(s: string): (r: string)
    ensures forall c :: c in r ==> c in s || c == '"'
  {
    if s == [] then []
    else (if s[0] == '"' then "\"\"" else [s[0]]) + EscapeQuotes(s[1..])
  }

  /** The reading of an escaped field body: `""` stands for `"`; a lone `"` is malformed. */
  function Unescape(t: string): Option<string>
    decreases |t|
  {
    if t == [] then Some([])
    else if t[0] == '"' then
      if |t| >= 2 && t[1] == '"' then
        match Unescape(t[2..]) case Some(u) => Some("\"" + u) case None => None
      else None
    else
      match Unescape(t[1..]) case Some(u) => Some([t[0]] + u) case None => None
  }

  /** The name cell: `"` + name with quotes doubled + `"`. */
  function QuoteName(s: string): string {
    "\"" + EscapeQuotes(s) + "\""
  }

  /** The category and location cells: wrapped in quotes, nothing escaped. */
  function Wrap(s: string): (r: string)
    ensures |r| == |s| + 2 && r[1..|s| + 1] == s
  {
    "\"" + s + "\""
  }

  /** The reading of a quoted cell: outer quotes removed, then unescaped. */
  function Unquote(t: string): Option<string> {
    if |t| >= 2 && t[0] == '"' && t[|t| - 1] == '"' then Unescape(t[1..|t| - 1]) else None
  }

  lemma {:induction false} UnescapeEscape(s: string)
    ensures Unescape(EscapeQuotes(s)) == Some(s)
  {
    if s != [] {
      UnescapeEscape(s[1..]);
      var e := EscapeQuotes(s[1..]);
      if s[0] == '"' {
        assert ("\"\"" + e)[2..] == e;
      } else {
        assert ([s[0]] + e)[1..] == e;
      }
      assert s == [s[0]] + s[1..];
    }
  }

  /** Round trip: reading the name cell gives the name back. */
  lemma NameRoundTrip(s: string)
    ensures Unquote(QuoteName(s)) == Some(s)
  {
    var t := QuoteName(s);
    assert t[1..|t| - 1] == EscapeQuotes(s);
    UnescapeEscape(s);
  }

  /** Category and location are not escaped: a category holding a quote yields a
      cell that does not read back. */
  lemma CategoryQuoteNotEscaped()
    ensures Unquote(Wrap("a\"b")) == None
  {
    var t := Wrap("a\"b");
    assert t[1..|t| - 1] == "a\"b";
    assert "a\"b"[1..] == "\"b";
  }

  /** The seven cells of a product's row; `priceText` is JavaScript's rendering of
      the price number, which this model leaves abstract. */
  function RowFields(p: Product, priceText: real -> string): (r: seq<string>)
    ensures |r| == 7
  {
    [p.sku, QuoteName(p.name), Wrap(p.category), IntToString(p.quantity), priceText(p.price),
     Wrap(p.location), p.lastUpdated]
  }

  function Row(p: Product, priceText: real -> string): string {
    Join(RowFields(p, priceText), ",")
  }

  function Rows(ps: seq<Product>, priceText: real -> string): (r: seq<string>)
    ensures |r| == |ps| && forall i :: 0 <= i < |ps| ==> r[i] == Row(ps[i], priceText)
  {
    seq(|ps|, i requires 0 <= i < |ps| => Row(ps[i], priceText))
  }

  /** The CSV text of `handleExportCSV`: the header, then one row per product in
      list order, joined by newlines, with no trailing newline. */
  function Csv(ps: seq<Product>, priceText: real -> string): string {
    Join([Header] + Rows(ps, priceText), "\n")
  }

  /** Whatever the products hold, the first line of the CSV is the header. */
  lemma CsvFirstLine(ps: seq<Product>, priceText: real -> string)
    ensures Split(Csv(ps, priceText), '\n')[0] == Header
  {
    HeaderCells();
    SplitJoinFirst([Header] + Rows(ps, priceText), '\n');
  }

  /** An empty catalog exports the header alone. */
  lemma EmptyCsv(priceText: real -> string)
    ensures Csv([], priceText) == Header
  {
    assert [Header] + Rows([], priceText) == [Header];
  }

  /** No cell of the row contains `c`, given that the product's text fields and
      the price text do not, and `c` is neither a quote, a digit nor `-`. */
  predicate Avoids(p: Product, priceText: real -> string, c: char) {
    c !in p.sku && c !in p.name && c !in p.category && c !in priceText(p.price)
    && c !in p.location && c !in p.lastUpdated
  }

  lemma RowFieldsAvoid(p: Product, priceText: real -> string, c: char)
    requires Avoids(p, priceText, c) && c != '"' && c != '-' && !IsDigitChar(c)
    ensures forall i :: 0 <= i < 7 ==> c !in RowFields(p, priceText)[i]
  {
    var fs := RowFields(p, priceText);
    assert c !in fs[3] by {
      var q := IntToString(p.quantity);
      if c in q {
        var i :| 0 <= i < |q| && q[i] == c;
      }
    }
  }

  /** A row holds no character that none of its cells holds. */
  lemma RowAvoids(p: Product, priceText: real -> string, c: char)
    requires Avoids(p, priceText, c) && c != '"' && c != '-' && c != ',' && !IsDigitChar(c)
    ensures c !in Row(p, priceText)
  {
    RowFieldsAvoid(p, priceText, c);
    JoinAvoids(RowFields(p, priceText), ",", c);
  }

  lemma LinesAvoidNewline(ps: seq<Product>, priceText: real -> string)
    requires forall i :: 0 <= i < |ps| ==> Avoids(ps[i], priceText, '\n')
    ensures forall i :: 0 <= i < |ps| + 1 ==> '\n' !in ([Header] + Rows(ps, priceText))[i]
  {
    var rows := Rows(ps, priceText);
    HeaderCells();
    forall i | 0 <= i < |ps| ensures '\n' !in rows[i] {
      RowAvoids(ps[i], priceText, '\n');
    }
  }

  /** When no product text and no price text contains a newline, the CSV splits
      into exactly the header and one row per product, in list order. */
  lemma CsvLines(ps: seq<Product>, priceText: real -> string)
    requires forall i :: 0 <= i < |ps| ==> Avoids(ps[i], priceText, '\n')
    ensures Split(Csv(ps, priceText), '\n') == [Header] + Rows(ps, priceText)
    ensures |Split(Csv(ps, priceText), '\n')| == |ps| + 1
  {
    LinesAvoidNewline(ps, priceText);
    SplitJoin([Header] + Rows(ps, priceText), '\n');
  }

  /** When no cell text contains a comma, each row splits into its seven cells. */
  lemma RowHasSevenCells(p: Product, priceText: real -> string)
    requires Avoids(p, priceText, ',')
    ensures Split(Row(p, priceText), ',') == RowFields(p, priceText)
    ensures |Split(Row(p, priceText), ',')| == 7
  {
    RowFieldsAvoid(p, priceText, ',');
    SplitJoin(RowFields(p, priceText), ',');
  }
}
