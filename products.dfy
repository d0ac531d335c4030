/** The product list page (src/pages/Products.tsx): the column sort with its
    direction toggle, the search and category-filter buttons, the description
    preview and the stock badge. The page keeps the shown list, the sort field
    and the sort direction; every handler replaces them wholesale. */
module Products {
  import opened Wrappers
  import opened Seqs
  import opened Text
  import opened Sorting
  import opened Inventory
  import ProductDetail

  /** The columns whose header sorts the list. */
  datatype SortField = SkuField | NameField | QuantityField | PriceField

  function SkuKey(p: Product): Key { Str(p.sku) }
  function NameKey(p: Product): Key { Str(p.name) }
  function QuantityKey(p: Product): Key { Num(p.quantity as real) }
  function PriceKey(p: Product): Key { Num(p.price) }

  /** `a[field]`, the value the comparator compares. */
  function KeyOf(field: SortField): Product -> Key {
    match field
    case SkuField => SkuKey
    case NameField => NameKey
    case QuantityField => QuantityKey
    case PriceField => PriceKey
  }

  datatype ListView = ListView(products: seq<Product>, sortField: SortField, sortDirection: Direction)

  /** The page's initial state: sorted by name, ascending, the list being the
      loaded catalog (it is not sorted until a header is clicked). */
  function InitialView(catalog: seq<Product>): ListView {
    ListView(catalog, NameField, Asc)
  }

  /** `newDirection`: descending exactly when the clicked column is the current
      one and the current direction is ascending. */
  function NextDirection(v: ListView, field: SortField): (r: Direction)
    ensures r == Desc <==> field == v.sortField && v.sortDirection == Asc
    ensures field != v.sortField ==> r == Asc
  {
    if field == v.sortField && v.sortDirection == Asc then Desc else Asc
  }

  /** `sortProducts(field)`: the field and the new direction are stored and a
      copy of the list is sorted by that field in that direction. */
  function SortClick(v: ListView, field: SortField): (r: ListView)
    ensures r.sortField == field
    ensures r.sortDirection == NextDirection(v, field)
    ensures |r.products| == |v.products|
    ensures multiset(r.products) == multiset(v.products)
    ensures SortedBy(r.products, KeyOf(field), r.sortDirection)
  {
    var dir := NextDirection(v, field);
    ListView(Sort(v.products, KeyOf(field), dir), field, dir)
  }

  /** `n` clicks in a row on the same column header. */
  function Clicks(v: ListView, field: SortField, n: nat): ListView {
    if n == 0 then v else SortClick(Clicks(v, field, n - 1), field)
  }

  function Flip(d: Direction): Direction {
    if d == Asc then Desc else Asc
  }

  /** Repeated clicks on one header alternate the direction: each click after the
      first flips it. A first click on another column sorts ascending. */
  lemma {:induction false} ClicksAlternate(v: ListView, field: SortField, n: nat)
    requires n >= 1
    ensures Clicks(v, field, n + 1).sortDirection == Flip(Clicks(v, field, n).sortDirection)
    ensures Clicks(v, field, n + 2).sortDirection == Clicks(v, field, n).sortDirection
    ensures field != v.sortField ==> Clicks(v, field, 1).sortDirection == Asc
  {
    var u := Clicks(v, field, n);
    assert u.sortField == field;
    var w := Clicks(v, field, n + 1);
    assert w == SortClick(u, field);
    assert w.sortField == field;
  }

  /** In the sorted list every earlier product precedes every later one in the
      chosen order, not only adjacent ones. */
  lemma SortClickOrdered(v: ListView, field: SortField, i: int, j: int)
    requires 0 <= i < j < |SortClick(v, field).products|
    ensures var r := SortClick(v, field);
            InOrder(KeyOf(field)(r.products[i]), KeyOf(field)(r.products[j]), r.sortDirection)
  {
    var r := SortClick(v, field);
    SortedAllPairs(r.products, KeyOf(field), r.sortDirection, i, j);
  }

  /** `handleSearch`: the list becomes `searchProducts(query)` over the catalog;
      sort field and direction are kept, though the list is no longer sorted. */
  function OnSearch(v: ListView, catalog: seq<Product>, query: string): (r: ListView)
    ensures r.sortField == v.sortField && r.sortDirection == v.sortDirection
    ensures IsSubsequence(r.products, catalog)
    ensures query == "" ==> r.products == catalog
    ensures query != "" ==> forall p :: p in r.products <==> p in catalog && MatchesQuery(p, ToLower(query))
    ensures query != "" ==> forall p :: multiset(r.products)[p] == if MatchesQuery(p, ToLower(query)) then multiset(catalog)[p] else 0
  {
    v.(products := SearchProducts(catalog, query))
  }

  /** `handleFilter`: `filterProducts({ category })`. With no stock bounds given
      the default bounds apply, so a product with negative stock is hidden even
      when no category is chosen. */
  function OnFilter(v: ListView, catalog: seq<Product>, category: string): (r: ListView)
    ensures r.sortField == v.sortField && r.sortDirection == v.sortDirection
    ensures IsSubsequence(r.products, catalog)
    ensures forall p :: p in r.products <==>
              p in catalog && (category == "" || p.category == category) && 0 <= p.quantity <= MaxSafeInteger
  {
    v.(products := FilterProducts(catalog, StockFilter(category, "", None, None)))
  }

  /** `resetFilters`: query and category are cleared and the catalog reloaded. */
  function OnReset(v: ListView, catalog: seq<Product>): (r: (ListView, string, string))
    ensures r.0.products == catalog && r.1 == "" && r.2 == ""
    ensures r.0.sortField == v.sortField && r.0.sortDirection == v.sortDirection
  {
    (v.(products := catalog), "", "")
  }

  /** A search with the query the reset leaves shows what the reset showed. */
  lemma ResetThenSearch(v: ListView, catalog: seq<Product>)
    ensures var (w, query, _) := OnReset(v, catalog);
            OnSearch(w, catalog, query) == w
  {
  }

  // ---------------------------------------------------------------------------
  // Cells

  /** The description cell: an absent or empty description shows nothing, one of
      at most 40 characters shows whole, a longer one shows its first 40
      characters followed by "...". */
  function DescriptionPreview(d: Option<string>): (r: string)
    ensures d.None? ==> r == ""
    ensures d.Some? && |d.value| <= 40 ==> r == d.value
    ensures d.Some? && |d.value| > 40 ==> r == d.value[..40] + "..."
  {
    if d.None? || d.value == "" then ""
    else d.value[..if |d.value| < 40 then |d.value| else 40] + (if |d.value| > 40 then "..." else "")
  }

  /** The preview never exceeds 43 characters and always begins with the start of
      the description. */
  lemma PreviewBounds(d: Option<string>)
    ensures |DescriptionPreview(d)| <= 43
    ensures d.Some? ==> StartsWith(DescriptionPreview(d), d.value[..if |d.value| < 40 then |d.value| else 40])
  {
  }

  datatype Badge = Red | Yellow | Green

  /** The quantity badge's colour. */
  function BadgeOf(q: int): (r: Badge)
    ensures r == Red <==> q < 10
    ensures r == Yellow <==> 10 <= q < 30
    ensures r == Green <==> 30 <= q
  {
    if q < 10 then Red else if q < 30 then Yellow else Green
  }

  /** The list page's badge and the detail page's stock label use the same
      thresholds: red is "Bajo", yellow "Medio" and green "Alto". */
  lemma BadgeMatchesLevel(q: int)
    ensures BadgeOf(q) == Red <==> ProductDetail.LevelOf(q) == ProductDetail.Bajo
    ensures BadgeOf(q) == Yellow <==> ProductDetail.LevelOf(q) == ProductDetail.Medio
    ensures BadgeOf(q) == Green <==> ProductDetail.LevelOf(q) == ProductDetail.Alto
  {
    ProductDetail.LevelRanges(q);
  }
}
