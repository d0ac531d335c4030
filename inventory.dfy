/** The in-memory inventory store of src/lib/mockData.ts: the product list and
    the stock-movement ledger, the CRUD operations that reassign them, the
    movement operation that reconciles a product's quantity, and the queries
    over the current lists. Promises are left out: every operation is
    synchronous, and the clock reading `new Date().toISOString()` is a
    parameter `now`. */
module Inventory {
  import opened Wrappers
  import opened Seqs
  import opened Text

  datatype MovementType = In | Out

  /** A catalog record. `price` is a JavaScript number; `quantity` is kept
      integral. */
  datatype Product = Product(
    id: string, name: string, category: string, quantity: int, price: real,
    location: string, sku: string, lastUpdated: string)

  /** The argument of `addProduct`: a product without `id` and `lastUpdated`. */
  datatype ProductDraft = ProductDraft(
    name: string, category: string, quantity: int, price: real, location: string, sku: string)

  /** The argument of `updateProduct`: each field may be absent (`None`). */
  datatype ProductUpdate = ProductUpdate(
    name: Option<string>, category: Option<string>, quantity: Option<int>,
    price: Option<real>, location: Option<string>, sku: Option<string>)

  /** A ledger entry. `date` is the movement's instant in epoch milliseconds. */
  datatype StockMovement = StockMovement(
    id: string, productId: string, kind: MovementType, quantity: int, date: int, notes: string)

  /** The argument of `addStockMovement`: a movement without `id`. */
  datatype MovementDraft = MovementDraft(
    productId: string, kind: MovementType, quantity: int, date: int, notes: string)

  /** The argument of `filterProducts`. An empty category or location means the
      key was not given (both are falsy in the source); an absent bound takes
      its default. */
  datatype StockFilter = StockFilter(
    category: string, location: string, minStock: Option<int>, maxStock: Option<int>)

  /** `Number.MAX_SAFE_INTEGER`, the default upper stock bound. */
  const MaxSafeInteger: int := 9007199254740991

  const SeedProducts: seq<Product> := [
    Product("1", "Laptop Dell XPS 13", "Electronics", 15, 1299.99, "Warehouse A", "DELL-XPS13-001", "2025-05-08T14:30:00Z"),
    Product("2", "Office Chair Ergonomic", "Furniture", 25, 249.99, "Warehouse B", "FURN-CHAIR-002", "2025-05-07T10:15:00Z"),
    Product("3", "Wireless Headphones", "Electronics", 50, 89.99, "Warehouse A", "ELEC-HEAD-003", "2025-05-08T09:45:00Z"),
    Product("4", "Desk Lamp LED", "Home", 30, 34.99, "Warehouse C", "HOME-LAMP-004", "2025-05-06T16:20:00Z"),
    Product("5", "Smartphone Case", "Accessories", 100, 19.99, "Warehouse A", "ACC-CASE-005", "2025-05-08T11:10:00Z"),
    Product("6", "Wireless Mouse", "Electronics", 45, 29.99, "Warehouse B", "ELEC-MOUSE-006", "2025-05-07T14:50:00Z"),
    Product("7", "Notebook 200 Pages", "Stationery", 200, 5.99, "Warehouse C", "STAT-NOTE-007", "2025-05-05T10:30:00Z"),
    Product("8", "Water Bottle 1L", "Home", 75, 12.99, "Warehouse A", "HOME-BOTTLE-008", "2025-05-04T09:15:00Z"),
    Product("9", "External Hard Drive 1TB", "Electronics", 20, 79.99, "Warehouse B", "ELEC-HDD-009", "2025-05-07T15:40:00Z"),
    Product("10", "Office Desk", "Furniture", 10, 299.99, "Warehouse C", "FURN-DESK-010", "2025-05-03T13:20:00Z")
  ]

  /** The seed ledger; dates are 2025-05-08T14:30Z, 2025-05-07T15:45Z,
      2025-05-06T09:20Z, 2025-05-05T16:10Z and 2025-05-04T11:05Z. */
  const SeedMovements: seq<StockMovement> := [
    StockMovement("1", "1", In, 5, 1746714600000, "Regular resupply"),
    StockMovement("2", "2", Out, 2, 1746632700000, "Customer order #12345"),
    StockMovement("3", "3", In, 20, 1746523200000, "New shipment arrived"),
    StockMovement("4", "1", Out, 1, 1746461400000, "Internal use - IT department"),
    StockMovement("5", "5", In, 50, 1746356700000, "New stock")
  ]

  // ---------------------------------------------------------------------------
  // Looking products up

  predicate HasId(ps: seq<Product>, id: string) {
    exists i :: 0 <= i < |ps| && ps[i].id == id
  }

  /** `k` is the first position of a product with id `id`. */
  predicate FirstWithId(ps: seq<Product>, id: string, k: int) {
    0 <= k < |ps| && ps[k].id == id && forall j :: 0 <= j < k ==> ps[j].id != id
  }

  /** `k` is the last position before `n` of a product with id `id`. */
  predicate LastWithId(ps: seq<Product>, id: string, k: int, n: int) {
    0 <= k < n <= |ps| && ps[k].id == id && forall j :: k < j < n ==> ps[j].id != id
  }

  /** Position of the first product with id `id`, or -1 when there is none. */
  function IndexOfId(ps: seq<Product>, id: string): (k: int)
    ensures k == -1 || FirstWithId(ps, id, k)
    ensures k == -1 <==> !HasId(ps, id)
  {
    if ps == [] then -1
    else if ps[0].id == id then 0
    else
      var k := IndexOfId(ps[1..], id);
      assert HasId(ps, id) ==> HasId(ps[1..], id) by {
        if HasId(ps, id) {
          var i :| 0 <= i < |ps| && ps[i].id == id;
          assert ps[1..][i - 1].id == id;
        }
      }
      if k == -1 then -1
      else
        assert FirstWithId(ps, id, k + 1) by {
          forall j | 0 <= j < k + 1 ensures ps[j].id != id {
            if j > 0 { assert ps[j] == ps[1..][j - 1]; }
          }
        }
        k + 1
  }

  /** `products.find(p => p.id === id)`: the first product with that id. */
  function FindProduct(ps: seq<Product>, id: string): (r: Option<Product>)
    ensures r.None? <==> !HasId(ps, id)
    ensures r.Some? ==> FirstWithId(ps, id, IndexOfId(ps, id)) && r.value == ps[IndexOfId(ps, id)]
  {
    var k := IndexOfId(ps, id);
    if k == -1 then None else Some(ps[k])
  }

  /** The product at `k` is found when no earlier product has its id. */
  lemma FindFirst(ps: seq<Product>, id: string, k: int)
    requires FirstWithId(ps, id, k)
    ensures FindProduct(ps, id) == Some(ps[k])
  {
    var j := IndexOfId(ps, id);
    assert j != -1 by { assert ps[k].id == id; }
    assert !(j < k) && !(k < j);
  }

  /** Two lists with the same ids position by position, which agree on every
      product with id `x`, find the same product for `x`. */
  lemma {:induction false} FindAgrees(ps: seq<Product>, qs: seq<Product>, x: string)
    requires |ps| == |qs|
    requires forall i :: 0 <= i < |ps| ==> ps[i].id == qs[i].id
    requires forall i :: 0 <= i < |ps| && ps[i].id == x ==> ps[i] == qs[i]
    ensures IndexOfId(ps, x) == IndexOfId(qs, x)
    ensures FindProduct(ps, x) == FindProduct(qs, x)
  {
    if ps != [] && ps[0].id != x {
      FindAgrees(ps[1..], qs[1..], x);
    }
  }

  // ---------------------------------------------------------------------------
  // Adding, updating and deleting products

  /** The record `addProduct` appends to `ps`: id `(ps.length + 1).toString()`. */
  function NewProductRecord(ps: seq<Product>, d: ProductDraft, now: string): Product {
    Product(IntToString(|ps| + 1), d.name, d.category, d.quantity, d.price, d.location, d.sku, now)
  }

  /** `{...p, ...updates, lastUpdated: now}`. */
  function ApplyUpdate(p: Product, u: ProductUpdate, now: string): Product {
    Product(p.id, u.name.GetOr(p.name), u.category.GetOr(p.category), u.quantity.GetOr(p.quantity),
            u.price.GetOr(p.price), u.location.GetOr(p.location), u.sku.GetOr(p.sku), now)
  }

  /** The list `updateProduct` produces: every product with the id is merged. */
  function UpdateAll(ps: seq<Product>, id: string, u: ProductUpdate, now: string): (r: seq<Product>)
    ensures |r| == |ps|
    ensures forall i :: 0 <= i < |ps| ==>
              r[i] == if ps[i].id == id then ApplyUpdate(ps[i], u, now) else ps[i]
  {
    if ps == [] then []
    else [if ps[0].id == id then ApplyUpdate(ps[0], u, now) else ps[0]] + UpdateAll(ps[1..], id, u, now)
  }

  /** The list `deleteProduct` produces: every product with the id is dropped. */
  function WithoutId(ps: seq<Product>, id: string): seq<Product> {
    Filter(ps, (p: Product) => p.id != id)
  }

  /** An update that sets only the quantity. */
  function QuantityUpdate(q: int): ProductUpdate {
    ProductUpdate(None, None, Some(q), None, None, None)
  }

  // ---------------------------------------------------------------------------
  // Stock movements

  /** `+q` for an incoming movement, `-q` for an outgoing one. */
  function SignedQuantity(kind: MovementType, q: int): int {
    if kind == In then q else -q
  }

  /** The record `addStockMovement` appends to `ledger`: id `(ledger.length + 1).toString()`. */
  function NewMovement(ledger: seq<StockMovement>, d: MovementDraft): StockMovement {
    StockMovement(IntToString(|ledger| + 1), d.productId, d.kind, d.quantity, d.date, d.notes)
  }

  /** The quantity `addStockMovement(d)` gives product `p`: no clamping at zero. */
  function MovedQuantity(p: Product, d: MovementDraft): int {
    p.quantity + SignedQuantity(d.kind, d.quantity)
  }

  /** Setting only the quantity changes exactly the quantity and the time stamp. */
  lemma QuantityUpdateEffect(p: Product, q: int, now: string)
    ensures ApplyUpdate(p, QuantityUpdate(q), now) == p.(quantity := q, lastUpdated := now)
  {
  }

  /** The product list after `addStockMovement(d)`: without a product with
      `d.productId` the list is untouched; otherwise only products with that id
      change, and ids and length are kept. */
  function ApplyMovement(ps: seq<Product>, d: MovementDraft, now: string): (r: seq<Product>)
    ensures |r| == |ps|
    ensures forall i :: 0 <= i < |ps| ==> r[i].id == ps[i].id
    ensures forall i :: 0 <= i < |ps| && ps[i].id != d.productId ==> r[i] == ps[i]
    ensures !HasId(ps, d.productId) ==> r == ps
  {
    var found := FindProduct(ps, d.productId);
    if found.None? then ps
    else UpdateAll(ps, d.productId, QuantityUpdate(MovedQuantity(found.value, d)), now)
  }

  /** When a product with `d.productId` exists, every product with that id gets
      the first one's quantity plus the signed movement quantity, with no
      clamping, and the time stamp `now`; lookups of other ids are unaffected. */
  lemma {:induction false} ApplyMovementTarget(ps: seq<Product>, d: MovementDraft, now: string)
    requires HasId(ps, d.productId)
    ensures var p := FindProduct(ps, d.productId).value;
            var q := MovedQuantity(p, d);
            var r := ApplyMovement(ps, d, now);
            && (forall i :: 0 <= i < |ps| && ps[i].id == d.productId ==>
                  r[i] == ps[i].(quantity := q, lastUpdated := now))
            && FindProduct(r, d.productId) == Some(p.(quantity := q, lastUpdated := now))
  {
    var p := FindProduct(ps, d.productId).value;
    var q := MovedQuantity(p, d);
    var r := ApplyMovement(ps, d, now);
    assert r == UpdateAll(ps, d.productId, QuantityUpdate(q), now);
    forall i | 0 <= i < |ps| && ps[i].id == d.productId
      ensures r[i] == ps[i].(quantity := q, lastUpdated := now)
    {
      QuantityUpdateEffect(ps[i], q, now);
    }
    FindFirst(r, d.productId, IndexOfId(ps, d.productId));
  }

  /** A lookup of any other id sees the same product before and after a movement. */
  lemma ApplyMovementOthers(ps: seq<Product>, d: MovementDraft, now: string, x: string)
    requires x != d.productId
    ensures FindProduct(ApplyMovement(ps, d, now), x) == FindProduct(ps, x)
  {
    FindAgrees(ApplyMovement(ps, d, now), ps, x);
  }

  /** The state of the store: products and ledger. */
  datatype Snapshot = Snapshot(products: seq<Product>, movements: seq<StockMovement>)

  /** One `addStockMovement(d)` call at time `now`. */
  function Step(s: Snapshot, d: MovementDraft, now: string): Snapshot {
    Snapshot(ApplyMovement(s.products, d, now), s.movements + [NewMovement(s.movements, d)])
  }

  /** The calls `addStockMovement(ds[0])`, ..., `addStockMovement(ds[n-1])` in order. */
  function Replay(s: Snapshot, ds: seq<MovementDraft>, nows: seq<string>): (t: Snapshot)
    requires |nows| == |ds|
    ensures |t.products| == |s.products| && |t.movements| == |s.movements| + |ds|
    decreases |ds|
  {
    if ds == [] then s
    else Step(Replay(s, ds[..|ds| - 1], nows[..|ds| - 1]), ds[|ds| - 1], nows[|ds| - 1])
  }

  /** What movement `m` does to the quantity of the product with id `id`. */
  function Effect(m: StockMovement, id: string): int {
    if m.productId == id then SignedQuantity(m.kind, m.quantity) else 0
  }

  /** The signed sum of the quantities of the movements that reference `id`. */
  function NetChange(ms: seq<StockMovement>, id: string): int
    decreases |ms|
  {
    if ms == [] then 0
    else NetChange(ms[..|ms| - 1], id) + Effect(ms[|ms| - 1], id)
  }

  /** Past the prefix `base`, entry `k` of `ms` is the record made from draft
      `ds[k]` when appended to the entries before it. */
  predicate LedgerEntries(base: seq<StockMovement>, ms: seq<StockMovement>, ds: seq<MovementDraft>) {
    forall k :: 0 <= k < |ds| && |base| + k < |ms| ==> ms[|base| + k] == NewMovement(ms[..|base| + k], ds[k])
  }

  /** Appending the record made from the last draft of `ds` keeps the entries
      for the drafts before it and makes the entry for the last one. */
  lemma LedgerEntryAt(base: seq<StockMovement>, ms: seq<StockMovement>, ds: seq<MovementDraft>, k: int)
    requires |ds| >= 1 && |ms| == |base| + |ds| - 1
    requires LedgerEntries(base, ms, ds[..|ds| - 1])
    requires 0 <= k < |ds|
    ensures var ms' := ms + [NewMovement(ms, ds[|ds| - 1])];
            ms'[|base| + k] == NewMovement(ms'[..|base| + k], ds[k])
  {
    var ms' := ms + [NewMovement(ms, ds[|ds| - 1])];
    if k < |ds| - 1 {
      assert ms'[..|base| + k] == ms[..|base| + k];
      assert ds[..|ds| - 1][k] == ds[k];
    } else {
      assert ms'[..|base| + k] == ms;
    }
  }

  /** Appending the record made from the last draft of `ds` extends the entries
      for the drafts before it to the entries for all of `ds`. */
  lemma LedgerEntriesStep(base: seq<StockMovement>, ms: seq<StockMovement>, ds: seq<MovementDraft>)
    requires |ds| >= 1 && |ms| == |base| + |ds| - 1 && ms[..|base|] == base
    requires LedgerEntries(base, ms, ds[..|ds| - 1])
    ensures var ms' := ms + [NewMovement(ms, ds[|ds| - 1])];
            ms'[..|base|] == base && LedgerEntries(base, ms', ds)
  {
    var ms' := ms + [NewMovement(ms, ds[|ds| - 1])];
    assert ms'[..|base|] == ms[..|base|];
    forall k | 0 <= k < |ds| && |base| + k < |ms'|
      ensures ms'[|base| + k] == NewMovement(ms'[..|base| + k], ds[k])
    {
      LedgerEntryAt(base, ms, ds, k);
    }
  }

  /** Over any run of `addStockMovement` calls the ledger keeps its old entries and
      grows by one entry per call, each carrying its draft's fields and the id
      `(length + 1).toString()` of the ledger it was appended to. */
  lemma {:induction false} ReplayLedger(s: Snapshot, ds: seq<MovementDraft>, nows: seq<string>)
    requires |nows| == |ds|
    ensures var t := Replay(s, ds, nows);
            && t.movements[..|s.movements|] == s.movements
            && LedgerEntries(s.movements, t.movements, ds)
    decreases |ds|
  {
    if ds != [] {
      var u := Replay(s, ds[..|ds| - 1], nows[..|ds| - 1]);
      ReplayLedger(s, ds[..|ds| - 1], nows[..|ds| - 1]);
      LedgerEntriesStep(s.movements, u.movements, ds);
    }
  }

  /** One movement keeps a product with `id` present and moves the quantity of the
      first one by the movement's signed quantity when it references `id`, and
      by nothing otherwise. */
  lemma StepQuantity(u: Snapshot, d: MovementDraft, now: string, id: string)
    requires HasId(u.products, id)
    ensures var t := Step(u, d, now);
            && HasId(t.products, id)
            && FindProduct(t.products, id).value.quantity
               == FindProduct(u.products, id).value.quantity + Effect(NewMovement(u.movements, d), id)
  {
    var t := Step(u, d, now);
    var i :| 0 <= i < |u.products| && u.products[i].id == id;
    assert t.products[i].id == id;
    if d.productId == id {
      ApplyMovementTarget(u.products, d, now);
    } else {
      ApplyMovementOthers(u.products, d, now, id);
    }
  }

  /** The net change of a ledger segment grows by the movement appended to it. */
  lemma NetChangeAppend(ms: seq<StockMovement>, n0: nat, m: StockMovement, id: string)
    requires n0 <= |ms|
    ensures NetChange((ms + [m])[n0..], id) == NetChange(ms[n0..], id) + Effect(m, id)
  {
    var seg := (ms + [m])[n0..];
    assert seg[..|seg| - 1] == ms[n0..];
  }

  /** Conservation: over any run of `addStockMovement` calls, a product present at
      the start is still found, and its quantity is the starting quantity plus
      the signed sum of the movements recorded for it during the run. */
  lemma {:induction false} Conservation(s: Snapshot, ds: seq<MovementDraft>, nows: seq<string>, id: string)
    requires |nows| == |ds|
    requires HasId(s.products, id)
    ensures var t := Replay(s, ds, nows);
            && HasId(t.products, id)
            && FindProduct(t.products, id).value.quantity
               == FindProduct(s.products, id).value.quantity + NetChange(t.movements[|s.movements|..], id)
    decreases |ds|
  {
    if ds == [] {
      assert s.movements[|s.movements|..] == [];
    } else {
      var u := Replay(s, ds[..|ds| - 1], nows[..|ds| - 1]);
      Conservation(s, ds[..|ds| - 1], nows[..|ds| - 1], id);
      StepQuantity(u, ds[|ds| - 1], nows[|ds| - 1], id);
      NetChangeAppend(u.movements, |s.movements|, NewMovement(u.movements, ds[|ds| - 1]), id);
    }
  }

  /** An outgoing movement larger than the stock drives the quantity negative:
      the store does not clamp. */
  lemma OutgoingMayGoNegative(p: Product, d: MovementDraft, now: string)
    requires d.productId == p.id && d.kind == Out && d.quantity > p.quantity
    ensures ApplyMovement([p], d, now)[0].quantity < 0
  {
    assert FindProduct([p], d.productId) == Some(p);
  }

  // ---------------------------------------------------------------------------
  // Queries

  /** `getStockMovements(productId)`: with a (non-empty) id, the movements that
      reference it, in ledger order; otherwise a copy of the whole ledger. */
  function MovementsOf(ms: seq<StockMovement>, productId: string): (r: seq<StockMovement>)
    ensures productId == "" ==> r == ms
    ensures productId != "" ==> forall m :: m in r <==> m in ms && m.productId == productId
    ensures productId != "" ==> forall m :: multiset(r)[m] == if m.productId == productId then multiset(ms)[m] else 0
    ensures IsSubsequence(r, ms)
  {
    if productId == "" then
      SubsequenceReflexive(ms);
      ms
    else
      FilterCounts(ms, (m: StockMovement) => m.productId == productId);
      Filter(ms, (m: StockMovement) => m.productId == productId)
  }

  /** A product matches a lower-cased query when its name, sku or category
      contains it, ignoring case. The description is not searched. */
  predicate MatchesQuery(p: Product, lowerQuery: string) {
    Includes(ToLower(p.name), lowerQuery) || Includes(ToLower(p.sku), lowerQuery)
    || Includes(ToLower(p.category), lowerQuery)
  }

  /** `searchProducts(query)`: every product for an empty query, otherwise the
      products matching it, in list order. */
  function SearchProducts(ps: seq<Product>, query: string): (r: seq<Product>)
    ensures query == "" ==> r == ps
    ensures query != "" ==> forall p :: p in r <==> p in ps && MatchesQuery(p, ToLower(query))
    ensures query != "" ==> forall p :: multiset(r)[p] == if MatchesQuery(p, ToLower(query)) then multiset(ps)[p] else 0
    ensures IsSubsequence(r, ps)
  {
    if query == "" then
      SubsequenceReflexive(ps);
      ps
    else
      var lq := ToLower(query);
      FilterCounts(ps, (p: Product) => MatchesQuery(p, lq));
      Filter(ps, (p: Product) => MatchesQuery(p, lq))
  }

  predicate PassesFilter(p: Product, f: StockFilter) {
    && (f.category == "" || p.category == f.category)
    && (f.location == "" || p.location == f.location)
    && f.minStock.GetOr(0) <= p.quantity <= f.maxStock.GetOr(MaxSafeInteger)
  }

  /** `filterProducts(f)`: the products passing every given criterion, in list order. */
  function FilterProducts(ps: seq<Product>, f: StockFilter): (r: seq<Product>)
    ensures forall p :: p in r <==> p in ps && PassesFilter(p, f)
    ensures IsSubsequence(r, ps)
  {
    var byCategory := FilterWhen(ps, f.category != "", (p: Product) => p.category == f.category);
    var byLocation := FilterWhen(byCategory, f.location != "", (p: Product) => p.location == f.location);
    var lo, hi := f.minStock.GetOr(0), f.maxStock.GetOr(MaxSafeInteger);
    var r := Filter(byLocation, (p: Product) => lo <= p.quantity <= hi);
    SubsequenceTransitive(byLocation, byCategory, ps);
    SubsequenceTransitive(r, byLocation, ps);
    r
  }

  /** The filter keeps every copy of a product that passes and none of one that
      fails, so with the membership clause it determines the result's contents. */
  lemma FilterProductsCounts(ps: seq<Product>, f: StockFilter)
    ensures forall p :: multiset(FilterProducts(ps, f))[p] == if PassesFilter(p, f) then multiset(ps)[p] else 0
  {
    var byCategory := FilterWhen(ps, f.category != "", (p: Product) => p.category == f.category);
    var byLocation := FilterWhen(byCategory, f.location != "", (p: Product) => p.location == f.location);
    var lo, hi := f.minStock.GetOr(0), f.maxStock.GetOr(MaxSafeInteger);
    FilterWhenCounts(ps, f.category != "", (p: Product) => p.category == f.category);
    FilterWhenCounts(byCategory, f.location != "", (p: Product) => p.location == f.location);
    FilterCounts(byLocation, (p: Product) => lo <= p.quantity <= hi);
  }

  /** With no criterion given the bounds default to 0 and `MAX_SAFE_INTEGER`, so
      products with a negative quantity are filtered out. */
  lemma DefaultFilterExcludesNegative(ps: seq<Product>, p: Product)
    requires p in ps
    ensures p in FilterProducts(ps, StockFilter("", "", None, None)) <==> 0 <= p.quantity <= MaxSafeInteger
  {
  }

  /** After `deleteProduct(id)` the id is gone from lookups, searches and filters. */
  lemma {:induction false} DeletedProductIsGone(ps: seq<Product>, id: string, query: string, f: StockFilter)
    ensures FindProduct(WithoutId(ps, id), id).None?
    ensures forall p :: p in SearchProducts(WithoutId(ps, id), query) ==> p.id != id
    ensures forall p :: p in FilterProducts(WithoutId(ps, id), f) ==> p.id != id
  {
    var rest := WithoutId(ps, id);
    forall i | 0 <= i < |rest| ensures rest[i].id != id {
      assert rest[i] in rest;
    }
    SubsequenceMembers(SearchProducts(rest, query), rest);
  }

  /** `Array.from(new Set(ps.map(p => p.category)))`. */
  function CategoriesOf(ps: seq<Product>): (r: seq<string>)
    ensures NoDuplicates(r)
    ensures forall c :: c in r <==> exists p :: p in ps && p.category == c
  {
    var cs := seq(|ps|, i requires 0 <= i < |ps| => ps[i].category);
    assert forall c :: c in cs <==> exists p :: p in ps && p.category == c by {
      forall c | c in cs ensures exists p :: p in ps && p.category == c {
        var i :| 0 <= i < |cs| && cs[i] == c;
        assert ps[i] in ps;
      }
      forall c | exists p :: p in ps && p.category == c ensures c in cs {
        var p :| p in ps && p.category == c;
        var i :| 0 <= i < |ps| && ps[i] == p;
        assert cs[i] == c;
      }
    }
    Distinct(cs)
  }

  /** `Array.from(new Set(ps.map(p => p.location)))`. */
  function LocationsOf(ps: seq<Product>): (r: seq<string>)
    ensures NoDuplicates(r)
    ensures forall l :: l in r <==> exists p :: p in ps && p.location == l
  {
    var ls := seq(|ps|, i requires 0 <= i < |ps| => ps[i].location);
    assert forall l :: l in ls <==> exists p :: p in ps && p.location == l by {
      forall l | l in ls ensures exists p :: p in ps && p.location == l {
        var i :| 0 <= i < |ls| && ls[i] == l;
        assert ps[i] in ps;
      }
      forall l | exists p :: p in ps && p.location == l ensures l in ls {
        var p :| p in ps && p.location == l;
        var i :| 0 <= i < |ps| && ps[i] == p;
        assert ls[i] == l;
      }
    }
    Distinct(ls)
  }

  /** The exported `categories` and `locations` lists, taken from the seed catalog. */
  const Categories: seq<string> := CategoriesOf(SeedProducts)
  const Locations: seq<string> := LocationsOf(SeedProducts)

  /** After a delete, the next `addProduct` may reuse the id of a product still
      in the list: ids are derived from the list length, not kept unique. */
  lemma AddAfterDeleteMayReuseId(a: Product, b: Product, d: ProductDraft, now: string)
    requires a.id == "1" && b.id == "2"
    ensures var rest := WithoutId([a, b], "1");
            rest == [b] && NewProductRecord(rest, d, now).id == b.id
  {
    assert WithoutId([b], "1") == [b] by {
      assert [b][1..] == [];
    }
    assert WithoutId([a, b], "1") == WithoutId([b], "1") by {
      assert [a, b][1..] == [b];
    }
  }

  // ---------------------------------------------------------------------------
  // The store

  /** The module-level `products` and `stockMovements` variables. */
  class Store {
    var products: seq<Product>
    var movements: seq<StockMovement>

    constructor ()
      ensures products == SeedProducts && movements == SeedMovements
    {
      products := SeedProducts;
      movements := SeedMovements;
    }

    function State(): Snapshot
      reads this
    {
      Snapshot(products, movements)
    }

    /** `getProducts()`: a copy of the current list. */
    method GetProducts() returns (r: seq<Product>)
      ensures r == products
    {
      r := products;
    }

    /** `getProductById(id)`: the first product with the id, or nothing. */
    method GetProductById(id: string) returns (r: Option<Product>)
      ensures r == FindProduct(products, id)
      ensures r.None? <==> !HasId(products, id)
    {
      r := FindProduct(products, id);
    }

    /** `getStockMovements(productId)`. */
    method GetStockMovements(productId: string) returns (r: seq<StockMovement>)
      ensures r == MovementsOf(movements, productId)
      ensures IsSubsequence(r, movements)
    {
      r := MovementsOf(movements, productId);
    }

    /** `searchProducts(query)` over the current list. */
    method Search(query: string) returns (r: seq<Product>)
      ensures r == SearchProducts(products, query)
      ensures IsSubsequence(r, products)
    {
      r := SearchProducts(products, query);
    }

    /** `filterProducts(f)` over the current list. */
    method FilterList(f: StockFilter) returns (r: seq<Product>)
      ensures r == FilterProducts(products, f)
      ensures forall p :: p in r <==> p in products && PassesFilter(p, f)
    {
      r := FilterProducts(products, f);
    }

    /** `addProduct(d)`: appends one product, id `(length + 1).toString()`. */
    method AddProduct(d: ProductDraft, now: string) returns (p: Product)
      modifies this
      ensures p == NewProductRecord(old(products), d, now)
      ensures products == old(products) + [p]
      ensures movements == old(movements)
    {
      p := NewProductRecord(products, d, now);
      products := products + [p];
    }

    /** `updateProduct(id, u)`: merges `u` into every product with the id, keeps
        the length and every other product, and returns the last merged product,
        or nothing when no product has the id. */
    method UpdateProduct(id: string, u: ProductUpdate, now: string) returns (updated: Option<Product>)
      modifies this
      ensures products == UpdateAll(old(products), id, u, now)
      ensures movements == old(movements)
      ensures updated.None? <==> !HasId(old(products), id)
      ensures updated.Some? ==>
                exists k :: LastWithId(old(products), id, k, |products|) && updated.value == products[k]
    {
      var mapped: seq<Product> := [];
      updated := None;
      ghost var last := -1;
      var i := 0;
      while i < |products|
        invariant 0 <= i <= |products|
        invariant |mapped| == i
        invariant forall j :: 0 <= j < i ==>
                    mapped[j] == if products[j].id == id then ApplyUpdate(products[j], u, now) else products[j]
        invariant updated.None? <==> last == -1
        invariant last == -1 ==> forall j :: 0 <= j < i ==> products[j].id != id
        invariant last != -1 ==> LastWithId(products, id, last, i) && updated.value == mapped[last]
      {
        var p := products[i];
        if p.id == id {
          var q := ApplyUpdate(p, u, now);
          updated := Some(q);
          mapped := mapped + [q];
          last := i;
        } else {
          mapped := mapped + [p];
        }
        i := i + 1;
      }
      assert HasId(products, id) ==> last != -1;
      products := mapped;
      assert last != -1 ==> LastWithId(old(products), id, last, |products|) && updated.value == products[last];
    }

    /** `deleteProduct(id)`: true iff a product had the id; all of them are removed. */
    method DeleteProduct(id: string) returns (existed: bool)
      modifies this
      ensures existed <==> HasId(old(products), id)
      ensures products == WithoutId(old(products), id)
      ensures !HasId(products, id)
      ensures !existed ==> products == old(products)
      ensures movements == old(movements)
    {
      existed := FindProduct(products, id).Some?;
      if existed {
        products := WithoutId(products, id);
        forall i | 0 <= i < |products| ensures products[i].id != id {
          assert products[i] in products;
        }
      } else {
        FilterKeepsAll(products, (p: Product) => p.id != id);
      }
    }

    /** `addStockMovement(d)`: records the movement at the end of the ledger and,
        when the product exists, moves its quantity by the signed amount through
        `updateProduct`. */
    method AddStockMovement(d: MovementDraft, now: string) returns (m: StockMovement)
      modifies this
      ensures m == NewMovement(old(movements), d)
      ensures movements == old(movements) + [m]
      ensures products == ApplyMovement(old(products), d, now)
      ensures State() == Step(old(State()), d, now)
    {
      m := NewMovement(movements, d);
      movements := movements + [m];
      ghost var before := products;
      var found := FindProduct(products, d.productId);
      if found.Some? {
        var newQuantity := MovedQuantity(found.value, d);
        var _ := UpdateProduct(d.productId, QuantityUpdate(newQuantity), now);
      }
      assert products == ApplyMovement(before, d, now);
    }
  }
}
