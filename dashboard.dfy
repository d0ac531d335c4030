/** The statistics of the dashboard page (src/pages/Dashboard.tsx), computed from
    the product list and the ledger the page loaded: the count of low-stock
    products, the products per category, the five most recent movements and the
    count of incoming movements. The total of items is `Reports.TotalUnits`,
    the same sum the reports page shows. Charts and mock trend data are not part
    of this model. */
module Dashboard {
  import opened Seqs
  import opened Sorting
  import opened Inventory
  import opened Grouping
  import opened Reports

  /** `lowStockItems`: `products.filter(p => p.quantity < 10).length`. It is the
      number of rows of the reports page's low-stock table. */
  function LowStockCount(ps: seq<Product>): (r: nat)
    ensures r <= |ps|
    ensures r == |LowStockProducts(ps)|
  {
    var r := |Filter(ps, IsLowStock)|;
    assert |LowStockProducts(ps)| == |multiset(LowStockProducts(ps))|;
    r
  }

  /** `categoryData`: the reduce whose accumulator list is searched with `find`
      for an entry named after the product's category; a found entry's value is
      incremented in place, otherwise `{ name, value: 1 }` is pushed. */
  method CategoryCounts(ps: seq<Product>) returns (acc: seq<Group>)
    ensures acc == Grouped(ps, CategoryOf, One)
  {
    acc := [];
    var i := 0;
    while i < |ps|
      invariant 0 <= i <= |ps|
      invariant acc == Accumulate(ps[..i], CategoryOf, One)
    {
      var p := ps[i];
      var j := 0;
      while j < |acc| && acc[j].name != p.category
        invariant 0 <= j <= |acc|
        invariant forall t :: 0 <= t < j ==> acc[t].name != p.category
      {
        j := j + 1;
      }
      assert ps[..i + 1] == ps[..i] + [p];
      AccumulateAppend(ps[..i], p, CategoryOf, One);
      if j < |acc| {
        AddToAt(acc, p.category, 1, j);
        acc := acc[j := Group(acc[j].name, acc[j].value + 1)];
      } else {
        AddToAbsent(acc, p.category, 1);
        acc := acc + [Group(p.category, 1)];
      }
      i := i + 1;
    }
    assert ps[..i] == ps;
    AccumulateIsGrouped(ps, CategoryOf, One);
  }

  /** The per-category counts add up to `totalProducts`, the length of the list. */
  lemma CategoryCountsSum(ps: seq<Product>)
    ensures SumValues(Grouped(ps, CategoryOf, One)) == |ps|
  {
    GroupedSum(ps, CategoryOf, One);
    TotalOneIsLength(ps);
  }

  function DateKey(m: StockMovement): Key {
    Num(m.date as real)
  }

  /** `recentMovements`: a copy of the ledger sorted by date, latest first, cut
      to its first five entries. */
  function RecentMovements(ms: seq<StockMovement>): (r: seq<StockMovement>)
    ensures |r| == if |ms| < 5 then |ms| else 5
    ensures multiset(r) <= multiset(ms)
    ensures SortedBy(r, DateKey, Desc)
  {
    var s := Sort(ms, DateKey, Desc);
    var n := if |ms| < 5 then |ms| else 5;
    assert s == s[..n] + s[n..];
    assert multiset(s) == multiset(s[..n]) + multiset(s[n..]);
    s[..n]
  }

  /** No movement left out of the recent list is later than one kept in it. */
  lemma RecentAreLatest(ms: seq<StockMovement>, x: StockMovement, y: StockMovement)
    requires x in RecentMovements(ms)
    requires multiset(RecentMovements(ms))[y] < multiset(ms)[y]
    ensures y.date <= x.date
  {
    var s := Sort(ms, DateKey, Desc);
    var n := if |ms| < 5 then |ms| else 5;
    assert s == s[..n] + s[n..];
    assert multiset(s) == multiset(s[..n]) + multiset(s[n..]);
    assert y in multiset(s[n..]);
    PrefixBeforeRest(s, DateKey, Desc, n, x, y);
  }

  predicate IsIncoming(m: StockMovement) {
    m.kind == In
  }

  predicate IsOutgoing(m: StockMovement) {
    m.kind == Out
  }

  /** The "Entradas Recientes" figure: `movements.filter(m => m.type === 'in').length`. */
  function IncomingCount(ms: seq<StockMovement>): (r: nat)
    ensures r <= |ms|
  {
    |Filter(ms, IsIncoming)|
  }

  /** Every movement is incoming or outgoing, so the incoming figure and the count
      of outgoing movements add up to the length of the ledger. */
  lemma IncomingAndOutgoing(ms: seq<StockMovement>)
    ensures IncomingCount(ms) + |Filter(ms, IsOutgoing)| == |ms|
  {
    FilterPartition(ms, IsIncoming, IsOutgoing);
  }

  /** With the seed ledger the figure is 3: movements 1, 3 and 5 are incoming. */
  lemma SeedIncomingCount()
    ensures IncomingCount(SeedMovements) == 3
  {
    var ms := SeedMovements;
    assert ms[1..][1..][1..][1..][1..] == [];
  }
}
