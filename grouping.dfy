/** Grouping of products by a string key, as the report and dashboard pages do:
    one entry per distinct key, in first-appearance order, carrying the sum of a
    per-product weight over the products with that key. `getCategoryData` and
    `getLocationData` weigh each product by its quantity; the dashboard's
    `categoryData` weighs each product by 1. */
module Grouping {
  import opened Seqs
  import opened Inventory

  /** A chart entry: `{ name, value }`. */
  datatype Group = Group(name: string, value: int)

  function CategoryOf(p: Product): string { p.category }
  function LocationOf(p: Product): string { p.location }
  function QuantityOf(p: Product): int { p.quantity }
  function One(p: Product): int { 1 }

  /** `ps.map(keyOf)`. */
  function KeysOf(ps: seq<Product>, keyOf: Product -> string): (r: seq<string>)
    ensures |r| == |ps|
    ensures forall i :: 0 <= i < |ps| ==> r[i] == keyOf(ps[i])
    decreases |ps|
  {
    if ps == [] then [] else KeysOf(ps[..|ps| - 1], keyOf) + [keyOf(ps[|ps| - 1])]
  }

  /** A key occurs among the keys exactly when some product has it. */
  lemma KeysOfMembers(ps: seq<Product>, keyOf: Product -> string, k: string)
    ensures k in KeysOf(ps, keyOf) <==> exists i :: 0 <= i < |ps| && keyOf(ps[i]) == k
  {
    var ks := KeysOf(ps, keyOf);
    if k in ks {
      var i :| 0 <= i < |ks| && ks[i] == k;
      assert keyOf(ps[i]) == k;
    }
  }

  /** The sum of the weights of the products whose key is `k`. */
  function GroupTotal(ps: seq<Product>, keyOf: Product -> string, weight: Product -> int, k: string): int
    decreases |ps|
  {
    if ps == [] then 0
    else GroupTotal(ps[..|ps| - 1], keyOf, weight, k) + (if keyOf(ps[|ps| - 1]) == k then weight(ps[|ps| - 1]) else 0)
  }

  /** The sum of all weights. */
  function TotalWeight(ps: seq<Product>, weight: Product -> int): int
    decreases |ps|
  {
    if ps == [] then 0 else TotalWeight(ps[..|ps| - 1], weight) + weight(ps[|ps| - 1])
  }

  /** One entry per key of `keys`, carrying that key's total. */
  function GroupsFor(keys: seq<string>, ps: seq<Product>, keyOf: Product -> string, weight: Product -> int): (r: seq<Group>)
    ensures |r| == |keys|
    ensures forall j :: 0 <= j < |keys| ==> r[j] == Group(keys[j], GroupTotal(ps, keyOf, weight, keys[j]))
  {
    if keys == [] then []
    else [Group(keys[0], GroupTotal(ps, keyOf, weight, keys[0]))] + GroupsFor(keys[1..], ps, keyOf, weight)
  }

  /** The grouping of `ps`: one entry per distinct key, in first-appearance order. */
  function Grouped(ps: seq<Product>, keyOf: Product -> string, weight: Product -> int): seq<Group> {
    GroupsFor(Distinct(KeysOf(ps, keyOf)), ps, keyOf, weight)
  }

  /** The sum of the entries' values. */
  function SumValues(gs: seq<Group>): int {
    if gs == [] then 0 else gs[0].value + SumValues(gs[1..])
  }

  function Names(gs: seq<Group>): (r: seq<string>)
    ensures |r| == |gs| && forall j :: 0 <= j < |gs| ==> r[j] == gs[j].name
  {
    if gs == [] then [] else [gs[0].name] + Names(gs[1..])
  }

  // ---------------------------------------------------------------------------
  // Properties of the grouping

  /** The entries' names are the distinct keys of the products, each once, in
      the order of their first appearance. */
  lemma GroupedNames(ps: seq<Product>, keyOf: Product -> string, weight: Product -> int)
    ensures var ns := Names(Grouped(ps, keyOf, weight));
            && NoDuplicates(ns)
            && (forall k :: k in ns <==> exists i :: 0 <= i < |ps| && keyOf(ps[i]) == k)
            && InFirstAppearanceOrder(KeysOf(ps, keyOf), ns)
  {
    var ns := Names(Grouped(ps, keyOf, weight));
    var d := Distinct(KeysOf(ps, keyOf));
    assert ns == d;
    DistinctOrder(KeysOf(ps, keyOf));
    forall k ensures k in ns <==> exists i :: 0 <= i < |ps| && keyOf(ps[i]) == k {
      KeysOfMembers(ps, keyOf, k);
    }
  }

  /** The distinct keys after one more product: its key is appended when new. */
  lemma DistinctKeysStep(ps: seq<Product>, z: Product, keyOf: Product -> string)
    ensures var d := Distinct(KeysOf(ps, keyOf));
            Distinct(KeysOf(ps + [z], keyOf)) == if keyOf(z) in d then d else d + [keyOf(z)]
  {
    var ks := KeysOf(ps + [z], keyOf);
    assert (ps + [z])[..|ps|] == ps;
    assert ks[..|ks| - 1] == KeysOf(ps, keyOf);
  }

  lemma OldKeyDistinct(ps: seq<Product>, z: Product, keyOf: Product -> string)
    requires keyOf(z) in Distinct(KeysOf(ps, keyOf))
    ensures Distinct(KeysOf(ps + [z], keyOf)) == Distinct(KeysOf(ps, keyOf))
  {
    DistinctKeysStep(ps, z, keyOf);
  }

  lemma NewKeyDistinct(ps: seq<Product>, z: Product, keyOf: Product -> string)
    requires keyOf(z) !in Distinct(KeysOf(ps, keyOf))
    ensures Distinct(KeysOf(ps + [z], keyOf)) == Distinct(KeysOf(ps, keyOf)) + [keyOf(z)]
    ensures keyOf(z) !in KeysOf(ps, keyOf)
  {
    DistinctKeysStep(ps, z, keyOf);
  }

  /** A key no product has totals to zero. */
  lemma {:induction false} GroupTotalAbsent(ps: seq<Product>, keyOf: Product -> string, weight: Product -> int, k: string)
    requires k !in KeysOf(ps, keyOf)
    ensures GroupTotal(ps, keyOf, weight, k) == 0
    decreases |ps|
  {
    if ps != [] {
      var p := ps[..|ps| - 1];
      assert KeysOf(ps, keyOf) == KeysOf(p, keyOf) + [keyOf(ps[|ps| - 1])];
      GroupTotalAbsent(p, keyOf, weight, k);
    }
  }

  /** Appending a product `z` adds its weight to its own key's total only. */
  lemma GroupTotalAppend(ps: seq<Product>, z: Product, keyOf: Product -> string, weight: Product -> int, k: string)
    ensures GroupTotal(ps + [z], keyOf, weight, k)
            == GroupTotal(ps, keyOf, weight, k) + (if keyOf(z) == k then weight(z) else 0)
  {
    assert (ps + [z])[..|ps|] == ps;
  }

  /** Over distinct keys, appending `z` raises the sum of the totals by its weight
      exactly when its key is one of them. */
  lemma {:induction false} SumGroupsAppend(keys: seq<string>, ps: seq<Product>, z: Product,
                                           keyOf: Product -> string, weight: Product -> int)
    requires NoDuplicates(keys)
    ensures SumValues(GroupsFor(keys, ps + [z], keyOf, weight))
            == SumValues(GroupsFor(keys, ps, keyOf, weight)) + (if keyOf(z) in keys then weight(z) else 0)
  {
    if keys != [] {
      SumGroupsAppend(keys[1..], ps, z, keyOf, weight);
      GroupTotalAppend(ps, z, keyOf, weight, keys[0]);
      assert keyOf(z) in keys <==> keyOf(z) == keys[0] || keyOf(z) in keys[1..] by {
        assert keys == [keys[0]] + keys[1..];
      }
      assert keys[0] !in keys[1..];
    }
  }

  lemma {:induction false} SumValuesConcat(a: seq<Group>, b: seq<Group>)
    ensures SumValues(a + b) == SumValues(a) + SumValues(b)
  {
    if a == [] {
      assert a + b == b;
    } else {
      SumValuesConcat(a[1..], b);
      assert (a + b)[1..] == a[1..] + b;
    }
  }

  lemma GroupsForAppendKey(keys: seq<string>, k: string, ps: seq<Product>, keyOf: Product -> string, weight: Product -> int)
    ensures GroupsFor(keys + [k], ps, keyOf, weight)
            == GroupsFor(keys, ps, keyOf, weight) + [Group(k, GroupTotal(ps, keyOf, weight, k))]
  {
  }

  /** The entries' values sum to the total weight: every product is counted in
      exactly one entry. */
  lemma {:induction false} GroupedSum(ps: seq<Product>, keyOf: Product -> string, weight: Product -> int)
    ensures SumValues(Grouped(ps, keyOf, weight)) == TotalWeight(ps, weight)
    decreases |ps|
  {
    if ps != [] {
      var p, z := ps[..|ps| - 1], ps[|ps| - 1];
      var kz := keyOf(z);
      assert ps == p + [z];
      var ks := KeysOf(ps, keyOf);
      assert ks[..|ks| - 1] == KeysOf(p, keyOf);
      var dp := Distinct(KeysOf(p, keyOf));
      GroupedSum(p, keyOf, weight);
      SumGroupsAppend(dp, p, z, keyOf, weight);
      if kz !in dp {
        GroupsForAppendKey(dp, kz, ps, keyOf, weight);
        SumValuesConcat(GroupsFor(dp, ps, keyOf, weight), [Group(kz, GroupTotal(ps, keyOf, weight, kz))]);
        GroupTotalAppend(p, z, keyOf, weight, kz);
        GroupTotalAbsent(p, keyOf, weight, kz);
      }
    }
  }

  // ---------------------------------------------------------------------------
  // The accumulating reduce

  /** One step of the dashboard's reduce: the first entry named `k` has its value
      raised by `w`; with no such entry `{ name: k, value: w }` is pushed. */
  function AddTo(gs: seq<Group>, k: string, w: int): (r: seq<Group>)
    ensures |r| == |gs| || r == gs + [Group(k, w)]
  {
    if gs == [] then [Group(k, w)]
    else if gs[0].name == k then [Group(k, gs[0].value + w)] + gs[1..]
    else [gs[0]] + AddTo(gs[1..], k, w)
  }

  /** The reduce over all products, in list order. */
  function Accumulate(ps: seq<Product>, keyOf: Product -> string, weight: Product -> int): seq<Group>
    decreases |ps|
  {
    if ps == [] then [] else AddTo(Accumulate(ps[..|ps| - 1], keyOf, weight), keyOf(ps[|ps| - 1]), weight(ps[|ps| - 1]))
  }

  lemma AccumulateAppend(ps: seq<Product>, z: Product, keyOf: Product -> string, weight: Product -> int)
    ensures Accumulate(ps + [z], keyOf, weight) == AddTo(Accumulate(ps, keyOf, weight), keyOf(z), weight(z))
  {
    assert (ps + [z])[..|ps|] == ps;
  }

  /** When entry `j` is the first named `k`, the step updates that entry in place. */
  lemma {:induction false} AddToAt(gs: seq<Group>, k: string, w: int, j: int)
    requires 0 <= j < |gs| && gs[j].name == k
    requires forall t :: 0 <= t < j ==> gs[t].name != k
    ensures AddTo(gs, k, w) == gs[j := Group(k, gs[j].value + w)]
  {
    if j > 0 {
      AddToAt(gs[1..], k, w, j - 1);
    }
  }

  /** When no entry is named `k`, the step pushes a new entry. */
  lemma {:induction false} AddToAbsent(gs: seq<Group>, k: string, w: int)
    requires forall t :: 0 <= t < |gs| ==> gs[t].name != k
    ensures AddTo(gs, k, w) == gs + [Group(k, w)]
  {
    if gs != [] {
      AddToAbsent(gs[1..], k, w);
      assert gs == [gs[0]] + gs[1..];
    }
  }

  /** A product whose key is not among `keys` leaves their totals alone. */
  lemma {:induction false} GroupsForOtherKey(keys: seq<string>, ps: seq<Product>, z: Product,
                                             keyOf: Product -> string, weight: Product -> int)
    requires keyOf(z) !in keys
    ensures GroupsFor(keys, ps + [z], keyOf, weight) == GroupsFor(keys, ps, keyOf, weight)
  {
    if keys != [] {
      GroupsForOtherKey(keys[1..], ps, z, keyOf, weight);
      GroupTotalAppend(ps, z, keyOf, weight, keys[0]);
    }
  }

  /** Over distinct keys, one step of the reduce on the per-key totals gives the
      totals after one more product, with an entry appended when its key is new. */
  lemma {:induction false} AddToGroupsFor(keys: seq<string>, ps: seq<Product>, z: Product,
                                          keyOf: Product -> string, weight: Product -> int)
    requires NoDuplicates(keys)
    ensures var r := AddTo(GroupsFor(keys, ps, keyOf, weight), keyOf(z), weight(z));
            && (keyOf(z) in keys ==> r == GroupsFor(keys, ps + [z], keyOf, weight))
            && (keyOf(z) !in keys ==> r == GroupsFor(keys, ps + [z], keyOf, weight) + [Group(keyOf(z), weight(z))])
  {
    if keys != [] {
      var k0, rest := keys[0], keys[1..];
      assert keys == [k0] + rest;
      assert k0 !in rest;
      assert NoDuplicates(rest) by {
        forall i, j | 0 <= i < j < |rest| ensures rest[i] != rest[j] {
          assert rest[i] == keys[i + 1] && rest[j] == keys[j + 1];
        }
      }
      GroupTotalAppend(ps, z, keyOf, weight, k0);
      if keyOf(z) == k0 {
        GroupsForOtherKey(rest, ps, z, keyOf, weight);
      } else {
        AddToGroupsFor(rest, ps, z, keyOf, weight);
      }
    }
  }

  /** A product whose key already occurs: the grouping after it is one step of
      the reduce on the grouping before it. */
  lemma GroupedAppendOld(p: seq<Product>, z: Product, keyOf: Product -> string, weight: Product -> int)
    requires keyOf(z) in Distinct(KeysOf(p, keyOf))
    ensures Grouped(p + [z], keyOf, weight) == AddTo(Grouped(p, keyOf, weight), keyOf(z), weight(z))
  {
    DistinctKeysStep(p, z, keyOf);
    AddToGroupsFor(Distinct(KeysOf(p, keyOf)), p, z, keyOf, weight);
  }

  /** A product with a new key: the grouping after it is the old keys' totals
      after it, followed by the new key's entry holding its weight. */
  lemma GroupedNewKey(p: seq<Product>, z: Product, keyOf: Product -> string, weight: Product -> int)
    requires keyOf(z) !in Distinct(KeysOf(p, keyOf))
    ensures Grouped(p + [z], keyOf, weight)
            == GroupsFor(Distinct(KeysOf(p, keyOf)), p + [z], keyOf, weight) + [Group(keyOf(z), weight(z))]
  {
    NewKeyTotal(p, z, keyOf, weight);
    DistinctKeysStep(p, z, keyOf);
    GroupsForAppendKey(Distinct(KeysOf(p, keyOf)), keyOf(z), p + [z], keyOf, weight);
  }

  /** A new key's total after its first product is that product's weight. */
  lemma NewKeyTotal(p: seq<Product>, z: Product, keyOf: Product -> string, weight: Product -> int)
    requires keyOf(z) !in Distinct(KeysOf(p, keyOf))
    ensures GroupTotal(p + [z], keyOf, weight, keyOf(z)) == weight(z)
  {
    GroupTotalAppend(p, z, keyOf, weight, keyOf(z));
    GroupTotalAbsent(p, keyOf, weight, keyOf(z));
  }

  /** A product with a new key: likewise, the step appends its entry. */
  lemma GroupedAppendNew(p: seq<Product>, z: Product, keyOf: Product -> string, weight: Product -> int)
    requires keyOf(z) !in Distinct(KeysOf(p, keyOf))
    ensures Grouped(p + [z], keyOf, weight) == AddTo(Grouped(p, keyOf, weight), keyOf(z), weight(z))
  {
    GroupedNewKey(p, z, keyOf, weight);
    AddToGroupsFor(Distinct(KeysOf(p, keyOf)), p, z, keyOf, weight);
  }

  /** The reduce computes the grouping: one entry per distinct key in
      first-appearance order, carrying that key's total. */
  lemma {:induction false} AccumulateIsGrouped(ps: seq<Product>, keyOf: Product -> string, weight: Product -> int)
    ensures Accumulate(ps, keyOf, weight) == Grouped(ps, keyOf, weight)
    decreases |ps|
  {
    if ps != [] {
      var p, z := ps[..|ps| - 1], ps[|ps| - 1];
      assert ps == p + [z];
      AccumulateIsGrouped(p, keyOf, weight);
      AccumulateAppend(p, z, keyOf, weight);
      if keyOf(z) in Distinct(KeysOf(p, keyOf)) {
        GroupedAppendOld(p, z, keyOf, weight);
      } else {
        GroupedAppendNew(p, z, keyOf, weight);
      }
    }
  }

  /** Weighing every product by 1 counts the products. */
  lemma {:induction false} TotalOneIsLength(ps: seq<Product>)
    ensures TotalWeight(ps, One) == |ps|
    decreases |ps|
  {
    if ps != [] {
      TotalOneIsLength(ps[..|ps| - 1]);
    }
  }

  /** With no negative weight the total is non-negative and at least the weight
      of every single product. */
  lemma {:induction false} TotalWeightBounds(ps: seq<Product>, weight: Product -> int)
    ensures (forall i :: 0 <= i < |ps| ==> weight(ps[i]) >= 0) ==>
              && TotalWeight(ps, weight) >= 0
              && forall i :: 0 <= i < |ps| ==> weight(ps[i]) <= TotalWeight(ps, weight)
    decreases |ps|
  {
    if ps != [] && forall i :: 0 <= i < |ps| ==> weight(ps[i]) >= 0 {
      var p := ps[..|ps| - 1];
      assert forall i :: 0 <= i < |p| ==> p[i] == ps[i];
      TotalWeightBounds(p, weight);
    }
  }
}
