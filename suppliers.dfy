/** The suppliers page (src/pages/Suppliers.tsx): the search over the list on
    screen and the form reset after an add. `getSuppliers`, `addSupplier` and
    the `Supplier` type are imported from a module that does not define them;
    the record below holds the fields the page reads, the list the server
    returns is a parameter, and whether `addSupplier` succeeded is a parameter. */
module Suppliers {
  import opened Seqs
  import opened Text

  datatype Supplier = Supplier(id: string, name: string, contact: string, email: string, phone: string)

  /** A supplier matches a query when its name, contact or email contains it,
      ignoring case. The phone is not searched. */
  predicate SupplierMatches(s: Supplier, query: string) {
    || Includes(ToLower(s.name), ToLower(query))
    || Includes(ToLower(s.contact), ToLower(query))
    || Includes(ToLower(s.email), ToLower(query))
  }

  /** What a search does: reload the list from the server, or show a list. */
  datatype SearchOutcome = Reload | Shown(list: seq<Supplier>)

  /** `handleSearch`: a blank query reloads the list; any other query keeps, in
      order, the suppliers on screen that match it. */
  function Search(current: seq<Supplier>, query: string): (r: SearchOutcome)
    ensures r.Reload? <==> IsBlank(query)
    ensures r.Shown? ==> IsSubsequence(r.list, current)
    ensures r.Shown? ==> forall s :: s in r.list <==> s in current && SupplierMatches(s, query)
    ensures r.Shown? ==> forall s :: multiset(r.list)[s] == if SupplierMatches(s, query) then multiset(current)[s] else 0
  {
    if IsBlank(query) then Reload
    else
      FilterCounts(current, (s: Supplier) => SupplierMatches(s, query));
      Shown(Filter(current, (s: Supplier) => SupplierMatches(s, query)))
  }

  /** Each search filters what the previous one left, so a second search shows
      a subsequence of the list before the first. */
  lemma SearchesNarrow(current: seq<Supplier>, q1: string, q2: string)
    requires Search(current, q1).Shown?
    requires Search(Search(current, q1).list, q2).Shown?
    ensures IsSubsequence(Search(Search(current, q1).list, q2).list, current)
    ensures forall s :: s in Search(Search(current, q1).list, q2).list ==>
              SupplierMatches(s, q1) && SupplierMatches(s, q2)
  {
    var first := Search(current, q1).list;
    SubsequenceTransitive(Search(first, q2).list, first, current);
  }

  /** Repeating a search changes nothing. */
  lemma SearchIdempotent(current: seq<Supplier>, q: string)
    requires Search(current, q).Shown?
    ensures Search(Search(current, q).list, q) == Search(current, q)
  {
    FilterIdempotent(current, (s: Supplier) => SupplierMatches(s, q));
  }

  /** Two suppliers that differ only in their phone are found by the same
      queries. */
  lemma PhoneNotSearched(s: Supplier, phone: string, query: string)
    ensures SupplierMatches(s, query) <==> SupplierMatches(s.(phone := phone), query)
  {
  }

  /** A supplier found only by its phone is left out. */
  lemma PhoneOnlyMatchIsDropped()
    ensures var s := Supplier("1", "A", "B", "c", "555");
            Search([s], "555") == Shown([])
  {
    var s := Supplier("1", "A", "B", "c", "555");
    var q := "555";
    assert ToLower(q) == q;
    assert !Includes(ToLower(s.name), q);
    assert !Includes(ToLower(s.contact), q);
    assert !Includes(ToLower(s.email), q);
    assert !IsBlank(q);
  }

  /** `newSupplier`: the add form. */
  datatype SupplierForm = SupplierForm(name: string, contact: string, email: string, phone: string)

  const EmptySupplierForm: SupplierForm := SupplierForm("", "", "", "")

  /** The page's state around an add: the form, whether the dialog is open and
      the list on screen. */
  datatype AddState = AddState(form: SupplierForm, dialogOpen: bool, list: seq<Supplier>)

  /** `handleAddSupplier` once `addSupplier` has answered: when it succeeded the
      form is reset to four empty strings, the dialog closes and the reloaded
      list is shown; when it failed nothing changes. */
  function AfterAdd(s: AddState, succeeded: bool, reloaded: seq<Supplier>): (r: AddState)
    ensures succeeded ==> r.form == EmptySupplierForm && !r.dialogOpen && r.list == reloaded
    ensures !succeeded ==> r == s
  {
    if succeeded then AddState(EmptySupplierForm, false, reloaded) else s
  }
}
