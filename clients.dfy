/** The client-companies page (src/pages/Clients.tsx): the seed list, the search,
    the filter reset, the form edits and the add, edit and delete handlers. Each
    handler computes a new client list from the old one and replaces it; the
    500 ms delay before the list is replaced is left out, and the id and date a
    new client gets from the clock are parameters. */
module Clients {
  import opened Wrappers
  import opened Seqs
  import opened Text

  /** A client. Optional fields are `None` when the record leaves them out;
      `createdAt` is an instant in epoch milliseconds. */
  datatype Client = Client(
    id: string, name: string, contact: string, email: string,
    phone: Option<string>, address: Option<string>, notes: Option<string>,
    products: Option<seq<string>>, createdAt: int)

  /** `mockClients`; the dates are midnight UTC of 2023-01-15, 2023-03-22 and
      2023-05-10. */
  const MockClients: seq<Client> := [
    Client("1", "Empresa A", "Juan Pérez", "juan@empresaa.com", Some("123-456-7890"),
           Some("Calle Principal 123"), None, Some(["1", "3"]), 1673740800000),
    Client("2", "Empresa B", "María López", "maria@empresab.com", Some("987-654-3210"),
           None, None, Some(["2"]), 1679443200000),
    Client("3", "Corporación XYZ", "Carlos Rodríguez", "carlos@xyz.com", None,
           Some("Avenida Central 456"), None, Some([]), 1683676800000)
  ]

  // ---------------------------------------------------------------------------
  // Search

  /** A client matches a query when its name, contact or email contains it
      ignoring case, or its phone (when present and not empty) contains it
      exactly. */
  predicate ClientMatches(c: Client, query: string) {
    || Includes(ToLower(c.name), ToLower(query))
    || Includes(ToLower(c.contact), ToLower(query))
    || Includes(ToLower(c.email), ToLower(query))
    || (c.phone.Some? && c.phone.value != "" && Includes(c.phone.value, query))
  }

  /** `handleSearch`: a blank query shows the seed list again; any other query
      filters the seed list, not the list on screen. */
  function Search(current: seq<Client>, query: string): (r: seq<Client>)
    ensures IsBlank(query) ==> r == MockClients
    ensures !IsBlank(query) ==> forall c :: c in r <==> c in MockClients && ClientMatches(c, query)
    ensures !IsBlank(query) ==> forall c :: multiset(r)[c] == if ClientMatches(c, query) then multiset(MockClients)[c] else 0
    ensures IsSubsequence(r, MockClients)
  {
    if IsBlank(query) then
      SubsequenceReflexive(MockClients);
      MockClients
    else
      FilterCounts(MockClients, (c: Client) => ClientMatches(c, query));
      Filter(MockClients, (c: Client) => ClientMatches(c, query))
  }

  /** The search result does not depend on the list on screen, so a client added
      on this page is never found by a search. */
  lemma SearchIgnoresCurrentList(current: seq<Client>, other: seq<Client>, query: string, c: Client)
    requires c !in MockClients
    ensures Search(current, query) == Search(other, query)
    ensures c !in Search(current, query)
  {
    SubsequenceMembers(Search(current, query), MockClients);
  }

  /** The phone is searched case-sensitively, the other keys ignoring case.
      ("EMPRESA A" finds the first seed client by its name.) */
  lemma SearchIgnoresCaseOfName()
    ensures MockClients[0] in Search([], "EMPRESA A")
  {
    var q := "EMPRESA A";
    assert ToLower(q) == "empresa a";
    assert ToLower(MockClients[0].name) == "empresa a";
    assert OccursAt(ToLower(MockClients[0].name), ToLower(q), 0);
    assert ClientMatches(MockClients[0], q);
  }

  /** `resetFilters`: the query is cleared and the seed list shown. */
  function ResetFilters(current: seq<Client>): (r: (string, seq<Client>))
    ensures r.0 == "" && r.1 == MockClients
  {
    ("", MockClients)
  }

  /** Searching right after a reset changes nothing. */
  lemma SearchAfterReset(current: seq<Client>)
    ensures var (query, shown) := ResetFilters(current);
            Search(shown, query) == shown
  {
  }

  // ---------------------------------------------------------------------------
  // Form edits

  /** `newClient`: the add form; every field is text. */
  datatype ClientForm = ClientForm(name: string, contact: string, email: string, phone: string, address: string, notes: string)

  const EmptyForm: ClientForm := ClientForm("", "", "", "", "", "")

  /** The inputs, by their `name`. */
  datatype ClientInput = NameInput | ContactInput | EmailInput | PhoneInput | AddressInput | NotesInput

  function WithFormValue(f: ClientForm, i: ClientInput, value: string): ClientForm {
    match i
    case NameInput => f.(name := value)
    case ContactInput => f.(contact := value)
    case EmailInput => f.(email := value)
    case PhoneInput => f.(phone := value)
    case AddressInput => f.(address := value)
    case NotesInput => f.(notes := value)
  }

  function WithClientValue(c: Client, i: ClientInput, value: string): Client {
    match i
    case NameInput => c.(name := value)
    case ContactInput => c.(contact := value)
    case EmailInput => c.(email := value)
    case PhoneInput => c.(phone := Some(value))
    case AddressInput => c.(address := Some(value))
    case NotesInput => c.(notes := Some(value))
  }

  /** `handleClientInputChange`: while the edit dialog is open on a selected
      client the edit goes to that client, otherwise to the add form; exactly
      one of the two changes, and the selected client keeps its id. */
  function OnClientInput(editing: bool, selected: Option<Client>, form: ClientForm, i: ClientInput, value: string): (r: (Option<Client>, ClientForm))
    ensures editing && selected.Some? ==> r.1 == form && r.0.Some? && r.0.value.id == selected.value.id
    ensures !(editing && selected.Some?) ==> r.0 == selected
    ensures r.0 == selected || r.1 == form
  {
    if editing && selected.Some? then (Some(WithClientValue(selected.value, i, value)), form)
    else (selected, WithFormValue(form, i, value))
  }

  // ---------------------------------------------------------------------------
  // Add, edit, delete

  /** The record `handleAddClient` builds from the form. */
  function NewClient(f: ClientForm, id: string, now: int): (c: Client)
    ensures c.name == f.name && c.contact == f.contact && c.email == f.email
    ensures c.phone == Some(f.phone) && c.address == Some(f.address) && c.notes == Some(f.notes)
    ensures c.products == Some([]) && c.id == id && c.createdAt == now
  {
    Client(id, f.name, f.contact, f.email, Some(f.phone), Some(f.address), Some(f.notes), Some([]), now)
  }

  /** `handleAddClient` given the clock's id and date: a name blank after
      trimming is rejected and nothing changes; otherwise exactly one client is
      appended, built from the form as typed, and the form is emptied. */
  function AddClient(clients: seq<Client>, f: ClientForm, id: string, now: int): (r: (seq<Client>, ClientForm))
    ensures Trim(f.name) == "" ==> r == (clients, f)
    ensures Trim(f.name) != "" ==>
              && |r.0| == |clients| + 1 && r.0[..|clients|] == clients
              && r.0[|clients|] == NewClient(f, id, now) && r.1 == EmptyForm
  {
    BlankIffTrimEmpty(f.name);
    if IsBlank(f.name) then (clients, f) else (clients + [NewClient(f, id, now)], EmptyForm)
  }

  /** The add button is enabled with name, contact and email all non-blank. */
  predicate AddEnabled(f: ClientForm, loading: bool) {
    !loading && !IsBlank(f.name) && !IsBlank(f.contact) && !IsBlank(f.email)
  }

  /** The button is stricter than its handler: whatever the button lets through
      the handler accepts, but the handler alone would accept a form with only a
      name. */
  lemma AddEnabledStricter(clients: seq<Client>, f: ClientForm, id: string, now: int)
    ensures AddEnabled(f, false) ==> |AddClient(clients, f, id, now).0| == |clients| + 1
    ensures var g := ClientForm("A", "", "", "", "", "");
            !AddEnabled(g, false) && |AddClient(clients, g, id, now).0| == |clients| + 1
  {
    BlankIffTrimEmpty(f.name);
    var g := ClientForm("A", "", "", "", "", "");
    assert !IsBlank(g.name);
    BlankIffTrimEmpty(g.name);
  }

  /** `clients.map(c => c.id === selected.id ? selected : c)`. */
  function ReplaceById(clients: seq<Client>, s: Client): (r: seq<Client>)
    ensures |r| == |clients|
    ensures forall i :: 0 <= i < |clients| ==> r[i] == if clients[i].id == s.id then s else clients[i]
  {
    if clients == [] then [] else [if clients[0].id == s.id then s else clients[0]] + ReplaceById(clients[1..], s)
  }

  /** `handleEditClient`: rejected (`None`) with no selection or a selected name
      blank after trimming; otherwise every client with the selected id is
      replaced by the selection and every other client keeps its place. */
  function EditClient(clients: seq<Client>, selected: Option<Client>): (r: Option<seq<Client>>)
    ensures r.None? <==> selected.None? || Trim(selected.value.name) == ""
    ensures r.Some? ==> r.value == ReplaceById(clients, selected.value)
  {
    if selected.None? then None
    else
      BlankIffTrimEmpty(selected.value.name);
      if IsBlank(selected.value.name) then None else Some(ReplaceById(clients, selected.value))
  }

  /** Saving the same edit twice is the same as saving it once. */
  lemma EditIdempotent(clients: seq<Client>, selected: Option<Client>)
    requires EditClient(clients, selected).Some?
    ensures EditClient(EditClient(clients, selected).value, selected) == EditClient(clients, selected)
  {
    var r := EditClient(clients, selected).value;
    var rr := ReplaceById(r, selected.value);
    assert rr == r;
  }

  /** `clients.filter(c => c.id !== id)`. */
  function WithoutClient(clients: seq<Client>, id: string): (r: seq<Client>)
    ensures forall c :: c in r <==> c in clients && c.id != id
    ensures IsSubsequence(r, clients)
  {
    Filter(clients, (c: Client) => c.id != id)
  }

  /** `handleDeleteClient`: nothing without a selection; otherwise exactly the
      clients with the selected id are removed, the others keeping their order. */
  function DeleteClient(clients: seq<Client>, selected: Option<Client>): (r: Option<seq<Client>>)
    ensures r.None? <==> selected.None?
    ensures r.Some? ==> r.value == WithoutClient(clients, selected.value.id)
  {
    if selected.None? then None else Some(WithoutClient(clients, selected.value.id))
  }

  /** Once the selected client is deleted, saving an edit of it changes nothing. */
  lemma EditAfterDelete(clients: seq<Client>, s: Client)
    requires Trim(s.name) != ""
    ensures var rest := DeleteClient(clients, Some(s)).value;
            EditClient(rest, Some(s)) == Some(rest)
  {
    var rest := WithoutClient(clients, s.id);
    var e := ReplaceById(rest, s);
    forall i | 0 <= i < |rest| ensures e[i] == rest[i] {
      assert rest[i] in rest;
    }
    assert e == rest;
    BlankIffTrimEmpty(s.name);
  }

  /** Deleting the same selection twice is the same as deleting it once. */
  lemma DeleteIdempotent(clients: seq<Client>, s: Client)
    ensures DeleteClient(DeleteClient(clients, Some(s)).value, Some(s)) == DeleteClient(clients, Some(s))
  {
    FilterIdempotent(clients, (c: Client) => c.id != s.id);
  }
}
