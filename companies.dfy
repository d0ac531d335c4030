/** The client-companies side panel (src/components/ClientCompaniesPanel.tsx):
    its two seed companies and `handleAddCompany`. The id a new company gets
    from the clock is a parameter. */
module Companies {
  import opened Text

  datatype Company = Company(id: string, name: string, contact: string, email: string)

  const SeedCompanies: seq<Company> := [
    Company("1", "Empresa A", "Juan Pérez", "juan@empresaa.com"),
    Company("2", "Empresa B", "María López", "maria@empresab.com")
  ]

  datatype CompanyForm = CompanyForm(name: string, contact: string, email: string)

  const EmptyCompanyForm: CompanyForm := CompanyForm("", "", "")

  /** The panel's state: the list, the form and whether the drawer is open. */
  datatype Panel = Panel(companies: seq<Company>, form: CompanyForm, drawerOpen: bool)

  const InitialPanel: Panel := Panel(SeedCompanies, EmptyCompanyForm, false)

  /** `handleAddCompany` given the clock's id: a name that is empty after
      trimming changes nothing; otherwise exactly one company, carrying the
      form's fields as typed, is appended after the unchanged list, the form is
      emptied and the drawer closes. */
  function AddCompany(p: Panel, id: string): (r: Panel)
    ensures Trim(p.form.name) == "" ==> r == p
    ensures Trim(p.form.name) != "" ==>
              && r.companies == p.companies + [Company(id, p.form.name, p.form.contact, p.form.email)]
              && r.form == EmptyCompanyForm && !r.drawerOpen
  {
    BlankIffTrimEmpty(p.form.name);
    if IsBlank(p.form.name) then p
    else Panel(p.companies + [Company(id, p.form.name, p.form.contact, p.form.email)], EmptyCompanyForm, false)
  }

  /** An add keeps every existing company at its place and grows the list by at
      most one. */
  lemma AddKeepsCompanies(p: Panel, id: string)
    ensures var r := AddCompany(p, id);
            && (|r.companies| == |p.companies| || |r.companies| == |p.companies| + 1)
            && r.companies[..|p.companies|] == p.companies
  {
    var r := AddCompany(p, id);
    if Trim(p.form.name) == "" {
      assert r == p;
    } else {
      var c := Company(id, p.form.name, p.form.contact, p.form.email);
      assert r.companies == p.companies + [c];
      assert (p.companies + [c])[..|p.companies|] == p.companies;
    }
  }

  /** The name is checked trimmed but stored as typed: " Nueva " is accepted and
      kept with its spaces. */
  lemma NameStoredUntrimmed(cs: seq<Company>, id: string)
    ensures var p := Panel(cs, CompanyForm(" Nueva ", "", ""), true);
            AddCompany(p, id).companies == cs + [Company(id, " Nueva ", "", "")]
  {
    var n := " Nueva ";
    assert !IsBlank(n) by {
      assert !IsJsWhitespace(n[1..][0]);
    }
    BlankIffTrimEmpty(n);
  }

  /** A form whose name is only whitespace never adds, however often submitted. */
  lemma BlankNameNeverAdds(p: Panel, id1: string, id2: string)
    requires IsBlank(p.form.name)
    ensures AddCompany(AddCompany(p, id1), id2) == p
  {
    BlankIffTrimEmpty(p.form.name);
  }
}
