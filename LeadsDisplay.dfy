/** The results panel (components/LeadsDisplay.tsx): the four filters over the
    generated leads, the export and count wired to the filtered list, and the
    text each table cell and source link shows. */
module LeadsDisplay {
  import opened Outcomes
  import opened JsStrings
  import opened Seqs
  import opened Types
  import GeminiService

  /** The four filter controls: two free-text inputs, and two selects whose
      options are "all", "yes" and "no". */
  datatype Filters = Filters(city: string, country: string, website: string, email: string)

  /** The controls as the panel first shows them. */
  const NoFilters: Filters := Filters("", "", "all", "all")

  const NotAvailable: string := "N/A"
  const AdjustFiltersHint: string := "Try adjusting your filters."
  const GenerateLeadsHint: string := "Generate new leads to get started."
  const VisitWebsite: string := "Visit Website"

  /** `cityMatch` / `countryMatch`: an empty filter accepts every address, any
      other must occur in the address, both lowered. */
  predicate TextMatch(address: string, filter: string) {
    filter == "" || Includes(Lower(address), Lower(filter))
  }

  /** `websiteMatch` / `emailMatch`: "yes" wants the field filled, "no" wants
      it empty, any other choice accepts all. */
  predicate PresenceMatch(choice: string, field: string) {
    if choice == "yes" then field != ""
    else if choice == "no" then field == ""
    else true
  }

  /** The predicate `leads.filter` applies. */
  predicate Keep(f: Filters, l: Lead) {
    TextMatch(l.address, f.city) && TextMatch(l.address, f.country)
    && PresenceMatch(f.website, l.website) && PresenceMatch(f.email, l.email)
  }

  /** `Keep` with the filters fixed, as the function `leads.filter` receives. */
  function Keeper(f: Filters): Lead -> bool {
    l => Keep(f, l)
  }

  predicate HasWebsite(l: Lead) {
    l.website != ""
  }

  predicate HasEmail(l: Lead) {
    l.email != ""
  }

  predicate LacksWebsite(l: Lead) {
    l.website == ""
  }

  predicate LacksEmail(l: Lead) {
    l.email == ""
  }

  /** `filteredLeads`: the leads the filters accept, in their original order,
      each as often as in `leads`. */
  function FilteredLeads(leads: seq<Lead>, f: Filters): (r: seq<Lead>)
    ensures IsSubsequence(r, leads)
    ensures forall l :: l in r ==> Keep(f, l)
    ensures forall l :: multiset(r)[l] == if Keep(f, l) then multiset(leads)[l] else 0
  {
    Filter(leads, Keeper(f))
  }

  /** A lead is kept exactly when all four filters accept it. */
  lemma KeptIffAllMatch(leads: seq<Lead>, f: Filters, i: nat)
    requires i < |leads|
    ensures leads[i] in FilteredLeads(leads, f) <==>
      && TextMatch(leads[i].address, f.city) && TextMatch(leads[i].address, f.country)
      && PresenceMatch(f.website, leads[i].website) && PresenceMatch(f.email, leads[i].email)
  {
    FilterKeeps(leads, Keeper(f), i);
  }

  /** With both text filters empty and both selects at "all", every lead is
      shown, in order. */
  lemma NoFiltersKeepsAll(leads: seq<Lead>)
    ensures FilteredLeads(leads, NoFilters) == leads
  {
    FilterAll(leads, Keeper(NoFilters));
  }

  /** Matching ignores the case of the filter text and of the address. */
  lemma TextMatchIgnoresCase(address: string, filter: string)
    ensures TextMatch(address, Lower(filter)) == TextMatch(address, filter)
    ensures TextMatch(Lower(address), filter) == TextMatch(address, filter)
  {
    LowerIdempotent(filter);
    LowerIdempotent(address);
    assert |Lower(filter)| == |filter|;
  }

  /** Typing more into the city filter only narrows the list: a lead the
      longer text accepts is accepted by the shorter text before it. */
  lemma LongerCityFilterNarrows(l: Lead, f: Filters, more: string)
    requires Keep(f.(city := f.city + more), l)
    ensures Keep(f, l)
  {
    var a := Lower(l.address);
    var long := Lower(f.city + more);
    var short := Lower(f.city);
    assert long[..|short|] == short;
    var i :| 0 <= i <= |a| && StartsAt(a, i, long);
    assert a[i..i + |short|] == a[i..i + |long|][..|short|];
    assert StartsAt(a, i, short);
  }

  /** The four filters apply independently: filtering by the two text
      filters and then by the two selects gives the same list. */
  lemma TextThenPresence(leads: seq<Lead>, f: Filters)
    ensures FilteredLeads(leads, f)
         == FilteredLeads(FilteredLeads(leads, f.(website := "all", email := "all")), f.(city := "", country := ""))
  {
    FilterConjunction(leads, Keeper(f.(website := "all", email := "all")), Keeper(f.(city := "", country := "")), Keeper(f));
  }

  /** The "yes" and "no" website choices split the leads the other filters
      accept: every such lead appears under exactly one of them. */
  lemma WebsiteChoicesSplit(leads: seq<Lead>, f: Filters)
    ensures |FilteredLeads(leads, f.(website := "yes"))| + |FilteredLeads(leads, f.(website := "no"))|
         == |FilteredLeads(leads, f.(website := "all"))|
  {
    var all := FilteredLeads(leads, f.(website := "all"));
    FilterConjunction(leads, Keeper(f.(website := "all")), HasWebsite, Keeper(f.(website := "yes")));
    FilterConjunction(leads, Keeper(f.(website := "all")), LacksWebsite, Keeper(f.(website := "no")));
    FilterSplit(all, HasWebsite, LacksWebsite);
  }

  /** The "yes" and "no" email choices split the leads the other filters
      accept in the same way. */
  lemma EmailChoicesSplit(leads: seq<Lead>, f: Filters)
    ensures |FilteredLeads(leads, f.(email := "yes"))| + |FilteredLeads(leads, f.(email := "no"))|
         == |FilteredLeads(leads, f.(email := "all"))|
  {
    var all := FilteredLeads(leads, f.(email := "all"));
    FilterConjunction(leads, Keeper(f.(email := "all")), HasEmail, Keeper(f.(email := "yes")));
    FilterConjunction(leads, Keeper(f.(email := "all")), LacksEmail, Keeper(f.(email := "no")));
    FilterSplit(all, HasEmail, LacksEmail);
  }

  /** `field || 'N/A'`: what a text cell shows. */
  function OrNA(field: string): (r: string)
    ensures r != ""
    ensures r == field || (field == "" && r == NotAvailable)
  {
    if field != "" then field else NotAvailable
  }

  /** The website link target: an address already starting with "http" is
      used as it is, any other is made protocol-relative with "//". */
  function WebsiteHref(website: string): (r: string)
    ensures StartsWith(r, "http") || StartsWith(r, "//")
    ensures EndsWith(r, website)
    ensures r == website <==> StartsWith(website, "http")
    ensures !StartsWith(website, "http") ==> r == "//" + website
  {
    if StartsWith(website, "http") then website
    else
      var r := "//" + website;
      assert r[|r| - |website|..] == website;
      assert r[0..2] == "//";
      r
  }

  /** A link: where it points and what it shows. */
  datatype Link = Link(href: string, text: string)

  /** One table row: five text cells, the e-mail link under the phone, and
      the website link (`None` shows "N/A" instead). */
  datatype Row = Row(
    name: string, address: string, phone: string, email: Option<Link>, website: Option<Link>,
    businessType: string, employees: string, revenue: string)

  /** The row a lead is shown as. */
  function RowFor(l: Lead): (r: Row)
    ensures r.email.Some? <==> l.email != ""
    ensures r.email.Some? ==> r.email.value == Link("mailto:" + l.email, l.email)
    ensures r.website.Some? <==> l.website != ""
    ensures r.website.Some? ==> r.website.value == Link(WebsiteHref(l.website), VisitWebsite)
  {
    Row(
      OrNA(l.name), OrNA(l.address), OrNA(l.phone),
      if l.email != "" then Some(Link("mailto:" + l.email, l.email)) else None,
      if l.website != "" then Some(Link(WebsiteHref(l.website), VisitWebsite)) else None,
      OrNA(l.businessType), OrNA(l.employeeCount), OrNA(l.annualRevenue))
  }

  /** Every text cell shows its field, or "N/A" exactly when the field is
      empty; no cell is ever blank. */
  lemma RowShowsFields(l: Lead)
    ensures var r := RowFor(l);
      && (r.name == NotAvailable <==> l.name == "" || l.name == NotAvailable)
      && r.name == OrNA(l.name) && r.address == OrNA(l.address) && r.phone == OrNA(l.phone)
      && r.businessType == OrNA(l.businessType) && r.employees == OrNA(l.employeeCount)
      && r.revenue == OrNA(l.annualRevenue)
      && (l.address == "" ==> r.address == NotAvailable) && (l.phone == "" ==> r.phone == NotAvailable)
      && (l.businessType == "" ==> r.businessType == NotAvailable)
      && (l.employeeCount == "" ==> r.employees == NotAvailable)
      && (l.annualRevenue == "" ==> r.revenue == NotAvailable)
      && (l.name != "" ==> r.name == l.name)
      && (l.address != "" ==> r.address == l.address)
      && (l.phone != "" ==> r.phone == l.phone)
      && (l.businessType != "" ==> r.businessType == l.businessType)
      && (l.employeeCount != "" ==> r.employees == l.employeeCount)
      && (l.annualRevenue != "" ==> r.revenue == l.annualRevenue)
      && r.name != "" && r.address != "" && r.phone != "" && r.businessType != "" && r.employees != "" && r.revenue != ""
  {
  }

  /** `source.title || source.uri`: what a source link shows. */
  function SourceLabel(s: Source): (r: string)
    ensures s.title != "" ==> r == s.title
    ensures s.title == "" ==> r == s.uri
  {
    if s.title != "" then s.title else s.uri
  }

  /** Every source the service returns is shown by its title, which is never
      blank. */
  lemma ReturnedSourcesShowTitles(chunks: Option<seq<GeminiService.Chunk>>)
    requires GeminiService.SourcesOf(chunks).Ok?
    ensures forall s :: s in GeminiService.SourcesOf(chunks).value ==> SourceLabel(s) == s.title != ""
  {
  }

  /** What the panel shows for a list of leads, its sources and the filters. */
  datatype Panel = Panel(
    count: nat, exported: seq<Lead>, exportDisabled: bool, rows: seq<Row>,
    emptyHint: Option<string>, sourceLinks: seq<Link>)

  function Render(leads: seq<Lead>, sources: seq<Source>, f: Filters): (p: Panel)
    ensures p.exported == FilteredLeads(leads, f)
    ensures p.count == |p.exported|
    ensures p.exportDisabled <==> p.count == 0
    ensures |p.rows| == |p.exported| && forall i :: 0 <= i < |p.rows| ==> p.rows[i] == RowFor(p.exported[i])
    ensures p.emptyHint.Some? <==> p.exported == []
    ensures p.emptyHint.Some? ==> (p.emptyHint.value == AdjustFiltersHint <==> leads != [])
    ensures p.emptyHint.Some? ==> p.emptyHint.value in {AdjustFiltersHint, GenerateLeadsHint}
    ensures |p.sourceLinks| == |sources|
    ensures forall i :: 0 <= i < |sources| ==> p.sourceLinks[i] == Link(sources[i].uri, SourceLabel(sources[i]))
  {
    var shown := FilteredLeads(leads, f);
    Panel(
      |shown|, shown, |shown| == 0, Map(shown, RowFor),
      if |shown| > 0 then None else if |leads| > 0 then Some(AdjustFiltersHint) else Some(GenerateLeadsHint),
      Map(sources, (s: Source) => Link(s.uri, SourceLabel(s))))
  }

  /** Before any filter is touched, the table is empty only when there are no
      leads at all, so the hint then asks for new leads and the count is the
      number of leads. */
  lemma UnfilteredPanel(leads: seq<Lead>, sources: seq<Source>)
    ensures Render(leads, sources, NoFilters).count == |leads|
    ensures Render(leads, sources, NoFilters).exported == leads
    ensures Render(leads, sources, NoFilters).emptyHint != Some(AdjustFiltersHint)
  {
    NoFiltersKeepsAll(leads);
  }
}
