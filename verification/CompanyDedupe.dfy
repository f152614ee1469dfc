/** Matching a candidate against the CRM, and gathering the companies to match it with. */
module CompanyDedupe {
  import opened Wrappers

  /** Domain and name are already normalised; "" means there is none. */
  datatype Company = Company(id: string, domain: string, name: string)

  datatype Match = New | Exact(existing: string) | Possible(existing: string)

  function FindDomain(companies: seq<Company>, domain: string): (r: Option<Company>)
    ensures r.None? <==> forall c <- companies :: c.domain != domain
    ensures r.Some? ==> r.value in companies && r.value.domain == domain
  {
    if companies == [] then None else if companies[0].domain == domain then Some(companies[0]) else FindDomain(companies[1..], domain)
  }

  function FindName(companies: seq<Company>, name: string): (r: Option<Company>)
    ensures r.None? <==> forall c <- companies :: c.name != name
    ensures r.Some? ==> r.value in companies && r.value.name == name
  {
    if companies == [] then None else if companies[0].name == name then Some(companies[0]) else FindName(companies[1..], name)
  }

  predicate SharesDomain(companies: seq<Company>, domain: string)
  {
    domain != "" && exists c <- companies :: c.domain == domain
  }

  predicate SharesName(companies: seq<Company>, name: string)
  {
    name != "" && exists c <- companies :: c.name == name
  }

  /** NEW means no company shares the domain or the name; a shared name is exact only without a domain. */
  function Dedupe(domain: string, name: string, companies: seq<Company>): (r: Match)
    ensures r.New? <==> !SharesDomain(companies, domain) && !SharesName(companies, name)
    ensures r.Exact? <==> SharesDomain(companies, domain) || (domain == "" && SharesName(companies, name))
    ensures !r.New? ==> exists c <- companies :: c.id == r.existing && (c.domain == domain || c.name == name)
  {
    if domain != "" then
      var byDomain := FindDomain(companies, domain);
      if byDomain.Some? then Exact(byDomain.value.id)
      else
        var byName := FindName(companies, name);
        if name != "" && byName.Some? then Possible(byName.value.id) else New
    else
      var byName := FindName(companies, name);
      if name != "" && byName.Some? then Exact(byName.value.id) else New
  }

  // ------------------------------------------------------------------ loading

  /** What the CRM answered for one candidate; None is a lookup that threw. */
  datatype Lookup = Lookup(domain: string, byDomain: Option<seq<Company>>, byName: Option<seq<Company>>)

  /** A map write: over the entry of that id, else behind all others. */
  function Merge(found: seq<Company>, hit: Company): seq<Company>
  {
    if found == [] then [hit]
    else if found[0].id == hit.id then [hit] + found[1..]
    else [found[0]] + Merge(found[1..], hit)
  }

  predicate HasCompany(found: seq<Company>, id: string)
  {
    exists c <- found :: c.id == id
  }

  lemma HasInSum(a: seq<Company>, b: seq<Company>, id: string)
    ensures HasCompany(a + b, id) <==> HasCompany(a, id) || HasCompany(b, id)
  {
    if HasCompany(a, id) {
      var c :| c in a && c.id == id;
      assert c in a + b;
    }
    if HasCompany(b, id) {
      var c :| c in b && c.id == id;
      assert c in a + b;
    }
  }

  lemma {:induction false} Merged(found: seq<Company>, hit: Company, id: string)
    ensures HasCompany(Merge(found, hit), id) <==> HasCompany(found, id) || id == hit.id
  {
    assert [hit][0] in [hit];
    if found == [] {
    } else {
      assert found == [found[0]] + found[1..];
      HasInSum([found[0]], found[1..], id);
      if found[0].id == hit.id {
        HasInSum([hit], found[1..], id);
      } else {
        Merged(found[1..], hit, id);
        HasInSum([found[0]], Merge(found[1..], hit), id);
      }
    }
  }

  function MergeHits(found: seq<Company>, hits: seq<Company>): seq<Company>
  {
    if hits == [] then found else Merge(MergeHits(found, hits[..|hits| - 1]), hits[|hits| - 1])
  }

  function Hits(answer: Option<seq<Company>>): seq<Company>
  {
    if answer.Some? then answer.value else []
  }

  /** A lookup the loader makes threw; without a domain only the name is looked up. */
  predicate Throws(l: Lookup)
  {
    (l.domain != "" && l.byDomain.None?) || l.byName.None?
  }

  function Load(lookups: seq<Lookup>): seq<Company>
  {
    if lookups == [] then []
    else
      var l := lookups[|lookups| - 1];
      var before := Load(lookups[..|lookups| - 1]);
      MergeHits(if l.domain != "" then MergeHits(before, Hits(l.byDomain)) else before, Hits(l.byName))
  }

  /** The lookup was made, answered, and named the company. */
  predicate Reports(l: Lookup, id: string)
  {
    (l.domain != "" && HasCompany(Hits(l.byDomain), id)) || HasCompany(Hits(l.byName), id)
  }

  lemma {:induction false} MergedHits(found: seq<Company>, hits: seq<Company>, id: string)
    ensures HasCompany(MergeHits(found, hits), id) <==> HasCompany(found, id) || HasCompany(hits, id)
  {
    if hits == [] {
    } else {
      var n := |hits| - 1;
      MergedHits(found, hits[..n], id);
      assert hits == hits[..n] + [hits[n]];
      HasInSum(hits[..n], [hits[n]], id);
      Merged(MergeHits(found, hits[..n]), hits[n], id);
    }
  }

  /** The loader gathers exactly the companies some answered lookup reported. */
  lemma {:induction false} LoadedExactly(lookups: seq<Lookup>, id: string)
    ensures HasCompany(Load(lookups), id) <==> exists l <- lookups :: Reports(l, id)
  {
    if lookups == [] {
    } else {
      var n := |lookups| - 1;
      var l := lookups[n];
      LoadedExactly(lookups[..n], id);
      assert lookups == lookups[..n] + [l];
      assert (exists x <- lookups :: Reports(x, id)) <==> (exists x <- lookups[..n] :: Reports(x, id)) || Reports(l, id);
      MergedHits(Load(lookups[..n]), Hits(l.byDomain), id);
      MergedHits(if l.domain != "" then MergeHits(Load(lookups[..n]), Hits(l.byDomain)) else Load(lookups[..n]), Hits(l.byName), id);
    }
  }

  /** The loop: fail-closed stops at the first lookup that throws, best-effort carries on without it. */
  method LoadCrmCompanies(lookups: seq<Lookup>, failClosed: bool) returns (r: Option<seq<Company>>)
    ensures failClosed && (exists l <- lookups :: Throws(l)) ==> r == None
    ensures !failClosed || (forall l <- lookups :: !Throws(l)) ==> r == Some(Load(lookups))
  {
    var byId: seq<Company> := [];
    for i := 0 to |lookups|
      invariant byId == Load(lookups[..i])
      invariant failClosed ==> forall l <- lookups[..i] :: !Throws(l)
    {
      var l := lookups[i];
      assert lookups[..i + 1] == lookups[..i] + [l];
      if failClosed && Throws(l) {
        return None;
      }
      if l.domain != "" && l.byDomain.Some? {
        byId := AddHits(byId, l.byDomain.value);
      }
      if l.byName.Some? {
        byId := AddHits(byId, l.byName.value);
      }
    }
    assert lookups[..|lookups|] == lookups;
    r := Some(byId);
  }

  method AddHits(found: seq<Company>, hits: seq<Company>) returns (r: seq<Company>)
    ensures r == MergeHits(found, hits)
  {
    r := found;
    for i := 0 to |hits|
      invariant r == MergeHits(found, hits[..i])
    {
      assert hits[..i + 1][..i] == hits[..i];
      r := Merge(r, hits[i]);
    }
    assert hits[..|hits|] == hits;
  }
}
