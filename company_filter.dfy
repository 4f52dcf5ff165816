/** The search box of the dashboard (App.tsx, `filteredCompanies`): a company
    is shown when the lower-cased search term occurs in its lower-cased name,
    industry or one of its locations. */
module CompanyFilter {
  import opened Types
  import opened Text
  import opened Sequences

  /** `locations.some(l => l.toLowerCase().includes(t))`. */
  function SomeLocationIncludes(locations: seq<string>, t: string): (r: bool)
    ensures r <==> exists i :: 0 <= i < |locations| && Includes(Lower(locations[i]), t)
  {
    if locations == [] then false
    else Includes(Lower(locations[0]), t) || SomeLocationIncludes(locations[1..], t)
  }

  /** The filter's test for one company: it holds exactly when the
      lower-cased term is a substring of the lower-cased name, of the
      lower-cased industry, or of some lower-cased location. */
  predicate Matches(c: Company, term: string): (r: bool)
    ensures r <==>
      || IsSubstring(Lower(term), Lower(c.name))
      || IsSubstring(Lower(term), Lower(c.industry))
      || exists i :: 0 <= i < |c.locations| && IsSubstring(Lower(term), Lower(c.locations[i]))
  {
    var t := Lower(term);
    Includes(Lower(c.name), t) || Includes(Lower(c.industry), t) || SomeLocationIncludes(c.locations, t)
  }

  /** `companies.filter(c => Matches(c, term))`: keeps the matching companies. */
  function Filter(companies: seq<Company>, term: string): (r: seq<Company>)
    ensures |r| <= |companies|
    ensures forall c :: c in r <==> c in companies && Matches(c, term)
  {
    if companies == [] then []
    else if Matches(companies[0], term) then [companies[0]] + Filter(companies[1..], term)
    else Filter(companies[1..], term)
  }

  /** `data?.companies.filter(...) || []`: no catalog shows nothing. */
  function FilteredCompanies(data: Option<SearchResult>, term: string): (r: seq<Company>)
    ensures data.None? ==> r == []
    ensures data.Some? ==> forall c :: c in r <==> c in data.value.companies && Matches(c, term)
  {
    match data
    case None => []
    case Some(result) => Filter(result.companies, term)
  }

  /** The filtered list keeps the catalog's order. */
  lemma {:induction false} FilterIsSubsequence(companies: seq<Company>, term: string)
    ensures IsSubsequence(Filter(companies, term), companies)
  {
    if companies != [] {
      FilterIsSubsequence(companies[1..], term);
      var r := Filter(companies, term);
      if Matches(companies[0], term) {
        assert r[0] == companies[0] && r[1..] == Filter(companies[1..], term);
      } else if r != [] {
        assert r == Filter(companies[1..], term);
      }
    }
  }

  /** Each matching company is kept as often as it occurs; the others never. */
  lemma {:induction false} FilterMultiplicity(companies: seq<Company>, term: string, c: Company)
    ensures multiset(Filter(companies, term))[c] ==
      if Matches(c, term) then multiset(companies)[c] else 0
  {
    if companies != [] {
      FilterMultiplicity(companies[1..], term, c);
      assert companies == [companies[0]] + companies[1..];
    }
  }

  /** An empty search term keeps every company, in the original order. */
  lemma {:induction false} FilterEmptyTerm(companies: seq<Company>)
    ensures Filter(companies, "") == companies
  {
    if companies != [] {
      IncludesEmpty(Lower(companies[0].name));
      FilterEmptyTerm(companies[1..]);
    }
  }

  /** With a catalog and an empty search term the whole catalog is shown. */
  lemma FilteredCompaniesEmptyTerm(result: SearchResult)
    ensures FilteredCompanies(Some(result), "") == result.companies
  {
    FilterEmptyTerm(result.companies);
  }

  /** Matching ignores case: terms with the same lower-cased form filter alike. */
  lemma {:induction false} FilterCaseInsensitive(companies: seq<Company>, t1: string, t2: string)
    requires Lower(t1) == Lower(t2)
    ensures Filter(companies, t1) == Filter(companies, t2)
  {
    if companies != [] {
      FilterCaseInsensitive(companies[1..], t1, t2);
    }
  }

  /** Filtering by the lower-cased term is filtering by the term itself:
      in particular "SRE", "sre" and "Sre" give the same result. */
  lemma FilterLowerTerm(companies: seq<Company>, term: string)
    ensures Filter(companies, Lower(term)) == Filter(companies, term)
  {
    LowerIdempotent(term);
    FilterCaseInsensitive(companies, Lower(term), term);
  }

  /** Filtering a filtered list again by the same term changes nothing. */
  lemma {:induction false} FilterIdempotent(companies: seq<Company>, term: string)
    ensures Filter(Filter(companies, term), term) == Filter(companies, term)
  {
    if companies != [] {
      FilterIdempotent(companies[1..], term);
      if Matches(companies[0], term) {
        var r := Filter(companies, term);
        assert r[0] == companies[0] && r[1..] == Filter(companies[1..], term);
      }
    }
  }
}
