/** The dashboard's view state (App.tsx): the last catalog, the loading flag,
    the error message and the search term, and `loadData`, which refreshes
    the catalog around one call of `fetchSREJobs`. */
module AppState {
  import opened Types
  import CompanyFilter
  import GeminiService

  /** The message shown when a fetch fails. */
  const FetchFailedMessage: string := "Failed to fetch latest SRE job data. Please try again later."

  class App {
    var data: Option<SearchResult>
    var loading: bool
    var error: Option<string>
    var searchTerm: string

    /** The initial state: no catalog, not loading, no error, empty search box. */
    constructor ()
      ensures data == None && !loading && error == None && searchTerm == ""
    {
      data := None;
      loading := false;
      error := None;
      searchTerm := "";
    }

    /** The first half of `loadData`, before the fetch settles: loading is
        raised and any earlier error cleared; the old catalog stays shown. */
    method BeginLoad()
      modifies this
      ensures loading && error == None
      ensures data == old(data) && searchTerm == old(searchTerm)
    {
      loading := true;
      error := None;
    }

    /** The second half of `loadData`, once the fetch has settled: a result
        replaces the catalog; a thrown error sets the fixed message and keeps
        the catalog; either way loading ends. */
    method Settle(outcome: Result<SearchResult, FetchError>)
      modifies this
      ensures !loading && searchTerm == old(searchTerm)
      ensures outcome.Success? ==> data == Some(outcome.value) && error == old(error)
      ensures outcome.Failure? ==> data == old(data) && error == Some(FetchFailedMessage)
    {
      match outcome {
        case Success(result) =>
          data := Some(result);
        case Failure(_) =>
          error := Some(FetchFailedMessage);
      }
      loading := false;
    }

    /** `loadData` with the service call's outcome and JSON.parse as inputs. */
    method LoadData(call: Result<GeminiService.Response, FetchError>, parse: string -> GeminiService.ParseOutcome)
      modifies this
      ensures !loading && searchTerm == old(searchTerm)
      ensures GeminiService.FetchSREJobs(call, parse).Success? ==>
        data == Some(GeminiService.FetchSREJobs(call, parse).value) && error == None
      ensures GeminiService.FetchSREJobs(call, parse).Failure? ==>
        data == old(data) && error == Some(FetchFailedMessage)
      ensures call.Failure? ==> data == old(data) && error == Some(FetchFailedMessage)
    {
      BeginLoad();
      var outcome := GeminiService.FetchSREJobs(call, parse);
      Settle(outcome);
    }

    /** The search box's `onChange`: only the term changes. */
    method SetSearchTerm(term: string)
      modifies this
      ensures searchTerm == term
      ensures data == old(data) && loading == old(loading) && error == old(error)
    {
      searchTerm := term;
    }

    /** The companies shown for the current catalog and search term. */
    function FilteredCompanies(): (r: seq<Company>)
      reads this
      ensures data.None? ==> r == []
      ensures data.Some? ==> forall c :: c in r <==> c in data.value.companies && CompanyFilter.Matches(c, searchTerm)
    {
      CompanyFilter.FilteredCompanies(data, searchTerm)
    }
  }

  /** A refresh seen from outside: while the fetch is pending the loading
      flag is up and no error shows; once it settles the flag is down, and a
      failure leaves the earlier catalog on screen under the fixed message. */
  method RefreshScenario(app: App, firstCatalog: SearchResult, failure: FetchError)
    modifies app
    ensures app.data == Some(firstCatalog) && app.error == Some(FetchFailedMessage) && !app.loading
  {
    app.BeginLoad();
    assert app.loading && app.error == None;
    app.Settle(Success(firstCatalog));
    assert !app.loading && app.data == Some(firstCatalog) && app.error == None;
    app.BeginLoad();
    assert app.loading && app.error == None && app.data == Some(firstCatalog);
    app.Settle(Failure(failure));
  }
}
