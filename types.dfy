/** Data shapes shared by the dashboard: the records declared in types.ts,
    plus the option and result wrappers used for optional fields and thrown errors. */
module Types {

  /** An optional field (`field?: T`), or a value that may be `null`/`undefined`. */
  datatype Option<+T> = None | Some(value: T)

  /** The outcome of an operation that may throw. */
  datatype Result<+R, +E> = Success(value: R) | Failure(error: E)

  /** One open position of a company (types.ts, JobListing). */
  datatype JobListing = JobListing(
    title: string,
    url: string,
    location: string,
    postedDate: Option<string>,
    isNew: Option<bool>)

  /** One company of the fetched catalog (types.ts, Company). */
  datatype Company = Company(
    name: string,
    website: string,
    industry: string,
    locations: seq<string>,
    visaSupport: bool,
    relocationBenefits: string,
    sreJobs: seq<JobListing>,
    description: string,
    isActivelyHiringToday: Option<bool>,
    lastUpdated: Option<string>)

  /** A citation the search service returns with its answer. */
  datatype Source = Source(title: string, uri: string)

  /** What one fetch produces (types.ts, SearchResult): two fields and nothing else. */
  datatype SearchResult = SearchResult(companies: seq<Company>, sources: seq<Source>)

  /** The errors a fetch can throw. */
  datatype FetchError =
    | ServiceError(message: string)   // the generative-search call rejected
    | SyntaxError(message: string)    // JSON.parse refused the reply text
    | NullPropertyAccess              // reading `.companies` of a parsed `null`
}
