# SRE Visa Hub dashboard — a Dafny model of its client-side logic

SRE Visa Hub is a browser dashboard listing companies in Amsterdam and
Luxembourg that sponsor visas for Site Reliability Engineers. Its catalog
comes from one call to a generative-search service; the rest is React
markup. This project models the four pieces of original logic:

- **Company filter** (`CompanyFilter`): the search box keeps a company when
  the lower-cased term is a substring of its lower-cased name, industry or
  one of its locations; no catalog shows nothing.
- **Load state** (`AppState.App`): the `data` / `loading` / `error` state
  that `loadData` updates around one fetch, as a class whose methods change
  those fields.
- **Reply post-processing** (`GeminiService`): how the service's reply
  becomes a `SearchResult` — the `"{}"` default for missing text, the `[]`
  default for a missing `companies` field, grounding chunks mapped to
  `{title, uri}` with defaults `"Source"` and `"#"`, `"#"` sources dropped,
  every error thrown on.
- **Countdown** (`Countdown`): the time left until the next 15:30:00.000
  UTC, split into hours, minutes and seconds, and the text shown.

Supporting modules: `Types` (the records of types.ts, `Option`, `Result`,
the fetch errors), `Text` (ASCII lower-casing, `includes`, the decimal
rendering of a non-negative integer) and `Sequences` (order-preserving
subsequences).

Inputs the model takes as parameters: the outcome of the service call
(`Result<Response, FetchError>`), JSON.parse (a function
`string -> ParseOutcome`), and the current instant (`now`, integer
milliseconds since the epoch).

The code does not sort the catalog on load, and a reply that fails to
parse is not swallowed: JSON.parse's SyntaxError, like the TypeError of a
reply that parses to `null`, is rethrown by `fetchSREJobs` and turned into
the error message by `loadData`.

## Model

| member | source | states |
|---|---|---|
| Text.Lower | App.tsx:33-35 | `toLowerCase` keeps the length and lower-cases each character (ASCII A-Z only) |
| Text.LowerIdempotent | App.tsx:33-35 | lower-casing an already lower-cased string changes nothing |
| Text.Includes | App.tsx:33-35 | `hay.includes(needle)` holds exactly when needle occurs in hay at some position |
| Text.IncludesEmpty | App.tsx:32-36 | every string includes the empty string |
| Text.DecimalString | components/CountdownTimer.tsx:25 | an integer renders as a non-empty string of digits with no leading zero |
| Text.DecimalRoundTrip | components/CountdownTimer.tsx:25 | reading the rendered digits back gives the number |
| Text.DecimalStringInjective | components/CountdownTimer.tsx:25 | different numbers render differently |
| CompanyFilter.SomeLocationIncludes | App.tsx:35 | `locations.some(...)` holds exactly when some lower-cased location includes the term |
| CompanyFilter.Matches | App.tsx:33-35 | the filter callback holds iff the lower-cased term is a substring of lower(name), of lower(industry) or of some lower(location) |
| CompanyFilter.Filter | App.tsx:32-36 | a company is in the result iff it is in the catalog and matches; the result is no longer than the catalog |
| CompanyFilter.FilteredCompanies | App.tsx:32-36 | a null catalog gives `[]`; otherwise membership is catalog-and-matches |
| CompanyFilter.FilterIsSubsequence | App.tsx:32 | the shown list is an order-preserving subsequence of `data.companies` |
| CompanyFilter.FilterMultiplicity | App.tsx:32-36 | each matching company occurs as often as in the catalog, non-matching ones never |
| CompanyFilter.FilterEmptyTerm | App.tsx:32-36 | an empty term keeps every company in the original order |
| CompanyFilter.FilteredCompaniesEmptyTerm | App.tsx:32-36 | with a catalog and an empty term the whole catalog is shown |
| CompanyFilter.FilterCaseInsensitive | App.tsx:33-35 | two terms with the same lower-cased form give the same result |
| CompanyFilter.FilterLowerTerm | App.tsx:33-35 | filtering by the lower-cased term equals filtering by the term |
| CompanyFilter.FilterIdempotent | App.tsx:32-36 | filtering the filtered list again by the same term changes nothing |
| GeminiService.OrDefault | services/geminiService.ts:69-80 | `x \|\| d` is x when x is a non-empty string, d otherwise |
| GeminiService.ReplyText | services/geminiService.ts:69 | missing or empty reply text becomes `"{}"`; other text is passed on unchanged |
| GeminiService.GroundingChunks | services/geminiService.ts:73 | no candidates, no metadata or no chunk list gives `[]`; otherwise exactly the first candidate's chunks |
| GeminiService.ToSource | services/geminiService.ts:74-76 | a non-empty title or uri is carried over; a missing or empty title becomes `"Source"`, a missing or empty uri `"#"` |
| GeminiService.MapToSources | services/geminiService.ts:74-76 | the i-th source is the i-th chunk's source |
| GeminiService.DropPlaceholders | services/geminiService.ts:77 | a source is kept iff its uri is not `"#"`; the count never grows |
| GeminiService.DropPlaceholdersMultiplicity | services/geminiService.ts:77 | each source with a real uri is kept as often as it occurs (duplicates stay); `"#"` sources never |
| GeminiService.ExtractSources | services/geminiService.ts:73-77 | no returned source has uri `"#"` or empty; at most one source per chunk |
| GeminiService.KeepLinked | services/geminiService.ts:74-77 | keeps exactly the chunks that name a real uri (the reference selection) |
| GeminiService.ExtractSourcesKeepsLinked | services/geminiService.ts:74-77 | map-then-drop equals keeping the chunks with a real uri, in order, then mapping them |
| GeminiService.DropPlaceholdersIsSubsequence | services/geminiService.ts:74-77 | returned sources keep the relative order of the chunks |
| GeminiService.SourceFromLinkedChunk | services/geminiService.ts:75-77 | each returned source comes from a chunk with a real uri and carries its title, or `"Source"` when it has none |
| GeminiService.ChunksWithoutUriDropped | services/geminiService.ts:76-77 | when no chunk has a `web.uri`, there are no sources |
| GeminiService.NoMetadataNoSources | services/geminiService.ts:73 | missing candidates or grounding metadata give `sources == []` |
| GeminiService.CompaniesOf | services/geminiService.ts:80 | `data.companies \|\| []`: the field when present, `[]` when absent or not an object, a thrown error for `null` |
| GeminiService.FetchSREJobs | services/geminiService.ts:69-85 | a failed call is rethrown unchanged, a parse error as a SyntaxError, a `null` reply as a TypeError; any other parsed reply returns exactly `{companies: data.companies \|\| [], sources}` |
| GeminiService.MissingTextNoCompanies | services/geminiService.ts:69-80 | missing or empty reply text yields a result with `companies == []` |
| GeminiService.NoCompaniesField | services/geminiService.ts:79-82 | an object without `companies` yields exactly `{companies: [], sources}` |
| Countdown.Day | components/CountdownTimer.tsx:14 | the UTC day number: `now` lies within that day's milliseconds |
| Countdown.TimeWithinDay | components/CountdownTimer.tsx:14 | milliseconds since midnight UTC, in [0, 86400000), with `t == Day(t) * 86400000 + r` |
| Countdown.SetUTCHours | components/CountdownTimer.tsx:14 | a time of day within one day keeps the UTC day and sets that time of day |
| Countdown.SetUTCDateNext | components/CountdownTimer.tsx:17 | moving to the next UTC date adds exactly one day of milliseconds |
| Countdown.NextUpdate | components/CountdownTimer.tsx:13-18 | the target has time of day 15:30:00.000 and lies in `[now, now + one day)` |
| Countdown.NextUpdateIsNext | components/CountdownTimer.tsx:13-18 | the target is on now's UTC day, or the next one when now is strictly later; no 15:30 instant lies between now and it |
| Countdown.DateStepsReachNextUpdate | components/CountdownTimer.tsx:13-18 | `setUTCHours(15, 30, 0, 0)`, then `setUTCDate(+1)` when now is strictly later, lands on the next refresh instant |
| Countdown.HoursBelowDay | components/CountdownTimer.tsx:21 | a diff under one day has at most 23 whole hours |
| Countdown.DecompositionUnique | components/CountdownTimer.tsx:21-23 | a duration has exactly one hours/minutes/seconds split with minutes and seconds below 60 |
| Countdown.DivModDecomposes | components/CountdownTimer.tsx:21-23 | floor division and remainders of a non-negative diff give that split |
| Countdown.TimeLeftText | components/CountdownTimer.tsx:25 | the text starts with the hours numeral and "h " and ends with "s" (TimeLeftTextInjective gives its partner) |
| Countdown.TimeLeftTextInjective | components/CountdownTimer.tsx:25 | the shown text determines hours, minutes and seconds |
| Countdown.CalculateTime | components/CountdownTimer.tsx:8-25 | `0 <= diff < 86400000`, hours in [0, 23], minutes and seconds in [0, 59], the split bounds hold, the text is `${h}h ${m}m ${s}s` |
| Countdown.AtRefreshInstant | components/CountdownTimer.tsx:13-25 | at exactly 15:30:00.000 UTC the diff is 0 and the text is `"0h 0m 0s"` |
| AppState.App.constructor | App.tsx:9-12 | starts with no data, not loading, no error, empty search term |
| AppState.App.BeginLoad | App.tsx:15-16 | loading becomes true and the error is cleared; the catalog is kept |
| AppState.App.Settle | App.tsx:17-24 | success replaces data; failure keeps data and sets the fixed message; loading ends false |
| AppState.App.LoadData | App.tsx:14-25 | after a successful fetch data is the result and error is null; after a failed one data is unchanged and error is the fixed message; loading is false |
| AppState.App.SetSearchTerm | App.tsx:90 | only the search term changes |
| AppState.App.FilteredCompanies | App.tsx:32-36 | the shown companies are the catalog's matching ones; none without a catalog |
| AppState.RefreshScenario | App.tsx:14-25 | a success then a failed refresh: loading is up while pending, and the first catalog stays under the error message |

## Left out

- Gemini client setup, prompt, response schema and the `generateContent` call (services/geminiService.ts:8-67): a network call; its outcome is a parameter.
- JSON.parse (services/geminiService.ts:70): a foreign parser; it is a function parameter returning `null`, an object with or without a truthy `companies` field, another value, or a syntax error. A truthy `companies` that is not an array is not modelled.
- Parsed companies are assumed well-typed, with every field of types.ts present. The response schema (services/geminiService.ts:60) requires only `name`, `website`, `visaSupport` and `sreJobs`; a company without `industry` or `locations` makes the filter (App.tsx:34-35) throw a TypeError while rendering unless the term is in its name, and that TypeError is not modelled.
- Unicode `toLowerCase` (App.tsx:33-35): `Text.Lower` changes only ASCII A-Z.
- `console.error` (services/geminiService.ts:84): logging only.
- JSX rendering, components/CompanyCard.tsx and components/JobTracker.tsx: presentation only.
- `setInterval`, `clearInterval` and `useEffect` wiring (components/CountdownTimer.tsx:28-30, App.tsx:27-30): timers and browser plumbing; `now` is a parameter.
- Countdown.CalculateTime: time values are unbounded integers; the JavaScript range limit of ±8.64e15 ms (beyond which a Date becomes NaN) is not modelled.
- Overlapping `loadData` calls settling out of order: async concurrency; `BeginLoad` and `Settle` model one fetch, and the `disabled={loading}` button guard is UI only.
- The application tracker ("apply" with URL de-duplication, newest-first order, local storage, confirm-then-clear), sorting by `isActivelyHiringToday` and name, and hiding applied jobs: no shown file implements them; `TrackerEntry` and `isActivelyHiringToday` are only declared in types.ts (the first is not part of this model; the second is a field of `Company`).
