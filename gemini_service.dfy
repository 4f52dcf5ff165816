/** The post-processing in `fetchSREJobs` (services/geminiService.ts): how the
    generative-search reply becomes a SearchResult. The network call and
    JSON.parse are inputs: the call's outcome is a parameter and the parser a
    function parameter. */
module GeminiService {
  import opened Types
  import opened Sequences

  /** `chunk.web`: the web page a grounding chunk cites, each field optional. */
  datatype Web = Web(title: Option<string>, uri: Option<string>)

  datatype GroundingChunk = GroundingChunk(web: Option<Web>)

  datatype GroundingMetadata = GroundingMetadata(groundingChunks: Option<seq<GroundingChunk>>)

  datatype Candidate = Candidate(groundingMetadata: Option<GroundingMetadata>)

  /** The fields of the service's reply that the post-processing reads. */
  datatype Response = Response(text: Option<string>, candidates: Option<seq<Candidate>>)

  /** What JSON.parse returns, as far as reading `.companies` is concerned:
      `null` (reading a property of it throws), an object whose `companies`
      property is truthy or not, or any other value (a number, string,
      boolean or array, on which the property is undefined). */
  datatype Json =
    | JsonNull
    | JsonObject(companies: Option<seq<Company>>)
    | JsonOther

  /** JSON.parse either returns a value or throws a SyntaxError. */
  datatype ParseOutcome = Parsed(value: Json) | Unparsable(message: string)

  /** What JSON.parse does with the text "{}": an object without `companies`. */
  predicate ParsesEmptyObject(parse: string -> ParseOutcome) {
    parse("{}") == Parsed(JsonObject(None))
  }

  const EmptyObjectText: string := "{}"
  const DefaultTitle: string := "Source"
  const PlaceholderUri: string := "#"

  /** `x || d` for an optional string: `undefined` and "" are falsy. */
  function OrDefault(x: Option<string>, d: string): (r: string)
    ensures r == d || (x.Some? && r == x.value && r != "")
    ensures x.Some? && x.value != "" ==> r == x.value
  {
    if x.Some? && x.value != "" then x.value else d
  }

  /** `response.text || "{}"`: the text handed to JSON.parse. */
  function ReplyText(response: Response): (t: string)
    ensures t != ""
    ensures response.text.None? || response.text.value == "" ==> t == EmptyObjectText
    ensures response.text.Some? && response.text.value != "" ==> t == response.text.value
  {
    OrDefault(response.text, EmptyObjectText)
  }

  /** `response.candidates?.[0]?.groundingMetadata?.groundingChunks || []`. */
  function GroundingChunks(response: Response): (chunks: seq<GroundingChunk>)
    ensures response.candidates.None? || response.candidates.value == [] ==> chunks == []
    ensures chunks != [] ==>
      response.candidates.Some? && response.candidates.value != [] &&
      response.candidates.value[0].groundingMetadata.Some? &&
      response.candidates.value[0].groundingMetadata.value.groundingChunks == Some(chunks)
    ensures (response.candidates.Some? && response.candidates.value != [] &&
             response.candidates.value[0].groundingMetadata.Some?) ==>
      chunks == match response.candidates.value[0].groundingMetadata.value.groundingChunks
        case None => []
        case Some(cs) => cs
  {
    match response.candidates
    case None => []
    case Some(cands) =>
      if cands == [] then []
      else match cands[0].groundingMetadata
        case None => []
        case Some(meta) =>
          match meta.groundingChunks
          case None => []
          case Some(chunks) => chunks
  }

  /** The `title` of the page a chunk cites, if any. */
  function ChunkTitle(chunk: GroundingChunk): Option<string> {
    if chunk.web.Some? then chunk.web.value.title else None
  }

  /** The `uri` of the page a chunk cites, if any. */
  function ChunkUri(chunk: GroundingChunk): Option<string> {
    if chunk.web.Some? then chunk.web.value.uri else None
  }

  /** `{ title: chunk.web?.title || 'Source', uri: chunk.web?.uri || '#' }`. */
  function ToSource(chunk: GroundingChunk): (s: Source)
    ensures s.title != "" && s.uri != ""
    ensures (ChunkTitle(chunk).None? || ChunkTitle(chunk).value == "") ==> s.title == DefaultTitle
    ensures (ChunkUri(chunk).None? || ChunkUri(chunk).value == "") ==> s.uri == PlaceholderUri
    ensures ChunkTitle(chunk).Some? && ChunkTitle(chunk).value != "" ==> s.title == ChunkTitle(chunk).value
    ensures ChunkUri(chunk).Some? && ChunkUri(chunk).value != "" ==> s.uri == ChunkUri(chunk).value
  {
    Source(OrDefault(ChunkTitle(chunk), DefaultTitle), OrDefault(ChunkUri(chunk), PlaceholderUri))
  }

  /** `chunks.map(ToSource)`. */
  function MapToSources(chunks: seq<GroundingChunk>): (r: seq<Source>)
    ensures |r| == |chunks|
    ensures forall i :: 0 <= i < |chunks| ==> r[i] == ToSource(chunks[i])
  {
    seq(|chunks|, i requires 0 <= i < |chunks| => ToSource(chunks[i]))
  }

  /** `.filter(s => s.uri !== '#')`. */
  function DropPlaceholders(sources: seq<Source>): (r: seq<Source>)
    ensures |r| <= |sources|
    ensures forall s :: s in r <==> s in sources && s.uri != PlaceholderUri
  {
    if sources == [] then []
    else if sources[0].uri != PlaceholderUri then [sources[0]] + DropPlaceholders(sources[1..])
    else DropPlaceholders(sources[1..])
  }

  /** The citation list: each chunk mapped to a source, placeholders dropped. */
  function ExtractSources(chunks: seq<GroundingChunk>): (r: seq<Source>)
    ensures |r| <= |chunks|
    ensures forall s :: s in r ==> s.uri != PlaceholderUri && s.uri != ""
  {
    DropPlaceholders(MapToSources(chunks))
  }

  /** `data.companies || []`; reading a property of `null` throws. */
  function CompaniesOf(data: Json): (r: Result<seq<Company>, FetchError>)
    ensures r.Failure? <==> data.JsonNull?
    ensures data.JsonObject? && data.companies.Some? ==> r == Success(data.companies.value)
    ensures data.JsonOther? || (data.JsonObject? && data.companies.None?) ==> r == Success([])
  {
    match data
    case JsonNull => Failure(NullPropertyAccess)
    case JsonObject(companies) => Success(if companies.Some? then companies.value else [])
    case JsonOther => Success([])
  }

  /** The body of `fetchSREJobs` after the service call: parse the text,
      collect the sources, assemble the result; any error, from the call or
      from the parsing, is thrown on unchanged. */
  function FetchSREJobs(call: Result<Response, FetchError>, parse: string -> ParseOutcome): (r: Result<SearchResult, FetchError>)
    ensures call.Failure? ==> r == Failure(call.error)
    ensures call.Success? && parse(ReplyText(call.value)).Unparsable? ==>
      r == Failure(SyntaxError(parse(ReplyText(call.value)).message))
    ensures r.Success? ==>
      && call.Success?
      && parse(ReplyText(call.value)).Parsed?
      && r.value.sources == ExtractSources(GroundingChunks(call.value))
      && CompaniesOf(parse(ReplyText(call.value)).value) == Success(r.value.companies)
    ensures call.Success? && parse(ReplyText(call.value)).Parsed? && !parse(ReplyText(call.value)).value.JsonNull? ==>
      r == Success(SearchResult(
        CompaniesOf(parse(ReplyText(call.value)).value).value,
        ExtractSources(GroundingChunks(call.value))))
    ensures call.Success? && parse(ReplyText(call.value)) == Parsed(JsonNull) ==> r == Failure(NullPropertyAccess)
  {
    match call
    case Failure(e) => Failure(e)
    case Success(response) =>
      match parse(ReplyText(response))
      case Unparsable(message) => Failure(SyntaxError(message))
      case Parsed(data) =>
        var sources := ExtractSources(GroundingChunks(response));
        match CompaniesOf(data)
        case Failure(e) => Failure(e)
        case Success(companies) => Success(SearchResult(companies, sources))
  }

  /** Mapping then dropping placeholders equals first keeping the chunks whose
      uri is a real link and then mapping them. */
  predicate HasLink(chunk: GroundingChunk) {
    ChunkUri(chunk).Some? && ChunkUri(chunk).value != "" && ChunkUri(chunk).value != PlaceholderUri
  }

  function KeepLinked(chunks: seq<GroundingChunk>): (r: seq<GroundingChunk>)
    ensures forall c :: c in r <==> c in chunks && HasLink(c)
  {
    if chunks == [] then []
    else if HasLink(chunks[0]) then [chunks[0]] + KeepLinked(chunks[1..])
    else KeepLinked(chunks[1..])
  }

  /** A source is dropped exactly when its chunk has no usable uri; the kept
      ones come out in chunk order. */
  lemma {:induction false} ExtractSourcesKeepsLinked(chunks: seq<GroundingChunk>)
    ensures ExtractSources(chunks) == MapToSources(KeepLinked(chunks))
  {
    if chunks != [] {
      ExtractSourcesKeepsLinked(chunks[1..]);
      assert MapToSources(chunks)[1..] == MapToSources(chunks[1..]);
      var tail := KeepLinked(chunks[1..]);
      if HasLink(chunks[0]) {
        assert MapToSources([chunks[0]] + tail) == [ToSource(chunks[0])] + MapToSources(tail);
      }
    }
  }

  /** The returned sources keep the relative order of the chunks they come from. */
  lemma {:induction false} DropPlaceholdersIsSubsequence(sources: seq<Source>)
    ensures IsSubsequence(DropPlaceholders(sources), sources)
  {
    if sources != [] {
      DropPlaceholdersIsSubsequence(sources[1..]);
      var r := DropPlaceholders(sources);
      if sources[0].uri != PlaceholderUri {
        assert r[0] == sources[0] && r[1..] == DropPlaceholders(sources[1..]);
      } else if r != [] {
        assert r == DropPlaceholders(sources[1..]);
      }
    }
  }

  /** Each source with a real uri is kept as often as it occurs, so two
      chunks citing the same page give two equal sources; placeholders never. */
  lemma {:induction false} DropPlaceholdersMultiplicity(sources: seq<Source>, x: Source)
    ensures multiset(DropPlaceholders(sources))[x] ==
      if x.uri != PlaceholderUri then multiset(sources)[x] else 0
  {
    if sources != [] {
      DropPlaceholdersMultiplicity(sources[1..], x);
      assert sources == [sources[0]] + sources[1..];
    }
  }

  /** Every returned source comes from a chunk that names a real uri; its
      title is that chunk's title, or "Source" when the chunk has none. */
  lemma SourceFromLinkedChunk(chunks: seq<GroundingChunk>, s: Source)
    requires s in ExtractSources(chunks)
    ensures exists c :: (
      && c in chunks
      && HasLink(c)
      && s.uri == ChunkUri(c).value
      && s.title == (if ChunkTitle(c).Some? && ChunkTitle(c).value != "" then ChunkTitle(c).value else DefaultTitle))
  {
  }

  /** When no chunk has a web uri, there are no sources. */
  lemma {:induction false} ChunksWithoutUriDropped(chunks: seq<GroundingChunk>)
    requires forall i :: 0 <= i < |chunks| ==> ChunkUri(chunks[i]).None?
    ensures ExtractSources(chunks) == []
  {
    if chunks != [] {
      ChunksWithoutUriDropped(chunks[1..]);
      assert MapToSources(chunks)[1..] == MapToSources(chunks[1..]);
    }
  }

  /** No candidates, or a first candidate without grounding metadata, gives no sources. */
  lemma NoMetadataNoSources(response: Response)
    requires response.candidates.None? || response.candidates.value == [] ||
      response.candidates.value[0].groundingMetadata.None?
    ensures ExtractSources(GroundingChunks(response)) == []
  {
  }

  /** A reply with no text, or an empty one, is read as "{}" and so yields no companies. */
  lemma MissingTextNoCompanies(response: Response, parse: string -> ParseOutcome)
    requires ParsesEmptyObject(parse)
    requires response.text.None? || response.text.value == ""
    ensures FetchSREJobs(Success(response), parse).Success?
    ensures FetchSREJobs(Success(response), parse).value.companies == []
  {
  }

  /** A parsed object without `companies` yields an empty company list; the
      sources are still those of the grounding chunks. */
  lemma NoCompaniesField(response: Response, parse: string -> ParseOutcome)
    requires parse(ReplyText(response)).Parsed? && parse(ReplyText(response)).value.JsonObject?
    requires parse(ReplyText(response)).value.companies.None?
    ensures FetchSREJobs(Success(response), parse) ==
      Success(SearchResult([], ExtractSources(GroundingChunks(response))))
  {
  }
}
