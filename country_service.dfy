/** src/services/countryService.ts: the three REST operations, each split into
    a request phase (validate the argument, build the URL) and a response
    phase (check `ok`/`status`, read the parsed body, map it). The HTTP
    exchange itself is an input: a `transport` function from URL to
    response. */
module CountryService {
  import opened Wrappers
  import opened CountryTypes
  import opened JsRuntime
  import CountryMapper
  import UriEncoding

  const BASE_URL: string := "https://restcountries.com/v3.1"

  /** The fields requested for list and search results, comma-joined. */
  const SUMMARY_FIELDS: string := "name,cca3,region,flags"

  /** The fields requested for one country's detail, comma-joined. */
  const DETAIL_FIELDS: string :=
    "name,cca3,region,capital,population,languages,currencies,timezones,flags,maps"

  const NETWORK_NOT_OK: string := "Network response was not ok"
  const CODE_REQUIRED: string := "Country code is required"
  const NAME_REQUIRED: string := "Country name is required"

  /** The message thrown when a by-code lookup finds nothing. */
  function NotFoundMessage(code: string): string {
    "Country " + code + " not found"
  }

  /** A parsed JSON body: one object, an array whose elements are objects
      or `null` (`None`), or a falsy value (`null`, `false`, `0`, `""`). */
  datatype Body<T> = Object(value: T) | Array(items: seq<Option<T>>) | Falsy

  /** What `fetch` resolves to, with the body already parsed. */
  datatype Response<T> = Response(ok: bool, status: int, body: Body<T>)

  /** What an operation throws: an `Error` it raises itself, or a TypeError
      the engine raises: `.map` called on a body that is not an array, or
      `toCountryDto` reading a field of a `null` element. */
  datatype ServiceError = Raised(message: string) | NotAnArray | NullElement

  /** `countries.map(toCountryDto)`: a `null` element makes the mapper throw
      when it reads `country.cca3`; otherwise the result has the same length
      and order, each element mapped on its own. */
  function MapSummaries(items: seq<Option<RestCountryDto>>): (r: Result<seq<Country>, ServiceError>)
    ensures r.Failure? <==> exists i :: 0 <= i < |items| && items[i].None?
    ensures r.Failure? ==> r.error == NullElement
    ensures r.Success? ==> (|r.value| == |items|
      && forall i :: 0 <= i < |items| ==> items[i].Some? && r.value[i] == CountryMapper.ToCountryDto(items[i].value))
  {
    if items == [] then Success([])
    else if items[0].None? then Failure(NullElement)
    else
      var rest := MapSummaries(items[1..]);
      assert forall i :: 1 <= i < |items| ==> items[i] == items[1..][i - 1];
      if rest.Failure? then rest
      else Success([CountryMapper.ToCountryDto(items[0].value)] + rest.value)
  }

  // fetchCountries

  /** The URL `fetchCountries` requests. */
  function CountriesUrl(): string {
    BASE_URL + "/all" + "?fields=" + SUMMARY_FIELDS
  }

  /** The response phase of `fetchCountries`: any non-ok status fails with the
      network message; an ok array body is mapped element by element. */
  function CountriesResponse(resp: Response<RestCountryDto>): (r: Result<seq<Country>, ServiceError>)
    ensures !resp.ok ==> r == Failure(Raised(NETWORK_NOT_OK))
    ensures resp.ok && !resp.body.Array? ==> r == Failure(NotAnArray)
    ensures resp.ok && resp.body.Array? ==> r == MapSummaries(resp.body.items)
  {
    if !resp.ok then Failure(Raised(NETWORK_NOT_OK))
    else if resp.body.Array? then MapSummaries(resp.body.items)
    else Failure(NotAnArray)
  }

  /** `fetchCountries()`: one request to the list URL, then the response phase. */
  function FetchCountries(transport: string -> Response<RestCountryDto>): Result<seq<Country>, ServiceError> {
    CountriesResponse(transport(CountriesUrl()))
  }

  // fetchCountryDetail

  /** The request phase of `fetchCountryDetail`: an empty code fails before
      any URL is built; otherwise the URL of the code's detail. */
  function CountryDetailRequest(code: string): (r: Result<string, ServiceError>)
    ensures r.Failure? <==> code == ""
    ensures r.Failure? ==> r.error == Raised(CODE_REQUIRED)
  {
    if code == "" then Failure(Raised(CODE_REQUIRED))
    else Success(BASE_URL + "/alpha/" + UriEncoding.EncodeUriComponent(code) + "?fields=" + DETAIL_FIELDS)
  }

  /** `Array.isArray(rawData) ? rawData[0] : rawData`, with a falsy result
      (an empty array, a `null` first element, a falsy body) read as
      nothing found. */
  function FirstOrSelf(body: Body<RestCountryDetailDto>): (r: Option<RestCountryDetailDto>)
    ensures body.Object? ==> r == Some(body.value)
    ensures body.Array? && |body.items| > 0 ==> r == body.items[0]
    ensures (body.Array? && |body.items| == 0) || body.Falsy? ==> r == None
  {
    match body
    case Object(v) => Some(v)
    case Array(items) => if |items| > 0 then items[0] else None
    case Falsy => None
  }

  /** The response phase of `fetchCountryDetail`: every non-ok status, 404
      included, fails with the network message; an ok body with no country
      fails naming the code; otherwise the one country found is mapped. */
  function CountryDetailResponse(code: string, resp: Response<RestCountryDetailDto>): (r: Result<CountryDetail, ServiceError>)
    ensures !resp.ok ==> r == Failure(Raised(NETWORK_NOT_OK))
    ensures resp.ok && FirstOrSelf(resp.body).None? ==> r == Failure(Raised(NotFoundMessage(code)))
    ensures resp.ok && FirstOrSelf(resp.body).Some? ==>
      r == Success(CountryMapper.ToCountryDetailDto(FirstOrSelf(resp.body).value))
  {
    if !resp.ok then Failure(Raised(NETWORK_NOT_OK))
    else
      var raw := FirstOrSelf(resp.body);
      if raw.None? then Failure(Raised(NotFoundMessage(code)))
      else Success(CountryMapper.ToCountryDetailDto(raw.value))
  }

  /** `fetchCountryDetail(code)`. */
  function FetchCountryDetail(code: string, transport: string -> Response<RestCountryDetailDto>): Result<CountryDetail, ServiceError> {
    match CountryDetailRequest(code)
    case Failure(e) => Failure(e)
    case Success(url) => CountryDetailResponse(code, transport(url))
  }

  // fetchCountriesByName

  /** The request phase of `fetchCountriesByName`. */
  function CountriesByNameRequest(name: string): (r: Result<string, ServiceError>)
    ensures r.Failure? <==> name == ""
    ensures r.Failure? ==> r.error == Raised(NAME_REQUIRED)
  {
    if name == "" then Failure(Raised(NAME_REQUIRED))
    else Success(BASE_URL + "/name/" + UriEncoding.EncodeUriComponent(name) + "?fields=" + SUMMARY_FIELDS)
  }

  /** The response phase of `fetchCountriesByName`: status 404 means no
      match and gives an empty list, whatever `ok` says; any other non-ok
      status fails with the network message; an ok array body is mapped. */
  function CountriesByNameResponse(resp: Response<RestCountryDto>): (r: Result<seq<Country>, ServiceError>)
    ensures resp.status == 404 ==> r == Success([])
    ensures resp.status != 404 && !resp.ok ==> r == Failure(Raised(NETWORK_NOT_OK))
    ensures resp.status != 404 && resp.ok && !resp.body.Array? ==> r == Failure(NotAnArray)
    ensures resp.status != 404 && resp.ok && resp.body.Array? ==> r == MapSummaries(resp.body.items)
  {
    if resp.status == 404 then Success([])
    else if !resp.ok then Failure(Raised(NETWORK_NOT_OK))
    else if resp.body.Array? then MapSummaries(resp.body.items)
    else Failure(NotAnArray)
  }

  /** `fetchCountriesByName(name)`. */
  function FetchCountriesByName(name: string, transport: string -> Response<RestCountryDto>): Result<seq<Country>, ServiceError> {
    match CountriesByNameRequest(name)
    case Failure(e) => Failure(e)
    case Success(url) => CountriesByNameResponse(transport(url))
  }

  // Properties relating the phases and the operations

  /** For a code of unreserved characters, the detail URL holds the code as it is. */
  lemma CountryDetailUrlForPlainCode(code: string)
    requires code != "" && forall i :: 0 <= i < |code| ==> UriEncoding.IsUnescaped(code[i])
    ensures CountryDetailRequest(code) == Success(BASE_URL + "/alpha/" + code + "?fields=" + DETAIL_FIELDS)
  {
    UriEncoding.EncodeUnescapedIsIdentity(code);
  }

  /** For a name of unreserved characters, the search URL holds the name as it is. */
  lemma CountriesByNameUrlForPlainName(name: string)
    requires name != "" && forall i :: 0 <= i < |name| ==> UriEncoding.IsUnescaped(name[i])
    ensures CountriesByNameRequest(name) == Success(BASE_URL + "/name/" + name + "?fields=" + SUMMARY_FIELDS)
  {
    UriEncoding.EncodeUnescapedIsIdentity(name);
  }

  /** `x` can be cut back out of `p + x + q + s`. */
  lemma CutMiddle(p: string, x: string, y: string, q: string, s: string)
    requires p + x + q + s == p + y + q + s
    ensures x == y
  {
    var u := p + x + q + s;
    assert |x| == |y|;
    assert x == u[|p|..|p| + |x|];
  }

  /** The detail URL determines the code it was built from. */
  lemma CountryDetailUrlDeterminesCode(a: string, b: string)
    requires CountryDetailRequest(a).Success? && CountryDetailRequest(a) == CountryDetailRequest(b)
    ensures a == b
  {
    CutMiddle(BASE_URL + "/alpha/", UriEncoding.EncodeUriComponent(a), UriEncoding.EncodeUriComponent(b),
      "?fields=", DETAIL_FIELDS);
    UriEncoding.EncodeInjective(a, b);
  }

  /** The search URL determines the name it was built from. */
  lemma CountriesByNameUrlDeterminesName(a: string, b: string)
    requires CountriesByNameRequest(a).Success? && CountriesByNameRequest(a) == CountriesByNameRequest(b)
    ensures a == b
  {
    CutMiddle(BASE_URL + "/name/", UriEncoding.EncodeUriComponent(a), UriEncoding.EncodeUriComponent(b),
      "?fields=", SUMMARY_FIELDS);
    UriEncoding.EncodeInjective(a, b);
  }

  /** An empty code fails before any request: the result does not depend on
      the transport at all. */
  lemma EmptyCodeNeedsNoRequest(t1: string -> Response<RestCountryDetailDto>, t2: string -> Response<RestCountryDetailDto>)
    ensures FetchCountryDetail("", t1) == FetchCountryDetail("", t2) == Failure(Raised(CODE_REQUIRED))
  {
  }

  /** An empty name fails before any request. */
  lemma EmptyNameNeedsNoRequest(t1: string -> Response<RestCountryDto>, t2: string -> Response<RestCountryDto>)
    ensures FetchCountriesByName("", t1) == FetchCountriesByName("", t2) == Failure(Raised(NAME_REQUIRED))
  {
  }

  /** The detail endpoint's two body shapes agree: an array is read through
      its first element, so `[x, ...]` and the bare object `x` give the same
      result. */
  lemma ArrayBodyReadsFirstElement(code: string, status: int, x: RestCountryDetailDto, rest: seq<Option<RestCountryDetailDto>>)
    ensures CountryDetailResponse(code, Response(true, status, Array([Some(x)] + rest)))
      == CountryDetailResponse(code, Response(true, status, Object(x)))
      == Success(CountryMapper.ToCountryDetailDto(x))
  {
  }

  /** Searching and listing read a response the same way except at status
      404: there the search gives an empty list where the list operation
      fails. */
  lemma SearchDiffersFromListOnlyAt404(resp: Response<RestCountryDto>)
    ensures resp.status != 404 ==> CountriesByNameResponse(resp) == CountriesResponse(resp)
    ensures resp.status == 404 && !resp.ok ==>
      CountriesByNameResponse(resp) == Success([]) && CountriesResponse(resp) == Failure(Raised(NETWORK_NOT_OK))
  {
  }

  /** The only way the detail lookup reports a missing country is an ok
      response with no country in it: a falsy body, an empty array or an
      array starting with `null`; a 404 status reads as a network error. */
  lemma NotFoundOnlyFromEmptyBody(code: string, resp: Response<RestCountryDetailDto>)
    requires CountryDetailResponse(code, resp) == Failure(Raised(NotFoundMessage(code)))
    ensures resp.ok
    ensures resp.body == Falsy || resp.body == Array([]) || (resp.body.Array? && resp.body.items[0] == None)
  {
    assert NotFoundMessage(code)[0] == 'C' != NETWORK_NOT_OK[0];
  }
}
