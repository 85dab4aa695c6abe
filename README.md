# Country browser: a Dafny model

This project models the core of a small React application. The application lists the world's countries from the REST Countries API (`https://restcountries.com/v3.1`). Users can search the list by name, sort it by name, and open one country's detail page. The model covers:

- **Service.** `fetchCountries`, `fetchCountryDetail` and `fetchCountriesByName` are each split into two phases.
  - The request phase validates the argument and builds the URL. The URL uses a concrete `encodeURIComponent` (UTF-8 percent-encoding, upper-case hex).
  - The response phase checks `ok`/`status` and reads the parsed body.
  - The HTTP exchange itself is a `transport` parameter.
- **Mappers.** `toCountryDto` and `toCountryDetailDto` turn the API's loosely typed payloads into the records the pages show, filling in defaults.
- **Fetch-state hooks.** `useCountry` and `useCountryDetail` are classes. Their fields are the `useState` slots, plus bookkeeping fields that count requests issued and still in flight and record whether the mount effect has run.
  - A request is triggered by one method, and its completion arrives later through `Settle`.
  - Completions apply in arrival order, with no staleness guard.
- **Search hook.** `useCountrySearch` has two parts:
  - A 250 ms debouncer, modelled as a class on a logical clock.
  - The options given to the query library: key, `enabled`, stale/gc times, the retry predicate, and the number of attempts that predicate allows.
- **Sort hook.** `useSort` is a stable insertion sort by name, proved sorted, a permutation and stable.
- **Home page.** One render of `Home`: which source is shown, which loading and error flags apply, and when items are listed.
- **Detail page.** The `lastIdRef` effect of `Detail` drives the detail hook. The page also renders its text: capital, joined lists, currency labels and map links.

JavaScript behaviour the code relies on is written out in `JsRuntime`, except `??`, which is `Wrappers.Option.GetOr`:

- `??` applies to `undefined`/`null` only, so empty strings are kept.
- `||` treats `""` as false (`JsRuntime.Truthy`).
- `.trim()` uses the ECMAScript white-space set.
- `.length` counts UTF-16 code units.
- `Array.prototype.join` and `/404/.test` are modelled directly.

Behaviour one might expect but the code does not have; the model follows the code:

- A list hook that ignores stale responses. The code has no such guard: an older response that arrives last wins (`CountryHooks.OutOfOrderCompletionKeepsOlderList`).
- A successful list fetch clearing an earlier error. The list hook's success path only sets the list, so the error stays (`CountryHooks.ErrorSurvivesSuccessfulRefresh`). The detail hook does clear it.
- A flag URL that is never empty. The mapper keeps an empty `svg` string, because `??` does not replace `""` (`CountryMapper.FlagUrlIsSuppliedOrDefault`).
- A 404 from the detail endpoint reported as "not found". It is reported as a network error (`CountryService.NotFoundOnlyFromEmptyBody`).

## Model

| member | source | states |
|---|---|---|
| CountryMapper.FlagUrl | src/mappers/country.ts:12 | the svg URL if present, else the png URL, else the placeholder image |
| CountryMapper.FlagUrlIsSuppliedOrDefault | src/mappers/country.ts:26 | the flag URL is one the payload supplied or the placeholder; it is empty only if the payload supplied an empty URL |
| CountryMapper.ToCountryDto | src/mappers/country.ts:8-13 | code is cca3; name is name.common, falling back to cca3; region falls back to "Region not specified"; flag as FlagUrl |
| CountryMapper.ToCountryDtoInvertsPayload | src/mappers/country.ts:8-13 | mapping the summary payload of any country returns that country unchanged |
| CountryMapper.ToCountryDtoDefaults | src/mappers/country.ts:10-12 | a payload with no usable name, region or flags gets the code as name, the unspecified region and the placeholder flag |
| CountryMapper.ToCountryDetailDto | src/mappers/country.ts:17-31 | field by field: name defaults to "Unknown", region to the em dash; capital and timezones only if arrays; population only if a number, else 0; languages and currencies default to empty; map links copied or undefined |
| CountryMapper.ToCountryDetailDtoAsWritten | src/mappers/country.ts:20 | the mapper as its source text reads: same as the corrected mapper in every field except the region default, which is the misdecoded three-character string |
| CountryMapper.ToCountryDetailDtoDefaults | src/mappers/country.ts:17-31 | a payload holding only cca3 maps to the documented defaults with both map links undefined |
| CountryMapper.ToCountryDetailDtoIgnoresWrongTypes | src/mappers/country.ts:21-25 | a capital, population or timezones value of the wrong type is treated like a missing one |
| CountryMapper.ToCountryDetailDtoInvertsPayload | src/mappers/country.ts:17-31 | mapping the detail payload of any record returns that record unchanged |
| CountryMapper.RegionDefaultAsWrittenMissesTest | src/mappers/country.ts:20 | the source's region default is the UTF-8 bytes of U+2014 read as Windows-1252; a minimal payload then gets a region other than "—", while the corrected mapper gives "—" |
| UriEncoding.Utf8 | src/services/countryService.ts:40 | a code point encodes to 1-4 bytes, each below 256, the lead byte announcing the length |
| UriEncoding.Utf8Injective | src/services/countryService.ts:40 | distinct code points have distinct UTF-8 encodings |
| UriEncoding.PercentByteInjective | src/services/countryService.ts:40 | a %XY triplet determines its byte |
| UriEncoding.PercentBytes | src/services/countryService.ts:40 | three characters per byte, the i-th triplet encoding the i-th byte, only unreserved characters or '%' |
| UriEncoding.EncodeChar | src/services/countryService.ts:40 | unreserved characters are kept; any other is the percent-encoding of its UTF-8 bytes, starting with '%' |
| UriEncoding.EncodeUriComponent | src/services/countryService.ts:40 | the result is at least as long as the input and contains only unreserved characters and '%' |
| UriEncoding.EncodeUnescapedIsIdentity | src/services/countryService.ts:65 | a string of unreserved characters is its own encoding |
| UriEncoding.EncodeCharPrefix | src/services/countryService.ts:65 | the escapes form a prefix code: if one character's escape followed by x equals another's followed by y, the characters are equal and so are x and y |
| UriEncoding.EncodeInjective | src/services/countryService.ts:40 | different strings have different encodings |
| CountryService.MapSummaries | src/services/countryService.ts:24 | fails with a TypeError exactly when some element is `null`; otherwise same length and order as the body, each element mapped by toCountryDto |
| CountryService.CountriesResponse | src/services/countryService.ts:17-24 | a non-ok response fails with "Network response was not ok"; an ok array body is mapped element by element (a `null` element throws); an ok non-array body fails as `.map` on a non-array |
| CountryService.CountryDetailRequest | src/services/countryService.ts:30-40 | fails with "Country code is required" exactly when the code is empty, before any request |
| CountryService.FirstOrSelf | src/services/countryService.ts:47-53 | an object is read as is; an array through its first element; an empty array, a `null` first element or a falsy body gives nothing |
| CountryService.CountryDetailResponse | src/services/countryService.ts:43-57 | non-ok (404 included) fails with the network message; an ok body with no country fails with "Country <code> not found"; otherwise the country mapped with the corrected region default |
| CountryService.CountriesByNameRequest | src/services/countryService.ts:61-65 | fails with "Country name is required" exactly when the name is empty |
| CountryService.CountriesByNameResponse | src/services/countryService.ts:66-73 | status 404 gives the empty list whatever `ok` says; other non-ok statuses fail; an ok array body is mapped (a `null` element throws) |
| CountryService.CountryDetailUrlForPlainCode | src/services/countryService.ts:40 | for a code of unreserved characters the URL is base + "/alpha/" + code + "?fields=" + the ten detail fields |
| CountryService.CountriesByNameUrlForPlainName | src/services/countryService.ts:65 | for a name of unreserved characters the URL is base + "/name/" + name + "?fields=name,cca3,region,flags" |
| CountryService.CountryDetailUrlDeterminesCode | src/services/countryService.ts:40 | two codes that produce the same detail URL are equal |
| CountryService.CountriesByNameUrlDeterminesName | src/services/countryService.ts:65 | two names that produce the same search URL are equal |
| CountryService.EmptyCodeNeedsNoRequest | src/services/countryService.ts:31-33 | with an empty code the result is the same for every transport: the code-required error |
| CountryService.EmptyNameNeedsNoRequest | src/services/countryService.ts:62-64 | with an empty name the result is the same for every transport: the name-required error |
| CountryService.ArrayBodyReadsFirstElement | src/services/countryService.ts:47-50 | an ok body `[x, ...]` (whatever follows x) and a bare object `x` give the same country, the mapping of x |
| CountryService.SearchDiffersFromListOnlyAt404 | src/services/countryService.ts:66-69 | the search and list response phases agree on every status except 404, where the search gives [] and the list fails |
| CountryService.NotFoundOnlyFromEmptyBody | src/services/countryService.ts:43-53 | the "not found" error arises only from an ok response whose body is falsy, an empty array or an array starting with `null` |
| JsRuntime.TrimStart | src/pages/Home.tsx:30 | removes exactly a leading run of white space: the result is a suffix not starting with white space |
| JsRuntime.TrimEnd | src/pages/Home.tsx:30 | removes exactly a trailing run of white space: the result is a prefix not ending with white space |
| JsRuntime.TrimIsCore | src/pages/Home.tsx:30 | trim returns a slice of its input bounded by white-space-only margins and with no white space at either end |
| JsRuntime.TrimIdempotent | src/hooks/countrySearch/useCountrySearch.ts:15 | trimming a trimmed string changes nothing |
| JsRuntime.Utf16Length | src/hooks/countrySearch/useCountrySearch.ts:23 | the UTF-16 length lies between the code-point count and twice it, and equals the count on the Basic Multilingual Plane |
| JsRuntime.JoinEmptyIff | src/pages/Detail.tsx:22 | with a non-empty separator the join is empty iff there are no parts or a single empty part |
| JsRuntime.IncludesIff | src/hooks/countrySearch/useCountrySearch.ts:28 | the regular-expression test holds iff the pattern occurs at some position of the message |
| SortHook.NameLeTotal | src/hooks/sort/useSort.ts:12 | any two names are comparable |
| SortHook.NameLeTransitive | src/hooks/sort/useSort.ts:12 | the name order is transitive |
| SortHook.NameLeAntisymmetric | src/hooks/sort/useSort.ts:12 | names ordered both ways are equal |
| SortHook.Insert | src/hooks/sort/useSort.ts:12 | inserting adds exactly the element (multiset) |
| SortHook.SortByName | src/hooks/sort/useSort.ts:12 | the sorted list is a permutation of the copy |
| SortHook.InsertSorted | src/hooks/sort/useSort.ts:12 | inserting into a sorted list keeps it sorted |
| SortHook.SortByNameSorted | src/hooks/sort/useSort.ts:12 | the result is ordered by name |
| SortHook.InsertStable | src/hooks/sort/useSort.ts:12 | inserting places the new element before equal-named ones already there |
| SortHook.SortByNameStable | src/hooks/sort/useSort.ts:12 | countries with the same name keep their relative order |
| SortHook.UseSortSpec | src/hooks/sort/useSort.ts:8-14 | off: the list itself; on: sorted by name, same multiset, same length, equal names in original order |
| SortHook.SortSortedIsIdentity | src/hooks/sort/useSort.ts:12 | sorting an already sorted list returns it unchanged |
| SortHook.UseSortIdempotent | src/hooks/sort/useSort.ts:8-14 | sorting the sorted list again changes nothing |
| CountryHooks.ListErrorMessage | src/hooks/countries/useCountry.ts:18 | the list hook's error text is the Error's message when non-empty, else "Error"; never empty |
| CountryHooks.DetailErrorMessage | src/hooks/useCountry.ts:35 | the detail hook's error text is an Error's message, even if empty, else "Unexpected error" |
| CountryHooks.ErrorMessagesAgreeOnNonEmptyErrors | src/hooks/useCountry.ts:14-35 | the two hooks' error texts coincide iff the thrown value is an Error with a non-empty message |
| CountryHooks.CountryListHook.constructor | src/hooks/countries/useCountry.ts:10-12 | empty list, not loading, no error, nothing requested |
| CountryHooks.CountryListHook.Commit | src/hooks/countries/useCountry.ts:22 | only the first commit runs the effect and requests; later commits change nothing |
| CountryHooks.CountryListHook.GetCountries | src/hooks/countries/useCountry.ts:14-16 | loading turns on and one more request is in flight; list and error unchanged |
| CountryHooks.CountryListHook.Resolve | src/hooks/countries/useCountry.ts:17 | the list is replaced; nothing else changes |
| CountryHooks.CountryListHook.Reject | src/hooks/countries/useCountry.ts:18 | the error text is set; the list is kept |
| CountryHooks.CountryListHook.Finally | src/hooks/countries/useCountry.ts:19 | loading turns off, one fewer call in flight |
| CountryHooks.CountryListHook.Settle | src/hooks/countries/useCountry.ts:16-19 | success replaces the list and keeps the error; failure keeps the list and sets the error; loading ends false even with calls still in flight |
| CountryHooks.CountryDetailHook.constructor | src/hooks/useCountry.ts:24-26 | no country, not loading, no error |
| CountryHooks.CountryDetailHook.GetCountryDetail | src/hooks/useCountry.ts:28-31 | loading turns on and the code is requested; no de-duplication |
| CountryHooks.CountryDetailHook.Resolve | src/hooks/useCountry.ts:31-33 | the country is set and the error cleared |
| CountryHooks.CountryDetailHook.Reject | src/hooks/useCountry.ts:34-35 | the error text is set; the country is kept |
| CountryHooks.CountryDetailHook.Finally | src/hooks/useCountry.ts:36-37 | loading turns off |
| CountryHooks.CountryDetailHook.Settle | src/hooks/useCountry.ts:28-39 | success sets the country and clears the error; failure keeps the country and sets the error; loading ends false |
| CountryHooks.MountRerenderRefresh | src/hooks/useCountry.ts:10-18 | mount, re-render and one manual refresh issue exactly two requests |
| CountryHooks.ErrorSurvivesSuccessfulRefresh | src/hooks/useCountry.ts:12-15 | after a failed fetch and a successful one, the new list shows next to the old error |
| CountryHooks.OutOfOrderCompletionKeepsOlderList | src/hooks/countries/useCountry.ts:14-20 | two overlapping fetches completing out of order leave the older list |
| CountryHooks.FailedRefreshKeepsCountry | src/hooks/countries/useCountry.ts:36-47 | a failing refetch keeps the fetched country and sets the error |
| CountrySearch.Debouncer.constructor | src/hooks/countrySearch/useCountrySearch.ts:8-17 | the term starts as the untrimmed argument; the mount effect schedules its trimmed form 250 ms later |
| CountrySearch.Debouncer.Render | src/hooks/countrySearch/useCountrySearch.ts:14-17 | a changed argument clears the old timer and schedules its trimmed form 250 ms ahead; an unchanged one changes nothing |
| CountrySearch.Debouncer.AdvanceTo | src/hooks/countrySearch/useCountrySearch.ts:15 | a due timer writes its value to the term, once; otherwise nothing changes |
| CountrySearch.Debouncer.Unmount | src/hooks/countrySearch/useCountrySearch.ts:16 | unmounting clears the pending timer |
| CountrySearch.TypeThenPause | src/hooks/countrySearch/useCountrySearch.ts:14-17 | a burst of changes less than 250 ms apart adopts only the last value, trimmed, exactly once |
| CountrySearch.BlankMountTermIsSearchedFirst | src/hooks/countrySearch/useCountrySearch.ts:8-23 | the hook mounted on its own with "  " starts with an enabled query for the two spaces; after 250 ms the term is "" and the query is disabled |
| CountrySearch.QueryKeyInjective | src/hooks/countrySearch/useCountrySearch.ts:21 | different terms are cached under different keys |
| CountrySearch.Options | src/hooks/countrySearch/useCountrySearch.ts:20-26 | key ['countries','search',term]; enabled iff the term has at least two UTF-16 units; stale after 5 min, collected after 30 min; previous data kept as placeholder |
| CountrySearch.QueryRequest | src/hooks/countrySearch/useCountrySearch.ts:22-23 | a request is made iff the query is enabled, and then the service accepts the term |
| CountrySearch.Retry | src/hooks/countrySearch/useCountrySearch.ts:27-28 | retry iff the error is not an Error mentioning 404 and fewer than two failures preceded |
| CountrySearch.AttemptsWhenAlwaysFailing | src/hooks/countrySearch/useCountrySearch.ts:27-28 | an always-failing query is tried once for a 404 error and three times otherwise |
| CountrySearch.NotFoundErrorTriedOnce | src/hooks/countrySearch/useCountrySearch.ts:27-28 | an Error whose message starts with "404" (such as "404 Not Found") is tried exactly once |
| CountrySearch.NoFourNoNotFound | src/hooks/countrySearch/useCountrySearch.ts:28 | a message without the digit 4 does not match /404/ |
| CountrySearch.NoFourIsRetried | src/hooks/countrySearch/useCountrySearch.ts:27-28 | an Error whose message lacks the digit 4 is retried while fewer than two failures preceded |
| CountrySearch.SearchServiceMessages | src/services/countryService.ts:62-69 | the only errors the search service raises itself carry the name-required or the network message |
| CountrySearch.SearchServiceErrorsAreRetried | src/services/countryService.ts:62-69 | every error the search service raises itself is retried, because a 404 status never becomes an error there |
| HomePage.BaseList | src/pages/Home.tsx:33 | searching: the search data or [] when there is none; otherwise all countries |
| HomePage.SearchErrorText | src/pages/Home.tsx:39-41 | none without a search error; an Error's message as is (even empty); otherwise "Search error" |
| HomePage.ErrorValue | src/pages/Home.tsx:39-41 | the search error text while searching, the list hook's error otherwise |
| HomePage.Render | src/pages/Home.tsx:30-73 | loading comes from the active source; the error line shows, with the error text, iff that text is non-empty; items are listed iff not loading and no error line, as useSort of the base list |
| HomePage.ShownItemsArePermutationOfSource | src/pages/Home.tsx:33-35 | listed items are a permutation of the active source, sorted when the toggle is on and identical when it is off |
| HomePage.BrowseIgnoresSearch | src/pages/Home.tsx:38-41 | below two trimmed characters the search state has no effect on the page |
| HomePage.SearchIgnoresList | src/pages/Home.tsx:33-41 | from two trimmed characters the full list's state has no effect on the page |
| HomePage.EmptySearchErrorShowsItems | src/pages/Home.tsx:39-73 | a search Error with an empty message shows no error line and lists the search data (or nothing) instead |
| HomePage.SettledSearchAgreesWithQuery | src/pages/Home.tsx:30 | once the term is the trimmed query, the page searches iff the query is enabled |
| DetailPage.DetailEffect.constructor | src/pages/Detail.tsx:8 | the ref starts empty |
| DetailPage.DetailEffect.Run | src/pages/Detail.tsx:10-15 | a missing, empty or last-requested code changes nothing; any other code is recorded and requested once |
| DetailPage.NavigateBackAndForth | src/pages/Detail.tsx:10-15 | codes a, a, b, a request a, b, a: a repeat is suppressed, a return is not |
| DetailPage.OrDash | src/pages/Detail.tsx:22-27 | the text when non-empty, else the em dash; never empty |
| DetailPage.CapitalText | src/pages/Detail.tsx:20 | the first capital, even if empty; the em dash when there is none |
| DetailPage.Values | src/pages/Detail.tsx:22 | the record's values in its order |
| DetailPage.ListTextFallsBackIff | src/pages/Detail.tsx:22-27 | a list shows joined with ", " unless it is empty or a single empty entry, and then shows the em dash |
| DetailPage.CurrencyLabelIsNameIff | src/pages/Detail.tsx:25 | a currency shows its bare name iff it has no non-empty symbol; otherwise name then " (symbol)" |
| DetailPage.CurrencyLabels | src/pages/Detail.tsx:24-25 | one label per currency, in the record's order |
| DetailPage.LinksBlock | src/pages/Detail.tsx:52-63 | the block shows iff either URL is non-empty; each link iff its own URL is, pointing at it |
| DetailPage.ViewOf | src/pages/Detail.tsx:20-63 | flag, name and region as held; capital, languages, currencies and timezones as their texts; the links block |
| DetailPage.Render | src/pages/Detail.tsx:17-19 | loading first, then a non-empty error, then "not found", then the details |
| DetailPage.DetailsShownIff | src/pages/Detail.tsx:17-19 | details show iff not loading, no non-empty error and a country is held |
| DetailPage.FailedRefreshShowsError | src/pages/Detail.tsx:18 | after a failed refetch the error screen shows, not the stale country |
| DetailPage.MinimalCountryShowsDashes | src/pages/Detail.tsx:20-27 | a country mapped (with the corrected region default) from only a code shows dashes for capital, languages, currencies, timezones and region, and no links |

## Left out

- Network I/O, JSON parsing and `fetch` rejections: the transport is a parameter, the body arrives parsed, and a rejected `fetch` or a body that does not parse is not modelled.
- Truthy non-object bodies (a number or a string) on the detail endpoint: `Body` holds an object, an array or a falsy value.
- CountryService.MapSummaries: array elements are objects or `null`; a falsy primitive element (`0`, `false`, `""`) is not modelled. On the detail endpoint it would give "not found" like `null`; in a list it would map to a country with undefined fields.
- The query library's cache, refetching, retry scheduling and `isLoading`/`isError` computation: the search state is an input to the home page; only the options, the retry predicate and the attempt count it implies are modelled.
- Retry back-off delays: attempts are counted, not timed.
- React scheduling, batching and development-mode double effects: each effect run is an explicit method call.
- Concurrency: the completions of in-flight requests are applied one at a time, in the order given.
- SortHook.NameLe: `localeCompare` is replaced by lexicographic order on code points, because locale collation is not available.
- Memoisation identity: useSort's result is compared by value; `useMemo` returning the same array reference is not modelled.
- `toLocaleString` of the population and all markup, styling, the theme context and routing.
- Floating-point and NaN populations: a population is an integer.
- The order of `Object.values` for integer-like keys: languages and currencies are ordered key-value lists, read in their given order.
- Thrown `null`/`undefined`: they would make `err.message` itself throw in the list hook; a thrown value is an Error or some other non-null value, and a non-Error value is taken to have no string `message` (the code reads `.message` by duck typing, so a non-Error object carrying a message would show it; nothing in this program throws one).
- Lone surrogates: strings are sequences of Unicode scalar values, so `encodeURIComponent`'s URIError on a lone surrogate cannot arise.
- The payload fields the mapper ignores are not part of the payload types.

## Findings

| source | as written | input that shows it | evidently intended | confidence | as-written member | corrected member |
|---|---|---|---|---|---|---|
| src/mappers/country.ts:20 | the region default is the three characters U+00E2 U+20AC U+201D, the em dash's UTF-8 bytes misread as Windows-1252 | the payload `{ cca3: "XXX" }`: the region is the three-character string, while src/mappers/country.test.tsx:14 expects "—" | the em dash U+2014 | not executed | CountryMapper.RegionDefaultAsWrittenMissesTest | CountryMapper.ToCountryDetailDtoDefaults |

The service (`CountryService.CountryDetailResponse`) and the detail page use the corrected mapper `CountryMapper.ToCountryDetailDto`; with the mapper as written, a country without a region would show the three misdecoded characters instead of a dash.
