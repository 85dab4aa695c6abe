/** src/pages/Home.tsx: how one render of the home page chooses between the
    full list and the search results, and what it shows. The hooks' state is
    taken as input; the markup is reduced to the three blocks it shows. */
module HomePage {
  import opened Wrappers
  import opened JsRuntime
  import opened CountryTypes
  import SortHook
  import CountrySearch

  /** What `useCountry()` returns. */
  datatype ListState = ListState(countries: seq<Country>, loading: bool, error: Option<string>)

  /** The fields of the search query's result the page reads: `data` is
      absent while nothing is cached under the current key. */
  datatype SearchState = SearchState(data: Option<seq<Country>>, isLoading: bool, isError: bool, error: Option<Thrown>)

  /** The main area: whether the loading line shows, the text of the error
      line if it shows, and the item list if it shows. */
  datatype View = View(loading: bool, error: Option<string>, items: Option<seq<Country>>)

  /** The fallback text when a search error carries no message. */
  const SEARCH_ERROR: string := "Search error"

  /** `query.trim().length >= 2`. */
  predicate UsingSearch(query: string) {
    Utf16Length(Trim(query)) >= 2
  }

  /** `usingSearch ? searched : allCountries`, `searched` defaulting to the
      empty list while the query has no data. */
  function BaseList(query: string, list: ListState, search: SearchState): (r: seq<Country>)
    ensures UsingSearch(query) && search.data.Some? ==> r == search.data.value
    ensures UsingSearch(query) && search.data.None? ==> r == []
    ensures !UsingSearch(query) ==> r == list.countries
  {
    if UsingSearch(query) then search.data.GetOr([]) else list.countries
  }

  /** `isSearchError ? (searchErr as Error)?.message ?? 'Search error' : null`:
      an error object's message is kept even when empty; anything else
      reads as the fallback text. */
  function SearchErrorText(search: SearchState): (r: Option<string>)
    ensures !search.isError <==> r.None?
    ensures search.isError && search.error.Some? && search.error.value.ErrorObject? ==>
      r == Some(search.error.value.message)
    ensures search.isError && !(search.error.Some? && search.error.value.ErrorObject?) ==>
      r == Some(SEARCH_ERROR)
  {
    if !search.isError then None
    else match search.error
      case Some(ErrorObject(m)) => Some(m)
      case _ => Some(SEARCH_ERROR)
  }

  /** The page's `error` value: the search error text while searching,
      the list hook's error otherwise. */
  function ErrorValue(query: string, list: ListState, search: SearchState): (e: Option<string>)
    ensures UsingSearch(query) ==> e == SearchErrorText(search)
    ensures !UsingSearch(query) ==> e == list.error
  {
    if UsingSearch(query) then SearchErrorText(search) else list.error
  }

  /** One render of the main area: `{loading && ...}`, `{error && ...}` and
      `{!loading && !error && <Items/>}`, so an empty error text shows no
      error line. */
  function Render(query: string, sortOn: bool, list: ListState, search: SearchState): (v: View)
    ensures v.loading == if UsingSearch(query) then search.isLoading else list.loading
    ensures Truthy(ErrorValue(query, list, search)) ==> v.error == ErrorValue(query, list, search)
    ensures !Truthy(ErrorValue(query, list, search)) ==> v.error == None
    ensures v.error.Some? ==> v.error.value != ""
    ensures v.items.Some? <==> !v.loading && v.error.None?
    ensures v.items.Some? ==> v.items.value == SortHook.UseSort(BaseList(query, list, search), sortOn)
  {
    var loading := if UsingSearch(query) then search.isLoading else list.loading;
    var error := ErrorValue(query, list, search);
    View(loading, if Truthy(error) then error else None,
      if !loading && !Truthy(error) then Some(SortHook.UseSort(BaseList(query, list, search), sortOn)) else None)
  }

  /** Whatever is listed is the active source, reordered by name when the
      toggle is on and left in its order otherwise, with nothing added or
      lost. */
  lemma ShownItemsArePermutationOfSource(query: string, sortOn: bool, list: ListState, search: SearchState)
    requires Render(query, sortOn, list, search).items.Some?
    ensures var shown := Render(query, sortOn, list, search).items.value;
      var base := if UsingSearch(query) then search.data.GetOr([]) else list.countries;
      multiset(shown) == multiset(base)
      && (sortOn ==> SortHook.SortedByName(shown))
      && (!sortOn ==> shown == base)
  {
    SortHook.UseSortSpec(BaseList(query, list, search), sortOn);
  }

  /** Below two characters after trimming the search state plays no part. */
  lemma BrowseIgnoresSearch(query: string, sortOn: bool, list: ListState, s1: SearchState, s2: SearchState)
    requires !UsingSearch(query)
    ensures Render(query, sortOn, list, s1) == Render(query, sortOn, list, s2)
  {
  }

  /** From two characters after trimming the full list's state plays no part. */
  lemma SearchIgnoresList(query: string, sortOn: bool, l1: ListState, l2: ListState, search: SearchState)
    requires UsingSearch(query)
    ensures Render(query, sortOn, l1, search) == Render(query, sortOn, l2, search)
  {
  }

  /** A search error whose message is empty shows no error line, and the
      (empty or stale) search results are listed instead. */
  lemma EmptySearchErrorShowsItems(query: string, sortOn: bool, list: ListState, data: Option<seq<Country>>)
    requires UsingSearch(query)
    ensures var v := Render(query, sortOn, list, SearchState(data, false, true, Some(ErrorObject(""))));
      v.error == None && v.items == Some(SortHook.UseSort(data.GetOr([]), sortOn))
  {
  }

  /** Once the debounce has settled on the trimmed query, the page searches
      exactly when the query is enabled. */
  lemma SettledSearchAgreesWithQuery(query: string, debounced: string)
    requires debounced == Trim(query)
    ensures UsingSearch(query) <==> CountrySearch.Options(debounced).enabled
  {
  }
}
