/** The fetch-state hooks `useCountry` and `useCountryDetail`. The repository
    holds two copies of them, src/hooks/countries/useCountry.ts (used by the
    home page) and src/hooks/useCountry.ts (used by the detail page), whose
    logic is the same line for line; one class per hook models both. Each
    `useState` slot is a field, each setter call an assignment. The network
    call is not performed: a trigger records that a request was issued, and
    its completion arrives later as an outcome, applied in arrival order.
    There is no guard against a slower, older response overwriting a newer
    one. */
module CountryHooks {
  import opened Wrappers
  import opened CountryTypes
  import opened JsRuntime

  /** `err.message || 'Error'`: the list hook's error text, never empty. */
  function ListErrorMessage(e: Thrown): (m: string)
    ensures m != ""
    ensures e.ErrorObject? && e.message != "" ==> m == e.message
    ensures e.OtherValue? || e.message == "" ==> m == "Error"
  {
    if e.ErrorObject? && e.message != "" then e.message else "Error"
  }

  /** `e instanceof Error ? e.message : 'Unexpected error'`: the detail hook's
      error text, which keeps an Error's message even when it is empty. */
  function DetailErrorMessage(e: Thrown): (m: string)
    ensures e.ErrorObject? ==> m == e.message
    ensures e.OtherValue? ==> m == "Unexpected error"
  {
    match e
    case ErrorObject(msg) => msg
    case OtherValue => "Unexpected error"
  }

  /** The two hooks read a thrown value the same way except for an Error with
      an empty message, which the list hook replaces and the detail hook
      keeps, and a non-Error value, for which their fallbacks differ. */
  lemma ErrorMessagesAgreeOnNonEmptyErrors(e: Thrown)
    ensures ListErrorMessage(e) == DetailErrorMessage(e) <==> e.ErrorObject? && e.message != ""
  {
    if e.ErrorObject? && e.message == "" {
      assert ListErrorMessage(e)[0] == 'E';
    }
    if e.OtherValue? {
      assert ListErrorMessage(e)[0] == 'E' != DetailErrorMessage(e)[0];
    }
  }

  /** `useCountry()`: the full list, a loading flag and an error. */
  class CountryListHook {
    var countries: seq<Country>
    var loading: bool
    var error: Option<string>
    /** The calls made so far to `fetchCountries`. */
    var requests: nat
    /** Those calls whose promise has not yet settled. */
    var inFlight: nat
    /** Whether the effect `useEffect(() => getCountries(), [getCountries])`
        has run. */
    var effectRan: bool

    /** The state of the first render, before any effect. */
    constructor ()
      ensures countries == [] && !loading && error == None
      ensures requests == 0 && inFlight == 0 && !effectRan
    {
      countries, loading, error := [], false, None;
      requests, inFlight, effectRan := 0, 0, false;
    }

    /** A render is committed. React runs the effect when its dependency
        differs from the previous run; `getCountries` is memoised with no
        dependencies and never changes, so only the first commit (the mount)
        fetches and every later re-render fetches nothing. */
    method Commit()
      modifies this
      ensures old(effectRan) ==> unchanged(this)
      ensures !old(effectRan) ==> (effectRan && loading
        && requests == old(requests) + 1 && inFlight == old(inFlight) + 1
        && countries == old(countries) && error == old(error))
    {
      if !effectRan {
        effectRan := true;
        GetCountries();
      }
    }

    /** `getCountries()`: `setLoading(true)`, then one call to
        `fetchCountries`. */
    method GetCountries()
      modifies this
      ensures loading && requests == old(requests) + 1 && inFlight == old(inFlight) + 1
      ensures countries == old(countries) && error == old(error) && effectRan == old(effectRan)
    {
      loading := true;
      requests := requests + 1;
      inFlight := inFlight + 1;
    }

    /** `.then(setCountries)`: the list is replaced and the error is left as
        it was. */
    method Resolve(list: seq<Country>)
      modifies this`countries
      ensures countries == list
    {
      countries := list;
    }

    /** `.catch(err => setError(err.message || 'Error'))`: the list is kept. */
    method Reject(e: Thrown)
      modifies this`error
      ensures error == Some(ListErrorMessage(e))
    {
      error := Some(ListErrorMessage(e));
    }

    /** `.finally(() => setLoading(false))`. */
    method Finally()
      requires inFlight > 0
      modifies this`loading, this`inFlight
      ensures !loading && inFlight == old(inFlight) - 1
    {
      loading := false;
      inFlight := inFlight - 1;
    }

    /** One call to `fetchCountries` settles with `outcome`: exactly one of
        the list or the error changes, and loading ends false whatever the
        outcome, even if another call is still in flight. */
    method Settle(outcome: Result<seq<Country>, Thrown>)
      requires inFlight > 0
      modifies this
      ensures outcome.Success? ==> countries == outcome.value && error == old(error)
      ensures outcome.Failure? ==> countries == old(countries) && error == Some(ListErrorMessage(outcome.error))
      ensures !loading && inFlight == old(inFlight) - 1
      ensures requests == old(requests) && effectRan == old(effectRan)
    {
      match outcome {
        case Success(list) => Resolve(list);
        case Failure(e) => Reject(e);
      }
      Finally();
    }
  }

  /** `useCountryDetail()`: one country, a loading flag and an error. */
  class CountryDetailHook {
    var country: Option<CountryDetail>
    var loading: bool
    var error: Option<string>
    /** The codes passed to `fetchCountryDetail`, in order. */
    var requested: seq<string>
    /** The calls whose promise has not yet settled. */
    var inFlight: nat

    /** The state of the first render. */
    constructor ()
      ensures country == None && !loading && error == None
      ensures requested == [] && inFlight == 0
    {
      country, loading, error := None, false, None;
      requested, inFlight := [], 0;
    }

    /** `getCountryDetail(code)` up to its `await`: `setLoading(true)`, then
        one call to `fetchCountryDetail(code)`. The hook itself does not
        suppress repeated codes. */
    method GetCountryDetail(code: string)
      modifies this
      ensures loading && requested == old(requested) + [code] && inFlight == old(inFlight) + 1
      ensures country == old(country) && error == old(error)
    {
      loading := true;
      requested := requested + [code];
      inFlight := inFlight + 1;
    }

    /** After the `await` succeeds: `setCountry(data)`, `setError(null)`. */
    method Resolve(data: CountryDetail)
      modifies this`country, this`error
      ensures country == Some(data) && error == None
    {
      country := Some(data);
      error := None;
    }

    /** The `catch` branch: the error text is set and the country is kept. */
    method Reject(e: Thrown)
      modifies this`error
      ensures error == Some(DetailErrorMessage(e))
    {
      error := Some(DetailErrorMessage(e));
    }

    /** The `finally` branch: `setLoading(false)`. */
    method Finally()
      requires inFlight > 0
      modifies this`loading, this`inFlight
      ensures !loading && inFlight == old(inFlight) - 1
    {
      loading := false;
      inFlight := inFlight - 1;
    }

    /** One call to `fetchCountryDetail` settles with `outcome`. On success
        the country is replaced and the error cleared; on failure the error
        is set and the previous country stays; loading always ends false. */
    method Settle(outcome: Result<CountryDetail, Thrown>)
      requires inFlight > 0
      modifies this
      ensures outcome.Success? ==> country == Some(outcome.value) && error == None
      ensures outcome.Failure? ==> country == old(country) && error == Some(DetailErrorMessage(outcome.error))
      ensures !loading && inFlight == old(inFlight) - 1 && requested == old(requested)
    {
      match outcome {
        case Success(data) => Resolve(data);
        case Failure(e) => Reject(e);
      }
      Finally();
    }
  }

  /** Mounting fetches once, a re-render fetches nothing, and each manual
      `getCountries` fetches once more. */
  method MountRerenderRefresh() returns (h: CountryListHook)
    ensures fresh(h) && h.requests == 2 && h.loading && h.inFlight == 2
  {
    h := new CountryListHook();
    h.Commit();
    h.Commit();
    h.GetCountries();
  }

  /** A successful refresh does not clear an earlier failure's error: after
      a failed mount fetch and a successful manual one, the list is the new
      one and the old error is still there. */
  method ErrorSurvivesSuccessfulRefresh(e: Thrown, list: seq<Country>) returns (h: CountryListHook)
    ensures fresh(h) && h.countries == list && h.error == Some(ListErrorMessage(e)) && !h.loading
  {
    h := new CountryListHook();
    h.Commit();
    h.Settle(Failure(e));
    h.GetCountries();
    h.Settle(Success(list));
  }

  /** Without a staleness guard, two overlapping fetches that complete out of
      order leave the older result in place, and the first completion turns
      loading off while the other call is still in flight. */
  method OutOfOrderCompletionKeepsOlderList(older: seq<Country>, newer: seq<Country>) returns (h: CountryListHook)
    ensures fresh(h) && h.countries == older && !h.loading && h.inFlight == 0
  {
    h := new CountryListHook();
    h.Commit();
    h.GetCountries();
    h.Settle(Success(newer));
    assert !h.loading && h.inFlight == 1;
    h.Settle(Success(older));
  }

  /** A failing refresh after a successful fetch keeps the fetched country
      and shows the failure's message. */
  method FailedRefreshKeepsCountry(code: string, first: CountryDetail, e: Thrown) returns (h: CountryDetailHook)
    ensures fresh(h) && h.country == Some(first) && h.error == Some(DetailErrorMessage(e))
    ensures !h.loading && h.requested == [code, code]
  {
    h := new CountryDetailHook();
    h.GetCountryDetail(code);
    h.Settle(Success(first));
    h.GetCountryDetail(code);
    h.Settle(Failure(e));
  }
}
