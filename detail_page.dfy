/** src/pages/Detail.tsx: the effect that requests a country when the route's
    code changes, and the screen one render produces. The population's
    locale formatting and the markup are not modelled. */
module DetailPage {
  import opened Wrappers
  import opened JsRuntime
  import opened CountryTypes
  import CountryMapper
  import CountryHooks

  /** The separator of every list on the page. */
  const LIST_SEPARATOR: string := ", "

  /** The text shown for an absent value. */
  const DASH: string := CountryMapper.EM_DASH

  /** The route's `code` parameter meets the effect's `if (!code) return`. */
  predicate ShouldRequest(code: Option<string>, lastId: Option<string>) {
    Truthy(code) && lastId != code
  }

  /** The effect of the detail page and the `lastIdRef` it keeps, driving
      the page's detail hook. */
  class DetailEffect {
    /** `lastIdRef.current`. */
    var lastId: Option<string>
    /** The hook whose `getCountryDetail` the effect calls. */
    const hook: CountryHooks.CountryDetailHook

    /** The first render: the ref starts as `null`. */
    constructor (hook: CountryHooks.CountryDetailHook)
      ensures this.hook == hook && lastId == None
    {
      this.hook := hook;
      lastId := None;
    }

    /** One run of the effect with the current `code`. A missing or empty
        code, or the code last requested, does nothing; otherwise the ref is
        updated first and then the country is requested. */
    method Run(code: Option<string>)
      modifies this`lastId, hook
      ensures ShouldRequest(code, old(lastId)) ==> (lastId == code
        && hook.requested == old(hook.requested) + [code.value]
        && hook.loading && hook.inFlight == old(hook.inFlight) + 1
        && hook.country == old(hook.country) && hook.error == old(hook.error))
      ensures !ShouldRequest(code, old(lastId)) ==> lastId == old(lastId) && unchanged(hook)
    {
      if code.None? || code.value == "" {
        return;
      }
      if lastId == code {
        return;
      }
      lastId := code;
      hook.GetCountryDetail(code.value);
    }
  }

  /** Re-running the effect with the same code, as a development double
      mount does, requests once; going to another code and back requests
      again, because the ref holds only the last code. */
  method NavigateBackAndForth(a: string, b: string) returns (e: DetailEffect)
    requires a != "" && b != "" && a != b
    ensures fresh(e) && fresh(e.hook) && e.hook.requested == [a, b, a]
  {
    var h := new CountryHooks.CountryDetailHook();
    e := new DetailEffect(h);
    e.Run(Some(a));
    e.Run(Some(a));
    e.Run(Some(b));
    e.Run(Some(a));
  }

  /** `value || '—'`. */
  function OrDash(s: string): (r: string)
    ensures r != ""
    ensures s != "" ==> r == s
    ensures s == "" ==> r == DASH
  {
    if s != "" then s else DASH
  }

  /** `country.capital[0] ?? '—'`: only a missing first entry gives the
      dash; an empty first entry is shown as it is. */
  function CapitalText(capital: seq<string>): (r: string)
    ensures |capital| > 0 ==> r == capital[0]
    ensures |capital| == 0 ==> r == DASH
  {
    if |capital| > 0 then capital[0] else DASH
  }

  /** The values of a keyed record, in its order. */
  function Values<V>(entries: seq<(string, V)>): (vs: seq<V>)
    ensures |vs| == |entries|
    ensures forall i :: 0 <= i < |vs| ==> vs[i] == entries[i].1
  {
    if |entries| == 0 then [] else [entries[0].1] + Values(entries[1..])
  }

  /** `parts.join(', ') || '—'`. */
  function ListText(parts: seq<string>): string {
    OrDash(Join(parts, LIST_SEPARATOR))
  }

  /** A list is shown joined unless it is empty or its only entry is empty,
      and then the dash stands in. */
  lemma ListTextFallsBackIff(parts: seq<string>)
    ensures ListText(parts) == Join(parts, LIST_SEPARATOR) <==> !(|parts| == 0 || (|parts| == 1 && parts[0] == ""))
    ensures |parts| == 0 || (|parts| == 1 && parts[0] == "") ==> ListText(parts) == DASH
  {
    JoinEmptyIff(parts, LIST_SEPARATOR);
  }

  /** `c.symbol ? `${c.name} (${c.symbol})` : c.name`. */
  function CurrencyLabel(c: Currency): string {
    if Truthy(c.symbol) then c.name + " (" + c.symbol.value + ")" else c.name
  }

  /** A currency shows its bare name exactly when it has no non-empty
      symbol; otherwise the name comes first and the symbol follows in
      parentheses. */
  lemma CurrencyLabelIsNameIff(c: Currency)
    ensures CurrencyLabel(c) == c.name <==> !Truthy(c.symbol)
    ensures Truthy(c.symbol) ==> (StartsWith(CurrencyLabel(c), c.name)
      && CurrencyLabel(c)[|c.name|..] == " (" + c.symbol.value + ")")
  {
    if Truthy(c.symbol) {
      assert |CurrencyLabel(c)| > |c.name|;
      assert CurrencyLabel(c)[..|c.name|] == c.name;
    }
  }

  /** The labels of a record's currencies, in its order. */
  function CurrencyLabels(currencies: seq<(string, Currency)>): (r: seq<string>)
    ensures |r| == |currencies|
    ensures forall i :: 0 <= i < |r| ==> r[i] == CurrencyLabel(currencies[i].1)
  {
    if |currencies| == 0 then [] else [CurrencyLabel(currencies[0].1)] + CurrencyLabels(currencies[1..])
  }

  /** The external links block: present when either URL is non-empty, each
      link present when its own URL is. */
  datatype Links = Links(googleMaps: Option<string>, openStreetMaps: Option<string>)

  function LinksBlock(maps: MapLinks): (r: Option<Links>)
    ensures r.Some? <==> Truthy(maps.googleMaps) || Truthy(maps.openStreetMaps)
    ensures r.Some? ==> ((r.value.googleMaps.Some? <==> Truthy(maps.googleMaps))
      && (r.value.openStreetMaps.Some? <==> Truthy(maps.openStreetMaps)))
    ensures r.Some? && r.value.googleMaps.Some? ==> r.value.googleMaps == maps.googleMaps
    ensures r.Some? && r.value.openStreetMaps.Some? ==> r.value.openStreetMaps == maps.openStreetMaps
  {
    if Truthy(maps.googleMaps) || Truthy(maps.openStreetMaps) then
      Some(Links(if Truthy(maps.googleMaps) then maps.googleMaps else None,
                 if Truthy(maps.openStreetMaps) then maps.openStreetMaps else None))
    else None
  }

  /** The text of the details screen. */
  datatype DetailView = DetailView(
    flag: string, name: string, region: string, capital: string,
    languages: string, currencies: string, timezones: string, links: Option<Links>)

  /** What one render shows. */
  datatype Screen = Loading | ErrorScreen(message: string) | NotFound | Details(view: DetailView)

  function ViewOf(c: CountryDetail): (v: DetailView)
    ensures v.flag == c.flag && v.name == c.name && v.region == c.region
    ensures v.capital == CapitalText(c.capital)
    ensures v.languages == ListText(Values(c.languages))
    ensures v.currencies == ListText(CurrencyLabels(c.currencies))
    ensures v.timezones == ListText(c.timezones)
    ensures v.links == LinksBlock(c.maps)
  {
    DetailView(c.flag, c.name, c.region, CapitalText(c.capital),
      ListText(Values(c.languages)), ListText(CurrencyLabels(c.currencies)),
      ListText(c.timezones), LinksBlock(c.maps))
  }

  /** Loading wins over an error, an error over a missing country. */
  function Render(loading: bool, error: Option<string>, country: Option<CountryDetail>): (s: Screen)
    ensures loading ==> s == Loading
    ensures !loading && Truthy(error) ==> s == ErrorScreen(error.value)
    ensures !loading && !Truthy(error) && country.None? ==> s == NotFound
    ensures !loading && !Truthy(error) && country.Some? ==> s == Details(ViewOf(country.value))
  {
    if loading then Loading
    else if Truthy(error) then ErrorScreen(error.value)
    else if country.None? then NotFound
    else Details(ViewOf(country.value))
  }

  /** The details show exactly when nothing is loading, there is no
      non-empty error and a country is held; an error never hides behind
      a stale country. */
  lemma DetailsShownIff(loading: bool, error: Option<string>, country: Option<CountryDetail>)
    ensures Render(loading, error, country).Details? <==> !loading && !Truthy(error) && country.Some?
    ensures Render(loading, error, country).ErrorScreen? ==> Render(loading, error, country).message != ""
  {
  }

  /** The hook's state after a failed refresh of a held country renders
      the error, not the stale country. */
  lemma FailedRefreshShowsError(country: CountryDetail, e: Thrown)
    requires CountryHooks.DetailErrorMessage(e) != ""
    ensures Render(false, Some(CountryHooks.DetailErrorMessage(e)), Some(country)) == ErrorScreen(CountryHooks.DetailErrorMessage(e))
  {
  }

  /** A country just mapped, with the corrected region default, from a
      payload with only a code shows a dash in place of its capital,
      languages, currencies, timezones and region, and no links. */
  lemma MinimalCountryShowsDashes(cca3: string)
    ensures var v := ViewOf(CountryMapper.ToCountryDetailDto(CountryMapper.MinimalDetailPayload(cca3)));
      v.capital == DASH && v.languages == DASH && v.currencies == DASH
      && v.timezones == DASH && v.region == DASH && v.links.None?
  {
    CountryMapper.ToCountryDetailDtoDefaults(cca3);
    var c := CountryMapper.ToCountryDetailDto(CountryMapper.MinimalDetailPayload(cca3));
    ListTextFallsBackIff(Values(c.languages));
    ListTextFallsBackIff(CurrencyLabels(c.currencies));
    ListTextFallsBackIff(c.timezones);
  }
}
