/** src/hooks/countrySearch/useCountrySearch.ts: the debounced search term and
    the options handed to the query library. The timer is a state machine on
    a logical clock in milliseconds; the query library's caching and retry
    loop are not modelled, only the predicates and values given to it. */
module CountrySearch {
  import opened Wrappers
  import opened JsRuntime
  import CountryService
  import CountryTypes

  /** The quiet period after the last change before the term is adopted. */
  const DEBOUNCE_MS: nat := 250

  /** The shortest term, in UTF-16 code units, that is searched for. */
  const MIN_TERM_LENGTH: nat := 2

  /** `staleTime: 5 * 60 * 1000`. */
  const STALE_TIME_MS: nat := 5 * 60 * 1000

  /** `gcTime: 30 * 60 * 1000`. */
  const GC_TIME_MS: nat := 30 * 60 * 1000

  /** A scheduled `setDebounced(value)` due at `deadline`. */
  datatype Timer = Timer(value: string, deadline: nat)

  /** The `debounced` state of one mounted `useCountrySearch(name)` and the
      timer its effect keeps. */
  class Debouncer {
    /** The current `name` argument. */
    var name: string
    /** The `debounced` state. */
    var debounced: string
    /** The one timer not yet fired or cleared. */
    var pending: Option<Timer>
    /** The logical clock. */
    var now: nat
    /** Every value the timer has written to `debounced`, in order. */
    ghost var adopted: seq<string>

    /** Mounting at time `start`: `useState(name)` takes the argument as it
        is, untrimmed, so the first query is not delayed; the mount effect
        then schedules its trimmed form. */
    constructor (name0: string, start: nat)
      ensures name == name0 && debounced == name0 && now == start && adopted == []
      ensures pending == Some(Timer(Trim(name0), start + DEBOUNCE_MS))
    {
      name, debounced, now, adopted := name0, name0, start, [];
      pending := Some(Timer(Trim(name0), start + DEBOUNCE_MS));
    }

    /** A render with argument `newName`. The effect depends on `name` only:
        when it changed, the cleanup clears the pending timer and a new one
        is set for `newName.trim()` 250 ms from now; otherwise nothing
        happens. */
    method Render(newName: string)
      modifies this
      ensures name == newName && debounced == old(debounced) && now == old(now) && adopted == old(adopted)
      ensures newName != old(name) ==> pending == Some(Timer(Trim(newName), now + DEBOUNCE_MS))
      ensures newName == old(name) ==> pending == old(pending)
    {
      if newName != name {
        name := newName;
        pending := Some(Timer(Trim(newName), now + DEBOUNCE_MS));
      }
    }

    /** The clock moves to `t`; the pending timer fires if it is due. */
    method AdvanceTo(t: nat)
      requires t >= now
      modifies this
      ensures now == t && name == old(name)
      ensures old(pending).Some? && old(pending).value.deadline <= t ==>
        debounced == old(pending).value.value && pending == None && adopted == old(adopted) + [debounced]
      ensures old(pending).None? || old(pending).value.deadline > t ==>
        debounced == old(debounced) && pending == old(pending) && adopted == old(adopted)
    {
      now := t;
      if pending.Some? && pending.value.deadline <= t {
        debounced := pending.value.value;
        adopted := adopted + [debounced];
        pending := None;
      }
    }

    /** Unmounting runs the cleanup: the pending timer is cleared. */
    method Unmount()
      modifies this`pending
      ensures pending == None
    {
      pending := None;
    }
  }

  /** Typing a burst of values, each change less than 250 ms after the
      previous one, then pausing: no intermediate value is ever adopted, and
      the last one is adopted, trimmed, exactly once. */
  method TypeThenPause(d: Debouncer, names: seq<string>, gap: nat)
    requires |names| > 0 && gap < DEBOUNCE_MS
    requires names[0] != d.name
    requires forall i :: 0 < i < |names| ==> names[i] != names[i - 1]
    modifies d
    ensures d.name == names[|names| - 1] && d.pending == None
    ensures d.debounced == Trim(names[|names| - 1])
    ensures d.adopted == old(d.adopted) + [Trim(names[|names| - 1])]
  {
    var i := 0;
    while i < |names|
      invariant 0 <= i <= |names|
      invariant i == 0 ==> d.name == old(d.name)
      invariant i > 0 ==> (d.name == names[i - 1]
        && d.pending == Some(Timer(Trim(names[i - 1]), d.now + DEBOUNCE_MS - gap)))
      invariant d.adopted == old(d.adopted)
    {
      d.Render(names[i]);
      d.AdvanceTo(d.now + gap);
      i := i + 1;
    }
    d.AdvanceTo(d.now + DEBOUNCE_MS);
  }

  /** `enabled: debounced.length >= 2`. */
  function Enabled(debounced: string): bool {
    Utf16Length(debounced) >= MIN_TERM_LENGTH
  }

  /** `queryKey: ['countries', 'search', debounced]`. */
  function QueryKey(debounced: string): seq<string> {
    ["countries", "search", debounced]
  }

  /** Different terms are cached under different keys. */
  lemma QueryKeyInjective(a: string, b: string)
    requires QueryKey(a) == QueryKey(b)
    ensures a == b
  {
    assert QueryKey(a)[2] == a;
  }

  /** The options object given to `useQuery`; `keepPrevious` stands for
      `placeholderData: keepPreviousData`. */
  datatype QueryOptions = QueryOptions(key: seq<string>, enabled: bool, staleTimeMs: nat, gcTimeMs: nat, keepPrevious: bool)

  /** The options for a debounced term: keyed by the term, enabled from two
      UTF-16 code units, fresh for five minutes, kept for thirty, the
      previous results standing in while a new term loads. */
  function Options(debounced: string): (o: QueryOptions)
    ensures o.key == ["countries", "search", debounced]
    ensures o.enabled <==> Utf16Length(debounced) >= 2
    ensures o.staleTimeMs == 300000 && o.gcTimeMs == 1800000 && o.keepPrevious
  {
    QueryOptions(QueryKey(debounced), Enabled(debounced), STALE_TIME_MS, GC_TIME_MS, true)
  }

  /** The URL the query function requests for a term, or nothing when the
      query is disabled. An enabled term is never empty, so the service's
      empty-name check cannot fail, and the request is for the debounced
      term itself. */
  function QueryRequest(debounced: string): (url: Option<string>)
    ensures url.Some? <==> Utf16Length(debounced) >= 2
    ensures url.Some? ==> CountryService.CountriesByNameRequest(debounced) == Success(url.value)
  {
    if !Enabled(debounced) then None
    else
      var req := CountryService.CountriesByNameRequest(debounced);
      if req.Success? then Some(req.value) else None
  }

  /** A hook mounted on its own with an untrimmed blank term: `useState`
      keeps the two spaces, which count as two code units, so the first
      query is enabled and searches for them; once the mount timer fires
      the term is the trimmed, empty string and the query is disabled. */
  method BlankMountTermIsSearchedFirst(start: nat) returns (first: QueryOptions, settled: QueryOptions)
    ensures first.enabled && first.key == ["countries", "search", "  "]
    ensures !settled.enabled && settled.key == ["countries", "search", ""]
  {
    var d := new Debouncer("  ", start);
    first := Options(d.debounced);
    assert Trim("  ") == "" by {
      assert TrimStart("  ") == TrimStart(" ") == TrimStart("") == "";
    }
    d.AdvanceTo(start + DEBOUNCE_MS);
    settled := Options(d.debounced);
  }

  /** A thrown value that the retry policy treats as final. */
  predicate IsNotFound(err: Thrown) {
    err.ErrorObject? && Includes(err.message, "404")
  }

  /** `retry: (count, err) => err instanceof Error && /404/.test(err.message)
      ? false : count < 2`. */
  function Retry(count: int, err: Thrown): (again: bool)
    ensures again <==> !IsNotFound(err) && count < 2
  {
    if IsNotFound(err) then false else count < 2
  }

  /** The calls made for one query when every call fails with `err`, the
      library consulting `Retry` after each failure with the number of
      failures before it (0 for the first). */
  function AttemptsFrom(count: nat, err: Thrown): nat
    decreases if count < 2 then 2 - count else 0
  {
    1 + if Retry(count, err) then AttemptsFrom(count + 1, err) else 0
  }

  /** A "404" failure is tried once; any other failure three times in all. */
  lemma AttemptsWhenAlwaysFailing(err: Thrown)
    ensures AttemptsFrom(0, err) == if IsNotFound(err) then 1 else 3
  {
    if !IsNotFound(err) {
      assert AttemptsFrom(2, err) == 1;
      assert AttemptsFrom(1, err) == 2;
    }
  }

  /** An Error whose message starts with "404" is tried once. */
  lemma NotFoundErrorTriedOnce(m: string)
    requires StartsWith(m, "404")
    ensures AttemptsFrom(0, ErrorObject(m)) == 1
  {
    AttemptsWhenAlwaysFailing(ErrorObject(m));
  }

  /** A message without the digit 4 does not contain "404". */
  lemma {:induction false} NoFourNoNotFound(m: string)
    requires '4' !in m
    ensures !Includes(m, "404")
    decreases |m|
  {
    if |m| >= 3 {
      assert m[..3][0] == m[0];
    }
    if |m| > 0 {
      assert forall c :: c in m[1..] ==> c in m;
      NoFourNoNotFound(m[1..]);
    }
  }

  /** An error whose message lacks the digit 4 is retried. */
  lemma NoFourIsRetried(m: string, count: int)
    requires '4' !in m
    ensures Retry(count, ErrorObject(m)) == (count < 2)
  {
    NoFourNoNotFound(m);
  }

  /** The search service raises only two messages of its own. */
  lemma SearchServiceMessages(name: string, resp: CountryService.Response<CountryTypes.RestCountryDto>)
    ensures var r := CountryService.FetchCountriesByName(name, _ => resp);
      r.Failure? && r.error.Raised? ==>
        r.error.message == CountryService.NETWORK_NOT_OK || r.error.message == CountryService.NAME_REQUIRED
  {
  }

  /** Neither of those messages contains the digit 4. */
  lemma ServiceMessagesLackFour(m: string)
    requires m == CountryService.NETWORK_NOT_OK || m == CountryService.NAME_REQUIRED
    ensures '4' !in m
  {
  }

  /** The errors the search service raises itself never mention "404": a 404
      status is turned into an empty result before `ok` is checked, so the
      no-retry branch is reached only by errors from elsewhere. */
  lemma SearchServiceErrorsAreRetried(name: string, resp: CountryService.Response<CountryTypes.RestCountryDto>, count: int)
    ensures var r := CountryService.FetchCountriesByName(name, _ => resp);
      r.Failure? && r.error.Raised? ==> Retry(count, ErrorObject(r.error.message)) == (count < 2)
  {
    var r := CountryService.FetchCountriesByName(name, _ => resp);
    SearchServiceMessages(name, resp);
    if r.Failure? && r.error.Raised? {
      ServiceMessagesLackFour(r.error.message);
      NoFourIsRetried(r.error.message, count);
    }
  }
}
