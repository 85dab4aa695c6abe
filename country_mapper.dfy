/** src/mappers/country.ts: the two total mappers from an untrusted REST
    payload to a domain record. JavaScript `??` replaces only `null` and
    `undefined`, so a present empty string is kept, never defaulted. */
module CountryMapper {
  import opened Wrappers
  import opened CountryTypes
  import UriEncoding

  /** The placeholder image used when a payload carries no flag. */
  const DEFAULT_FLAG_URL: string := "https://www.pngmart.com/files/15/Blank-Flag-Vector-PNG.png"

  /** The summary mapper's region default. */
  const REGION_NOT_SPECIFIED: string := "Region not specified"

  /** The detail mapper's name default. */
  const UNKNOWN_NAME: string := "Unknown"

  /** The detail mapper's region default: an em dash, U+2014. */
  const EM_DASH: string := "\U{2014}"

  /** The detail mapper's region default as its source text spells it: the
      three UTF-8 bytes of U+2014 read back as Windows-1252 text. */
  const EM_DASH_MISDECODED: string := "\U{E2}\U{20AC}\U{201D}"

  /** `country.name?.common`. */
  function CommonName(name: Option<NameDto>): Option<string> {
    if name.Some? then name.value.common else None
  }

  /** `country.flags?.svg ?? country.flags?.png ?? DEFAULT_FLAG_URL`: the
      vector image if there is one, else the raster image, else the
      placeholder. */
  function FlagUrl(flags: Option<FlagsDto>): (r: string)
    ensures flags.Some? && flags.value.svg.Some? ==> r == flags.value.svg.value
    ensures flags.Some? && flags.value.svg.None? && flags.value.png.Some? ==> r == flags.value.png.value
    ensures flags.None? || (flags.value.svg.None? && flags.value.png.None?) ==> r == DEFAULT_FLAG_URL
  {
    var svg := if flags.Some? then flags.value.svg else None;
    var png := if flags.Some? then flags.value.png else None;
    svg.GetOr(png.GetOr(DEFAULT_FLAG_URL))
  }

  /** The flag URL is never made up: it is one the payload supplied, or the
      placeholder; in particular it is empty only when the payload supplied an
      empty URL. */
  lemma FlagUrlIsSuppliedOrDefault(flags: Option<FlagsDto>)
    ensures var r := FlagUrl(flags);
      r == DEFAULT_FLAG_URL
      || (flags.Some? && (flags.value.svg == Some(r) || flags.value.png == Some(r)))
    ensures FlagUrl(flags) == "" ==>
      flags.Some? && (flags.value.svg == Some("") || flags.value.png == Some(""))
  {
  }

  /** `Array.isArray(x) ? x : []`. */
  function ListOrEmpty(x: Checked<seq<string>>): seq<string> {
    if x.Valid? then x.value else []
  }

  /** `toCountryDto`. */
  function ToCountryDto(c: RestCountryDto): (r: Country)
    ensures r.code == c.cca3
    ensures CommonName(c.name).Some? ==> r.name == CommonName(c.name).value
    ensures CommonName(c.name).None? ==> r.name == c.cca3
    ensures c.region.Some? ==> r.region == c.region.value
    ensures c.region.None? ==> r.region == REGION_NOT_SPECIFIED
    ensures r.flag == FlagUrl(c.flags)
  {
    Country(
      c.cca3,
      CommonName(c.name).GetOr(c.cca3),
      c.region.GetOr(REGION_NOT_SPECIFIED),
      FlagUrl(c.flags))
  }

  /** The summary payload the API sends for a country, its flag given as a
      vector image. */
  function SummaryPayload(x: Country): RestCountryDto {
    RestCountryDto(x.code, Some(NameDto(Some(x.name))), Some(x.region), Some(FlagsDto(Some(x.flag), None)))
  }

  /** Mapping loses nothing the payload supplied: mapping the payload of a
      country gives that country back. */
  lemma ToCountryDtoInvertsPayload(x: Country)
    ensures ToCountryDto(SummaryPayload(x)) == x
  {
  }

  /** A payload with only a code maps to the code as name, the unspecified
      region and the placeholder flag. */
  lemma ToCountryDtoDefaults(cca3: string, name: Option<NameDto>)
    requires CommonName(name).None?
    ensures ToCountryDto(RestCountryDto(cca3, name, None, None))
      == Country(cca3, cca3, REGION_NOT_SPECIFIED, DEFAULT_FLAG_URL)
  {
  }

  /** The detail mapper with its region default as a parameter: the source
      and its test disagree on that one constant. */
  function MapDetail(c: RestCountryDetailDto, regionDefault: string): CountryDetail {
    CountryDetail(
      c.cca3,
      CommonName(c.name).GetOr(UNKNOWN_NAME),
      c.region.GetOr(regionDefault),
      ListOrEmpty(c.capital),
      if c.population.Valid? then c.population.value else 0,
      c.languages.GetOr([]),
      c.currencies.GetOr([]),
      ListOrEmpty(c.timezones),
      FlagUrl(c.flags),
      MapLinks(
        if c.maps.Some? then c.maps.value.googleMaps else None,
        if c.maps.Some? then c.maps.value.openStreetMaps else None))
  }

  /** `toCountryDetailDto`, with the em dash as region default. */
  function ToCountryDetailDto(c: RestCountryDetailDto): (r: CountryDetail)
    ensures r.code == c.cca3
    ensures CommonName(c.name).Some? ==> r.name == CommonName(c.name).value
    ensures CommonName(c.name).None? ==> r.name == UNKNOWN_NAME
    ensures c.region.Some? ==> r.region == c.region.value
    ensures c.region.None? ==> r.region == EM_DASH
    ensures r.capital == (if c.capital.Valid? then c.capital.value else [])
    ensures r.population == (if c.population.Valid? then c.population.value else 0)
    ensures c.languages.Some? ==> r.languages == c.languages.value
    ensures c.languages.None? ==> r.languages == []
    ensures c.currencies.Some? ==> r.currencies == c.currencies.value
    ensures c.currencies.None? ==> r.currencies == []
    ensures r.timezones == (if c.timezones.Valid? then c.timezones.value else [])
    ensures r.flag == FlagUrl(c.flags)
    ensures c.maps.Some? ==> r.maps == c.maps.value
    ensures c.maps.None? ==> r.maps == MapLinks(None, None)
  {
    MapDetail(c, EM_DASH)
  }

  /** `toCountryDetailDto` exactly as its source text reads, with the
      misdecoded region default. */
  function ToCountryDetailDtoAsWritten(c: RestCountryDetailDto): (r: CountryDetail)
    ensures r == ToCountryDetailDto(c).(region := c.region.GetOr(EM_DASH_MISDECODED))
    ensures c.region.Some? ==> r == ToCountryDetailDto(c)
    ensures c.region.None? ==> r.region == EM_DASH_MISDECODED
  {
    MapDetail(c, EM_DASH_MISDECODED)
  }

  /** The payload with only a code (`{ cca3 }`). */
  function MinimalDetailPayload(cca3: string): RestCountryDetailDto {
    RestCountryDetailDto(cca3, None, None, Missing, Missing, None, None, Missing, None, None)
  }

  /** Every field of a minimal payload takes its documented default; the map
      links stay undefined. */
  lemma ToCountryDetailDtoDefaults(cca3: string)
    ensures ToCountryDetailDto(MinimalDetailPayload(cca3))
      == CountryDetail(cca3, UNKNOWN_NAME, EM_DASH, [], 0, [], [], [], DEFAULT_FLAG_URL, MapLinks(None, None))
  {
  }

  /** A value of the wrong type in a checked field is treated as a missing one. */
  lemma ToCountryDetailDtoIgnoresWrongTypes(c: RestCountryDetailDto)
    ensures ToCountryDetailDto(c.(capital := WrongType, population := WrongType, timezones := WrongType))
      == ToCountryDetailDto(c.(capital := Missing, population := Missing, timezones := Missing))
  {
  }

  /** The detail payload the API sends for a record, its flag as a vector
      image. */
  function DetailPayload(x: CountryDetail): RestCountryDetailDto {
    RestCountryDetailDto(
      x.code, Some(NameDto(Some(x.name))), Some(x.region), Valid(x.capital), Valid(x.population),
      Some(x.languages), Some(x.currencies), Valid(x.timezones), Some(FlagsDto(Some(x.flag), None)),
      Some(x.maps))
  }

  /** Mapping the payload of a detail record gives that record back. */
  lemma ToCountryDetailDtoInvertsPayload(x: CountryDetail)
    ensures ToCountryDetailDto(DetailPayload(x)) == x
  {
  }

  /** The Windows-1252 reading of one byte: the printable characters that
      code page puts at 0x80-0x9F, Latin-1 elsewhere (the five unassigned
      bytes read as the C1 control of the same number). */
  function Windows1252(b: int): char
    requires 0 <= b < 256
  {
    if b < 0x80 || b >= 0xA0 then b as char
    else
      [ '\U{20AC}', '\U{81}', '\U{201A}', '\U{192}', '\U{201E}', '\U{2026}', '\U{2020}', '\U{2021}',
        '\U{2C6}', '\U{2030}', '\U{160}', '\U{2039}', '\U{152}', '\U{8D}', '\U{17D}', '\U{8F}',
        '\U{90}', '\U{2018}', '\U{2019}', '\U{201C}', '\U{201D}', '\U{2022}', '\U{2013}', '\U{2014}',
        '\U{2DC}', '\U{2122}', '\U{161}', '\U{203A}', '\U{153}', '\U{9D}', '\U{17E}', '\U{178}' ][b - 0x80]
  }

  /** Text saved as UTF-8 and read back as Windows-1252. */
  function Utf8ReadAsWindows1252(s: string): string {
    if s == [] then []
    else
      var bytes := UriEncoding.Utf8(s[0]);
      seq(|bytes|, i requires 0 <= i < |bytes| => Windows1252(bytes[i])) + Utf8ReadAsWindows1252(s[1..])
  }

  /** The region default in the mapper's source is the em dash saved as
      UTF-8 and read back as Windows-1252, so a payload without a region
      gets three characters where the mapper's test expects the em dash;
      the corrected mapper gives the em dash. */
  lemma RegionDefaultAsWrittenMissesTest()
    ensures EM_DASH_MISDECODED == Utf8ReadAsWindows1252(EM_DASH)
    ensures ToCountryDetailDtoAsWritten(MinimalDetailPayload("XXX")).region != "—"
    ensures ToCountryDetailDto(MinimalDetailPayload("XXX")).region == "—"
  {
    var bytes := UriEncoding.Utf8(EM_DASH[0]);
    assert bytes == [0xE2, 0x80, 0x94];
    assert Utf8ReadAsWindows1252(EM_DASH[1..]) == [];
    assert EM_DASH_MISDECODED[0] != '—';
  }
}
