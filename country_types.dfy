/** The records of src/types/country.ts: the two domain records the UI uses
    and the two raw shapes the REST Countries API returns. */
module CountryTypes {
  import opened Wrappers

  /** A country in a list: `code` is the ISO 3166-1 alpha-3 code (`cca3`). */
  datatype Country = Country(code: string, name: string, region: string, flag: string)

  /** One currency of a country; the symbol is optional. */
  datatype Currency = Currency(name: string, symbol: Option<string>)

  /** Links to external maps; each may be undefined. */
  datatype MapLinks = MapLinks(googleMaps: Option<string>, openStreetMaps: Option<string>)

  /** The full record shown on the detail page. `languages` and `currencies`
      are JavaScript objects, whose values `Object.values` lists in insertion
      order: they are kept as ordered association lists. */
  datatype CountryDetail = CountryDetail(
    code: string,
    name: string,
    region: string,
    capital: seq<string>,
    population: int,
    languages: seq<(string, string)>,
    currencies: seq<(string, Currency)>,
    timezones: seq<string>,
    flag: string,
    maps: MapLinks)

  /** The `name` object of a payload. */
  datatype NameDto = NameDto(common: Option<string>)

  /** The `flags` object of a payload: vector and raster image URLs. */
  datatype FlagsDto = FlagsDto(svg: Option<string>, png: Option<string>)

  /** A payload field that the mapper checks at run time (`Array.isArray`,
      `typeof`): missing, present with the expected type, or present with
      some other type. */
  datatype Checked<T> = Missing | Valid(value: T) | WrongType

  /** The summary payload (`RestCountryDto`); the fields the mapper never
      reads are not represented. */
  datatype RestCountryDto = RestCountryDto(
    cca3: string,
    name: Option<NameDto>,
    region: Option<string>,
    flags: Option<FlagsDto>)

  /** The detail payload (`RestCountryDetailDto`). */
  datatype RestCountryDetailDto = RestCountryDetailDto(
    cca3: string,
    name: Option<NameDto>,
    region: Option<string>,
    capital: Checked<seq<string>>,
    population: Checked<int>,
    languages: Option<seq<(string, string)>>,
    currencies: Option<seq<(string, Currency)>>,
    timezones: Checked<seq<string>>,
    flags: Option<FlagsDto>,
    maps: Option<MapLinks>)
}
