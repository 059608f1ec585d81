/** The record shapes of `src/app/models/pokemon.interface.ts`. They carry no
    behaviour; every module that models a service or component imports them. */
module Models {
  import opened Wrappers

  /** A `{ name, url }` reference as the upstream API returns it. */
  datatype NamedResource = NamedResource(name: string, url: string)

  /** One entry of the creature list. */
  datatype Pokemon = Pokemon(name: string, url: string)

  /** The body of `GET /pokemon?limit=N`. */
  datatype PokemonListResponse = PokemonListResponse(
    count: int,
    next: Option<string>,
    previous: Option<string>,
    results: seq<Pokemon>)

  /** One way of meeting a creature in one game version (`method` in the
      source is `encounterMethod` here, `method` being a Dafny keyword). The untyped
      `condition_values` array is not part of this model. */
  datatype EncounterDetail = EncounterDetail(
    chance: int,
    maxLevel: int,
    encounterMethod: NamedResource,
    minLevel: int)

  datatype VersionDetail = VersionDetail(
    encounterDetails: seq<EncounterDetail>,
    maxChance: int,
    version: NamedResource)

  /** One location area where a creature can be met. */
  datatype EncounterLocation = EncounterLocation(
    locationArea: NamedResource,
    versionDetails: seq<VersionDetail>)

  /** What the gateway hands back for one creature. */
  datatype PokemonEncounters = PokemonEncounters(
    pokemon: string,
    encounters: seq<EncounterLocation>)

  /** A navigation entry; the source's `label` is `caption` here (a Dafny keyword). */
  datatype NavigationItem = NavigationItem(caption: string, route: string, icon: Option<string>)

  datatype PaginationConfig = PaginationConfig(
    currentPage: int,
    itemsPerPage: int,
    totalItems: int)

  /** `Partial<PaginationConfig>`: each field may be left out. */
  datatype PaginationPatch = PaginationPatch(
    currentPage: Option<int>,
    itemsPerPage: Option<int>,
    totalItems: Option<int>)

  /** The one shared application state record. */
  datatype SearchState = SearchState(
    query: string,
    selectedPokemon: Option<string>,
    encounters: seq<EncounterLocation>,
    isLoading: bool,
    error: Option<string>,
    pagination: PaginationConfig)
}
