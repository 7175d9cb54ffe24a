/** The part of `geocode_property` that is not HTTP: the search service is
    an oracle from a query string to the list of matches it returns, and the
    client keeps the first match or reports that there was none. */
module Geocoder {
  import opened Wrappers

  /** One search match, as the JSON object the service returns. Only the
      keys the script reads are kept; each may be absent (`dict.get` gives
      `None`). `type` and `class` are renamed because they are Dafny keywords. */
  datatype Place = Place(
    name: Option<string>,
    displayName: Option<string>,
    lat: Option<string>,
    lon: Option<string>,
    placeType: Option<string>,
    placeClass: Option<string>)

  /** The search service, with country filter and timeout fixed for the run:
      the decoded JSON list of matches for a query. */
  type Oracle = string -> seq<Place>

  /** `GeocodingError`, raised when the service finds nothing for a query. */
  datatype GeocodingError = NoResults(query: string)

  const MessagePrefix: string := "No results for '"
  const MessageSuffix: string := "'."

  /** The text of the error, `f"No results for '{name}'."`. */
  function Message(e: GeocodingError): (m: string)
    ensures |m| == |MessagePrefix| + |e.query| + |MessageSuffix|
    ensures m[..|MessagePrefix|] == "No results for '"
    ensures m[|m| - |MessageSuffix|..] == "'."
  {
    MessagePrefix + e.query + MessageSuffix
  }

  /** The query named in an error message. */
  function QueryOfMessage(m: string): string
    requires |m| >= |MessagePrefix| + |MessageSuffix|
  {
    m[|MessagePrefix|..|m| - |MessageSuffix|]
  }

  /** The error message names the query it is about, so distinct failing
      queries give distinct diagnostics. */
  lemma MessageNamesQuery(e: GeocodingError)
    ensures QueryOfMessage(Message(e)) == e.query
  {
  }

  /** Whether the service finds at least one match for `name`. */
  predicate Resolves(oracle: Oracle, name: string) {
    |oracle(name)| > 0
  }

  /** `if not results: raise GeocodingError(...)`, else `results[0]`. */
  function SelectFirst(name: string, response: seq<Place>): (r: Result<Place, GeocodingError>)
    ensures r.Success? <==> response != []
    ensures r.Success? ==> r.value == response[0]
    ensures r.Failure? ==> r.error.query == name
  {
    if response == [] then Failure(NoResults(name)) else Success(response[0])
  }

  /** `geocode_property(name)` with the HTTP exchange replaced by the oracle:
      succeeds exactly when the service has a match, with the top match. */
  function GeocodeProperty(oracle: Oracle, name: string): (r: Result<Place, GeocodingError>)
    ensures r.Success? <==> Resolves(oracle, name)
    ensures r.Success? ==> r.value == oracle(name)[0] && r.value in oracle(name)
    ensures r.Failure? ==> r.error == NoResults(name)
  {
    SelectFirst(name, oracle(name))
  }
}
