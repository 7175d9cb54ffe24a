/** The row mapping of `write_results_csv`: each match becomes a dict keyed
    by the six header columns, and `csv.DictWriter` lays it out in header
    order. Quoting, escaping and the printing of `None` as an empty cell are
    the CSV library's and are not modelled: a cell is the Python value. */
module CsvRows {
  import opened Wrappers
  import opened Geocoder

  /** The header row, in order. */
  const Fieldnames: seq<string> := ["query", "display_name", "latitude", "longitude", "type", "class"]

  /** A cell value: `None` or a string. */
  type Cell = Option<string>

  /** Python truthiness of an optional string: present and non-empty. */
  predicate Truthy(v: Cell) {
    v.Some? && v.value != ""
  }

  /** `item.get("name") or item.get("display_name")`. */
  function QueryValue(p: Place): (v: Cell)
    ensures v == p.name || v == p.displayName
    ensures Truthy(v) <==> Truthy(p.name) || Truthy(p.displayName)
  {
    if Truthy(p.name) then p.name else p.displayName
  }

  /** The dict passed to `writer.writerow`. Its keys are exactly the header
      columns, so `DictWriter` neither rejects it for extra keys nor fills
      in a missing one. */
  function RowDict(p: Place): (row: map<string, Cell>)
    ensures row.Keys == set c | c in Fieldnames
  {
    map[
      "query" := QueryValue(p),
      "display_name" := p.displayName,
      "latitude" := p.lat,
      "longitude" := p.lon,
      "type" := p.placeType,
      "class" := p.placeClass]
  }

  /** What `DictWriter.writerow` emits: the dict's values in header order. */
  function Cells(p: Place): (cells: seq<Cell>)
    ensures |cells| == |Fieldnames|
  {
    var row := RowDict(p);
    seq(|Fieldnames|, i requires 0 <= i < |Fieldnames| => row[Fieldnames[i]])
  }

  /** The six cells of a row, in order: the query (name, falling back to the
      display name), the display name, latitude from `lat`, longitude from
      `lon`, the place type and the place class. */
  lemma CellsInHeaderOrder(p: Place)
    ensures Cells(p) == [QueryValue(p), p.displayName, p.lat, p.lon, p.placeType, p.placeClass]
  {
  }

  /** The query cell is the name when the name is truthy and the display
      name otherwise; no other cell depends on the name. */
  lemma QueryFallsBackToDisplayName(p: Place, otherName: Option<string>)
    ensures Truthy(p.name) ==> Cells(p)[0] == p.name
    ensures !Truthy(p.name) ==> Cells(p)[0] == p.displayName
    ensures Cells(p)[1..] == Cells(p.(name := otherName))[1..]
  {
  }

  /** What the writer emits: the header, then one row per match in order. */
  datatype CsvDocument = CsvDocument(header: seq<string>, rows: seq<seq<Cell>>)

  /** `write_results_csv(results)` up to the CSV encoding. */
  function Render(results: seq<Place>): (doc: CsvDocument)
    ensures doc.header == Fieldnames
    ensures |doc.rows| == |results|
    ensures forall i | 0 <= i < |results| :: doc.rows[i] == Cells(results[i])
  {
    CsvDocument(Fieldnames, seq(|results|, i requires 0 <= i < |results| => Cells(results[i])))
  }

  /** A typical match with no `name` key: the query column repeats the
      display name. */
  lemma AddressWithoutName()
    ensures var p := Place(None, Some("123 Main St, Austin, TX"), Some("30.27"), Some("-97.74"),
                           Some("house"), Some("building"));
      Render([p]).rows == [[Some("123 Main St, Austin, TX"), Some("123 Main St, Austin, TX"),
                            Some("30.27"), Some("-97.74"), Some("house"), Some("building")]]
  {
    var p := Place(None, Some("123 Main St, Austin, TX"), Some("30.27"), Some("-97.74"),
                   Some("house"), Some("building"));
    CellsInHeaderOrder(p);
  }
}
