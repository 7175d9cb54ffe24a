# Property geocoder — a verified model

This project models the pure logic of `geocode_properties.py`, a command-line
script that reads property names, looks each one up with the OpenStreetMap
Nominatim search service, and writes the matches as CSV. The model covers
four parts of the script:

- **input collection** (`read_properties`). Names come from the `--file`
  file if one is given, else from the positional arguments, else from
  standard input unless it is a terminal. Every entry is stripped and blank
  entries are dropped (modules `Text` and `Input`);
- **the select-first step of `geocode_property`** (module `Geocoder`). The
  HTTP exchange is replaced by an oracle: a function from a query to the
  list of matches the service returns;
- **the cached lookup loop** (`lookup_properties`, module `LookupLoop`). Its
  state is the cache, the results, a log of requests, a count of pauses and
  the "no results" errors;
- **the row mapping of `write_results_csv`** (module `CsvRows`) and **the
  exit status of `main`** (module `Cli`).

Every file is plain Dafny and the modules import only one another.
`Wrappers` supplies `Option` and `Result`.

Behaviour of the script worth noting:

- A cache hit does not pause. The loop `continue`s before `time.sleep`. A
  pause follows every request, whether it succeeded or failed, including
  the last one.
- A name the service cannot match is not cached. It is requested again
  every time it occurs, so only names that resolve are requested once per
  run (`LookupLoop.RequestsPerName`).
- A record with no `name` gets its display name in the `query` column
  (`CsvRows.AddressWithoutName`).
- Each failed lookup writes `No results for '<name>'.` to standard error,
  and a successful run writes nothing else there (`Cli.WriterGetsAllResults`).
- `if args.properties:` tests whether the argument list is non-empty. It
  does not test whether the arguments are usable. Blank-only positional
  arguments therefore give an empty name list, and standard input is not
  read (`Input.ArgumentsWithoutFile`).

## Model

| member | source | states |
|---|---|---|
| Text.Strip | geocode_properties.py:42 | `line.strip()` leaves no leading or trailing whitespace and is empty exactly when the line is blank |
| Text.StripBounds | geocode_properties.py:45 | the stripped string is a slice of the input and everything cut off around it is whitespace |
| Text.StripUnique | geocode_properties.py:50 | any trimmed slice with only whitespace outside it is the stripped string, so the result of stripping is fully determined |
| Text.StripIdempotent | geocode_properties.py:42 | stripping an already stripped entry changes nothing |
| Input.Clean | geocode_properties.py:42 | the comprehension returns no more names than lines, and every name is non-empty and trimmed |
| Input.CleanKeepsOrder | geocode_properties.py:45 | the k-th name is the stripped k-th non-blank line: every non-blank line is kept and the original relative order is preserved |
| Input.CleanEmpty | geocode_properties.py:50 | the name list is empty exactly when every line is blank |
| Input.CleanAppend | geocode_properties.py:50 | cleaning distributes over concatenation, since each line is handled on its own |
| Input.CleanIdempotent | geocode_properties.py:45 | cleaning a cleaned list returns the same list |
| Input.ReadProperties | geocode_properties.py:29-50 | on success every name is trimmed and non-empty; it fails exactly when the given file is missing (file-not-found with its path) or when there is no file, no argument and stdin is a terminal (no-input) |
| Input.FileOverridesOtherSources | geocode_properties.py:38-42 | with a file given, positional arguments and stdin do not affect the outcome, and an existing file yields its cleaned lines |
| Input.StdinOnlyAsLastResort | geocode_properties.py:44-50 | when a file or a positional argument is present, stdin and the terminal flag do not affect the outcome |
| Input.StdinAsLastResort | geocode_properties.py:47-50 | with no file, no positional argument and a non-terminal stdin, the names are exactly the cleaned stdin lines, which keep the lines' order by `Input.CleanKeepsOrder` |
| Input.ArgumentsWithoutFile | geocode_properties.py:44-45 | with no file and a non-empty argument list, the names are the cleaned arguments, and all-blank arguments give an empty list rather than a fallback to stdin |
| Geocoder.Message | geocode_properties.py:86 | the error text is `No results for '`, then the query, then `'.` |
| Geocoder.MessageNamesQuery | geocode_properties.py:86 | the query can be read back out of its error message, so distinct failing names give distinct diagnostic lines |
| Geocoder.SelectFirst | geocode_properties.py:85-88 | succeeds exactly on a non-empty response, with its first element; an empty response is an error naming the query |
| Geocoder.GeocodeProperty | geocode_properties.py:53-88 | succeeds exactly when the service has a match, returning the top match; otherwise raises `NoResults` for that name |
| LookupLoop.Step | geocode_properties.py:98-108 | one pass of the loop body: each name adds exactly one result or one error, at most one request for that name, one pause per request, and nothing already recorded or cached is removed |
| LookupLoop.Lookup | geocode_properties.py:91-110 | pauses equal requests; each name yields a result or an error; the cache holds exactly the resolving names, each with the service's top match |
| LookupLoop.LookupMatchesReference | geocode_properties.py:97-107 | results are the top matches of the resolving names in input order, with repeats included; errors are the failing occurrences; requests are the positions not answered by an earlier success |
| LookupLoop.RequestsPerName | geocode_properties.py:98-104 | a resolving name is requested once however often it occurs; a failing name is requested at every occurrence |
| LookupLoop.CachedNameIsReplayed | geocode_properties.py:98-100 | a name that resolved earlier causes no request, no pause and no cache change, and its cached record is appended |
| LookupLoop.UncachedNameIsRequested | geocode_properties.py:102-108 | any other name causes one request and one pause; on success it appends and caches the match, and on failure it appends only an error, with the cache unchanged |
| LookupLoop.LookupPrefix | geocode_properties.py:97-110 | processing further names only extends results, requests, errors and pauses; nothing earlier is reordered or removed |
| LookupLoop.RepeatedNameExample | geocode_properties.py:97-110 | for `[A, B, A]` with both names resolving: two requests, two pauses, three results with the first and last identical |
| CsvRows.QueryValue | geocode_properties.py:133 | the query is either the name or the display name, and it is truthy exactly when one of the two is |
| CsvRows.RowDict | geocode_properties.py:131-139 | the row dict's keys are exactly the six header columns |
| CsvRows.Cells | geocode_properties.py:116-129 | a written row has exactly one cell per header column |
| CsvRows.CellsInHeaderOrder | geocode_properties.py:116-139 | the cells are, in order, query, display_name, latitude from `lat`, longitude from `lon`, type and class |
| CsvRows.QueryFallsBackToDisplayName | geocode_properties.py:133 | query is the name when truthy and the display name otherwise; no other cell depends on the name |
| CsvRows.Render | geocode_properties.py:127-140 | the document is the six-column header followed by one row per result, in order |
| CsvRows.AddressWithoutName | geocode_properties.py:133-138 | a match without `name` produces a row whose query repeats its display name |
| Cli.ExitCode | geocode_properties.py:184-204 | the status is 0 or 1, and 0 exactly when input collection succeeds, at least one name resolves, and writing succeeds |
| Cli.Reported | geocode_properties.py:106-107 | each failed lookup writes exactly one diagnostic line, the error's message, in the order of the failures |
| Cli.RunMain | geocode_properties.py:184-204 | `main`: the status is 0 or 1, pauses equal requests, and a 0 status means a CSV with at least one row was written; the rest is pinned by `Cli.MainExitCode`, `Cli.InputFailureStopsEarly` and `Cli.WriterGetsAllResults` |
| Cli.MainExitCode | geocode_properties.py:186-204 | `main` returns 1 on input failure, on an empty result list or on a write failure, and 0 otherwise |
| Cli.InputFailureStopsEarly | geocode_properties.py:186-190 | a failed input collection reports only its own error, makes no request and writes nothing |
| Cli.WriterGetsAllResults | geocode_properties.py:192-202 | the writer is reached exactly when some name resolved and receives all results in input order; standard error holds one `No results` line per miss in input order, followed by nothing on success, by the write-failure line when writing fails, and by the nothing-geocoded line when no name resolved; pauses equal requests |
| Cli.BlankFileFails | geocode_properties.py:192-196 | a file of blank lines makes no request, reports that nothing was geocoded and exits with 1 |

## Left out

- The HTTP request (`requests.get`, `raise_for_status`, JSON decoding, the User-Agent header, timeout and country parameters) is replaced by the oracle. Transport and HTTP errors abort the script and are not modelled.
- The oracle is a function of the query alone. The model assumes the service answers a repeated query the same way within one run.
- `time.sleep` and the pause length: the model counts pauses and does not measure time.
- CSV quoting and escaping, and the printing of `None` as an empty cell, are done by the `csv` module. The model stops at the cell values.
- File and stream I/O. The file is given as its lines, or as absent. Standard input is given as its lines plus the terminal flag. `splitlines`, line iteration, and errors from an existing but unreadable file are not modelled. The choice between stdout and an output file is not modelled either; a caught write failure (`OSError`) is a boolean input.
- Argument parsing with `argparse`: the model starts from the parsed values.
- The text of the input-error and write-failure messages: these are kept as diagnostic values, not strings.
- JSON values other than strings, or absent keys, in a match: every field is an optional string.
- Input.ReadProperties: treats standard input as already-decoded lines. Undecodable piped input makes the stdin iteration raise `UnicodeDecodeError`, a `ValueError` that `main` catches, so it exits with 1. The model has no such failure: its "fails exactly when" covers only the missing file and the terminal case.
- Cli.MainExitCode: assumes `time.sleep(pause)` returns. A negative or NaN `--pause` makes it raise `ValueError`, which nothing catches, so the run ends with a traceback and no CSV. The model's "0 otherwise" does not cover that case, just as it does not cover transport errors.
- Cli.WriterGetsAllResults: models a write failure only as the `OSError` that `main` catches. A write error of another kind is not modelled. One example is a `UnicodeEncodeError` when stdout's encoding cannot represent a display name. Such an error escapes `except OSError`, ends the run with a traceback and exit status 1, and "Failed to write output" is never written.
- Text.Strip: removes only the ASCII whitespace characters (tab, line feed, vertical tab, form feed, carriage return, 0x1C to 0x1F, space). Python's `str.strip` also removes Unicode whitespace such as U+0085, U+00A0 and U+2028.
