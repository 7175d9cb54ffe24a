/** `main`: collect the names, look them up, write the CSV, and choose the
    exit status. Whether writing the CSV raises `OSError` is an input. */
module Cli {
  import opened Wrappers
  import opened Text
  import opened Input
  import opened Geocoder
  import opened LookupLoop
  import opened CsvRows

  /** A line written to standard error. */
  datatype Diagnostic =
    | InputProblem(inputError: InputError)
    | Miss(text: string)
    | NothingGeocoded
    | WriteFailed

  /** What one run of the script does: its exit status, what it wrote to
      standard error, the document handed to the CSV writer (if the writer
      was reached), and the requests and pauses of the lookup loop. */
  datatype Outcome = Outcome(
    exitCode: int,
    stderr: seq<Diagnostic>,
    written: Option<CsvDocument>,
    calls: seq<string>,
    pauses: nat)

  /** The exit status as a function of the three ways a run can fail. */
  function ExitCode(inputFailed: bool, nothingGeocoded: bool, writeFailed: bool): (code: int)
    ensures code == 0 || code == 1
    ensures code == 0 <==> !inputFailed && !nothingGeocoded && !writeFailed
  {
    if inputFailed || nothingGeocoded || writeFailed then 1 else 0
  }

  /** One diagnostic line per failed lookup, in order:
      `sys.stderr.write(str(exc) + "\n")`. */
  function Reported(errors: seq<GeocodingError>): (ds: seq<Diagnostic>)
    ensures |ds| == |errors|
    ensures forall i | 0 <= i < |errors| :: ds[i] == Miss(Message(errors[i]))
  {
    seq(|errors|, i requires 0 <= i < |errors| => Miss(Message(errors[i])))
  }

  /** `main` with parsed arguments, the service as an oracle, and whether
      writing the output succeeds. */
  function RunMain(src: Sources, oracle: Oracle, writeSucceeds: bool): (o: Outcome)
    ensures o.exitCode == 0 || o.exitCode == 1
    ensures o.pauses == |o.calls|
    ensures o.exitCode == 0 ==> o.written.Some? && o.written.value.rows != []
  {
    match ReadProperties(src)
    case Failure(e) => Outcome(1, [InputProblem(e)], None, [], 0)
    case Success(names) =>
      var st := Lookup(oracle, names);
      var misses := Reported(st.errors);
      if st.results == [] then
        Outcome(1, misses + [NothingGeocoded], None, st.calls, st.pauses)
      else if !writeSucceeds then
        Outcome(1, misses + [WriteFailed], Some(Render(st.results)), st.calls, st.pauses)
      else
        Outcome(0, misses, Some(Render(st.results)), st.calls, st.pauses)
  }

  /** The exit status is 1 when input collection fails, when nothing was
      geocoded, or when writing fails, and 0 otherwise. */
  lemma MainExitCode(src: Sources, oracle: Oracle, writeSucceeds: bool)
    ensures var r := ReadProperties(src);
      RunMain(src, oracle, writeSucceeds).exitCode
        == ExitCode(r.Failure?, r.Success? && Lookup(oracle, r.value).results == [], !writeSucceeds)
    ensures RunMain(src, oracle, writeSucceeds).exitCode == 0 <==>
      var r := ReadProperties(src);
      r.Success? && Lookup(oracle, r.value).results != [] && writeSucceeds
  {
  }

  /** A failed input collection reports its error alone and stops before
      any request or output. */
  lemma InputFailureStopsEarly(src: Sources, oracle: Oracle, writeSucceeds: bool)
    requires ReadProperties(src).Failure?
    ensures var o := RunMain(src, oracle, writeSucceeds);
      && o.exitCode == 1
      && o.stderr == [InputProblem(ReadProperties(src).error)]
      && o.calls == [] && o.pauses == 0
      && o.written == None
  {
  }

  /** The CSV writer is reached exactly when some name was geocoded, and it
      receives every result in input order; each miss is reported, in input
      order, followed by the write-failure line if writing fails, by the
      nothing-geocoded line if no name resolved, and by nothing else. */
  lemma WriterGetsAllResults(src: Sources, oracle: Oracle, writeSucceeds: bool)
    requires ReadProperties(src).Success?
    ensures var names := ReadProperties(src).value;
      var o := RunMain(src, oracle, writeSucceeds);
      && (o.written.Some? <==> Resolved(oracle, names) != [])
      && (o.written.Some? ==> o.written.value == Render(Resolved(oracle, names)))
      && o.stderr == Reported(Misses(oracle, names))
           + (if Resolved(oracle, names) == [] then [NothingGeocoded]
              else if !writeSucceeds then [WriteFailed]
              else [])
      && o.calls == Requests(oracle, names)
      && o.pauses == |o.calls|
  {
    LookupMatchesReference(oracle, ReadProperties(src).value);
  }

  /** A given file holding only blank lines makes no request, reports that
      nothing was geocoded, and exits with 1. */
  lemma BlankFileFails(src: Sources, oracle: Oracle, writeSucceeds: bool)
    requires FileGiven(src) && src.file.value.contents.Some?
    requires forall i | 0 <= i < |src.file.value.contents.value| :: AllSpace(src.file.value.contents.value[i])
    ensures var o := RunMain(src, oracle, writeSucceeds);
      o.exitCode == 1 && o.stderr == [NothingGeocoded] && o.calls == [] && o.written == None
  {
    CleanEmpty(src.file.value.contents.value);
  }
}
