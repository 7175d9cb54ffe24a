/** Input collection (`read_properties`): property names come from a file,
    else from the positional arguments, else from standard input. The I/O
    itself is given as data: a file's lines (or its absence), the argument
    list, whether standard input is a terminal, and the lines it would yield. */
module Input {
  import opened Wrappers
  import opened Text

  /** The `--file` option: the path as given and, when a file exists at that
      path, its lines. */
  datatype FileArg = FileArg(path: string, contents: Option<seq<string>>)

  /** Everything `read_properties` looks at. `file` is `None` when `--file`
      was not passed. */
  datatype Sources = Sources(
    file: Option<FileArg>,
    properties: seq<string>,
    stdinIsTty: bool,
    stdinLines: seq<string>)

  /** The two exceptions `read_properties` raises: `FileNotFoundError` and
      the `ValueError` for "no properties provided". */
  datatype InputError = FileNotFound(path: string) | NoInput

  /** `if args.file:` -- a path was passed and it is not the empty string. */
  predicate FileGiven(src: Sources) {
    src.file.Some? && src.file.value.path != ""
  }

  /** A usable property name: non-empty and already stripped. */
  predicate IsName(s: string) {
    s != [] && Trimmed(s)
  }

  /** `[line.strip() for line in lines if line.strip()]`. */
  function Clean(lines: seq<string>): (names: seq<string>)
    ensures |names| <= |lines|
    ensures forall i | 0 <= i < |names| :: IsName(names[i])
  {
    if lines == [] then []
    else
      var s := Strip(lines[|lines| - 1]);
      Clean(lines[..|lines| - 1]) + (if s != [] then [s] else [])
  }

  /** The positions of the non-blank entries of `lines`, in increasing order. */
  function KeptIndices(lines: seq<string>): seq<nat>
  {
    if lines == [] then []
    else
      var n := |lines| - 1;
      KeptIndices(lines[..n]) + (if Strip(lines[n]) != [] then [n] else [])
  }

  /** `KeptIndices` lists every non-blank position and nothing else, in
      increasing order. */
  lemma KeptIndicesSpec(lines: seq<string>)
    ensures forall k | 0 <= k < |KeptIndices(lines)| ::
      KeptIndices(lines)[k] < |lines| && Strip(lines[KeptIndices(lines)[k]]) != []
    ensures forall k, k' | 0 <= k < k' < |KeptIndices(lines)| ::
      KeptIndices(lines)[k] < KeptIndices(lines)[k']
    ensures forall i | 0 <= i < |lines| && Strip(lines[i]) != [] :: i in KeptIndices(lines)
  {
    KeptIndicesNonBlank(lines);
    KeptIndicesIncreasing(lines);
    KeptIndicesComplete(lines);
  }

  lemma {:induction false} KeptIndicesNonBlank(lines: seq<string>)
    ensures forall k | 0 <= k < |KeptIndices(lines)| ::
      KeptIndices(lines)[k] < |lines| && Strip(lines[KeptIndices(lines)[k]]) != []
  {
    if lines != [] {
      var n := |lines| - 1;
      var front := lines[..n];
      KeptIndicesNonBlank(front);
      var prev := KeptIndices(front);
      var idx := prev + (if Strip(lines[n]) != [] then [n] else []);
      assert KeptIndices(lines) == idx;
      forall k | 0 <= k < |idx|
        ensures idx[k] < |lines| && Strip(lines[idx[k]]) != []
      {
        if k < |prev| {
          assert idx[k] == prev[k] && front[prev[k]] == lines[prev[k]];
        }
      }
    }
  }

  lemma {:induction false} KeptIndicesIncreasing(lines: seq<string>)
    ensures forall k, k' | 0 <= k < k' < |KeptIndices(lines)| ::
      KeptIndices(lines)[k] < KeptIndices(lines)[k']
  {
    if lines != [] {
      var n := |lines| - 1;
      var front := lines[..n];
      KeptIndicesIncreasing(front);
      KeptIndicesNonBlank(front);
      var prev := KeptIndices(front);
      assert KeptIndices(lines) == prev + (if Strip(lines[n]) != [] then [n] else []);
    }
  }

  lemma {:induction false} KeptIndicesComplete(lines: seq<string>)
    ensures forall i | 0 <= i < |lines| && Strip(lines[i]) != [] :: i in KeptIndices(lines)
  {
    if lines != [] {
      var n := |lines| - 1;
      var front := lines[..n];
      KeptIndicesComplete(front);
      var prev := KeptIndices(front);
      var idx := prev + (if Strip(lines[n]) != [] then [n] else []);
      assert KeptIndices(lines) == idx;
      forall i | 0 <= i < |lines| && Strip(lines[i]) != []
        ensures i in idx
      {
        if i < n {
          assert front[i] == lines[i];
          assert i in prev;
        } else {
          assert idx[|idx| - 1] == i;
        }
      }
    }
  }

  /** `Clean` keeps exactly the non-blank lines, stripped, in their original
      order: its k-th name is the stripped line at the k-th non-blank
      position, the positions used increase, and every non-blank line is
      used. */
  lemma {:induction false} CleanKeepsOrder(lines: seq<string>)
    ensures |KeptIndices(lines)| == |Clean(lines)|
    ensures forall k | 0 <= k < |Clean(lines)| ::
      KeptIndices(lines)[k] < |lines| && Clean(lines)[k] == Strip(lines[KeptIndices(lines)[k]])
    ensures forall k, k' | 0 <= k < k' < |KeptIndices(lines)| ::
      KeptIndices(lines)[k] < KeptIndices(lines)[k']
    ensures forall i | 0 <= i < |lines| && Strip(lines[i]) != [] :: i in KeptIndices(lines)
  {
    KeptIndicesSpec(lines);
    CleanAtKept(lines);
  }

  lemma {:induction false} CleanAtKept(lines: seq<string>)
    ensures |KeptIndices(lines)| == |Clean(lines)|
    ensures forall k | 0 <= k < |Clean(lines)| && KeptIndices(lines)[k] < |lines| ::
      Clean(lines)[k] == Strip(lines[KeptIndices(lines)[k]])
  {
    if lines != [] {
      var n := |lines| - 1;
      var front := lines[..n];
      CleanAtKept(front);
      KeptIndicesSpec(front);
      var prev, names := KeptIndices(front), Clean(front);
      var s := Strip(lines[n]);
      assert KeptIndices(lines) == prev + (if s != [] then [n] else []);
      assert Clean(lines) == names + (if s != [] then [s] else []);
      forall k | 0 <= k < |Clean(lines)| && KeptIndices(lines)[k] < |lines|
        ensures Clean(lines)[k] == Strip(lines[KeptIndices(lines)[k]])
      {
        if k < |names| {
          assert front[prev[k]] == lines[prev[k]];
        }
      }
    }
  }

  /** A list cleans to nothing exactly when every entry is blank. */
  lemma {:induction false} CleanEmpty(lines: seq<string>)
    ensures Clean(lines) == [] <==> forall i | 0 <= i < |lines| :: AllSpace(lines[i])
  {
    if lines != [] {
      var n := |lines| - 1;
      CleanEmpty(lines[..n]);
      assert forall i | 0 <= i < n :: lines[..n][i] == lines[i];
    }
  }

  /** Cleaning distributes over concatenation of line lists. */
  lemma {:induction false} CleanAppend(a: seq<string>, b: seq<string>)
    ensures Clean(a + b) == Clean(a) + Clean(b)
    decreases |b|
  {
    if b != [] {
      var n := |b| - 1;
      assert (a + b)[..|a + b| - 1] == a + b[..n];
      assert (a + b)[|a + b| - 1] == b[n];
      CleanAppend(a, b[..n]);
      var s := Strip(b[n]);
      var tail := if s != [] then [s] else [];
      calc {
        Clean(a + b);
        Clean(a + b[..n]) + tail;
        Clean(a) + Clean(b[..n]) + tail;
        Clean(a) + (Clean(b[..n]) + tail);
        Clean(a) + Clean(b);
      }
    } else {
      assert a + b == a;
    }
  }

  /** Cleaning an already cleaned list changes nothing. */
  lemma {:induction false} CleanIdempotent(lines: seq<string>)
    ensures Clean(Clean(lines)) == Clean(lines)
  {
    if lines != [] {
      var n := |lines| - 1;
      var s := Strip(lines[n]);
      CleanIdempotent(lines[..n]);
      var tail := if s != [] then [s] else [];
      CleanAppend(Clean(lines[..n]), tail);
      if s != [] {
        StripIdempotent(lines[n]);
        assert Clean(tail) == Clean([] + tail);
      }
    }
  }

  /** `read_properties`: the file wins, then non-empty positional arguments,
      then standard input unless it is an interactive terminal. */
  function ReadProperties(src: Sources): (r: Result<seq<string>, InputError>)
    ensures r.Success? ==> forall i | 0 <= i < |r.value| :: IsName(r.value[i])
    ensures r.Failure? <==>
      (FileGiven(src) && src.file.value.contents.None?)
      || (!FileGiven(src) && src.properties == [] && src.stdinIsTty)
    ensures r.Failure? && FileGiven(src) ==> r.error == FileNotFound(src.file.value.path)
    ensures r.Failure? && !FileGiven(src) ==> r.error == NoInput
  {
    if FileGiven(src) then
      match src.file.value.contents
      case None => Failure(FileNotFound(src.file.value.path))
      case Some(lines) => Success(Clean(lines))
    else if src.properties != [] then
      Success(Clean(src.properties))
    else if src.stdinIsTty then
      Failure(NoInput)
    else
      Success(Clean(src.stdinLines))
  }

  /** With a file given, the positional arguments and standard input play
      no part in the outcome. */
  lemma FileOverridesOtherSources(src: Sources, properties: seq<string>, tty: bool, stdin: seq<string>)
    requires FileGiven(src)
    ensures ReadProperties(src)
      == ReadProperties(src.(properties := properties, stdinIsTty := tty, stdinLines := stdin))
    ensures src.file.value.contents.Some? ==>
      ReadProperties(src) == Success(Clean(src.file.value.contents.value))
  {
  }

  /** Standard input is consulted only when there is neither a file nor a
      positional argument; otherwise changing it changes nothing. */
  lemma StdinOnlyAsLastResort(src: Sources, tty: bool, stdin: seq<string>)
    requires FileGiven(src) || src.properties != []
    ensures ReadProperties(src) == ReadProperties(src.(stdinIsTty := tty, stdinLines := stdin))
  {
  }

  /** With no file, no positional argument and standard input not a
      terminal, the names are the cleaned stdin lines (so, by
      `CleanKeepsOrder`, the non-blank lines in their original order). */
  lemma StdinAsLastResort(src: Sources)
    requires !FileGiven(src) && src.properties == [] && !src.stdinIsTty
    ensures ReadProperties(src) == Success(Clean(src.stdinLines))
  {
  }

  /** Positional arguments are used whenever no file is given and the list
      is non-empty -- even when every argument is blank, in which case the
      result is empty and standard input is not read. */
  lemma ArgumentsWithoutFile(src: Sources)
    requires !FileGiven(src) && src.properties != []
    ensures ReadProperties(src) == Success(Clean(src.properties))
    ensures (forall i | 0 <= i < |src.properties| :: AllSpace(src.properties[i]))
      ==> ReadProperties(src) == Success([])
  {
    CleanEmpty(src.properties);
  }
}
