/** The loop of `lookup_properties`: names are processed in order; a name
    already in the cache replays its cached match with no request and no
    pause; any other name is sent to the service, followed by one pause,
    and is cached only when a match came back. */
module LookupLoop {
  import opened Wrappers
  import opened Geocoder

  /** The loop's state: the cache, the results so far, the log of requests
      sent to the service, the number of `time.sleep` calls, and the
      "no results" errors written to standard error. */
  datatype LookupState = LookupState(
    cache: map<string, Place>,
    results: seq<Place>,
    calls: seq<string>,
    pauses: nat,
    errors: seq<GeocodingError>)

  const Start := LookupState(map[], [], [], 0, [])

  /** One iteration of the loop for `name`. */
  function Step(oracle: Oracle, st: LookupState, name: string): (st': LookupState)
    ensures |st'.results| + |st'.errors| == |st.results| + |st.errors| + 1
    ensures st'.calls == st.calls || st'.calls == st.calls + [name]
    ensures st'.pauses - st.pauses == |st'.calls| - |st.calls|
    ensures st.cache.Keys <= st'.cache.Keys <= st.cache.Keys + {name}
    ensures st.results <= st'.results && st.errors <= st'.errors
  {
    if name in st.cache then
      st.(results := st.results + [st.cache[name]])
    else
      var queried := st.(calls := st.calls + [name], pauses := st.pauses + 1);
      match GeocodeProperty(oracle, name)
      case Success(place) =>
        queried.(cache := st.cache[name := place], results := st.results + [place])
      case Failure(e) =>
        queried.(errors := st.errors + [e])
  }

  /** `lookup_properties(names)`: the loop run over all names from an empty
      cache. Every request is followed by exactly one pause, every name
      yields either a result or an error, and the cache holds exactly the
      names that resolved, each with the service's top match. */
  function Lookup(oracle: Oracle, names: seq<string>): (st: LookupState)
    ensures st.pauses == |st.calls|
    ensures |st.results| + |st.errors| == |names|
    ensures st.cache.Keys == set n | n in names && Resolves(oracle, n)
    ensures forall n | n in st.cache :: st.cache[n] == oracle(n)[0]
  {
    if names == [] then Start
    else
      var n := |names| - 1;
      var prev := Lookup(oracle, names[..n]);
      assert forall m :: m in names <==> m in names[..n] || m == names[n];
      Step(oracle, prev, names[n])
  }

  // ---------------------------------------------------------------------
  // Reference definitions that do not mention the cache.

  /** The top match of every name that resolves, in input order. */
  function Resolved(oracle: Oracle, names: seq<string>): seq<Place>
  {
    if names == [] then []
    else
      var n := |names| - 1;
      Resolved(oracle, names[..n])
      + (if Resolves(oracle, names[n]) then [oracle(names[n])[0]] else [])
  }

  /** One error per occurrence of a name that does not resolve, in input order. */
  function Misses(oracle: Oracle, names: seq<string>): seq<GeocodingError>
  {
    if names == [] then []
    else
      var n := |names| - 1;
      Misses(oracle, names[..n])
      + (if Resolves(oracle, names[n]) then [] else [NoResults(names[n])])
  }

  /** Position `i` costs a request unless the same name already resolved
      at an earlier position. */
  predicate NeedsRequest(oracle: Oracle, names: seq<string>, i: nat)
    requires i < |names|
  {
    !(Resolves(oracle, names[i]) && names[i] in names[..i])
  }

  /** The names at the positions that need a request, in input order. */
  function Requests(oracle: Oracle, names: seq<string>): seq<string>
  {
    if names == [] then []
    else
      var n := |names| - 1;
      Requests(oracle, names[..n])
      + (if NeedsRequest(oracle, names, n) then [names[n]] else [])
  }

  /** The loop agrees with the reference definitions: the results are the
      top matches of the resolving names in input order (a repeated name
      contributes its match again), the errors are the failing occurrences,
      and the requests are exactly the positions not answered by an earlier
      success. */
  lemma {:induction false} LookupMatchesReference(oracle: Oracle, names: seq<string>)
    ensures Lookup(oracle, names).results == Resolved(oracle, names)
    ensures Lookup(oracle, names).errors == Misses(oracle, names)
    ensures Lookup(oracle, names).calls == Requests(oracle, names)
  {
    if names != [] {
      var n := |names| - 1;
      LookupMatchesReference(oracle, names[..n]);
      var prev := Lookup(oracle, names[..n]);
      assert names[n] in prev.cache <==> !NeedsRequest(oracle, names, n);
    }
  }

  /** Deduplication: a name that resolves is requested once however often it
      occurs; a name that does not resolve is requested at every occurrence. */
  lemma {:induction false} RequestsPerName(oracle: Oracle, names: seq<string>, name: string)
    ensures multiset(Lookup(oracle, names).calls)[name]
      == if !Resolves(oracle, name) then multiset(names)[name]
         else if name in names then 1 else 0
  {
    LookupMatchesReference(oracle, names);
    RequestsCount(oracle, names, name);
  }

  lemma {:induction false} RequestsCount(oracle: Oracle, names: seq<string>, name: string)
    ensures multiset(Requests(oracle, names))[name]
      == if !Resolves(oracle, name) then multiset(names)[name]
         else if name in names then 1 else 0
  {
    if names != [] {
      var n := |names| - 1;
      RequestsCount(oracle, names[..n], name);
      assert names == names[..n] + [names[n]];
      assert name in names <==> name in names[..n] || name == names[n];
    }
  }

  /** A name that already resolved among the names `seen` before it is
      answered from the cache: no request, no pause, nothing cached anew,
      and its cached match is appended. */
  lemma CachedNameIsReplayed(oracle: Oracle, seen: seq<string>, name: string)
    requires name in seen && Resolves(oracle, name)
    ensures name in Lookup(oracle, seen).cache
    ensures Lookup(oracle, seen + [name]).calls == Lookup(oracle, seen).calls
    ensures Lookup(oracle, seen + [name]).pauses == Lookup(oracle, seen).pauses
    ensures Lookup(oracle, seen + [name]).cache == Lookup(oracle, seen).cache
    ensures Lookup(oracle, seen + [name]).results
      == Lookup(oracle, seen).results + [Lookup(oracle, seen).cache[name]]
  {
  }

  /** Any other name costs one request and one pause; it adds a result and a
      cache entry if the service matched it, and otherwise an error and
      nothing else, so a failing name is requested again when it recurs. */
  lemma UncachedNameIsRequested(oracle: Oracle, seen: seq<string>, name: string)
    requires !(name in seen && Resolves(oracle, name))
    ensures name !in Lookup(oracle, seen).cache
    ensures Lookup(oracle, seen + [name]).calls == Lookup(oracle, seen).calls + [name]
    ensures Lookup(oracle, seen + [name]).pauses == Lookup(oracle, seen).pauses + 1
    ensures Resolves(oracle, name) ==>
      && Lookup(oracle, seen + [name]).results == Lookup(oracle, seen).results + [oracle(name)[0]]
      && Lookup(oracle, seen + [name]).cache == Lookup(oracle, seen).cache[name := oracle(name)[0]]
      && Lookup(oracle, seen + [name]).errors == Lookup(oracle, seen).errors
    ensures !Resolves(oracle, name) ==>
      && Lookup(oracle, seen + [name]).results == Lookup(oracle, seen).results
      && Lookup(oracle, seen + [name]).cache == Lookup(oracle, seen).cache
      && Lookup(oracle, seen + [name]).errors == Lookup(oracle, seen).errors + [NoResults(name)]
  {
  }

  /** Processing more names only extends the outcome: the results, requests
      and errors for a prefix of the input are prefixes of those for the
      whole input. */
  lemma {:induction false} LookupPrefix(oracle: Oracle, names: seq<string>, k: nat)
    requires k <= |names|
    ensures var part := Lookup(oracle, names[..k]);
      var whole := Lookup(oracle, names);
      && part.results <= whole.results
      && part.calls <= whole.calls
      && part.errors <= whole.errors
      && part.pauses <= whole.pauses
    decreases |names| - k
  {
    if k < |names| {
      LookupPrefix(oracle, names, k + 1);
      assert names[..k + 1][..k] == names[..k];
    } else {
      assert names[..k] == names;
    }
  }

  /** The example `["A", "B", "A"]` with both names resolving: two requests,
      two pauses, three results with the first and last identical. */
  lemma RepeatedNameExample(oracle: Oracle, a: string, b: string)
    requires a != b && Resolves(oracle, a) && Resolves(oracle, b)
    ensures var st := Lookup(oracle, [a, b, a]);
      && st.calls == [a, b]
      && st.pauses == 2
      && st.results == [oracle(a)[0], oracle(b)[0], oracle(a)[0]]
      && st.errors == []
  {
    assert [a, b, a][..2] == [a, b];
    assert [a, b][..1] == [a];
    assert [a][..0] == [];
    var s1 := Step(oracle, Start, a);
    assert Lookup(oracle, [a]) == s1;
    assert s1.calls == [a] && s1.results == [oracle(a)[0]] && a in s1.cache;
    var s2 := Step(oracle, s1, b);
    assert Lookup(oracle, [a, b]) == s2;
    assert s2.calls == [a, b] && s2.results == [oracle(a)[0], oracle(b)[0]];
    assert s2.cache[a] == oracle(a)[0];
    assert Lookup(oracle, [a, b, a]) == Step(oracle, s2, a);
  }
}
