/** The sample aggregator, `retrieve_samples_and_labels_for_compound`: for each
    candidate name in turn, a full paginated fetch from offset 0, recording the
    `[label, sample]` pair of every row under that name. */
module Aggregation {
  import opened Results
  import opened Pagination
  import opened SampleMaps

  /** `[i['lab']['value'], i['sample']['value']]` */
  function LabelAndSample(row: Row): (r: Result<Pair>)
    ensures r.Success? <==> "lab" in row && "sample" in row
    ensures r.Success? ==> r.value == Pair(row["lab"], row["sample"])
    ensures r.Failure? ==> r.error == KeyError(if "lab" in row then "sample" else "lab")
  {
    FieldPair(row, "lab", "sample")
  }

  /** Every name's fetch ends. */
  ghost predicate AllTerminate(ep: Endpoint, names: seq<string>)
  {
    forall n :: n in names ==> Terminates(ep, n)
  }

  /** One more name: its fetch extends the dict built so far, unless an
      earlier name or this one raised. */
  function AddName(sofar: Result<SampleMap>, name: string, found: Result<seq<Pair>>): (r: Result<SampleMap>)
    requires sofar.Success? ==> sofar.value.Valid()
    ensures r.Success? ==> r.value.Valid()
  {
    match sofar
    case Failure(e) => Failure(e)
    case Success(d) =>
      match found
      case Failure(e) => Failure(e)
      case Success(v) => Success(d.Set(name, v))
  }

  /** The dict the procedure returns, built name by name; the first fetch that
      raises aborts the whole procedure with its error. */
  ghost function Aggregated(ep: Endpoint, names: seq<string>): (r: Result<SampleMap>)
    requires AllTerminate(ep, names)
    ensures r.Success? ==> r.value.Valid()
  {
    if names == [] then Success(Empty)
    else
      var init := names[..|names| - 1];
      var name := names[|names| - 1];
      assert names == init + [name];
      AddName(Aggregated(ep, init), name, Fetched(ep, name, LabelAndSample))
  }

  lemma AggregatedPrefix(ep: Endpoint, names: seq<string>, i: nat)
    requires AllTerminate(ep, names)
    requires i < |names|
    ensures AllTerminate(ep, names[..i]) && AllTerminate(ep, names[..i + 1])
    ensures Aggregated(ep, names[..i + 1])
            == AddName(Aggregated(ep, names[..i]), names[i], Fetched(ep, names[i], LabelAndSample))
  {
    assert names[..i + 1][..i] == names[..i];
  }

  /** The dict has one key per distinct input name, in first-occurrence order,
      even for a name no row matched, and under each name the pairs its own
      fetch collected. */
  lemma {:induction false} AggregatedEntries(ep: Endpoint, names: seq<string>)
    requires AllTerminate(ep, names)
    ensures Aggregated(ep, names).Success? <==>
              forall n :: n in names ==> Fetched(ep, n, LabelAndSample).Success?
    ensures Aggregated(ep, names).Success? ==>
              && Aggregated(ep, names).value.keys == FirstOccurrences(names)
              && forall n :: n in names ==>
                   && n in Aggregated(ep, names).value.entries
                   && Aggregated(ep, names).value.entries[n] == Fetched(ep, n, LabelAndSample).value
  {
    if names != [] {
      var init := names[..|names| - 1];
      var name := names[|names| - 1];
      assert names == init + [name];
      AggregatedEntries(ep, init);
    }
  }

  /** Name `i` is the first whose fetch raised, and it raised `e`. */
  ghost predicate FirstFailure(ep: Endpoint, names: seq<string>, i: nat, e: Error)
    requires AllTerminate(ep, names)
  {
    && i < |names|
    && Fetched(ep, names[i], LabelAndSample) == Failure(e)
    && forall j :: 0 <= j < i ==> Fetched(ep, names[j], LabelAndSample).Success?
  }

  /** A name no row matched still has its key, holding the empty list. */
  lemma UnmatchedNameHasEmptyEntry(ep: Endpoint, names: seq<string>, name: string)
    requires AllTerminate(ep, names)
    requires Aggregated(ep, names).Success?
    requires name in names && PageAt(ep, name, 0) == []
    ensures name in Aggregated(ep, names).value.keys
    ensures Aggregated(ep, names).value.entries[name] == []
  {
    AggregatedEntries(ep, names);
    assert FirstEmpty(ep, name) == 0;
  }

  /** The number of pairs under a name, the count `no_of_samples` reports, is
      the number of rows its fetch returned over all pages. */
  lemma EntrySizeIsRowCount(ep: Endpoint, names: seq<string>, name: string)
    requires AllTerminate(ep, names)
    requires Aggregated(ep, names).Success?
    requires name in names
    ensures name in Aggregated(ep, names).value.entries
    ensures |Aggregated(ep, names).value.entries[name]| == |Collected(ep, name, FirstEmpty(ep, name))|
  {
    AggregatedEntries(ep, names);
  }

  /** On failure the error is that of the first name whose fetch raised. */
  lemma {:induction false} AggregatedFailure(ep: Endpoint, names: seq<string>)
    requires AllTerminate(ep, names)
    requires Aggregated(ep, names).Failure?
    ensures exists i: nat :: FirstFailure(ep, names, i, Aggregated(ep, names).error)
  {
    var init := names[..|names| - 1];
    var name := names[|names| - 1];
    assert names == init + [name];
    var e := Aggregated(ep, names).error;
    assert Aggregated(ep, names) == AddName(Aggregated(ep, init), name, Fetched(ep, name, LabelAndSample));
    if Aggregated(ep, init).Failure? {
      AggregatedFailure(ep, init);
      var i: nat :| FirstFailure(ep, init, i, e);
      assert forall j :: 0 <= j <= i ==> names[j] == init[j];
      assert FirstFailure(ep, names, i, e);
    } else {
      AggregatedEntries(ep, init);
      forall j | 0 <= j < |init|
        ensures Fetched(ep, names[j], LabelAndSample).Success?
      {
        assert names[j] == init[j] && init[j] in init;
      }
      assert FirstFailure(ep, names, |init|, e);
    }
  }

  /** `retrieve_samples_and_labels_for_compound(compounds)`, over a name list.
      Each name's entry is first set to `[]`, then filled by its own fetch,
      which restarts at offset 0. */
  method RetrieveSamplesAndLabels(ep: Endpoint, names: seq<string>) returns (r: Result<SampleMap>)
    requires AllTerminate(ep, names)
    ensures r == Aggregated(ep, names)
  {
    var d := Empty;
    var i := 0;
    while i < |names|
      invariant 0 <= i <= |names|
      invariant AllTerminate(ep, names[..i])
      invariant Aggregated(ep, names[..i]) == Success(d)
    {
      var name := names[i];
      AggregatedPrefix(ep, names, i);
      ghost var before := d;
      d := d.Set(name, []);
      var found, _ := FetchAll(ep, name, LabelAndSample);
      if found.Failure? {
        FirstFailureIsFinal(ep, names, i + 1);
        return Failure(found.error);
      }
      d := d.Set(name, found.value);
      SetTwice(before, name, [], found.value);
      i := i + 1;
    }
    assert names[..i] == names;
    r := Success(d);
  }

  lemma SetTwice(d: SampleMap, name: string, v: seq<Pair>, w: seq<Pair>)
    requires d.Valid()
    ensures d.Set(name, v).Set(name, w) == d.Set(name, w)
  {
    assert d.entries[name := v][name := w] == d.entries[name := w];
  }

  /** Once the names so far fail, more names do not change the outcome. */
  lemma {:induction false} FirstFailureIsFinal(ep: Endpoint, names: seq<string>, k: nat)
    requires AllTerminate(ep, names)
    requires k <= |names|
    requires Aggregated(ep, names[..k]).Failure?
    ensures Aggregated(ep, names) == Aggregated(ep, names[..k])
    decreases |names| - k
  {
    if k < |names| {
      AggregatedPrefix(ep, names, k);
      FirstFailureIsFinal(ep, names, k + 1);
    } else {
      assert names[..k] == names;
    }
  }

  /** The procedure as written: `numpy.nditer` refuses a zero-size array, so an
      empty name list raises ValueError instead of giving `{}`. */
  method RetrieveSamplesAndLabelsAsWritten(ep: Endpoint, names: seq<string>) returns (r: Result<SampleMap>)
    requires AllTerminate(ep, names)
    ensures names == [] ==> r == Failure(ValueError("Iteration of zero-sized operands is not enabled"))
    ensures names != [] ==> r == Aggregated(ep, names)
  {
    if |names| == 0 {
      return Failure(ValueError("Iteration of zero-sized operands is not enabled"));
    }
    r := RetrieveSamplesAndLabels(ep, names);
  }

  /** For no names the corrected procedure returns the empty dict. */
  lemma NoNamesGiveEmptyMap(ep: Endpoint)
    ensures Aggregated(ep, []) == Success(Empty)
  {
  }
}
