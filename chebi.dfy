/** The retrievals by ChEBI identifier: `retrieve_samples_by_chebiid` and its
    `_and_molar`, `_and_celline` and `_and_strain` variants, which rewrite the
    identifier and then run the paginated fetch, each projecting a row onto
    `[sample, <second variable>]`; and `check_chebisamples_duplicity`, which
    keeps the first column of such a result. */
module Chebi {
  import opened Results
  import opened Pagination

  /** `chebiid.replace(':', '_')`: the IRI form of a ChEBI identifier. */
  function ReplaceColons(s: string): (r: string)
    ensures |r| == |s|
    ensures ':' !in r
    ensures forall i :: 0 <= i < |s| && s[i] != ':' ==> r[i] == s[i]
    ensures forall i :: 0 <= i < |s| && s[i] == ':' ==> r[i] == '_'
  {
    if s == [] then [] else [if s[0] == ':' then '_' else s[0]] + ReplaceColons(s[1..])
  }

  /** Rewriting an already rewritten identifier changes nothing. */
  lemma ReplaceColonsIdempotent(s: string)
    ensures ReplaceColons(ReplaceColons(s)) == ReplaceColons(s)
  {
    var r := ReplaceColons(s);
    assert forall i :: 0 <= i < |r| ==> r[i] != ':';
  }

  /** `[i['sample']['value'], i[field]['value']]` */
  function SampleWith(field: string): (project: Row -> Result<Pair>)
    ensures forall row :: project(row).Success? <==> "sample" in row && field in row
    ensures forall row :: project(row).Success? ==> project(row).value == Pair(row["sample"], row[field])
  {
    row => FieldPair(row, "sample", field)
  }

  /** When every fetched row binds `?sample` and `field`, the result is one
      `[sample, field]` pair per row, in the endpoint's order. */
  lemma SampleWithSucceeds(ep: Endpoint, term: string, field: string)
    requires Terminates(ep, term)
    requires forall row :: row in Collected(ep, term, FirstEmpty(ep, term)) ==> "sample" in row && field in row
    ensures Fetched(ep, term, SampleWith(field)).Success?
    ensures var rows := Collected(ep, term, FirstEmpty(ep, term));
            var pairs := Fetched(ep, term, SampleWith(field)).value;
            |pairs| == |rows| &&
            forall i :: 0 <= i < |rows| ==> pairs[i] == Pair(rows[i]["sample"], rows[i][field])
  {
    var rows := Collected(ep, term, FirstEmpty(ep, term));
    assert forall i :: 0 <= i < |rows| ==> rows[i] in rows;
    ProjectAllSuccess(rows, SampleWith(field));
  }

  /** `retrieve_samples_by_chebiid`: `[sample, attribute]` pairs. */
  method RetrieveSamplesByChebiid(ep: Endpoint, chebiId: string) returns (r: Result<seq<Pair>>)
    requires Terminates(ep, ReplaceColons(chebiId))
    ensures r == Fetched(ep, ReplaceColons(chebiId), SampleWith("attribute"))
  {
    var found, _ := FetchAll(ep, ReplaceColons(chebiId), SampleWith("attribute"));
    r := found;
  }

  /** `retrieve_samples_by_chebiid_and_molar`: `[sample, compound]` pairs. */
  method RetrieveSamplesByChebiidAndMolar(ep: Endpoint, chebiId: string) returns (r: Result<seq<Pair>>)
    requires Terminates(ep, ReplaceColons(chebiId))
    ensures r == Fetched(ep, ReplaceColons(chebiId), SampleWith("compound"))
  {
    var found, _ := FetchAll(ep, ReplaceColons(chebiId), SampleWith("compound"));
    r := found;
  }

  /** `retrieve_samples_by_chebiid_and_celline`: `[sample, cellline]` pairs. */
  method RetrieveSamplesByChebiidAndCelline(ep: Endpoint, chebiId: string) returns (r: Result<seq<Pair>>)
    requires Terminates(ep, ReplaceColons(chebiId))
    ensures r == Fetched(ep, ReplaceColons(chebiId), SampleWith("cellline"))
  {
    var found, _ := FetchAll(ep, ReplaceColons(chebiId), SampleWith("cellline"));
    r := found;
  }

  /** `retrieve_samples_by_chebiid_and_strain` as written: it selects and reads
      `?cellline`, a variable its query body never binds. */
  method RetrieveSamplesByChebiidAndStrainAsWritten(ep: Endpoint, chebiId: string) returns (r: Result<seq<Pair>>)
    requires Terminates(ep, ReplaceColons(chebiId))
    ensures r == Fetched(ep, ReplaceColons(chebiId), SampleWith("cellline"))
  {
    var found, _ := FetchAll(ep, ReplaceColons(chebiId), SampleWith("cellline"));
    r := found;
  }

  /** A solution of the strain query as written binds `?sample` but never
      `?cellline`, so as soon as the first page holds a row the procedure raises
      KeyError instead of returning the samples. */
  lemma StrainAsWrittenRaises(ep: Endpoint, term: string)
    requires Terminates(ep, term)
    requires PageAt(ep, term, 0) != []
    requires "sample" in PageAt(ep, term, 0)[0] && "cellline" !in PageAt(ep, term, 0)[0]
    ensures Fetched(ep, term, SampleWith("cellline")) == Failure(KeyError("cellline"))
  {
    var n := FirstEmpty(ep, term);
    assert n >= 1;
    CollectedPrefix(ep, term, 1, n);
    assert Collected(ep, term, 1) == PageAt(ep, term, 0);
    FirstRowFails(Collected(ep, term, n), SampleWith("cellline"));
  }

  /** `retrieve_samples_by_chebiid_and_strain` with the strain variable it
      evidently means: `[sample, strain]` pairs. */
  method RetrieveSamplesByChebiidAndStrain(ep: Endpoint, chebiId: string) returns (r: Result<seq<Pair>>)
    requires Terminates(ep, ReplaceColons(chebiId))
    ensures r == Fetched(ep, ReplaceColons(chebiId), SampleWith("strain"))
  {
    var found, _ := FetchAll(ep, ReplaceColons(chebiId), SampleWith("strain"));
    r := found;
  }

  /** `check_chebisamples_duplicity`: the first element of every pair, in order. */
  function FirstColumn(pairs: seq<Pair>): (r: seq<string>)
    ensures |r| == |pairs|
    ensures forall i :: 0 <= i < |pairs| ==> r[i] == pairs[i].first
  {
    if pairs == [] then [] else [pairs[0].first] + FirstColumn(pairs[1..])
  }

  /** Applied to a successful retrieval, the first column is the `?sample`
      value of every fetched row, in the endpoint's order. */
  lemma {:induction false} FirstColumnIsSamples(ep: Endpoint, term: string, field: string)
    requires Terminates(ep, term)
    requires Fetched(ep, term, SampleWith(field)).Success?
    ensures var rows := Collected(ep, term, FirstEmpty(ep, term));
            var samples := FirstColumn(Fetched(ep, term, SampleWith(field)).value);
            |samples| == |rows| &&
            forall i :: 0 <= i < |rows| ==> "sample" in rows[i] && samples[i] == rows[i]["sample"]
  {
    var rows := Collected(ep, term, FirstEmpty(ep, term));
    ProjectAllSuccess(rows, SampleWith(field));
  }
}
