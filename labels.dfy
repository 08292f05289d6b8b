/** The compound identity resolver: fetch every label of a compound and
    normalise them as `numpy.unique(numpy.char.lower(numpy.array(names)))`
    does, i.e. lowercase each label, then sort and drop duplicates. Lowercasing
    is restricted to ASCII. */
module Labels {
  import opened Results
  import opened Pagination

  function LowerChar(c: char): char
  {
    if 'A' <= c <= 'Z' then (c as int + 32) as char else c
  }

  /** No ASCII upper-case letter occurs in `s`. */
  predicate IsLower(s: string)
  {
    forall i :: 0 <= i < |s| ==> !('A' <= s[i] <= 'Z')
  }

  /** `str.lower` restricted to ASCII letters. */
  function Lower(s: string): (r: string)
    ensures |r| == |s| && IsLower(r)
    ensures forall i :: 0 <= i < |s| ==> r[i] == LowerChar(s[i])
  {
    if s == [] then [] else [LowerChar(s[0])] + Lower(s[1..])
  }

  /** Lowercasing a lower-case string changes nothing. */
  lemma LowerOfLower(s: string)
    requires IsLower(s)
    ensures Lower(s) == s
  {
    assert forall i :: 0 <= i < |s| ==> Lower(s)[i] == s[i];
  }

  /** Python's `<` on `str`: lexicographic by code point, a proper prefix first.
      `numpy.unique` sorts a Unicode array in this order. */
  predicate Less(a: string, b: string)
    ensures |a| < |b| && a == b[..|a|] ==> Less(a, b)
    ensures Less(a, b) ==> |b| > 0 && (|a| == 0 || a[0] <= b[0])
  {
    |b| > 0 && (|a| == 0 || a[0] < b[0] || (a[0] == b[0] && Less(a[1..], b[1..])))
  }

  lemma {:induction false} LessIrreflexive(a: string)
    ensures !Less(a, a)
  {
    if |a| > 0 {
      LessIrreflexive(a[1..]);
    }
  }

  lemma {:induction false} LessTransitive(a: string, b: string, c: string)
    requires Less(a, b) && Less(b, c)
    ensures Less(a, c)
  {
    if |a| > 0 && a[0] == b[0] && b[0] == c[0] {
      LessTransitive(a[1..], b[1..], c[1..]);
    }
  }

  lemma {:induction false} LessTotal(a: string, b: string)
    requires a != b
    ensures Less(a, b) || Less(b, a)
  {
    if |a| > 0 && |b| > 0 && a[0] == b[0] {
      assert a == [a[0]] + a[1..] && b == [b[0]] + b[1..];
      LessTotal(a[1..], b[1..]);
    }
  }

  /** Sorted in increasing order with no element repeated. */
  predicate StrictlySorted(s: seq<string>)
  {
    forall i, j :: 0 <= i < j < |s| ==> Less(s[i], s[j])
  }

  /** Adds `x` to a strictly sorted sequence at its place, unless present. */
  function Insert(x: string, s: seq<string>): (r: seq<string>)
    requires StrictlySorted(s)
    ensures StrictlySorted(r)
    ensures forall y :: y in r <==> y in s || y == x
  {
    if s == [] then [x]
    else if x == s[0] then s
    else if Less(x, s[0]) then
      assert forall j :: 0 < j < |s| ==> Less(x, s[j]) by {
        forall j | 0 < j < |s| ensures Less(x, s[j]) {
          LessTransitive(x, s[0], s[j]);
        }
      }
      [x] + s
    else
      LessTotal(x, s[0]);
      var t := Insert(x, s[1..]);
      assert forall y :: y in t ==> Less(s[0], y) by {
        forall y | y in t ensures Less(s[0], y) {
          if y != x {
            var j :| 0 <= j < |s[1..]| && s[1..][j] == y;
            assert s[j + 1] == y;
          }
        }
      }
      assert forall j :: 0 <= j < |t| ==> t[j] in t;
      assert s == [s[0]] + s[1..];
      [s[0]] + t
  }

  /** `numpy.unique` on strings: the distinct elements, in increasing order. */
  function Unique(xs: seq<string>): (r: seq<string>)
    ensures StrictlySorted(r)
    ensures forall y :: y in r <==> y in xs
  {
    if xs == [] then []
    else
      var init := xs[..|xs| - 1];
      assert xs == init + [xs[|xs| - 1]];
      Insert(xs[|xs| - 1], Unique(init))
  }

  lemma HeadIsElement(s: seq<string>)
    requires s != []
    ensures s[0] in s
  {
  }

  /** The first element of a strictly sorted sequence does not occur again. */
  lemma HeadNotInTail(a: seq<string>)
    requires StrictlySorted(a) && a != []
    ensures a[0] !in a[1..]
  {
    if a[0] in a[1..] {
      var i :| 0 <= i < |a[1..]| && a[1..][i] == a[0];
      assert Less(a[0], a[i + 1]);
      LessIrreflexive(a[0]);
    }
  }

  /** A strictly sorted sequence is determined by its elements. */
  lemma {:induction false} SortedIsDetermined(a: seq<string>, b: seq<string>)
    requires StrictlySorted(a) && StrictlySorted(b)
    requires forall y :: y in a <==> y in b
    ensures a == b
  {
    if a == [] || b == [] {
      if a != [] {
        HeadIsElement(a);
        assert false;
      }
      if b != [] {
        HeadIsElement(b);
        assert false;
      }
    } else {
      assert a[0] in b && b[0] in a;
      if a[0] != b[0] {
        var i :| 0 <= i < |a| && a[i] == b[0];
        var j :| 0 <= j < |b| && b[j] == a[0];
        LessTransitive(a[0], b[0], a[0]);
        LessIrreflexive(a[0]);
      }
      HeadNotInTail(a);
      HeadNotInTail(b);
      forall y ensures y in a[1..] <==> y in b[1..] {
        assert y in a[1..] ==> y in a && y != a[0];
        assert y in b[1..] ==> y in b && y != b[0];
        assert a == [a[0]] + a[1..] && b == [b[0]] + b[1..];
      }
      SortedIsDetermined(a[1..], b[1..]);
      assert a == [a[0]] + a[1..] && b == [b[0]] + b[1..];
    }
  }

  /** `numpy.char.lower` applied to every label. */
  function LowerAll(names: seq<string>): (r: seq<string>)
    ensures |r| == |names|
  {
    seq(|names|, i requires 0 <= i < |names| => Lower(names[i]))
  }

  /** The label list `retrieve_compound_labels` returns for the fetched labels:
      lower-case, sorted, without repeats, holding the lower-case form of every
      fetched label and nothing else. */
  function NormaliseLabels(names: seq<string>): (r: seq<string>)
    ensures StrictlySorted(r)
    ensures forall x :: x in r ==> IsLower(x)
    ensures forall i :: 0 <= i < |names| ==> Lower(names[i]) in r
    ensures forall x :: x in r ==> exists i :: 0 <= i < |names| && x == Lower(names[i])
  {
    var lowered := LowerAll(names);
    forall i | 0 <= i < |names| ensures Lower(names[i]) in lowered {
      assert lowered[i] == Lower(names[i]);
    }
    Unique(lowered)
  }

  /** Normalising a normalised label list changes nothing. */
  lemma NormaliseIdempotent(names: seq<string>)
    ensures NormaliseLabels(NormaliseLabels(names)) == NormaliseLabels(names)
  {
    var r := NormaliseLabels(names);
    assert LowerAll(r) == r by {
      forall i | 0 <= i < |r| ensures LowerAll(r)[i] == r[i] {
        LowerOfLower(r[i]);
      }
    }
    SortedIsDetermined(Unique(r), r);
  }

  /** The normalisation as written: `numpy.array([])` has a float dtype, and
      `numpy.char.lower` rejects a non-string array, so an empty label list
      raises instead of giving an empty result. */
  function NormaliseLabelsAsWritten(names: seq<string>): (r: Result<seq<string>>)
    ensures r.Failure? <==> names == []
    ensures r.Success? ==> r.value == NormaliseLabels(names)
  {
    if names == [] then Failure(TypeError("string operation on non-string array"))
    else Success(NormaliseLabels(names))
  }

  /** A compound with no labels: the code as written raises, the corrected
      normalisation gives the empty list. */
  lemma EmptyLabelListRaises()
    ensures NormaliseLabelsAsWritten([]).Failure?
    ensures NormaliseLabels([]) == []
  {
  }

  /** `i['compound']['value']`. */
  function CompoundField(row: Row): (r: Result<string>)
    ensures r.Success? <==> "compound" in row
    ensures r.Success? ==> r.value == row["compound"]
    ensures r.Failure? ==> r.error == KeyError("compound")
  {
    Field(row, "compound")
  }

  /** `retrieve_compound_labels(chemblid)`: every label the endpoint returns for
      the compound, normalised. A row without `?compound` raises KeyError. */
  method RetrieveCompoundLabels(ep: Endpoint, chemblId: string) returns (r: Result<seq<string>>)
    requires Terminates(ep, chemblId)
    ensures Fetched(ep, chemblId, CompoundField).Failure? ==>
              r == Failure(Fetched(ep, chemblId, CompoundField).error)
    ensures Fetched(ep, chemblId, CompoundField).Success? ==>
              r == Success(NormaliseLabels(Fetched(ep, chemblId, CompoundField).value))
  {
    var names, _ := FetchAll(ep, chemblId, CompoundField);
    if names.Failure? {
      return Failure(names.error);
    }
    r := Success(NormaliseLabels(names.value));
  }

  /** `retrieve_compound_labels(chemblid)` as written: the normalisation at
      the end raises `TypeError` when the fetch found no labels. */
  method RetrieveCompoundLabelsAsWritten(ep: Endpoint, chemblId: string) returns (r: Result<seq<string>>)
    requires Terminates(ep, chemblId)
    ensures r.Failure? <==> Fetched(ep, chemblId, CompoundField).Failure?
                            || Fetched(ep, chemblId, CompoundField).value == []
    ensures Fetched(ep, chemblId, CompoundField).Failure? ==>
              r == Failure(Fetched(ep, chemblId, CompoundField).error)
    ensures Fetched(ep, chemblId, CompoundField).Success? ==>
              r == NormaliseLabelsAsWritten(Fetched(ep, chemblId, CompoundField).value)
  {
    var names, _ := FetchAll(ep, chemblId, CompoundField);
    if names.Failure? {
      return Failure(names.error);
    }
    r := NormaliseLabelsAsWritten(names.value);
  }

  /** A compound whose first page is empty: the procedure as written raises
      `TypeError`, the corrected one returns no labels. */
  lemma NoLabelsRaiseAsWritten(ep: Endpoint, chemblId: string)
    requires Terminates(ep, chemblId)
    requires PageAt(ep, chemblId, 0) == []
    ensures Fetched(ep, chemblId, CompoundField) == Success([])
    ensures NormaliseLabelsAsWritten(Fetched(ep, chemblId, CompoundField).value)
            == Failure(TypeError("string operation on non-string array"))
    ensures NormaliseLabels(Fetched(ep, chemblId, CompoundField).value) == []
  {
    assert FirstEmpty(ep, chemblId) == 0;
  }
}
