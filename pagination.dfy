/** The paginated fetch-and-accumulate loop that every retrieval in the source
    repeats: ask for `LIMIT 50 OFFSET offset`, stop at the first empty page,
    otherwise append the projection of every row and advance the offset.

    The remote endpoint is an abstract page source: a function from the query
    parameters to the rows it returns. The query text itself is opaque. */
module Pagination {
  import opened Results

  /** Rows per request (`limit = 50`). */
  const Limit: nat := 50
  /** Offset increment after each non-empty page (`step = 50`). */
  const Step: nat := 50

  /** The parameters substituted into a query body: search term, LIMIT, OFFSET. */
  datatype Query = Query(term: string, limit: nat, offset: nat)

  /** A query endpoint: the page of rows it returns for each query. */
  type Endpoint = Query -> seq<Row>

  /** The page returned by the k-th request for `term`. */
  function PageAt(ep: Endpoint, term: string, k: nat): seq<Row>
  {
    ep(Query(term, Limit, Step * k))
  }

  /** Some request for `term` returns an empty page, so the loop ends. */
  ghost predicate Terminates(ep: Endpoint, term: string)
  {
    exists k: nat :: PageAt(ep, term, k) == []
  }

  /** Page `n` is the first empty one. */
  ghost predicate IsFirstEmpty(ep: Endpoint, term: string, n: nat)
  {
    PageAt(ep, term, n) == [] && forall j: nat :: j < n ==> PageAt(ep, term, j) != []
  }

  /** Any empty page has a first empty page at or before it. */
  lemma {:induction false} FirstEmptyExists(ep: Endpoint, term: string, b: nat)
    requires PageAt(ep, term, b) == []
    ensures exists n: nat :: n <= b && IsFirstEmpty(ep, term, n)
    decreases b
  {
    if forall j: nat :: j < b ==> PageAt(ep, term, j) != [] {
      assert IsFirstEmpty(ep, term, b);
    } else {
      var j: nat :| j < b && PageAt(ep, term, j) == [];
      FirstEmptyExists(ep, term, j);
    }
  }

  /** The index of the first empty page: the number of non-empty pages fetched. */
  ghost function FirstEmpty(ep: Endpoint, term: string): (n: nat)
    requires Terminates(ep, term)
    ensures IsFirstEmpty(ep, term, n)
  {
    var b: nat :| PageAt(ep, term, b) == [];
    FirstEmptyExists(ep, term, b);
    var n: nat :| IsFirstEmpty(ep, term, n);
    n
  }

  /** The rows of pages 0 .. n-1, in order. */
  function Collected(ep: Endpoint, term: string, n: nat): seq<Row>
  {
    if n == 0 then [] else Collected(ep, term, n - 1) + PageAt(ep, term, n - 1)
  }

  /** Nothing is collected exactly when all the pages asked for are empty. */
  lemma {:induction false} CollectedEmpty(ep: Endpoint, term: string, n: nat)
    ensures Collected(ep, term, n) == [] <==> forall k: nat :: k < n ==> PageAt(ep, term, k) == []
  {
    if n > 0 {
      CollectedEmpty(ep, term, n - 1);
    }
  }

  /** Projecting rows one at a time, front to back; the first row whose
      projection raises ends the whole operation with that error. */
  function ProjectAll<T>(rows: seq<Row>, project: Row -> Result<T>): (r: Result<seq<T>>)
    ensures r.Success? ==> |r.value| == |rows|
  {
    if rows == [] then Success([])
    else
      match ProjectAll(rows[..|rows| - 1], project)
      case Failure(e) => Failure(e)
      case Success(xs) =>
        match project(rows[|rows| - 1])
        case Failure(e) => Failure(e)
        case Success(x) => Success(xs + [x])
  }

  /** What the loop returns: the projection of every row of every page before
      the first empty one. */
  ghost function Fetched<T>(ep: Endpoint, term: string, project: Row -> Result<T>): (r: Result<seq<T>>)
    requires Terminates(ep, term)
    ensures r.Success? ==> |r.value| == |Collected(ep, term, FirstEmpty(ep, term))|
    ensures FirstEmpty(ep, term) == 0 ==> r == Success([])
  {
    ProjectAll(Collected(ep, term, FirstEmpty(ep, term)), project)
  }

  /** The projection succeeds exactly when every row projects, and then it is
      the rows' projections in row order. */
  lemma {:induction false} ProjectAllSuccess<T>(rows: seq<Row>, project: Row -> Result<T>)
    ensures ProjectAll(rows, project).Success? <==> forall i :: 0 <= i < |rows| ==> project(rows[i]).Success?
    ensures ProjectAll(rows, project).Success? ==>
      forall i :: 0 <= i < |rows| ==> ProjectAll(rows, project).value[i] == project(rows[i]).value
  {
    if rows != [] {
      var init := rows[..|rows| - 1];
      ProjectAllSuccess(init, project);
      assert forall i :: 0 <= i < |init| ==> init[i] == rows[i];
    }
  }

  /** On failure the error is that of the first row whose projection fails. */
  lemma {:induction false} ProjectAllFailure<T>(rows: seq<Row>, project: Row -> Result<T>)
    requires ProjectAll(rows, project).Failure?
    ensures exists i :: (0 <= i < |rows| && project(rows[i]).Failure?
                         && ProjectAll(rows, project).error == project(rows[i]).error
                         && forall j :: 0 <= j < i ==> project(rows[j]).Success?)
  {
    var init := rows[..|rows| - 1];
    assert forall i :: 0 <= i < |init| ==> init[i] == rows[i];
    if ProjectAll(init, project).Failure? {
      ProjectAllFailure(init, project);
    } else {
      ProjectAllSuccess(init, project);
      assert project(rows[|rows| - 1]).Failure?;
    }
  }

  /** A first row that raises decides the outcome. */
  lemma FirstRowFails<T>(rows: seq<Row>, project: Row -> Result<T>)
    requires rows != [] && project(rows[0]).Failure?
    ensures ProjectAll(rows, project) == Failure(project(rows[0]).error)
  {
    ProjectAllSuccess(rows, project);
    ProjectAllFailure(rows, project);
  }

  /** Once a prefix fails, later rows do not change the outcome. */
  lemma {:induction false} FailureIsFinal<T>(xs: seq<Row>, ys: seq<Row>, project: Row -> Result<T>)
    requires ProjectAll(xs, project).Failure?
    ensures ProjectAll(xs + ys, project) == ProjectAll(xs, project)
    decreases |ys|
  {
    if ys == [] {
      assert xs + ys == xs;
    } else {
      var init := ys[..|ys| - 1];
      var e := ProjectAll(xs, project).error;
      assert (xs + ys)[..|xs + ys| - 1] == xs + init;
      FailureIsFinal(xs, init, project);
      assert ProjectAll(xs + init, project) == Failure(e);
      assert ProjectAll(xs + ys, project) == Failure(e);
    }
  }

  /** Fewer pages collect a prefix of the rows of more pages. */
  lemma {:induction false} CollectedPrefix(ep: Endpoint, term: string, k: nat, n: nat)
    requires k <= n
    ensures |Collected(ep, term, k)| <= |Collected(ep, term, n)|
    ensures Collected(ep, term, n) == Collected(ep, term, k) + Collected(ep, term, n)[|Collected(ep, term, k)|..]
    decreases n - k
  {
    if k < n {
      CollectedPrefix(ep, term, k, n - 1);
      var a, b := Collected(ep, term, k), Collected(ep, term, n - 1);
      assert b == a + b[|a|..];
      assert Collected(ep, term, n) == a + (b[|a|..] + PageAt(ep, term, n - 1));
    }
  }

  /** Once the rows of the first m pages fail, the rows of more pages fail
      in the same way. */
  lemma FailedPageIsFinal<T>(ep: Endpoint, term: string, m: nat, n: nat, project: Row -> Result<T>)
    requires m <= n
    requires ProjectAll(Collected(ep, term, m), project).Failure?
    ensures ProjectAll(Collected(ep, term, n), project) == ProjectAll(Collected(ep, term, m), project)
  {
    CollectedPrefix(ep, term, m, n);
    FailureIsFinal(Collected(ep, term, m), Collected(ep, term, n)[|Collected(ep, term, m)|..], project);
  }

  /** The inner `for i in bindings: append(...)` loop: projects the rows of one
      page onto the accumulator, stopping at the first row that raises. */
  method AppendPage<T>(ghost seen: seq<Row>, acc: seq<T>, page: seq<Row>, project: Row -> Result<T>)
    returns (r: Result<seq<T>>)
    requires ProjectAll(seen, project) == Success(acc)
    ensures r == ProjectAll(seen + page, project)
  {
    var out := acc;
    var i := 0;
    assert seen + page[..0] == seen;
    while i < |page|
      invariant 0 <= i <= |page|
      invariant ProjectAll(seen + page[..i], project) == Success(out)
    {
      var x := project(page[i]);
      assert (seen + page[..i + 1])[..|seen| + i] == seen + page[..i];
      if x.Failure? {
        assert seen + page == (seen + page[..i + 1]) + page[i + 1..];
        FailureIsFinal(seen + page[..i + 1], page[i + 1..], project);
        return Failure(x.error);
      }
      out := out + [x.value];
      i := i + 1;
    }
    assert page[..i] == page;
    r := Success(out);
  }

  /** The loop of `retrieve_compound_labels`, `retrieve_samples_and_labels_for_compound`
      and the `retrieve_samples_by_chebiid*` procedures, parameterised by the
      projection each applies to a row. `offsets` are the OFFSET values of the
      requests issued, in order. */
  method FetchAll<T>(ep: Endpoint, term: string, project: Row -> Result<T>)
    returns (r: Result<seq<T>>, ghost offsets: seq<nat>)
    requires Terminates(ep, term)
    ensures r == Fetched(ep, term, project)
    ensures 1 <= |offsets| <= FirstEmpty(ep, term) + 1
    ensures forall j :: 0 <= j < |offsets| ==> offsets[j] == Step * j
    ensures r.Success? ==> |offsets| == FirstEmpty(ep, term) + 1
    ensures r.Failure? ==> && |offsets| <= FirstEmpty(ep, term)
                           && ProjectAll(Collected(ep, term, |offsets| - 1), project).Success?
                           && ProjectAll(Collected(ep, term, |offsets|), project).Failure?
  {
    ghost var n := FirstEmpty(ep, term);
    var offset: nat := 0;
    var acc: seq<T> := [];
    ghost var k: nat := 0;
    offsets := [];
    while true
      invariant k <= n
      invariant offset == Step * k
      invariant |offsets| == k
      invariant forall j :: 0 <= j < k ==> offsets[j] == Step * j
      invariant ProjectAll(Collected(ep, term, k), project) == Success(acc)
      decreases n - k
    {
      var page := ep(Query(term, Limit, offset));
      offsets := offsets + [offset];
      if |page| == 0 {
        break;
      }
      assert page == PageAt(ep, term, k);
      assert k < n;
      var next := AppendPage(Collected(ep, term, k), acc, page, project);
      assert Collected(ep, term, k) + page == Collected(ep, term, k + 1);
      if next.Failure? {
        FailedPageIsFinal(ep, term, k + 1, n, project);
        return next, offsets;
      }
      acc := next.value;
      offset := offset + Step;
      k := k + 1;
    }
    assert IsFirstEmpty(ep, term, k);
    r := Success(acc);
  }

  /** `rows LIMIT limit OFFSET offset` over a fixed, finite result list. */
  function Window(all: seq<Row>, offset: nat, limit: nat): (w: seq<Row>)
    ensures |w| <= limit
    ensures w == [] <==> offset >= |all| || limit == 0
  {
    var lo := if offset < |all| then offset else |all|;
    var hi := if offset + limit < |all| then offset + limit else |all|;
    all[lo..hi]
  }

  /** Every request for `term` is answered with LIMIT/OFFSET over `all`. */
  ghost predicate ServesLimitOffset(ep: Endpoint, term: string, all: seq<Row>)
  {
    forall q: Query :: q.term == term ==> ep(q) == Window(all, q.offset, q.limit)
  }

  lemma {:induction false} WindowCollected(ep: Endpoint, term: string, all: seq<Row>, k: nat)
    requires ServesLimitOffset(ep, term, all)
    ensures Collected(ep, term, k) == all[..if Step * k < |all| then Step * k else |all|]
  {
    if k > 0 {
      WindowCollected(ep, term, all, k - 1);
      assert PageAt(ep, term, k - 1) == Window(all, Step * (k - 1), Limit);
    }
  }

  /** Against an endpoint that serves N rows with LIMIT/OFFSET, the loop makes
      ceil(N / 50) non-empty requests plus the final empty one, and collects all
      N rows in the endpoint's order. */
  lemma LimitOffsetEndpoint(ep: Endpoint, term: string, all: seq<Row>)
    requires ServesLimitOffset(ep, term, all)
    ensures Terminates(ep, term)
    ensures FirstEmpty(ep, term) == (|all| + Limit - 1) / Limit
    ensures Collected(ep, term, FirstEmpty(ep, term)) == all
  {
    var m := (|all| + Limit - 1) / Limit;
    assert PageAt(ep, term, m) == Window(all, Step * m, Limit) == [];
    var n := FirstEmpty(ep, term);
    forall j: nat | j < m ensures PageAt(ep, term, j) != [] {
      assert PageAt(ep, term, j) == Window(all, Step * j, Limit);
    }
    assert n == m;
    WindowCollected(ep, term, all, m);
  }
}
