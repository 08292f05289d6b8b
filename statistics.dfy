/** Statistics over the sample map: the per-name count table (`no_of_samples`)
    and the name-by-name overlap matrix (`check_duplicity_of_samples`). */
module Statistics {
  import opened Results
  import opened SampleMaps
  import opened Tables

  const CountHeader: seq<Cell> := [Text("Compound name"), Text("No of samples")]

  /** `no_of_samples`: the header, then one row per name in dict order pairing
      the name with the number of pairs recorded under it. */
  method NoOfSamples(d: SampleMap) returns (table: Table)
    requires d.Valid()
    ensures |table| == |d.keys| + 1
    ensures table[0] == CountHeader
    ensures forall i :: 0 <= i < |d.keys| ==> table[i + 1] == [Text(d.keys[i]), Count(|d.entries[d.keys[i]]|)]
  {
    table := [CountHeader];
    var i := 0;
    while i < |d.keys|
      invariant 0 <= i <= |d.keys|
      invariant |table| == i + 1
      invariant table[0] == CountHeader
      invariant forall j :: 0 <= j < i ==> table[j + 1] == [Text(d.keys[j]), Count(|d.entries[d.keys[j]]|)]
    {
      var name := d.keys[i];
      table := table + [[Text(name), Count(|d.entries[name]|)]];
      i := i + 1;
    }
  }

  /** The distinct sample ids, `set(x[1] for x in pairs)`. */
  function SampleIds(pairs: seq<Pair>): set<string>
  {
    set p | p in pairs :: p.second
  }

  /** The sample ids are exactly the second elements of the pairs. */
  lemma SampleIdsMembers(pairs: seq<Pair>)
    ensures forall i :: 0 <= i < |pairs| ==> pairs[i].second in SampleIds(pairs)
    ensures forall id :: id in SampleIds(pairs) ==> exists i :: 0 <= i < |pairs| && pairs[i].second == id
  {
    forall i | 0 <= i < |pairs| ensures pairs[i].second in SampleIds(pairs) {
      assert pairs[i] in pairs;
    }
  }

  /** One overlap cell: 0 when either name has no pairs, otherwise the number
      of sample ids the two names share. */
  function OverlapCell(a: seq<Pair>, b: seq<Pair>): nat
  {
    if |a| == 0 || |b| == 0 then 0 else |SampleIds(a) * SampleIds(b)|
  }

  /** The explicit 0 for an empty list agrees with the intersection size. */
  lemma OverlapIsIntersection(a: seq<Pair>, b: seq<Pair>)
    ensures OverlapCell(a, b) == |SampleIds(a) * SampleIds(b)|
  {
    if |a| == 0 {
      assert SampleIds(a) == {};
    } else if |b| == 0 {
      assert SampleIds(b) == {};
    }
  }

  lemma OverlapSymmetric(a: seq<Pair>, b: seq<Pair>)
    ensures OverlapCell(a, b) == OverlapCell(b, a)
  {
    assert SampleIds(a) * SampleIds(b) == SampleIds(b) * SampleIds(a);
  }

  /** A name's overlap with itself is its number of distinct sample ids. */
  lemma OverlapDiagonal(a: seq<Pair>)
    ensures OverlapCell(a, a) == |SampleIds(a)|
  {
    OverlapIsIntersection(a, a);
    assert SampleIds(a) * SampleIds(a) == SampleIds(a);
  }

  lemma SubsetCardinality(x: set<string>, y: set<string>)
    requires x <= y
    ensures |x| <= |y|
  {
    assert y == x + (y - x);
  }

  /** No cell exceeds either name's number of distinct sample ids. */
  lemma OverlapBounded(a: seq<Pair>, b: seq<Pair>)
    ensures OverlapCell(a, b) <= |SampleIds(a)| && OverlapCell(a, b) <= |SampleIds(b)|
  {
    OverlapIsIntersection(a, b);
    SubsetCardinality(SampleIds(a) * SampleIds(b), SampleIds(a));
    SubsetCardinality(SampleIds(a) * SampleIds(b), SampleIds(b));
  }

  /** Names that share no sample id overlap in 0. */
  lemma OverlapOfDisjoint(a: seq<Pair>, b: seq<Pair>)
    requires SampleIds(a) !! SampleIds(b)
    ensures OverlapCell(a, b) == 0
  {
    OverlapIsIntersection(a, b);
    assert SampleIds(a) * SampleIds(b) == {};
  }

  /** The distinct sample ids are never more than the pairs. */
  lemma {:induction false} SampleIdsAtMostPairs(pairs: seq<Pair>)
    ensures |SampleIds(pairs)| <= |pairs|
  {
    if pairs != [] {
      SampleIdsAtMostPairs(pairs[1..]);
      assert SampleIds(pairs) == SampleIds(pairs[1..]) + {pairs[0].second} by {
        assert pairs == [pairs[0]] + pairs[1..];
      }
    }
  }

  /** The header row after the first `j` names: 'Compound Name', then those
      names in dict order. */
  function HeaderPrefix(d: SampleMap, j: nat): (h: seq<Cell>)
    requires j <= |d.keys|
    ensures |h| == j + 1 && h[0] == Text("Compound Name")
    ensures forall m :: 0 <= m < j ==> h[m + 1] == Text(d.keys[m])
  {
    if j == 0 then [Text("Compound Name")] else HeaderPrefix(d, j - 1) + [Text(d.keys[j - 1])]
  }

  /** The header of the overlap matrix: 'Compound Name', then every name in
      dict order. */
  function OverlapHeader(d: SampleMap): (h: seq<Cell>)
    ensures |h| == |d.keys| + 1 && h[0] == Text("Compound Name")
    ensures forall j :: 0 <= j < |d.keys| ==> h[j + 1] == Text(d.keys[j])
  {
    HeaderPrefix(d, |d.keys|)
  }

  /** The overlap of `entries` with the first `j` names, in dict order. */
  function OverlapCells(d: SampleMap, entries: seq<Pair>, j: nat): (cells: seq<Cell>)
    requires d.Valid() && j <= |d.keys|
    ensures |cells| == j
    ensures forall m :: 0 <= m < j ==> cells[m] == Count(OverlapCell(entries, d.entries[d.keys[m]]))
  {
    if j == 0 then [] else OverlapCells(d, entries, j - 1) + [Count(OverlapCell(entries, d.entries[d.keys[j - 1]]))]
  }

  /** The row of `name`: the name, then its overlap with every name in dict order. */
  function OverlapRow(d: SampleMap, name: string): (row: seq<Cell>)
    requires d.Valid() && name in d.entries
    ensures |row| == |d.keys| + 1 && row[0] == Text(name)
  {
    [Text(name)] + OverlapCells(d, d.entries[name], |d.keys|)
  }

  /** Column `j + 1` of the row of `name` is its overlap with the j-th name. */
  lemma OverlapRowCell(d: SampleMap, name: string, j: nat)
    requires d.Valid() && name in d.entries && j < |d.keys|
    ensures OverlapRow(d, name)[j + 1] == Count(OverlapCell(d.entries[name], d.entries[d.keys[j]]))
  {
  }

  /** The rows of the first `i` names, in dict order. */
  function OverlapRows(d: SampleMap, i: nat): (rows: Table)
    requires d.Valid() && i <= |d.keys|
    ensures |rows| == i
    ensures forall k :: 0 <= k < i ==> rows[k] == OverlapRow(d, d.keys[k])
  {
    if i == 0 then [] else OverlapRows(d, i - 1) + [OverlapRow(d, d.keys[i - 1])]
  }

  /** The whole matrix: the header, then one row per name in dict order. */
  function OverlapTable(d: SampleMap): (t: Table)
    requires d.Valid()
    ensures |t| == |d.keys| + 1 && t[0] == OverlapHeader(d)
    ensures forall i :: 0 <= i < |d.keys| ==> t[i + 1] == OverlapRow(d, d.keys[i])
  {
    [OverlapHeader(d)] + OverlapRows(d, |d.keys|)
  }

  /** The matrix is symmetric: the cell at row i, column j equals the one at
      row j, column i. */
  lemma OverlapTableSymmetric(d: SampleMap, i: nat, j: nat)
    requires d.Valid() && i < |d.keys| && j < |d.keys|
    ensures OverlapTable(d)[i + 1][j + 1] == OverlapTable(d)[j + 1][i + 1]
  {
    OverlapRowCell(d, d.keys[i], j);
    OverlapRowCell(d, d.keys[j], i);
    OverlapSymmetric(d.entries[d.keys[i]], d.entries[d.keys[j]]);
  }

  /** On the diagonal, each name's number of distinct sample ids. */
  lemma OverlapTableDiagonal(d: SampleMap, i: nat)
    requires d.Valid() && i < |d.keys|
    ensures OverlapTable(d)[i + 1][i + 1] == Count(|SampleIds(d.entries[d.keys[i]])|)
  {
    OverlapRowCell(d, d.keys[i], i);
    OverlapDiagonal(d.entries[d.keys[i]]);
  }

  /** No cell exceeds the number of distinct sample ids of its row's name or
      of its column's name. */
  lemma OverlapTableBounded(d: SampleMap, i: nat, j: nat)
    requires d.Valid() && i < |d.keys| && j < |d.keys|
    ensures OverlapTable(d)[i + 1][j + 1].Count?
    ensures OverlapTable(d)[i + 1][j + 1].count <= |SampleIds(d.entries[d.keys[i]])|
    ensures OverlapTable(d)[i + 1][j + 1].count <= |SampleIds(d.entries[d.keys[j]])|
  {
    OverlapRowCell(d, d.keys[i], j);
    OverlapBounded(d.entries[d.keys[i]], d.entries[d.keys[j]]);
  }

  /** A name with no pairs has a row and a column of zeros. */
  lemma OverlapTableEmptyName(d: SampleMap, i: nat, j: nat)
    requires d.Valid() && i < |d.keys| && j < |d.keys|
    requires d.entries[d.keys[i]] == []
    ensures OverlapTable(d)[i + 1][j + 1] == Count(0)
    ensures OverlapTable(d)[j + 1][i + 1] == Count(0)
  {
    OverlapRowCell(d, d.keys[i], j);
    OverlapRowCell(d, d.keys[j], i);
  }

  /** The inner loop of `check_duplicity_of_samples`: `compoundrow` for one name. */
  method CompoundRow(d: SampleMap, name1: string) returns (row: seq<Cell>)
    requires d.Valid() && name1 in d.entries
    ensures row == OverlapRow(d, name1)
  {
    var n := |d.keys|;
    row := [Text(name1)];
    var j := 0;
    while j < n
      invariant 0 <= j <= n
      invariant row == [Text(name1)] + OverlapCells(d, d.entries[name1], j)
    {
      var name2 := d.keys[j];
      row := row + [Count(OverlapCell(d.entries[name1], d.entries[name2]))];
      j := j + 1;
    }
  }

  /** `check_duplicity_of_samples`: the header row, then one row per name in
      dict order. */
  method CheckDuplicityOfSamples(d: SampleMap) returns (table: Table)
    requires d.Valid()
    ensures table == OverlapTable(d)
  {
    var rows: Table := [];
    var headers: seq<Cell> := [Text("Compound Name")];
    var i := 0;
    while i < |d.keys|
      invariant 0 <= i <= |d.keys|
      invariant headers == HeaderPrefix(d, i)
      invariant rows == OverlapRows(d, i)
    {
      headers, rows := AddCompound(d, i, headers, rows);
      i := i + 1;
    }
    table := [headers] + rows;
  }

  /** One pass of the outer loop for the i-th name: its header cell, then its row. */
  method AddCompound(d: SampleMap, i: nat, headers: seq<Cell>, rows: Table)
    returns (headers': seq<Cell>, rows': Table)
    requires d.Valid() && i < |d.keys|
    requires headers == HeaderPrefix(d, i)
    requires rows == OverlapRows(d, i)
    ensures headers' == HeaderPrefix(d, i + 1)
    ensures rows' == OverlapRows(d, i + 1)
  {
    var name1 := d.keys[i];
    headers' := headers + [Text(name1)];
    var row := CompoundRow(d, name1);
    rows' := rows + [row];
  }
}
