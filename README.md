# Query core of the ChEMBL / BioSamples sample retriever

This project models, in Dafny, the deterministic core of `queries.py`. The
module asks remote query endpoints for the labels of a compound and for the
samples associated with each label or with a ChEBI identifier, then builds
count and overlap tables from the result. The modelled core is:

- **The paginated fetch loop.** Six procedures repeat it. It asks for
  `LIMIT 50 OFFSET offset`, stops at the first empty page, and otherwise
  appends the projection of every row and advances the offset by 50.
  - The endpoint is an abstract page source `Query(term, limit, offset) -> seq<Row>`.
  - A row maps variable names to values. Reading an unbound variable raises
    `KeyError`, which ends the procedure.
  - One generic `Pagination.FetchAll` takes the row projection as a parameter.
- **The compound identity resolver** (`retrieve_compound_labels`). It fetches
  the labels, then lowercases them, sorts them and removes duplicates, as
  `numpy.unique(numpy.char.lower(...))` does.
- **The sample aggregator** (`retrieve_samples_and_labels_for_compound`).
  - For each name, it runs a fresh fetch from offset 0 into an
    insertion-ordered dict of `[label, sample]` pairs.
  - The dict is `SampleMaps.SampleMap`: its keys in insertion order, plus the
    key-to-entry map.
- **The ChEBI retrievals.** They rewrite `:` to `_` and fetch `[sample, x]`
  pairs. `check_chebisamples_duplicity` takes the first column of the result.
- **The statistics.** `no_of_samples` builds the count table and
  `check_duplicity_of_samples` builds the overlap matrix.
- **The row assembly of `write2table`.**

Each loop of the source is a `method` with a `while` loop. Each method is
proved equal to a specification function:

| method | specification function |
|---|---|
| `FetchAll` | `Fetched` |
| `RetrieveSamplesAndLabels` | `Aggregated` |
| `CompoundRow` | `OverlapRow` |
| `CheckDuplicityOfSamples` | `OverlapTable` |

Lemmas state the properties of those specification functions.

Python exceptions are values of `Results.Error`, carried by
`Results.Result`. These are the `KeyError` from an unbound variable, the
`TypeError` from `extend(None)` and the two numpy failures under
"Findings".

The fetch loop has no bound of its own. The model therefore takes as a
precondition that some request for the term returns an empty page
(`Pagination.Terminates`). `FirstEmpty` is the index of the first such
request.

## Model

| member | source | states |
|---|---|---|
| Results.Field | queries.py:98 | `row[name]['value']`: the value when `name` is bound, `KeyError(name)` exactly when it is not |
| Results.FieldPair | queries.py:157 | the two-element list succeeds exactly when both variables are bound, and is their values in order; on failure the error names the first unbound variable, left to right |
| Pagination.Collected | queries.py:88-99 | defines the rows of the first n pages, concatenated in request order |
| Pagination.CollectedEmpty | queries.py:88-99 | nothing is collected from the first n pages if and only if every one of them is empty |
| Pagination.Fetched | queries.py:88-99 | the loop's result: the projection of the rows of every page before the first empty one; on success one element per row, and `[]` when the first page is already empty |
| Pagination.FirstEmpty | queries.py:88-95 | the request index at which the loop breaks: that page is empty and every earlier page is not |
| Pagination.ProjectAll | queries.py:97-98 | projecting the rows of the pages keeps their number when no row raises |
| Pagination.ProjectAllSuccess | queries.py:97-98 | the projection succeeds if and only if every row projects, and then element i is the projection of row i |
| Pagination.ProjectAllFailure | queries.py:97-98 | a failed projection carries the error of the first row whose projection raised, and every earlier row projected |
| Pagination.FirstRowFails | queries.py:97-98 | a first row that raises decides the whole result |
| Pagination.FailureIsFinal | queries.py:97-98 | after a row has raised, further rows do not change the outcome |
| Pagination.FailedPageIsFinal | queries.py:88-99 | once the rows of the first m pages raise, more pages raise the same error |
| Pagination.CollectedPrefix | queries.py:88-99 | the rows of fewer pages are a prefix of the rows of more pages |
| Pagination.AppendPage | queries.py:97-98 | appending one page's projections to the accumulator gives the projection of all rows seen so far followed by that page |
| Pagination.FetchAll | queries.py:83-99 | the result is the in-order projection of every row of every page before the first empty one, or the first row error; request k uses OFFSET 50·k; on success the requests are the non-empty pages plus the final empty one; on failure the last request is the page holding the first row that raised (the rows before it project, the rows up to its end do not) |
| Pagination.Window | queries.py:131-132 | a `LIMIT l OFFSET o` window has at most l rows and is empty exactly when o is past the end or l is 0 |
| Pagination.WindowCollected | queries.py:88-99 | against a LIMIT/OFFSET endpoint serving N rows, the first k pages are the first min(50·k, N) rows, for every k |
| Pagination.LimitOffsetEndpoint | queries.py:88-99 | against an endpoint serving N rows with LIMIT/OFFSET, the loop finds ceil(N/50) non-empty pages and collects exactly the N rows in order |
| Labels.Lower | queries.py:102 | `lower()` on ASCII: same length, no upper-case letter, each character lowercased |
| Labels.LowerOfLower | queries.py:102 | lowercasing a lower-case string changes nothing |
| Labels.Less | queries.py:102 | Python's `<` on `str`, the order `numpy.unique` sorts by: lexicographic by code point; a proper prefix comes first, and a smaller string never starts with a larger character |
| Labels.LessIrreflexive | queries.py:102 | the string order `numpy.unique` sorts by is irreflexive |
| Labels.LessTransitive | queries.py:102 | that order is transitive |
| Labels.LessTotal | queries.py:102 | that order is total on distinct strings |
| Labels.Insert | queries.py:102 | inserting into a strictly sorted list keeps it strictly sorted and adds exactly the new element |
| Labels.Unique | queries.py:102 | `numpy.unique`: strictly increasing, with exactly the elements of the input |
| Labels.HeadNotInTail | queries.py:102 | a strictly sorted list has no repeated first element |
| Labels.SortedIsDetermined | queries.py:102 | two strictly sorted lists with the same elements are equal |
| Labels.LowerAll | queries.py:102 | `numpy.char.lower` keeps the number of labels |
| Labels.NormaliseLabels | queries.py:102 | the result is sorted, has no duplicates and is all lower-case; it holds the lower-case form of every label and nothing else |
| Labels.NormaliseIdempotent | queries.py:102 | normalising a normalised label list changes nothing |
| Labels.NormaliseLabelsAsWritten | queries.py:102 | as written the step raises `TypeError` exactly on an empty label list, and otherwise agrees with `NormaliseLabels` |
| Labels.EmptyLabelListRaises | queries.py:102 | for no labels the step as written raises, while the corrected step gives the empty list |
| Labels.CompoundField | queries.py:98 | `i['compound']['value']`: the value when `?compound` is bound, `KeyError('compound')` exactly when it is not |
| Labels.RetrieveCompoundLabels | queries.py:83-104 | the corrected procedure (see Findings): the labels are the normalised `?compound` values of every fetched row, `[]` when there are none; a row without `?compound` ends it with that `KeyError` |
| Labels.RetrieveCompoundLabelsAsWritten | queries.py:83-104 | the procedure as written: it raises exactly when the fetch raises or finds no labels (`TypeError` from line 102); otherwise it returns the normalised labels |
| Labels.NoLabelsRaiseAsWritten | queries.py:88-102 | a compound whose first page is empty fetches no labels; the procedure as written then raises `TypeError`, the corrected one returns `[]` |
| SampleMaps.SampleMap.Set | queries.py:141 | `d[name] = v` keeps keys distinct and entries in step with keys; a new key goes last, an existing key keeps its place, and every other entry is unchanged |
| SampleMaps.FirstOccurrences | queries.py:138-141 | the dict's key order for names assigned in turn has no repeats and exactly the names given |
| SampleMaps.FirstOccurrencesOfDistinct | queries.py:138-141 | without repeated names, the keys are the names in input order |
| Aggregation.LabelAndSample | queries.py:157 | `[i['lab']['value'], i['sample']['value']]`: succeeds exactly when both are bound; on failure it names `lab` first |
| Aggregation.AddName | queries.py:141-157 | one more name keeps the dict well formed |
| Aggregation.Aggregated | queries.py:135-160 | the dict the aggregator returns is well formed |
| Aggregation.AggregatedPrefix | queries.py:138-158 | the dict for the first i+1 names is the dict for the first i names extended by name i |
| Aggregation.AggregatedEntries | queries.py:138-158 | the aggregator succeeds if and only if every name's fetch does; then the keys are the names in first-occurrence order, and each name holds exactly its own fetch's `[lab, sample]` pairs |
| Aggregation.UnmatchedNameHasEmptyEntry | queries.py:141 | a name whose first page is empty still has a key, holding `[]` |
| Aggregation.EntrySizeIsRowCount | queries.py:155-157 | the number of pairs under a name is the number of rows its fetch returned |
| Aggregation.AggregatedFailure | queries.py:151-157 | on failure the error is that of the first name whose fetch raised, and every earlier name's fetch succeeded |
| Aggregation.RetrieveSamplesAndLabels | queries.py:135-160 | the corrected loop (see Findings), which which sets each entry to `[]`, restarts at offset 0 and fills the entry, returns exactly `Aggregated` |
| Aggregation.SetTwice | queries.py:141-157 | setting an entry to `[]` and then to its pairs equals setting it to its pairs |
| Aggregation.FirstFailureIsFinal | queries.py:138-158 | once a name has raised, later names do not change the outcome |
| Aggregation.RetrieveSamplesAndLabelsAsWritten | queries.py:138 | as written an empty name list raises `ValueError`; otherwise the result is `Aggregated` |
| Aggregation.NoNamesGiveEmptyMap | queries.py:135-160 | with the corrected loop no names give the empty dict |
| Chebi.ReplaceColons | queries.py:172 | same length, no `:` left, every `:` becomes `_` and every other character is unchanged |
| Chebi.ReplaceColonsIdempotent | queries.py:172 | rewriting twice equals rewriting once |
| Chebi.SampleWith | queries.py:203 | `[i['sample']['value'], i[x]['value']]`: succeeds exactly when `?sample` and `?x` are bound, and is their values in that order (also lines 256, 307, 357) |
| Chebi.SampleWithSucceeds | queries.py:201-203 | when every row binds `?sample` and the second variable, the result is one `[sample, x]` pair per row, in order |
| Chebi.RetrieveSamplesByChebiid | queries.py:163-206 | the fetch for the rewritten id, projecting `[sample, attribute]` |
| Chebi.RetrieveSamplesByChebiidAndMolar | queries.py:209-259 | the fetch for the rewritten id, projecting `[sample, compound]` |
| Chebi.RetrieveSamplesByChebiidAndCelline | queries.py:262-310 | the fetch for the rewritten id, projecting `[sample, cellline]` |
| Chebi.RetrieveSamplesByChebiidAndStrainAsWritten | queries.py:313-360 | as written: the fetch projecting `[sample, cellline]` |
| Chebi.StrainAsWrittenRaises | queries.py:327-357 | when the first row binds `?sample` but not `?cellline`, as the strain query's rows do, the procedure as written raises `KeyError('cellline')` |
| Chebi.RetrieveSamplesByChebiidAndStrain | queries.py:313-360 | corrected: the fetch projecting `[sample, strain]` |
| Chebi.FirstColumn | queries.py:425 | same length, element i is the first element of pair i |
| Chebi.FirstColumnIsSamples | queries.py:425 | on a successful ChEBI retrieval the first column is the `?sample` value of every fetched row, in order |
| Tables.ExportRows | queries.py:441-444 | the rows handed to the CSV writer are `[header] + data` when a header is given and `data` otherwise; without data it raises `TypeError` |
| Statistics.NoOfSamples | queries.py:380-386 | row 0 is `['Compound name', 'No of samples']`, then one row per key in dict order pairing the key with its number of pairs |
| Statistics.SampleIds | queries.py:411-413 | defines a name's distinct sample ids: the set of the second elements of its pairs |
| Statistics.SampleIdsMembers | queries.py:411-413 | every pair's second element is a sample id, and every sample id is some pair's second element |
| Statistics.OverlapCell | queries.py:408-414 | defines one cell: 0 when either name has no pairs, else the size of the intersection of their sample-id sets |
| Statistics.OverlapIsIntersection | queries.py:408-413 | the explicit 0 for an empty list agrees with the size of the intersection of the sample-id sets |
| Statistics.OverlapSymmetric | queries.py:408-413 | a cell does not depend on the order of its two names |
| Statistics.OverlapDiagonal | queries.py:408-413 | a name's overlap with itself is its number of distinct sample ids |
| Statistics.OverlapBounded | queries.py:408-414 | a cell is at most either name's number of distinct sample ids |
| Statistics.OverlapOfDisjoint | queries.py:408-414 | names sharing no sample id have overlap 0 |
| Statistics.SampleIdsAtMostPairs | queries.py:411-413 | a name has no more distinct sample ids than pairs |
| Statistics.HeaderPrefix | queries.py:402-404 | after i names the header is `'Compound Name'` followed by those names in dict order |
| Statistics.OverlapHeader | queries.py:402-404 | the header is `'Compound Name'` followed by every key in dict order |
| Statistics.OverlapCells | queries.py:407-414 | the cells of one row against the first j names, one per name in dict order |
| Statistics.OverlapRow | queries.py:405-414 | a row has one cell per key after the leading name |
| Statistics.OverlapRowCell | queries.py:407-414 | cell j of a name's row is its overlap with the j-th key |
| Statistics.OverlapRows | queries.py:401-415 | the rows of the first i names, in dict order |
| Statistics.OverlapTable | queries.py:401-419 | the matrix has one more row than there are keys: the header, then the row of key i at position i+1 |
| Statistics.OverlapTableSymmetric | queries.py:408-414 | the overlap matrix is symmetric |
| Statistics.OverlapTableDiagonal | queries.py:408-414 | a diagonal cell is that name's number of distinct sample ids |
| Statistics.OverlapTableBounded | queries.py:408-414 | no cell exceeds the distinct-id count of its row's name or of its column's name |
| Statistics.OverlapTableEmptyName | queries.py:408-409 | a name with no pairs has a row and a column of zeros |
| Statistics.CompoundRow | queries.py:405-414 | the inner loop builds exactly `OverlapRow` |
| Statistics.AddCompound | queries.py:403-415 | one pass of the outer loop extends the header and the rows by one name |
| Statistics.CheckDuplicityOfSamples | queries.py:397-419 | the procedure returns exactly `OverlapTable` |

## Left out

- Endpoint errors are not modelled. `Endpoint` is a total function, so a failing request or `query().convert()`, which the source lets propagate, cannot occur in the model.
- Network I/O is a parameter. `SPARQLWrapper`, `setQuery`, `query().convert()` and the JSON result shape become the `Endpoint` function from query parameters to rows.
- The query text, `PREFIXES` and the `string.Template` interpolation are not modelled. A query is an opaque `(term, limit, offset)` triple, and which rows an endpoint returns is not checked.
- Termination of the `while True` loops against a real endpoint is assumed through `Terminates`, not proved.
- Printing, `no_of_samples_beautiful` (terminal tables) and the CSV file writing in `write2table` are I/O. Only the row list handed to the writer is modelled.
- `samples_associated_with_molarity` builds a local list and returns nothing, so it has no observable result.
- The `__main__` script is a fixed sequence of calls and is not modelled.
- Labels.Lower: lowercasing covers ASCII letters only. Python's full Unicode case mapping is not modelled.
- Labels.Less: orders strings by code point, as Python and numpy do for `str`. numpy's fixed-width padding of Unicode arrays is not modelled.
- Aggregation.RetrieveSamplesAndLabels: the per-row `append` into `results_dict[compound]` is modelled as a full fetch into a local list followed by one assignment. The final dict is the same, but a name that raises mid-fetch leaves no partial entry; the exception discards the dict anyway.
- Aggregation.RetrieveSamplesAndLabels: `numpy.nditer` over a numpy array and the `str(compound)` conversion are modelled as iteration over a list of strings.
- Pagination.FetchAll: the request count follows the code: one request per non-empty page plus the final empty one, which against a LIMIT/OFFSET endpoint is ceil(N/50)+1 (`LimitOffsetEndpoint` with the `offsets` postcondition of `FetchAll`). The count ceil((N+1)/50) does not describe this code; the two differ whenever N is not a multiple of 50 (N = 49 gives 2 requests, not 1).

## Findings

| source | as written | input that shows it | evidently intended | confidence | as-written member | corrected member |
|---|---|---|---|---|---|---|
| queries.py:102 | `numpy.char.lower(numpy.array(names))` on an empty `names` | a compound with no labels: `numpy.array([])` has a float dtype, so `numpy.char.lower` raises `TypeError` | an empty, normalised label list | medium, not executed | Labels.RetrieveCompoundLabelsAsWritten | Labels.RetrieveCompoundLabels |
| queries.py:138 | `for compound in numpy.nditer(compounds)` | an empty name list: `numpy.nditer` raises `ValueError` on a zero-size array | the empty dict `{}` | high, not executed | Aggregation.RetrieveSamplesAndLabelsAsWritten | Aggregation.RetrieveSamplesAndLabels |
| queries.py:327-357 | the strain query selects `?cellline`, its body binds `?strain` but never `?cellline`, and each row reads `i['cellline']` | any ChEBI id with at least one matching sample: the first row has no `cellline` binding, so `KeyError('cellline')` | `[sample, strain]` pairs | high, not executed | Chebi.StrainAsWrittenRaises | Chebi.RetrieveSamplesByChebiidAndStrain |
