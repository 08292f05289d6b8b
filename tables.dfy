/** Statistics tables and the rows `write2table` exports. A table is a list
    of rows; a cell holds a string or a count. */
module Tables {
  import opened Results

  datatype Cell = Text(text: string) | Count(count: nat)

  type Table = seq<seq<Cell>>

  /** The rows `write2table(header, data, filename)` hands to `csv.writer`:
      the header first when one is given, then every data row unchanged.
      Without data, `output.extend(None)` raises TypeError. */
  method ExportRows(header: Option<seq<Cell>>, data: Option<Table>) returns (r: Result<Table>)
    ensures r.Failure? <==> data.None?
    ensures r.Failure? ==> r.error == TypeError("'NoneType' object is not iterable")
    ensures r.Success? && header.Some? ==>
              |r.value| == |data.value| + 1 && r.value[0] == header.value && r.value[1..] == data.value
    ensures r.Success? && header.None? ==> r.value == data.value
  {
    var output: Table := [];
    if header.Some? {
      output := output + [header.value];
    }
    if data.None? {
      return Failure(TypeError("'NoneType' object is not iterable"));
    }
    output := output + data.value;
    r := Success(output);
  }
}
