/** Values shared by every part of the model: the rows a query endpoint returns,
    the Python exceptions the core can raise, and the wrappers that carry them. */
module Results {

  /** One solution row of a query result: variable name -> bound value.
      A variable the solution leaves unbound is absent from the map. */
  type Row = map<string, string>

  /** The exceptions the modelled code raises on its own inputs. */
  datatype Error =
    | KeyError(key: string)
    | TypeError(message: string)
    | ValueError(message: string)

  datatype Result<+T> = Success(value: T) | Failure(error: Error)

  datatype Option<+T> = None | Some(value: T)

  /** A two-element Python list such as `[label, sample]` or `[sample, attribute]`. */
  datatype Pair = Pair(first: string, second: string)

  /** `row[name]['value']`: the bound value, or KeyError when `name` is unbound. */
  function Field(row: Row, name: string): (r: Result<string>)
    ensures r.Success? <==> name in row
    ensures r.Success? ==> r.value == row[name]
    ensures r.Failure? ==> r.error == KeyError(name)
  {
    if name in row then Success(row[name]) else Failure(KeyError(name))
  }

  /** `[row[a]['value'], row[b]['value']]`, evaluated left to right, so a row
      missing both variables reports `a`. */
  function FieldPair(row: Row, a: string, b: string): (r: Result<Pair>)
    ensures r.Success? <==> a in row && b in row
    ensures r.Success? ==> r.value == Pair(row[a], row[b])
    ensures r.Failure? ==> r.error == KeyError(if a in row then b else a)
  {
    match Field(row, a)
    case Failure(e) => Failure(e)
    case Success(x) =>
      match Field(row, b)
      case Failure(e) => Failure(e)
      case Success(y) => Success(Pair(x, y))
  }
}
