/**
 * Python values as the filler sees them: the scalar a spreadsheet cell or a
 * row field holds, and the tagged shapes (pandas Series / DataFrame, dict,
 * list, scalar) the validators classify.
 */
module Values {

  /**
   * A cell value or a row field: a `str`, an `int`, a `bool`, `None`, or any
   * other value (float, date, ...) carried as the text `str()` gives for it.
   */
  datatype Value =
    | Str(s: string)
    | Int(i: int)
    | Bool(b: bool)
    | Null
    | Other(text: string)

  /** The tagged shapes the validators tell apart. */
  datatype PyValue =
    | Scalar(value: Value)
    | Listing(elems: seq<PyValue>)
    | Dict(entries: map<string, PyValue>)
    | Series(labels: map<string, Value>)
    | Frame(rows: nat, cols: nat)

  function DigitChar(d: nat): char
    requires d < 10
  {
    "0123456789"[d]
  }

  /** `str(n)` for a natural number. */
  function NatText(n: nat): (r: string)
    ensures |r| > 0
    ensures forall i :: 0 <= i < |r| ==> '0' <= r[i] <= '9'
  {
    if n < 10 then [DigitChar(n)] else NatText(n / 10) + [DigitChar(n % 10)]
  }

  /** `str(v)`: the text a value turns into inside a larger cell string. */
  function Text(v: Value): string {
    match v
    case Str(s) => s
    case Int(i) => if i < 0 then "-" + NatText(-i) else NatText(i)
    case Bool(b) => if b then "True" else "False"
    case Null => "None"
    case Other(t) => t
  }
}
