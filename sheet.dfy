/** What both generators see of a spreadsheet once pandas has loaded it
    with `dtype=str`: a header of column names and rows whose cells are
    strings or NaN, plus the shared required-column check. */
module Sheet {
  import opened Text
  import opened Seqs

  datatype Option<T> = None | Some(value: T)

  /** One cell: a string, or `None` for a pandas NaN (an empty cell). */
  type Cell = Option<string>

  /** One row, keyed by the stripped column names. */
  type Row = map<string, Cell>

  /** The outcome of a run: its output, or the required columns that are
      missing, in the order the script lists them (the `sys.exit(1)` path). */
  datatype Result<T> = Success(value: T) | MissingColumns(missing: seq<string>)

  /** `row.get(col)` and `row[col]`: an absent column reads as NaN. */
  function Get(row: Row, col: string): Cell {
    if col in row then row[col] else None
  }

  /** `row.get(col, default)`. */
  function GetOr(row: Row, col: string, default: string): Cell {
    if col in row then row[col] else Some(default)
  }

  /** `str(value)`, and an f-string hole: NaN prints as "nan". */
  function Str(c: Cell): string {
    match c
    case None => "nan"
    case Some(s) => s
  }

  /** `pd.notna(value) and value.strip()`: present and not all whitespace. */
  predicate NotBlank(c: Cell) {
    c.Some? && Strip(c.value) != []
  }

  /** `df.columns = df.columns.str.strip()`. */
  function StripColumns(header: seq<string>): (cols: seq<string>)
    ensures |cols| == |header|
    ensures forall i :: 0 <= i < |header| ==> cols[i] == Strip(header[i])
  {
    if header == [] then []
    else StripColumns(header[..|header| - 1]) + [Strip(header[|header| - 1])]
  }

  /** The test `col not in df.columns`. */
  function AbsentFrom(cols: seq<string>): string -> bool {
    col => col !in cols
  }

  /** `[c for c in required if c not in cols]`. */
  function Missing(required: seq<string>, cols: seq<string>): seq<string> {
    Filter(required, AbsentFrom(cols))
  }

  /** The check passes exactly when every required name is a column; when it
      fails, it reports exactly the absent names, each where `required`
      puts it. */
  lemma MissingReport(required: seq<string>, cols: seq<string>)
    ensures Missing(required, cols) == [] <==> forall c :: c in required ==> c in cols
    ensures forall c :: c in Missing(required, cols) <==> c in required && c !in cols
    ensures forall i :: 0 <= i < |required| && required[i] !in cols ==>
      |Missing(required[..i], cols)| < |Missing(required, cols)| &&
      Missing(required, cols)[|Missing(required[..i], cols)|] == required[i]
    ensures forall k :: 0 <= k < |Missing(required, cols)| ==>
      Missing(required, cols)[k] !in cols &&
      exists i :: 0 <= i < |required| && required[i] !in cols &&
                  |Missing(required[..i], cols)| == k && Missing(required, cols)[k] == required[i]
  {
    forall c | c in required && c !in cols ensures c in Missing(required, cols) {
      FilterKeeps(required, AbsentFrom(cols), c);
    }
    forall i | 0 <= i < |required| && required[i] !in cols
      ensures |Missing(required[..i], cols)| < |Missing(required, cols)|
      ensures Missing(required, cols)[|Missing(required[..i], cols)|] == required[i]
    {
      FilterPosition(required, AbsentFrom(cols), i);
    }
    forall k | 0 <= k < |Missing(required, cols)|
      ensures Missing(required, cols)[k] !in cols
      ensures exists i :: 0 <= i < |required| && required[i] !in cols &&
                          |Missing(required[..i], cols)| == k && Missing(required, cols)[k] == required[i]
    {
      MissingOrigin(required, cols, k);
    }
    if Missing(required, cols) != [] {
      var c := Missing(required, cols)[0];
      assert c in Missing(required, cols);
      assert AbsentFrom(cols)(c);
    }
  }

  /** Each place of the missing list holds an absent required name: the one
      with exactly that many absent names before it in `required`. */
  lemma MissingOrigin(required: seq<string>, cols: seq<string>, k: nat)
    requires k < |Missing(required, cols)|
    ensures Missing(required, cols)[k] !in cols
    ensures exists i :: 0 <= i < |required| && required[i] !in cols &&
                        |Missing(required[..i], cols)| == k && Missing(required, cols)[k] == required[i]
  {
    FilterOrigin(required, AbsentFrom(cols), k);
    var i :| 0 <= i < |required| && AbsentFrom(cols)(required[i]) &&
             |Filter(required[..i], AbsentFrom(cols))| == k && Filter(required, AbsentFrom(cols))[k] == required[i];
    assert required[i] !in cols;
  }
}
