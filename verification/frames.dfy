/** The data frame threaded through the pipeline: a set of column names and a
    sequence of per-timestamp rows. Each stage writes whole columns (pandas
    `df[name] = df.apply(helper, axis=1)`), overwriting a column of the same name
    and leaving every other column alone.
 */
module Frames {
  import opened Floats

  /** Column names the core reads or writes; `Other` stands for any column it ignores. */
  datatype Col =
    | Dni | Dhi | Ghi | Albedo | T | Wind
    | DniPoa | DhiPoa | GhiPoa | Poa
    | DniRc | DhiRc | GhiRc | PoaRefCor
    | ModuleTemp | Output
    | Other(name: string)

  /** An absolute instant (seconds since an epoch); only the solar-geometry
      providers look inside it. */
  type Instant = int

  /** One row: its timestamp (the `time` column every stage reads) and its
      numeric cells. */
  datatype Row = Row(time: Instant, cells: map<Col, Float>)

  datatype Table = Table(columns: set<Col>, rows: seq<Row>)
  {
    /** Every row has a cell for exactly the table's columns. */
    ghost predicate WellFormed() {
      forall i :: 0 <= i < |rows| ==> rows[i].cells.Keys == columns
    }
  }

  /** `row[c]`, read only after the stage has checked that the column exists. */
  function Cell(r: Row, c: Col): Float {
    if c in r.cells then r.cells[c] else NaN
  }

  /** The reason a stage fails: pandas raises `KeyError` on a missing column,
      and `math.isnan` raises `TypeError` on a module temperature that Python's
      `**` has made complex (a negative base under a fractional exponent). */
  datatype Error = MissingColumn(col: Col) | ComplexTemperature

  datatype Result<+R> = Ok(value: R) | Err(error: Error)
  {
    predicate IsFailure() {
      Err?
    }

    function PropagateFailure<U>(): Result<U>
      requires Err?
    {
      Err(error)
    }

    function Extract(): R
      requires Ok?
    {
      value
    }
  }

  /** Every column the core derives. */
  const Derived: set<Col> :=
    {DniPoa, DhiPoa, GhiPoa, Poa, DniRc, DhiRc, GhiRc, PoaRefCor, ModuleTemp, Output}

  /** `c` is the first column of `needed`, in reading order, that `t` lacks:
      the one whose lookup raises `KeyError`. */
  ghost predicate IsFirstMissing(t: Table, needed: seq<Col>, c: Col) {
    exists k :: 0 <= k < |needed| && needed[k] == c && c !in t.columns
                && forall j :: 0 <= j < k ==> needed[j] in t.columns
  }

  /** The first column of `needed` (in order) that `t` lacks, if any. */
  function FirstMissing(t: Table, needed: seq<Col>): (r: Result<()>)
    ensures r.Ok? <==> forall c :: c in needed ==> c in t.columns
    ensures r.Err? ==> r.error.MissingColumn? && IsFirstMissing(t, needed, r.error.col)
  {
    if |needed| == 0 then Ok(())
    else if needed[0] !in t.columns then Err(MissingColumn(needed[0]))
    else
      var rest := FirstMissing(t, needed[1..]);
      assert rest.Err? ==> rest.error.MissingColumn? && IsFirstMissing(t, needed, rest.error.col) by {
        if rest.Err? {
          var k :| 0 <= k < |needed[1..]| && needed[1..][k] == rest.error.col && rest.error.col !in t.columns
                   && forall j :: 0 <= j < k ==> needed[1..][j] in t.columns;
          assert forall j :: 0 <= j < k + 1 ==> needed[j] in t.columns by {
            forall j | 0 <= j < k + 1 ensures needed[j] in t.columns {
              if j > 0 {
                assert needed[j] == needed[1..][j - 1];
              }
            }
          }
          assert needed[k + 1] == rest.error.col;
        }
      }
      rest
  }

  /** `after` is `before` with the columns in `written` set: same timestamps,
      same number of rows, and every other cell unchanged. */
  ghost predicate OnlyWrites(before: Table, after: Table, written: set<Col>) {
    && after.columns == before.columns + written
    && |after.rows| == |before.rows|
    && forall i :: 0 <= i < |before.rows| ==> Keeps(before.rows[i], after.rows[i], written)
  }

  /** `after` has the timestamp of `before` and all its cells outside `written`. */
  ghost predicate Keeps(before: Row, after: Row, written: set<Col>) {
    && after.time == before.time
    && forall c :: c in before.cells && c !in written ==> c in after.cells && after.cells[c] == before.cells[c]
  }

  /** Writing in two steps writes the union of the two column sets. */
  lemma OnlyWritesCompose(a: Table, b: Table, c: Table, w1: set<Col>, w2: set<Col>)
    requires OnlyWrites(a, b, w1) && OnlyWrites(b, c, w2)
    ensures OnlyWrites(a, c, w1 + w2)
  {
    forall i | 0 <= i < |a.rows|
      ensures Keeps(a.rows[i], c.rows[i], w1 + w2)
    {
      assert Keeps(a.rows[i], b.rows[i], w1);
      assert Keeps(b.rows[i], c.rows[i], w2);
    }
  }
}
