/** The loaded input table: column labels and rows of cells. A cell is None
    where pandas holds NaN, which is also what an empty CSV field reads as. */
module Tables {
  datatype Option<T> = None | Some(value: T)

  type Cell = Option<string>
  type Row = seq<Cell>

  datatype Table = Table(columns: seq<string>, rows: seq<Row>)

  const TargetColumn: string := "full_target_sequence"
  const GuideColumn: string := "guide_seq"
  const IdColumn: string := "guide_id"

  /** The required columns, in the order the source checks them. */
  const RequiredColumns: seq<string> := [TargetColumn, GuideColumn, IdColumn]

  /** The entries of wanted that columns lacks, in the order of wanted
      (a list comprehension with a membership filter). */
  function Absent(wanted: seq<string>, columns: seq<string>): (r: seq<string>)
    ensures forall c :: c in r <==> c in wanted && c !in columns
    ensures |r| <= |wanted|
  {
    if wanted == [] then []
    else (if wanted[0] in columns then [] else [wanted[0]]) + Absent(wanted[1..], columns)
  }

  /** The required columns missing from a header. */
  function MissingColumns(columns: seq<string>): (r: seq<string>)
    ensures r == [] <==> TargetColumn in columns && GuideColumn in columns && IdColumn in columns
    ensures forall c :: c in r <==> c in RequiredColumns && c !in columns
  {
    assert TargetColumn in RequiredColumns && GuideColumn in RequiredColumns && IdColumn in RequiredColumns;
    var r := Absent(RequiredColumns, columns);
    assert r != [] ==> r[0] in r;
    r
  }

  /** The missing columns are listed in the fixed order target, guide, id. */
  lemma MissingColumnsInOrder(columns: seq<string>)
    ensures MissingColumns(columns)
         == (if TargetColumn in columns then [] else [TargetColumn])
          + (if GuideColumn in columns then [] else [GuideColumn])
          + (if IdColumn in columns then [] else [IdColumn])
  {
    var w := RequiredColumns;
    assert w[1..][1..][1..] == [];
    calc {
      MissingColumns(columns);
      Absent(w, columns);
      (if w[0] in columns then [] else [w[0]]) + Absent(w[1..], columns);
      (if w[0] in columns then [] else [w[0]])
        + ((if w[1] in columns then [] else [w[1]]) + Absent(w[1..][1..], columns));
      (if w[0] in columns then [] else [w[0]])
        + ((if w[1] in columns then [] else [w[1]])
        + ((if w[2] in columns then [] else [w[2]]) + Absent(w[1..][1..][1..], columns)));
    }
  }

  /** The position of the first column labelled name, or |columns| when
      there is none. */
  function ColumnIndex(columns: seq<string>, name: string): (r: nat)
    ensures r <= |columns|
    ensures r < |columns| ==> columns[r] == name
    ensures forall k :: 0 <= k < r ==> columns[k] != name
    ensures r == |columns| <==> name !in columns
  {
    if columns == [] then 0
    else if columns[0] == name then 0
    else 1 + ColumnIndex(columns[1..], name)
  }

  /** row[name] for the row at position i; a row shorter than the header
      holds NaN in the fields it lacks. */
  function CellAt(t: Table, i: nat, name: string): (c: Cell)
    requires i < |t.rows|
    ensures c.Some? ==> name in t.columns
    ensures forall k :: 0 <= k < |t.columns| && t.columns[k] == name && name !in t.columns[..k] ==>
              c == (if k < |t.rows[i]| then t.rows[i][k] else None)
  {
    var k := ColumnIndex(t.columns, name);
    if k < |t.columns| && k < |t.rows[i]| then t.rows[i][k] else None
  }
}
