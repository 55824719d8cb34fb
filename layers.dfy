/** An abstract feature class or table: a field list (its schema) and rows.
    A row maps upper-cased field names to text values; a field absent from
    the map holds NULL. Field names are compared ignoring case, as the
    geodatabase does. */
module Layers {
  import opened Wrappers
  import opened Text

  type Row = map<string, string>

  /** A field as `AddField_management` creates it; `None` stands for the
      "#" (default) argument. */
  datatype FieldDef = FieldDef(name: string, fieldType: string, precision: Option<int>, scale: Option<int>, length: int)

  /** The value a cursor reads from `field`: `None` for NULL. */
  function Cell(row: Row, field: string): Option<string> {
    if Upper(field) in row then Some(row[Upper(field)]) else None
  }

  /** The where clause `field = 'value'`: NULL equals nothing. */
  predicate HasValue(row: Row, field: string, value: string) {
    Cell(row, field) == Some(value)
  }

  /** `row.updateRow(vals)` on a cursor opened on the fields `cols`. */
  function Overwrite(row: Row, cols: seq<string>, vals: seq<string>): Row
    requires |vals| == |cols|
    decreases |cols|
  {
    if cols == [] then row else Overwrite(row[Upper(cols[0]) := vals[0]], cols[1..], vals[1..])
  }

  predicate DistinctIgnoringCase(cols: seq<string>) {
    forall i, j :: 0 <= i < j < |cols| ==> Upper(cols[i]) != Upper(cols[j])
  }

  /** Fields the cursor was not opened on keep their value. */
  lemma {:induction false} OverwriteOthers(row: Row, cols: seq<string>, vals: seq<string>, f: string)
    requires |vals| == |cols|
    requires forall j :: 0 <= j < |cols| ==> Upper(cols[j]) != Upper(f)
    ensures Cell(Overwrite(row, cols, vals), f) == Cell(row, f)
    decreases |cols|
  {
    if cols != [] {
      OverwriteOthers(row[Upper(cols[0]) := vals[0]], cols[1..], vals[1..], f);
    }
  }

  /** Each field the cursor was opened on receives its value. */
  lemma {:induction false} OverwriteAt(row: Row, cols: seq<string>, vals: seq<string>, k: nat)
    requires |vals| == |cols| && k < |cols| && DistinctIgnoringCase(cols)
    ensures Cell(Overwrite(row, cols, vals), cols[k]) == Some(vals[k])
    decreases |cols|
  {
    if k == 0 {
      OverwriteOthers(row[Upper(cols[0]) := vals[0]], cols[1..], vals[1..], cols[0]);
    } else {
      OverwriteAt(row[Upper(cols[0]) := vals[0]], cols[1..], vals[1..], k - 1);
    }
  }

  /** Reading back the fields just written gives the written values, and
      nothing else in the row changes. */
  lemma OverwriteContents(row: Row, cols: seq<string>, vals: seq<string>)
    requires |vals| == |cols| && DistinctIgnoringCase(cols)
    ensures forall k :: 0 <= k < |cols| ==> Cell(Overwrite(row, cols, vals), cols[k]) == Some(vals[k])
    ensures forall f :: (forall j :: 0 <= j < |cols| ==> Upper(cols[j]) != Upper(f)) ==>
      Cell(Overwrite(row, cols, vals), f) == Cell(row, f)
  {
    forall k | 0 <= k < |cols|
      ensures Cell(Overwrite(row, cols, vals), cols[k]) == Some(vals[k])
    {
      OverwriteAt(row, cols, vals, k);
    }
    forall f | forall j :: 0 <= j < |cols| ==> Upper(cols[j]) != Upper(f)
      ensures Cell(Overwrite(row, cols, vals), f) == Cell(row, f)
    {
      OverwriteOthers(row, cols, vals, f);
    }
  }

  /** A field of the schema whose lower-cased name is `lowerName`. */
  predicate HasFieldLower(fields: seq<FieldDef>, lowerName: string) {
    exists i :: 0 <= i < |fields| && Lower(fields[i].name) == lowerName
  }

  /** The contents of a feature class at one moment. */
  datatype LayerState = LayerState(fields: seq<FieldDef>, rows: seq<Row>)

  /** A feature class, a shapefile or an in-memory table. */
  class FeatureClass {
    var fields: seq<FieldDef>
    var rows: seq<Row>

    function State(): LayerState
      reads this
    {
      LayerState(fields, rows)
    }

    constructor (fields: seq<FieldDef>, rows: seq<Row>)
      ensures this.fields == fields && this.rows == rows
    {
      this.fields := fields;
      this.rows := rows;
    }
  }
}
