/** AddNatMusym.py: collect the MUKEY values of a soil map-unit layer, cut
    them into batches of 30, ask Soil Data Access for the national map-unit
    symbol of each batch, and write it into a NATMUSYM field of the layer.

    Two defects of the script are not reproduced: `getNATMUSYM` reads the
    local `mukeyList` before assigning it (AddNatMusym.py:204, an
    UnboundLocalError that makes it return False at once), and its response
    handling (AddNatMusym.py:242-287) is indented outside the batch loop, so
    only the last batch's response would be used. The model processes every
    batch's response inside the loop, as the comments of the function
    describe. */
module AddNatMusym {
  import opened Wrappers
  import opened Text
  import opened Keys
  import opened Fields
  import opened Layers
  import opened Service

  /** `j == 30` in `parseMukeysIntoLists`. */
  const BatchSize := 30

  const QueryPrefix := "SELECT m.mukey, m.nationalmusym as natmusym from legend AS l INNER JOIN mapunit AS m ON l.lkey=m.mukey AND m.mukey in ("

  /** Why the script stops (`sys.exit()`) or `getNATMUSYM` returns False. */
  datatype Error =
    | UnknownDataType(dataType: string)
    | MukeyFieldMissing
    | NoFeatures
    | NoMukeys
    | NoBatches
    | NullMukey
    | RequestFailed(error: NetError)
    | NoTable
    | MissingHeader
    | EmptyDataRow
    | MissingColumnName
    | MalformedRow(index: nat)

  // ---------------------------------------------------------------------------
  // parseMukeysIntoLists

  /** The batches concatenated in order. */
  function Flatten<T>(batches: seq<seq<T>>): seq<T> {
    if batches == [] then [] else Flatten(batches[..|batches| - 1]) + batches[|batches| - 1]
  }

  /** `batches` cuts `keys` in order into runs of 30, the last run holding
      the remaining one to 30 keys. */
  predicate IsBatching<T(==)>(keys: seq<T>, batches: seq<seq<T>>) {
    && Flatten(batches) == keys
    && |batches| == (|keys| + BatchSize - 1) / BatchSize
    && (forall k :: 0 <= k < |batches| - 1 ==> |batches[k]| == BatchSize)
    && (|batches| > 0 ==> 1 <= |batches[|batches| - 1]| <= BatchSize)
  }

  /** `parseMukeysIntoLists(mukeyList)`: `i` counts all keys, `j` the keys of
      the batch being filled; a batch is closed at the last key or when `j`
      reaches 30. No batch at all is a failure. */
  method ParseMukeysIntoLists<T(==)>(mukeyList: seq<T>) returns (r: Result<seq<seq<T>>, Error>)
    ensures r.Failure? <==> mukeyList == []
    ensures r.Failure? ==> r.error == NoBatches
    ensures r.Success? ==> IsBatching(mukeyList, r.value)
  {
    var n := |mukeyList|;
    var i, j := 0, 0;
    var listOfMukeyStrings: seq<seq<T>> := [];
    var tempMukeyList: seq<T> := [];
    while i < n
      invariant 0 <= i <= n && j == |tempMukeyList|
      invariant i == 0 ==> listOfMukeyStrings == []
      invariant i < n ==> Flatten(listOfMukeyStrings) + tempMukeyList == mukeyList[..i]
      invariant i < n ==> j == i % BatchSize && |listOfMukeyStrings| == i / BatchSize
      invariant forall k :: 0 <= k < |listOfMukeyStrings| && (i < n || k < |listOfMukeyStrings| - 1) ==>
        |listOfMukeyStrings[k]| == BatchSize
      invariant i == n && n > 0 ==> IsBatching(mukeyList, listOfMukeyStrings)
    {
      var mukey := mukeyList[i];
      i := i + 1;
      j := j + 1;
      tempMukeyList := tempMukeyList + [mukey];
      assert mukeyList[..i] == mukeyList[..i - 1] + [mukey];
      if i == n {
        listOfMukeyStrings := listOfMukeyStrings + [tempMukeyList];
        assert mukeyList[..i] == mukeyList;
      } else if j == BatchSize {
        listOfMukeyStrings := listOfMukeyStrings + [tempMukeyList];
        tempMukeyList := [];
        j := 0;
      }
    }
    if |listOfMukeyStrings| == 0 {
      return Failure(NoBatches);
    }
    return Success(listOfMukeyStrings);
  }

  lemma {:induction false} FlattenConcat<T>(a: seq<seq<T>>, b: seq<seq<T>>)
    ensures Flatten(a + b) == Flatten(a) + Flatten(b)
    decreases |b|
  {
    if b == [] {
      assert a + b == a;
    } else {
      assert (a + b)[..|a + b| - 1] == a + b[..|b| - 1];
      FlattenConcat(a, b[..|b| - 1]);
    }
  }

  lemma {:induction false} FlattenFull<T>(batches: seq<seq<T>>)
    requires forall k :: 0 <= k < |batches| ==> |batches[k]| == BatchSize
    ensures |Flatten(batches)| == BatchSize * |batches|
    decreases |batches|
  {
    if batches != [] {
      FlattenFull(batches[..|batches| - 1]);
    }
  }

  /** A key is in the concatenation exactly when some batch holds it. */
  lemma {:induction false} FlattenMember<T>(batches: seq<seq<T>>, x: T)
    ensures x in Flatten(batches) <==> exists k :: 0 <= k < |batches| && x in batches[k]
    decreases |batches|
  {
    if batches != [] {
      var n := |batches| - 1;
      FlattenMember(batches[..n], x);
      assert forall k :: 0 <= k < n ==> batches[..n][k] == batches[k];
    }
  }

  /** Batch `k` holds the keys at positions 30k onwards, in order. */
  lemma BatchContents<T>(keys: seq<T>, batches: seq<seq<T>>, k: nat)
    requires IsBatching(keys, batches) && k < |batches|
    ensures BatchSize * k + |batches[k]| <= |keys|
    ensures batches[k] == keys[BatchSize * k .. BatchSize * k + |batches[k]|]
  {
    var front, rest := batches[..k], batches[k + 1..];
    assert batches == front + [batches[k]] + rest;
    FlattenConcat(front + [batches[k]], rest);
    FlattenConcat(front, [batches[k]]);
    assert Flatten([batches[k]]) == batches[k] by {
      assert [batches[k]][..0] == [];
    }
    FlattenFull(front);
    assert keys == Flatten(front) + batches[k] + Flatten(rest);
  }

  /** Distinct keys give disjoint batches: no MUKEY is requested twice. */
  lemma BatchesDisjoint<T(!new)>(keys: seq<T>, batches: seq<seq<T>>)
    requires IsBatching(keys, batches) && NoDup(keys)
    ensures forall a, b, p, q :: 0 <= a < b < |batches| && 0 <= p < |batches[a]| && 0 <= q < |batches[b]| ==>
      batches[a][p] != batches[b][q]
  {
    forall a, b, p, q | 0 <= a < b < |batches| && 0 <= p < |batches[a]| && 0 <= q < |batches[b]|
      ensures batches[a][p] != batches[b][q]
    {
      BatchContents(keys, batches, a);
      BatchContents(keys, batches, b);
      assert batches[a][p] == keys[BatchSize * a + p];
      assert batches[b][q] == keys[BatchSize * b + q];
      assert BatchSize * a + p < BatchSize * b + q;
    }
  }

  // ---------------------------------------------------------------------------
  // GetMukeys

  /** The `Describe` data types the script accepts. */
  predicate KnownDataType(dataType: string) {
    Lower(dataType) == "featurelayer" || Lower(dataType) == "featureclass" || Lower(dataType) == "shapefile"
  }

  /** `GetMukeys(theInput)`. `theFC` is the schema of the underlying feature
      class (`None` if it does not exist) and `featureCount` its
      `GetCount`; `cursor` is the MUKEY column read through the input
      itself, so a layer whose selection is empty gives `featureCount > 0`
      and an empty cursor. */
  method GetMukeys(dataType: string, theFC: Option<seq<FieldDesc>>, featureCount: nat, cursor: seq<Option<string>>)
    returns (r: Result<seq<seq<Option<string>>>, Error>)
    ensures !KnownDataType(dataType) ==> r == Failure(UnknownDataType(Lower(dataType)))
    ensures KnownDataType(dataType) && FindField(theFC, "MUKEY").None? ==> r == Failure(MukeyFieldMissing)
    ensures KnownDataType(dataType) && FindField(theFC, "MUKEY").Some? ==>
      && (featureCount == 0 ==> r == Failure(NoFeatures))
      && (featureCount > 0 && cursor == [] ==> r == Failure(NoMukeys))
      && (featureCount > 0 && cursor != [] ==> r.Success? && IsBatching(Dedup(cursor), r.value))
  {
    if !KnownDataType(dataType) {
      return Failure(UnknownDataType(Lower(dataType)));
    }
    var mukeyField := FindField(theFC, "MUKEY");
    if mukeyField.None? {
      return Failure(MukeyFieldMissing);
    }
    if featureCount == 0 {
      return Failure(NoFeatures);
    }
    var mukeyList := CollectUniqueKeys(cursor);
    if |mukeyList| == 0 {
      return Failure(NoMukeys);
    }
    r := ParseMukeysIntoLists(mukeyList);
  }

  /** A NULL MUKEY on the cursor is kept as a key and lands in a batch. */
  lemma NullMukeyBatched(cursor: seq<Option<string>>, batches: seq<seq<Option<string>>>)
    requires IsBatching(Dedup(cursor), batches)
    ensures None in cursor <==> exists k :: 0 <= k < |batches| && None in batches[k]
  {
    FlattenMember(batches, None);
  }

  // ---------------------------------------------------------------------------
  // Response handling in getNATMUSYM

  /** First cells of the data rows, `[f[0] for f in dataList]`. */
  function FirstCells(data: Table): (cells: seq<string>)
    requires forall j :: 0 <= j < |data| ==> |data[j]| >= 1
    ensures |cells| == |data| && forall j :: 0 <= j < |data| ==> cells[j] == data[j][0]
  {
    seq(|data|, j requires 0 <= j < |data| => data[j][0])
  }

  /** `set(mukeyList) - set([f[0] for f in dataList])` */
  function MissingKeys(requested: seq<string>, data: Table): set<string>
    requires forall j :: 0 <= j < |data| ==> |data[j]| >= 1
  {
    ToSet(requested) - ToSet(FirstCells(data))
  }

  /** Some data row starts with `key`. */
  predicate Returned(data: Table, key: string)
    requires forall j :: 0 <= j < |data| ==> |data[j]| >= 1
  {
    exists j :: 0 <= j < |data| && data[j][0] == key
  }

  /** A key is missing exactly when it was requested and heads no data row. */
  lemma MissingKeysExact(requested: seq<string>, data: Table, key: string)
    requires forall j :: 0 <= j < |data| ==> |data[j]| >= 1
    ensures key in MissingKeys(requested, data) <==> key in requested && !Returned(data, key)
  {
    var cells := FirstCells(data);
    if key in ToSet(cells) {
      var j :| 0 <= j < |cells| && cells[j] == key;
      assert data[j][0] == key;
    }
    if Returned(data, key) {
      var j :| 0 <= j < |data| && data[j][0] == key;
      assert cells[j] == key;
    }
  }

  /** When the service returns each requested key at most once and nothing
      else, the count in the warning, `len(mukeyList) - len(dataList)`, is
      the number of missing keys. */
  lemma MissingKeysCount(requested: seq<string>, data: Table)
    requires forall j :: 0 <= j < |data| ==> |data[j]| >= 1
    requires NoDup(requested) && NoDup(FirstCells(data))
    requires forall j :: 0 <= j < |data| ==> data[j][0] in requested
    ensures |MissingKeys(requested, data)| == |requested| - |data|
  {
    var cells := FirstCells(data);
    assert ToSet(cells) <= ToSet(requested) by {
      forall x | x in ToSet(cells)
        ensures x in ToSet(requested)
      {
        var j :| 0 <= j < |cells| && cells[j] == x;
        assert data[j][0] in requested;
      }
    }
    ToSetNoDup(requested);
    ToSetNoDup(cells);
  }

  /** Lines 251-260: the warning is issued only when the counts differ. */
  function MissingReport(requested: seq<string>, data: Table): (r: Result<Option<set<string>>, Error>)
    ensures r == Failure(EmptyDataRow) <==>
      |requested| != |data| && exists j :: 0 <= j < |data| && data[j] == []
    ensures r.Success? && r.value.Some? ==> |requested| != |data| && r.value.value == MissingKeys(requested, data)
    ensures r.Success? && r.value.None? <==> |requested| == |data|
  {
    if |requested| == |data| then Success(None)
    else if exists j :: 0 <= j < |data| && data[j] == [] then Failure(EmptyDataRow)
    else Success(Some(MissingKeys(requested, data)))
  }

  /** The field `AddField_management` creates, lines 263-264. */
  function NatmusymField(columnName: string): FieldDef {
    FieldDef(Upper(columnName), "TEXT", None, None, 23)
  }

  /** Add the NATMUSYM field unless a field already lower-cases to
      "natmusym"; `columnNames[1]` raises when the header is short. */
  function EnsureNatmusym(fields: seq<FieldDef>, columnNames: seq<string>): (r: Option<seq<FieldDef>>)
    ensures HasFieldLower(fields, "natmusym") ==> r == Some(fields)
    ensures !HasFieldLower(fields, "natmusym") && |columnNames| < 2 ==> r == None
    ensures !HasFieldLower(fields, "natmusym") && |columnNames| >= 2 ==>
      r == Some(fields + [NatmusymField(columnNames[1])])
  {
    if HasFieldLower(fields, "natmusym") then Some(fields)
    else if |columnNames| < 2 then None
    else Some(fields + [NatmusymField(columnNames[1])])
  }

  lemma LowerNatmusym()
    ensures Lower("natmusym") == "natmusym"
    ensures Lower("NATMUSYM") == "natmusym"
  {
    assert Lower("natmusym")[0] == 'n';
    var u := "NATMUSYM";
    LowerOfUpper("natmusym");
    assert Upper("natmusym") == u by {
      forall k | 0 <= k < 8
        ensures Upper("natmusym")[k] == u[k]
      {
      }
    }
  }

  /** Ensuring the field twice creates nothing the second time, whatever the
      second response's header, as long as the first header named the
      column `natmusym` in any case. */
  lemma EnsureNatmusymIdempotent(fields: seq<FieldDef>, columnNames: seq<string>, later: seq<string>)
    requires |columnNames| >= 2 && Lower(columnNames[1]) == "natmusym"
    ensures EnsureNatmusym(fields, columnNames).Some?
    ensures var added := EnsureNatmusym(fields, columnNames).value;
      HasFieldLower(added, "natmusym") && EnsureNatmusym(added, later) == Some(added)
  {
    var added := EnsureNatmusym(fields, columnNames).value;
    if !HasFieldLower(fields, "natmusym") {
      LowerOfUpper(columnNames[1]);
      assert Lower(added[|fields|].name) == "natmusym";
    }
  }

  /** Data rows with at least a key and a value. */
  predicate Pairs(data: Table) {
    forall j :: 0 <= j < |data| ==> |data[j]| >= 2
  }

  /** How many rows the update loop writes before `rec[1]`, `columnNames[0]`
      or `columnNames[1]` raises. */
  function UsableRows(columnNames: seq<string>, data: Table): (n: nat)
    ensures n <= |data| && Pairs(data[..n])
    ensures n < |data| ==> |columnNames| < 2 || |data[n]| < 2
    ensures n > 0 ==> |columnNames| >= 2
  {
    if |columnNames| < 2 then 0 else LeadingPairs(data)
  }

  function LeadingPairs(data: Table): (n: nat)
    ensures n <= |data| && Pairs(data[..n])
    ensures n < |data| ==> |data[n]| < 2
  {
    if data == [] || |data[0]| < 2 then 0
    else
      var n := LeadingPairs(data[1..]);
      assert data[..n + 1] == [data[0]] + data[1..][..n];
      n + 1
  }

  /** One pass of the `UpdateCursor` for record `rec`: the rows whose
      `keyField` equals `rec[0]` get `rec[1]` in `valueField`. */
  function ApplyRecord(row: Row, keyField: string, valueField: string, rec: seq<string>): Row
    requires |rec| >= 2
  {
    if HasValue(row, keyField, rec[0]) then row[Upper(valueField) := rec[1]] else row
  }

  /** The records applied in order. */
  function ApplyRecords(row: Row, keyField: string, valueField: string, data: Table): Row
    requires Pairs(data)
    decreases |data|
  {
    if data == [] then row
    else ApplyRecord(ApplyRecords(row, keyField, valueField, data[..|data| - 1]), keyField, valueField, data[|data| - 1])
  }

  /** The value of the last record for `key`. */
  function LastValueFor(data: Table, key: string): (v: Option<string>)
    requires Pairs(data)
    ensures v.None? <==> forall j :: 0 <= j < |data| ==> data[j][0] != key
    ensures v.Some? ==>
      exists j :: 0 <= j < |data| && data[j][0] == key && data[j][1] == v.value
        && forall j' :: j < j' < |data| ==> data[j'][0] != key
    decreases |data|
  {
    if data == [] then None
    else if data[|data| - 1][0] == key then Some(data[|data| - 1][1])
    else
      var p := data[..|data| - 1];
      var v := LastValueFor(p, key);
      assert forall j :: 0 <= j < |p| ==> p[j] == data[j];
      v
  }

  /** Reference for the write-back of one row: the value of the last
      returned record with the row's key, if there is one. */
  function ByLastValue(row: Row, keyField: string, valueField: string, data: Table): Row
    requires Pairs(data)
  {
    match Cell(row, keyField)
    case None => row
    case Some(key) =>
      match LastValueFor(data, key)
      case None => row
      case Some(v) => row[Upper(valueField) := v]
  }

  /** Applying the records one after another gives every row the last
      returned value for its key and leaves rows with other keys (or a NULL
      key) unchanged. */
  lemma {:induction false} ApplyRecordsByKey(row: Row, keyField: string, valueField: string, data: Table)
    requires Pairs(data) && Upper(keyField) != Upper(valueField)
    ensures ApplyRecords(row, keyField, valueField, data) == ByLastValue(row, keyField, valueField, data)
    decreases |data|
  {
    if data != [] {
      var p := data[..|data| - 1];
      ApplyRecordsByKey(row, keyField, valueField, p);
      var key := Cell(row, keyField);
      assert Cell(ApplyRecords(row, keyField, valueField, p), keyField) == key;
    }
  }

  /** The rows after the update loop over `data`. */
  function UpdatedRows(rows: seq<Row>, columnNames: seq<string>, data: Table): (r: seq<Row>)
    requires Pairs(data) && (data != [] ==> |columnNames| >= 2)
    ensures |r| == |rows|
  {
    if data == [] then rows
    else seq(|rows|, i requires 0 <= i < |rows| => ApplyRecords(rows[i], columnNames[0], columnNames[1], data))
  }

  /** The update loop of lines 272-281: for each record, in order, every row
      whose `columnNames[0]` equals the record's key is given the record's
      value in `columnNames[1]`. It stops at the first record it cannot
      read. */
  method WriteBack(layer: FeatureClass, columnNames: seq<string>, data: Table) returns (r: Result<nat, Error>)
    modifies layer
    ensures layer.fields == old(layer.fields)
    ensures layer.rows == UpdatedRows(old(layer.rows), columnNames, data[..UsableRows(columnNames, data)])
    ensures r == if UsableRows(columnNames, data) == |data| then Success(|data|)
                 else Failure(MalformedRow(UsableRows(columnNames, data)))
  {
    var n := UsableRows(columnNames, data);
    ghost var rows0 := layer.rows;
    for j := 0 to |data|
      invariant j <= n
      invariant layer.fields == old(layer.fields) && |layer.rows| == |rows0|
      invariant layer.rows == UpdatedRows(rows0, columnNames, data[..j])
    {
      if |data[j]| < 2 || |columnNames| < 2 {
        assert j == n;
        return Failure(MalformedRow(j));
      }
      assert j < n;
      var mukey, natmusym := data[j][0], data[j][1];
      ghost var before := layer.rows;
      assert data[..j + 1][..j] == data[..j];
      for i := 0 to |layer.rows|
        invariant layer.fields == old(layer.fields) && |layer.rows| == |before|
        invariant forall k :: 0 <= k < i ==> layer.rows[k] == ApplyRecord(before[k], columnNames[0], columnNames[1], data[j])
        invariant forall k :: i <= k < |before| ==> layer.rows[k] == before[k]
      {
        if HasValue(layer.rows[i], columnNames[0], mukey) {
          layer.rows := layer.rows[i := layer.rows[i][Upper(columnNames[1]) := natmusym]];
        }
      }
      assert forall k :: 0 <= k < |rows0| ==>
        layer.rows[k] == ApplyRecords(rows0[k], columnNames[0], columnNames[1], data[..j + 1]);
    }
    assert data[..|data|] == data;
    return Success(|data|);
  }

  // ---------------------------------------------------------------------------
  // One batch, and the loop over the batches

  /** What a batch reports: the number of data rows returned and, when that
      differs from the number of keys sent, the keys that came back without
      a row. */
  datatype BatchReport = BatchReport(returned: nat, missing: Option<set<string>>)

  datatype BatchOutcome = BatchOutcome(result: Result<BatchReport, Error>, state: LayerState)

  /** The handling of one batch's response (lines 230-287, taken as inside
      the batch loop). A failure in the update loop leaves the rows already
      written. */
  function BatchSpec(s: LayerState, batch: seq<string>, attempt: Attempt): BatchOutcome {
    match attempt
    case Raised(e) => BatchOutcome(Failure(RequestFailed(e)), s)
    case Answered(None) => BatchOutcome(Failure(NoTable), s)
    case Answered(Some(table)) =>
      if |table| < 2 then BatchOutcome(Failure(MissingHeader), s)
      else
        var columnNames, data := table[0], table[2..];
        var missing := MissingReport(batch, data);
        if missing.Failure? then BatchOutcome(Failure(missing.error), s)
        else
          var fields := EnsureNatmusym(s.fields, columnNames);
          if fields.None? then BatchOutcome(Failure(MissingColumnName), s)
          else
            var n := UsableRows(columnNames, data);
            var state := LayerState(fields.value, UpdatedRows(s.rows, columnNames, data[..n]));
            if n < |data| then BatchOutcome(Failure(MalformedRow(n)), state)
            else BatchOutcome(Success(BatchReport(|data|, missing.value)), state)
  }

  /** One batch from the join on: `",".join(mukeyList)` raises on a NULL
      key before the query is sent, the layer untouched. */
  function BatchStep(s: LayerState, batch: seq<Option<string>>, network: string -> Attempt): BatchOutcome {
    match Texts(batch)
    case None => BatchOutcome(Failure(NullMukey), s)
    case Some(keys) => BatchSpec(s, keys, network(InQuery(QueryPrefix, keys)))
  }

  /** One iteration of the batch loop on the layer, from the response on. */
  method ProcessBatch(layer: FeatureClass, batch: seq<string>, attempt: Attempt)
    returns (r: Result<BatchReport, Error>)
    modifies layer
    ensures BatchOutcome(r, layer.State()) == BatchSpec(old(layer.State()), batch, attempt)
  {
    match attempt {
      case Raised(e) =>
        return Failure(RequestFailed(e));
      case Answered(None) =>
        return Failure(NoTable);
      case Answered(Some(table)) =>
        if |table| < 2 {
          return Failure(MissingHeader);
        }
        var columnNames := table[0];
        var dataList := table[2..];
        var missing := MissingReport(batch, dataList);
        if missing.Failure? {
          return Failure(missing.error);
        }
        if !HasFieldLower(layer.fields, "natmusym") {
          if |columnNames| < 2 {
            return Failure(MissingColumnName);
          }
          layer.fields := layer.fields + [NatmusymField(columnNames[1])];
        }
        var written := WriteBack(layer, columnNames, dataList);
        if written.Failure? {
          return Failure(written.error);
        }
        return Success(BatchReport(|dataList|, missing.value));
    }
  }

  datatype RunOutcome = RunOutcome(result: Result<seq<BatchReport>, Error>, state: LayerState)

  /** `done` reports followed by those of a later outcome. */
  function AfterReports(done: seq<BatchReport>, r: Result<seq<BatchReport>, Error>): Result<seq<BatchReport>, Error> {
    match r
    case Success(rs) => Success(done + rs)
    case Failure(e) => Failure(e)
  }

  /** The batches sent in order, each answered by `network` on its query;
      the first failure ends the run. */
  function RunBatches(s: LayerState, batches: seq<seq<Option<string>>>, network: string -> Attempt): RunOutcome
    decreases |batches|
  {
    if batches == [] then RunOutcome(Success([]), s)
    else
      var step := BatchStep(s, batches[0], network);
      match step.result
      case Failure(e) => RunOutcome(Failure(e), step.state)
      case Success(report) =>
        var rest := RunBatches(step.state, batches[1..], network);
        RunOutcome(AfterReports([report], rest.result), rest.state)
  }

  /** The run over `batches` after the reports `done`. */
  function Resume(done: seq<BatchReport>, s: LayerState, batches: seq<seq<Option<string>>>, network: string -> Attempt): RunOutcome {
    var rest := RunBatches(s, batches, network);
    RunOutcome(AfterReports(done, rest.result), rest.state)
  }

  lemma ResumeStart(s: LayerState, batches: seq<seq<Option<string>>>, network: string -> Attempt)
    ensures Resume([], s, batches, network) == RunBatches(s, batches, network)
  {
    var whole := RunBatches(s, batches, network);
    if whole.result.Success? {
      assert [] + whole.result.value == whole.result.value;
    }
  }

  /** One batch further: a failure ends the run with the state the batch
      left, a success adds its report. */
  lemma ResumeStep(done: seq<BatchReport>, s: LayerState, batches: seq<seq<Option<string>>>, network: string -> Attempt)
    requires batches != []
    ensures var step := BatchStep(s, batches[0], network);
      && (step.result.Failure? ==> Resume(done, s, batches, network) == RunOutcome(Failure(step.result.error), step.state))
      && (step.result.Success? ==> Resume(done, s, batches, network) == Resume(done + [step.result.value], step.state, batches[1..], network))
  {
    var step := BatchStep(s, batches[0], network);
    if step.result.Success? {
      var rest := RunBatches(step.state, batches[1..], network);
      if rest.result.Success? {
        assert done + ([step.result.value] + rest.result.value) == done + [step.result.value] + rest.result.value;
      }
    }
  }

  /** The batch that holds a NULL MUKEY ends the run before its query is
      sent: the run is that of the batches before it, failing at that
      batch if it got that far, with their writes kept. */
  lemma {:induction false} NullMukeyEndsRun(s: LayerState, batches: seq<seq<Option<string>>>, network: string -> Attempt, k: nat)
    requires k < |batches| && None in batches[k]
    ensures var pre := RunBatches(s, batches[..k], network);
      RunBatches(s, batches, network) == if pre.result.Success? then RunOutcome(Failure(NullMukey), pre.state) else pre
    decreases k
  {
    var step := BatchStep(s, batches[0], network);
    if k == 0 {
      var i :| 0 <= i < |batches[0]| && batches[0][i] == None;
      assert Texts(batches[0]).None?;
      assert batches[..0] == [];
    } else {
      assert batches[..k][0] == batches[0];
      if step.result.Success? {
        NullMukeyEndsRun(step.state, batches[1..], network, k - 1);
        assert batches[..k][1..] == batches[1..][..k - 1];
      }
    }
  }

  /** `getNATMUSYM(listsOfMUKEYs, featureLayer)`, with `network` standing for
      the POST to the tabular service. */
  method GetNatmusym(listsOfMUKEYs: seq<seq<Option<string>>>, featureLayer: FeatureClass, network: string -> Attempt)
    returns (r: Result<seq<BatchReport>, Error>)
    modifies featureLayer
    ensures RunOutcome(r, featureLayer.State()) == RunBatches(old(featureLayer.State()), listsOfMUKEYs, network)
  {
    var reports: seq<BatchReport> := [];
    assert listsOfMUKEYs[0..] == listsOfMUKEYs;
    ResumeStart(featureLayer.State(), listsOfMUKEYs, network);
    for b := 0 to |listsOfMUKEYs|
      invariant RunBatches(old(featureLayer.State()), listsOfMUKEYs, network) ==
        Resume(reports, featureLayer.State(), listsOfMUKEYs[b..], network)
    {
      var mukeyList := listsOfMUKEYs[b];
      assert listsOfMUKEYs[b..][0] == mukeyList;
      assert listsOfMUKEYs[b..][1..] == listsOfMUKEYs[b + 1..];
      ResumeStep(reports, featureLayer.State(), listsOfMUKEYs[b..], network);
      var mukeys := Texts(mukeyList);
      if mukeys.None? {
        return Failure(NullMukey);
      }
      var sQuery := InQuery(QueryPrefix, mukeys.value);
      var report := ProcessBatch(featureLayer, mukeys.value, network(sQuery));
      if report.Failure? {
        return Failure(report.error);
      }
      reports := reports + [report.value];
    }
    assert listsOfMUKEYs[|listsOfMUKEYs|..] == [];
    assert reports + [] == reports;
    return Success(reports);
  }

  // ---------------------------------------------------------------------------
  // A service that knows every key

  /** The header the query's column aliases produce. */
  const Header: seq<string> := ["mukey", "natmusym"]

  /** The table an ideal service returns for `keys`: the column names, a
      metadata row, then one row per requested key with its symbol. */
  function IdealTable(keys: seq<string>, natmusym: string -> string): Table {
    [Header, []] + seq(|keys|, i requires 0 <= i < |keys| => [keys[i], natmusym(keys[i])])
  }

  /** The ideal service: it reads the keys back out of the query. */
  function IdealAnswer(natmusym: string -> string, q: string): Attempt {
    match InListOf(QueryPrefix, q)
    case Some(keys) => Answered(Some(IdealTable(keys, natmusym)))
    case None => Answered(None)
  }

  /** Batches as `parseMukeysIntoLists` makes them, of comma-free keys. */
  predicate Sendable(batches: seq<seq<string>>) {
    forall k :: 0 <= k < |batches| ==> |batches[k]| >= 1 && forall p :: 0 <= p < |batches[k]| ==> ',' !in batches[k][p]
  }

  /** A row after the run: the symbol of its MUKEY if that key was sent. */
  function Filled(row: Row, keys: seq<string>, natmusym: string -> string): Row {
    match Cell(row, "mukey")
    case Some(k) => if k in keys then row[Upper("natmusym") := natmusym(k)] else row
    case None => row
  }

  /** Every row of a layer after the run. */
  function FilledRows(rows: seq<Row>, keys: seq<string>, natmusym: string -> string): (r: seq<Row>)
    ensures |r| == |rows| && forall i :: 0 <= i < |rows| ==> r[i] == Filled(rows[i], keys, natmusym)
  {
    seq(|rows|, i requires 0 <= i < |rows| => Filled(rows[i], keys, natmusym))
  }

  /** Filling with the keys of one batch and then with those of the rest is
      filling with all of them. */
  lemma FilledRowsTwice(rows: seq<Row>, a: seq<string>, b: seq<string>, natmusym: string -> string)
    ensures FilledRows(FilledRows(rows, a, natmusym), b, natmusym) == FilledRows(rows, a + b, natmusym)
  {
    var lhs, rhs := FilledRows(FilledRows(rows, a, natmusym), b, natmusym), FilledRows(rows, a + b, natmusym);
    forall i | 0 <= i < |rows|
      ensures lhs[i] == rhs[i]
    {
      FilledTwice(rows[i], a, b, natmusym);
    }
  }

  lemma FilledTwice(row: Row, a: seq<string>, b: seq<string>, natmusym: string -> string)
    ensures Filled(Filled(row, a, natmusym), b, natmusym) == Filled(row, a + b, natmusym)
  {
    assert |Upper("mukey")| != |Upper("natmusym")|;
    var r1 := Filled(row, a, natmusym);
    assert Cell(r1, "mukey") == Cell(row, "mukey");
  }

  /** The service answers the query of every batch with that batch's
      ideal table. */
  predicate AnswersIdeally(network: string -> Attempt, natmusym: string -> string, batches: seq<seq<string>>) {
    forall k :: 0 <= k < |batches| ==>
      network(InQuery(QueryPrefix, batches[k])) == Answered(Some(IdealTable(batches[k], natmusym)))
  }

  /** The ideal service answers every batch ideally: it reads back exactly
      the keys the query was built from. */
  lemma IdealAnswersIdeally(natmusym: string -> string, network: string -> Attempt, batches: seq<seq<string>>)
    requires forall q :: network(q) == IdealAnswer(natmusym, q)
    requires Sendable(batches)
    ensures AnswersIdeally(network, natmusym, batches)
  {
    forall k | 0 <= k < |batches|
      ensures network(InQuery(QueryPrefix, batches[k])) == Answered(Some(IdealTable(batches[k], natmusym)))
    {
      InQueryKeys(QueryPrefix, batches[k]);
    }
  }

  lemma IdealBatch(s: LayerState, batch: seq<string>, natmusym: string -> string)
    ensures BatchSpec(s, batch, Answered(Some(IdealTable(batch, natmusym)))) ==
      BatchOutcome(Success(BatchReport(|batch|, None)),
        LayerState(EnsureNatmusym(s.fields, Header).value,
          FilledRows(s.rows, batch, natmusym)))
  {
    var table := IdealTable(batch, natmusym);
    var data := table[2..];
    assert |data| == |batch|;
    assert forall j :: 0 <= j < |data| ==> data[j] == [batch[j], natmusym(batch[j])];
    assert UsableRows(Header, data) == |data|;
    assert data[..|data|] == data;
    assert |Upper("mukey")| != |Upper("natmusym")|;
    forall i | 0 <= i < |s.rows|
      ensures ApplyRecords(s.rows[i], "mukey", "natmusym", data) == Filled(s.rows[i], batch, natmusym)
    {
      ApplyRecordsByKey(s.rows[i], "mukey", "natmusym", data);
      match Cell(s.rows[i], "mukey") {
        case None =>
        case Some(k) =>
          if k in batch {
            var p :| 0 <= p < |batch| && batch[p] == k;
            assert data[p][0] == k;
            var v := LastValueFor(data, k);
            var j :| 0 <= j < |data| && data[j][0] == k && data[j][1] == v.value;
          } else {
            assert forall j :: 0 <= j < |data| ==> data[j][0] != k;
          }
      }
    }
  }

  /** A batch that succeeds lets the run go on from the state it leaves. */
  lemma RunBatchesSuccess(s: LayerState, batches: seq<seq<Option<string>>>, network: string -> Attempt, report: BatchReport, s1: LayerState)
    requires batches != []
    requires BatchStep(s, batches[0], network) == BatchOutcome(Success(report), s1)
    ensures RunBatches(s, batches, network) ==
      RunOutcome(AfterReports([report], RunBatches(s1, batches[1..], network).result), RunBatches(s1, batches[1..], network).state)
  {
  }

  /** Batches cut from a cursor on which no MUKEY is NULL. */
  function KnownBatches(batches: seq<seq<string>>): (r: seq<seq<Option<string>>>)
    ensures |r| == |batches| && forall k :: 0 <= k < |batches| ==> r[k] == Known(batches[k])
  {
    seq(|batches|, k requires 0 <= k < |batches| => Known(batches[k]))
  }

  /** The state after the first batch against the ideal service. */
  function IdealFirst(s: LayerState, b0: seq<string>, natmusym: string -> string): LayerState {
    LayerState(EnsureNatmusym(s.fields, Header).value,
      FilledRows(s.rows, b0, natmusym))
  }

  lemma IdealRunStep(s: LayerState, batches: seq<seq<string>>, natmusym: string -> string, network: string -> Attempt)
    requires AnswersIdeally(network, natmusym, batches) && batches != []
    ensures AnswersIdeally(network, natmusym, batches[1..])
    ensures RunBatches(s, KnownBatches(batches), network) ==
      var o1 := RunBatches(IdealFirst(s, batches[0], natmusym), KnownBatches(batches[1..]), network);
      RunOutcome(AfterReports([BatchReport(|batches[0]|, None)], o1.result), o1.state)
  {
    var rest := batches[1..];
    forall k | 0 <= k < |rest|
      ensures network(InQuery(QueryPrefix, rest[k])) == Answered(Some(IdealTable(rest[k], natmusym)))
    {
      assert rest[k] == batches[k + 1];
    }
    IdealBatch(s, batches[0], natmusym);
    TextsKnown(batches[0]);
    assert KnownBatches(batches)[1..] == KnownBatches(rest);
    RunBatchesSuccess(s, KnownBatches(batches), network, BatchReport(|batches[0]|, None), IdealFirst(s, batches[0], natmusym));
  }

  /** The report of each batch of a run that finds every key. */
  function IdealReports(batches: seq<seq<string>>): (r: seq<BatchReport>)
    ensures |r| == |batches| && forall k :: 0 <= k < |batches| ==> r[k] == BatchReport(|batches[k]|, None)
  {
    seq(|batches|, k requires 0 <= k < |batches| => BatchReport(|batches[k]|, None))
  }

  lemma {:induction false} IdealRunReports(s: LayerState, batches: seq<seq<string>>, natmusym: string -> string, network: string -> Attempt)
    requires AnswersIdeally(network, natmusym, batches)
    ensures RunBatches(s, KnownBatches(batches), network).result == Success(IdealReports(batches))
    decreases |batches|
  {
    if batches == [] {
      assert KnownBatches(batches) == [];
      assert IdealReports(batches) == [];
    } else {
      IdealRunStep(s, batches, natmusym, network);
      var rest := batches[1..];
      IdealRunReports(IdealFirst(s, batches[0], natmusym), rest, natmusym, network);
      assert IdealReports(batches) == [BatchReport(|batches[0]|, None)] + IdealReports(rest);
    }
  }

  lemma {:induction false} IdealRunFields(s: LayerState, batches: seq<seq<string>>, natmusym: string -> string, network: string -> Attempt)
    requires AnswersIdeally(network, natmusym, batches)
    ensures RunBatches(s, KnownBatches(batches), network).state.fields ==
      if batches == [] then s.fields else EnsureNatmusym(s.fields, Header).value
    decreases |batches|
  {
    if batches != [] {
      IdealRunStep(s, batches, natmusym, network);
      IdealRunFields(IdealFirst(s, batches[0], natmusym), batches[1..], natmusym, network);
      LowerNatmusym();
      EnsureNatmusymIdempotent(s.fields, Header, Header);
    }
  }

  lemma {:induction false} IdealRunRows(s: LayerState, batches: seq<seq<string>>, natmusym: string -> string, network: string -> Attempt)
    requires AnswersIdeally(network, natmusym, batches)
    ensures RunBatches(s, KnownBatches(batches), network).state.rows == FilledRows(s.rows, Flatten(batches), natmusym)
    decreases |batches|
  {
    if batches == [] {
      assert forall i :: 0 <= i < |s.rows| ==> Filled(s.rows[i], [], natmusym) == s.rows[i];
    } else {
      var b0, rest := batches[0], batches[1..];
      IdealRunStep(s, batches, natmusym, network);
      var s1 := IdealFirst(s, b0, natmusym);
      IdealRunRows(s1, rest, natmusym, network);
      assert batches == [b0] + rest;
      FlattenConcat([b0], rest);
      assert Flatten([b0]) == b0 by {
        assert [b0][..0] == [];
      }
      FilledRowsTwice(s.rows, b0, Flatten(rest), natmusym);
    }
  }

  /** End to end: against a service that knows the symbol of every key, the
      run succeeds with nothing missing, adds the NATMUSYM field at most
      once, gives every row whose MUKEY was sent the symbol of that key and
      leaves every other row as it was. */
  lemma IdealRun(s: LayerState, batches: seq<seq<string>>, natmusym: string -> string, network: string -> Attempt)
    requires forall q :: network(q) == IdealAnswer(natmusym, q)
    requires Sendable(batches)
    ensures var o := RunBatches(s, KnownBatches(batches), network);
      && o.result == Success(IdealReports(batches))
      && o.state.fields == (if batches == [] then s.fields else EnsureNatmusym(s.fields, Header).value)
      && o.state.rows == FilledRows(s.rows, Flatten(batches), natmusym)
  {
    IdealAnswersIdeally(natmusym, network, batches);
    IdealRunReports(s, batches, natmusym, network);
    IdealRunFields(s, batches, natmusym, network);
    IdealRunRows(s, batches, natmusym, network);
  }
}
