/** GetNatMusym.py: collect the MUKEY values of a layer in MUKEY order, send
    them in one query to Soil Data Access, add the returned columns to the
    layer (`AddNewFields`: an in-memory table with the mapped field types,
    joined to the layer) and copy each map unit's row into every feature
    with that MUKEY.

    `PrintMsg` and `MyError` are never defined in the script, so as written
    every message and every raised error ends in a NameError; the model
    takes them as a message and as the error they name. */
module GetNatMusym {
  import opened Wrappers
  import opened Text
  import opened Keys
  import opened Fields
  import opened Layers
  import opened Service

  const QueryPrefix := "SELECT m.mukey, m.nationalmusym as natmusym from mapunit m where mukey in ("

  datatype Error =
    | UnknownDataType(dataType: string)
    | MukeyFieldMissing
    | NoFeatures
    | NullMukey
    | RequestFailed(error: NetError)
    | NoTable
    | MissingHeader
    | NoNewFields
    | MukeyColumnMissing
    | ShortDataRow(index: nat)
    | CursorFieldMissing

  // ---------------------------------------------------------------------------
  // GetMukeys

  predicate KnownDataType(dataType: string) {
    Lower(dataType) == "featurelayer" || Lower(dataType) == "featureclass" || Lower(dataType) == "shapefile"
  }

  /** `GetMukeys(theInput)`: `cursor` is the MUKEY column of the input read
      with `ORDER BY MUKEY`. Unlike AddNatMusym.py the list is returned as
      soon as the feature class has features, even when it is empty. */
  method GetMukeys(dataType: string, theFC: Option<seq<FieldDesc>>, featureCount: nat, cursor: seq<Option<string>>)
    returns (r: Result<seq<Option<string>>, Error>)
    ensures !KnownDataType(dataType) ==> r == Failure(UnknownDataType(Lower(dataType)))
    ensures KnownDataType(dataType) && FindField(theFC, "MUKEY").None? ==> r == Failure(MukeyFieldMissing)
    ensures KnownDataType(dataType) && FindField(theFC, "MUKEY").Some? ==>
      r == if featureCount > 0 then Success(Dedup(cursor)) else Failure(NoFeatures)
  {
    if !KnownDataType(dataType) {
      return Failure(UnknownDataType(Lower(dataType)));
    }
    var mukeyField := FindField(theFC, "MUKEY");
    if mukeyField.None? {
      return Failure(MukeyFieldMissing);
    }
    if featureCount > 0 {
      var mukeyList := CollectUniqueKeys(cursor);
      return Success(mukeyList);
    }
    return Failure(NoFeatures);
  }

  /** The cursor's `ORDER BY MUKEY` carries over: the keys come back strictly
      increasing in whatever order the database sorts by. */
  lemma SortedMukeys(cursor: seq<Option<string>>, le: (Option<string>, Option<string>) -> bool, dataType: string, theFC: Option<seq<FieldDesc>>, featureCount: nat)
    requires forall i, j :: 0 <= i < j < |cursor| ==> le(cursor[i], cursor[j])
    requires KnownDataType(dataType) && FindField(theFC, "MUKEY").Some? && featureCount > 0
    ensures forall i, j :: 0 <= i < j < |Dedup(cursor)| ==>
      le(Dedup(cursor)[i], Dedup(cursor)[j]) && Dedup(cursor)[i] != Dedup(cursor)[j]
  {
    DedupSorted(cursor, le);
  }

  // ---------------------------------------------------------------------------
  // AddNewFields: type mapping and column-info parsing

  /** The `dType` dictionary, built entry by entry as lines 116-134 do;
      "numeric" is assigned twice. */
  const DType: map<string, string> :=
    map[]["int" := "long"]["smallint" := "short"]["bit" := "short"]["varbinary" := "blob"]
      ["nvarchar" := "text"]["varchar" := "text"]["char" := "text"]
      ["datetime" := "date"]["datetime2" := "date"]["smalldatetime" := "date"]
      ["decimal" := "double"]["numeric" := "double"]["float" := "double"]
      ["numeric" := "float"]["real" := "double"]

  /** The dictionary filled in as `AddNewFields` does it. */
  method BuildTypeMap() returns (dType: map<string, string>)
    ensures dType == DType
  {
    dType := map[];
    dType := dType["int" := "long"];
    dType := dType["smallint" := "short"];
    dType := dType["bit" := "short"];
    dType := dType["varbinary" := "blob"];
    dType := dType["nvarchar" := "text"];
    dType := dType["varchar" := "text"];
    dType := dType["char" := "text"];
    dType := dType["datetime" := "date"];
    dType := dType["datetime2" := "date"];
    dType := dType["smalldatetime" := "date"];
    dType := dType["decimal" := "double"];
    dType := dType["numeric" := "double"];
    dType := dType["float" := "double"];
    dType := dType["numeric" := "float"];
    dType := dType["real" := "double"];
  }

  /** The SQL Server types the dictionary knows and the geodatabase type
      each becomes; the later "numeric" entry wins. */
  lemma TypeMapEntries()
    ensures DType.Keys == {"int", "smallint", "bit", "varbinary", "nvarchar", "varchar", "char",
      "datetime", "datetime2", "smalldatetime", "decimal", "numeric", "float", "real"}
    ensures DType["int"] == "long"
    ensures DType["smallint"] == "short" && DType["bit"] == "short"
    ensures DType["varbinary"] == "blob"
    ensures DType["nvarchar"] == "text" && DType["varchar"] == "text" && DType["char"] == "text"
    ensures DType["datetime"] == "date" && DType["datetime2"] == "date" && DType["smalldatetime"] == "date"
    ensures DType["decimal"] == "double" && DType["float"] == "double" && DType["real"] == "double"
    ensures DType["numeric"] == "float"
  {
  }

  /** `item.split("=")[1]`, `None` where that raises. */
  function ItemValue(item: string): Option<string> {
    var parts := Split(item, '=');
    if |parts| >= 2 then Some(parts[1]) else None
  }

  /** `int(item.split("=")[1])` */
  function ItemInt(item: string): Option<int> {
    match ItemValue(item)
    case Some(v) => ParseInt(v)
    case None => None
  }

  /** The field `AddNewFields` creates for column `fldName` from its
      column-info text: length, precision and scale from the second, third
      and fourth `Name=value` items, the type from the lower-cased value of
      the fifth. `None` where the script raises. */
  function ParseColumnInfo(dType: map<string, string>, fldName: string, info: string): (r: Option<FieldDef>)
    ensures r.Some? ==> r.value.name == fldName
  {
    var vals := Split(info, ',');
    if |vals| < 5 then None
    else
      var length := ItemInt(vals[1]);
      var precision := ItemInt(vals[2]);
      var scale := ItemInt(vals[3]);
      var providerType := ItemValue(Lower(vals[4]));
      if length.Some? && precision.Some? && scale.Some? && providerType.Some? && providerType.value in dType then
        Some(FieldDef(fldName, dType[providerType.value], precision, scale, length.value))
      else
        None
  }

  /** Column-info text as the service writes it: ordinal, size, precision,
      scale and provider type, then further items. */
  function ColumnInfoText(ordinal: nat, size: nat, precision: nat, scale: nat, providerType: string, more: seq<string>): string {
    Join(ColumnInfoItems(ordinal, size, precision, scale, providerType) + more, ',')
  }

  function ColumnInfoItems(ordinal: nat, size: nat, precision: nat, scale: nat, providerType: string): seq<string> {
    [Item("ColumnOrdinal", NatToString(ordinal)), Item("ColumnSize", NatToString(size)),
     Item("NumericPrecision", NatToString(precision)), Item("NumericScale", NatToString(scale)),
     Item("ProviderType", providerType)]
  }

  /** One `Name=value` item. */
  function Item(name: string, value: string): string {
    name + "=" + value
  }

  lemma ItemValueOf(name: string, value: string)
    requires '=' !in name && '=' !in value
    ensures ItemValue(Item(name, value)) == Some(value)
  {
    assert name + "=" + value == name + ['='] + value;
    SplitAtSep(name, value, '=');
    SplitNoSep(name, '=');
    SplitNoSep(value, '=');
  }

  lemma ItemIntOf(name: string, n: nat)
    requires '=' !in name
    ensures ItemInt(Item(name, NatToString(n))) == Some(n)
  {
    var d := NatToString(n);
    assert '=' !in d by {
      assert forall i :: 0 <= i < |d| ==> IsDigit(d[i]);
    }
    ItemValueOf(name, d);
    ParseIntToString(n);
  }

  lemma LowerConcat(a: string, b: string)
    ensures Lower(a + b) == Lower(a) + Lower(b)
  {
  }

  lemma LowerKeepsEquals(s: string)
    requires '=' !in s
    ensures '=' !in Lower(s)
  {
    forall i | 0 <= i < |s|
      ensures Lower(s)[i] != '='
    {
      assert s[i] != '=';
    }
  }

  /** Column info in the service's layout is read back exactly: the size,
      precision and scale given, and the mapped type of the provider type in
      any letter case. */
  lemma ParseColumnInfoText(dType: map<string, string>, fldName: string, ordinal: nat, size: nat, precision: nat, scale: nat,
                            providerType: string, more: seq<string>)
    requires ',' !in providerType && '=' !in providerType
    requires Lower(providerType) in dType
    requires forall k :: 0 <= k < |more| ==> ',' !in more[k]
    ensures ParseColumnInfo(dType, fldName, ColumnInfoText(ordinal, size, precision, scale, providerType, more))
      == Some(FieldDef(fldName, dType[Lower(providerType)], Some(precision), Some(scale), size))
  {
    ColumnInfoSplit(ordinal, size, precision, scale, providerType, more);
    var vals := Split(ColumnInfoText(ordinal, size, precision, scale, providerType, more), ',');
    ItemIntOf("ColumnSize", size);
    ItemIntOf("NumericPrecision", precision);
    ItemIntOf("NumericScale", scale);
    ItemValueOfLowered("ProviderType", providerType);
    assert ItemInt(vals[1]) == Some(size);
    assert ItemInt(vals[2]) == Some(precision);
    assert ItemInt(vals[3]) == Some(scale);
    assert ItemValue(Lower(vals[4])) == Some(Lower(providerType));
  }

  /** The items of column-info text are separated by its commas. */
  lemma ColumnInfoSplit(ordinal: nat, size: nat, precision: nat, scale: nat, providerType: string, more: seq<string>)
    requires ',' !in providerType
    requires forall k :: 0 <= k < |more| ==> ',' !in more[k]
    ensures Split(ColumnInfoText(ordinal, size, precision, scale, providerType, more), ',')
      == ColumnInfoItems(ordinal, size, precision, scale, providerType) + more
  {
    DigitsFree(ordinal);
    DigitsFree(size);
    DigitsFree(precision);
    DigitsFree(scale);
    ItemCommaFree("ColumnOrdinal", NatToString(ordinal));
    ItemCommaFree("ColumnSize", NatToString(size));
    ItemCommaFree("NumericPrecision", NatToString(precision));
    ItemCommaFree("NumericScale", NatToString(scale));
    ItemCommaFree("ProviderType", providerType);
    var items := ColumnInfoItems(ordinal, size, precision, scale, providerType) + more;
    assert forall k :: 0 <= k < |items| ==> ',' !in items[k];
    SplitJoin(items, ',');
  }

  lemma DigitsFree(n: nat)
    ensures ',' !in NatToString(n) && '=' !in NatToString(n)
  {
    var d := NatToString(n);
    assert forall i :: 0 <= i < |d| ==> IsDigit(d[i]);
  }

  lemma ItemCommaFree(name: string, value: string)
    requires ',' !in name && ',' !in value
    ensures ',' !in Item(name, value)
  {
  }

  /** Lower-casing an item leaves its '=' in place. */
  lemma ItemValueOfLowered(name: string, value: string)
    requires '=' !in name && '=' !in value
    ensures ItemValue(Lower(Item(name, value))) == Some(Lower(value))
  {
    LowerConcat(name + "=", value);
    LowerConcat(name, "=");
    assert Lower("=") == "=";
    LowerKeepsEquals(name);
    LowerKeepsEquals(value);
    ItemValueOf(Lower(name), Lower(value));
  }

  // ---------------------------------------------------------------------------
  // AddNewFields: the loop

  /** The fields of the in-memory table, one per column, or `None` when
      some column has no readable column info. */
  function ColumnSpecs(dType: map<string, string>, columnNames: seq<string>, columnInfo: seq<string>): (r: Option<seq<FieldDef>>)
    ensures r.Some? ==> Names(r.value) == columnNames
    decreases |columnNames|
  {
    if columnNames == [] then Some([])
    else
      var n := |columnNames| - 1;
      match ColumnSpecs(dType, columnNames[..n], columnInfo)
      case None => None
      case Some(specs) =>
        if n >= |columnInfo| then None
        else
          match ParseColumnInfo(dType, columnNames[n], columnInfo[n])
          case None => None
          case Some(spec) =>
            assert Names(specs + [spec]) == Names(specs) + [spec.name];
            Some(specs + [spec])
  }

  /** Once one column's info cannot be read, no longer list of columns can
      be read either. */
  lemma {:induction false} ColumnSpecsNoneExtends(dType: map<string, string>, columnNames: seq<string>, columnInfo: seq<string>, k: nat)
    requires k <= |columnNames| && ColumnSpecs(dType, columnNames[..k], columnInfo).None?
    ensures ColumnSpecs(dType, columnNames, columnInfo).None?
    decreases |columnNames| - k
  {
    if k == |columnNames| {
      assert columnNames[..k] == columnNames;
    } else {
      assert columnNames[..k + 1][..k] == columnNames[..k];
      ColumnSpecsNoneExtends(dType, columnNames, columnInfo, k + 1);
    }
  }

  /** The columns that are joined to the layer: all but MUKEY, in order. */
  function JoinFields(columnNames: seq<string>): (joinFields: seq<string>)
    ensures forall x :: x in joinFields <==> x in columnNames && Lower(x) != "mukey"
    decreases |columnNames|
  {
    if columnNames == [] then []
    else
      var n := |columnNames| - 1;
      assert columnNames == columnNames[..n] + [columnNames[n]];
      JoinFields(columnNames[..n]) + (if Lower(columnNames[n]) == "mukey" then [] else [columnNames[n]])
  }

  /** The in-memory table's fields that `JoinField_management` copies. */
  function JoinDefs(specs: seq<FieldDef>): seq<FieldDef>
    decreases |specs|
  {
    if specs == [] then []
    else
      var n := |specs| - 1;
      JoinDefs(specs[..n]) + (if Lower(specs[n].name) == "mukey" then [] else [specs[n]])
  }

  function Names(defs: seq<FieldDef>): (names: seq<string>)
    ensures |names| == |defs| && forall i :: 0 <= i < |defs| ==> names[i] == defs[i].name
  {
    seq(|defs|, i requires 0 <= i < |defs| => defs[i].name)
  }

  /** The fields joined to the layer are those the join list names. */
  lemma {:induction false} JoinDefsNames(specs: seq<FieldDef>)
    ensures Names(JoinDefs(specs)) == JoinFields(Names(specs))
    decreases |specs|
  {
    if specs != [] {
      var n := |specs| - 1;
      JoinDefsNames(specs[..n]);
      assert Names(specs)[..n] == Names(specs[..n]);
      var tail := if Lower(specs[n].name) == "mukey" then [] else [specs[n]];
      assert Names(JoinDefs(specs[..n]) + tail) == Names(JoinDefs(specs[..n])) + Names(tail);
    }
  }

  /** One more column: the specs of the longer prefix extend those of the shorter one. */
  lemma ColumnSpecsStep(dType: map<string, string>, columnNames: seq<string>, columnInfo: seq<string>, i: nat, fields: seq<FieldDef>)
    requires i < |columnNames| && ColumnSpecs(dType, columnNames[..i], columnInfo) == Some(fields)
    ensures ColumnSpecs(dType, columnNames[..i + 1], columnInfo) ==
      if i < |columnInfo| then
        match ParseColumnInfo(dType, columnNames[i], columnInfo[i])
        case None => None
        case Some(spec) => Some(fields + [spec])
      else None
  {
    assert columnNames[..i + 1][..i] == columnNames[..i];
  }

  /** One more column: the join list grows by that column unless it is MUKEY. */
  lemma JoinFieldsStep(columnNames: seq<string>, i: nat)
    requires i < |columnNames|
    ensures JoinFields(columnNames[..i + 1]) ==
      JoinFields(columnNames[..i]) + (if Lower(columnNames[i]) == "mukey" then [] else [columnNames[i]])
  {
    assert columnNames[..i + 1][..i] == columnNames[..i];
  }

  /** The loop of `AddNewFields`: one field of the in-memory table per
      column, and the join list; `None` where reading a column's info raises. */
  method BuildQueryTable(dType: map<string, string>, columnNames: seq<string>, columnInfo: seq<string>)
    returns (outputTbl: Option<seq<FieldDef>>, joinFields: seq<string>)
    ensures outputTbl == ColumnSpecs(dType, columnNames, columnInfo)
    ensures outputTbl.Some? ==> joinFields == JoinFields(columnNames)
  {
    joinFields := [];
    var fields: seq<FieldDef> := [];
    for i := 0 to |columnNames|
      invariant ColumnSpecs(dType, columnNames[..i], columnInfo) == Some(fields)
      invariant joinFields == JoinFields(columnNames[..i])
    {
      var spec := if i < |columnInfo| then ParseColumnInfo(dType, columnNames[i], columnInfo[i]) else None;
      ColumnSpecsStep(dType, columnNames, columnInfo, i, fields);
      if spec.None? {
        ColumnSpecsNoneExtends(dType, columnNames, columnInfo, i + 1);
        return None, joinFields;
      }
      JoinFieldsStep(columnNames, i);
      if Lower(columnNames[i]) != "mukey" {
        joinFields := joinFields + [columnNames[i]];
      }
      fields := fields + [spec.value];
    }
    assert columnNames[..|columnNames|] == columnNames;
    return Some(fields), joinFields;
  }

  /** `JoinField_management(outputShp, "mukey", outputTbl, "mukey", …)`
      finds its key field on both sides: the layer has a field named mukey
      and the in-memory table, whose fields are the columns, has one too
      (field names ignoring case). Otherwise it raises. */
  predicate JoinKeysPresent(fields: seq<FieldDef>, columnNames: seq<string>) {
    HasFieldLower(fields, "mukey") && exists c :: 0 <= c < |columnNames| && Lower(columnNames[c]) == "mukey"
  }

  /** `AddNewFields(outputShp, columnNames, columnInfo)`: returns the column
      names once the fields are joined, or `[]` when a column's info cannot
      be read or the join finds no mukey field, the layer then left as it
      was. The joined fields start out NULL: the in-memory table has no
      rows. */
  method AddNewFields(outputShp: FeatureClass, columnNames: seq<string>, columnInfo: seq<string>)
    returns (newFields: seq<string>)
    modifies outputShp
    ensures outputShp.rows == old(outputShp.rows)
    ensures ColumnSpecs(DType, columnNames, columnInfo).None? || !JoinKeysPresent(old(outputShp.fields), columnNames) ==>
      newFields == [] && outputShp.fields == old(outputShp.fields)
    ensures ColumnSpecs(DType, columnNames, columnInfo).Some? && JoinKeysPresent(old(outputShp.fields), columnNames) ==>
      newFields == columnNames && newFields != [] &&
      outputShp.fields == old(outputShp.fields) + JoinDefs(ColumnSpecs(DType, columnNames, columnInfo).value)
  {
    var dType := BuildTypeMap();
    var outputTbl, joinFields := BuildQueryTable(dType, columnNames, columnInfo);
    if outputTbl.None? {
      return [];
    }
    if !JoinKeysPresent(outputShp.fields, columnNames) {
      // JoinField raises: no mukey field to join on
      return [];
    }
    // JoinField copies the table's fields that `joinFields` names
    JoinDefsNames(outputTbl.value);
    assert Names(JoinDefs(outputTbl.value)) == joinFields;
    outputShp.fields := outputShp.fields + JoinDefs(outputTbl.value);
    return columnNames;
  }

  /** A column named mukey in lower case is named MUKEY in upper case. */
  lemma UpperOfMukey(name: string)
    requires Lower(name) == "mukey"
    ensures Upper(name) == "MUKEY"
  {
    forall i | 0 <= i < 5
      ensures Upper(name)[i] == "MUKEY"[i]
    {
      assert LowerChar(name[i]) == "mukey"[i];
    }
  }

  /** Once the join has found a mukey column, the MUKEY column is found too:
      the `mukeyIndx == -1` exit of `AttributeRequest` cannot be taken. */
  lemma JoinedMukeyColumn(fields: seq<FieldDef>, columnNames: seq<string>)
    requires JoinKeysPresent(fields, columnNames)
    ensures MukeyColumn(columnNames).Some?
  {
    var c :| 0 <= c < |columnNames| && Lower(columnNames[c]) == "mukey";
    UpperOfMukey(columnNames[c]);
    assert UpperAll(columnNames)[c] == "MUKEY";
  }

  // ---------------------------------------------------------------------------
  // AttributeRequest: the MUKEY column, `dMapunitInfo` and the update cursor

  function UpperAll(names: seq<string>): (r: seq<string>)
    ensures |r| == |names| && forall i :: 0 <= i < |names| ==> r[i] == Upper(names[i])
  {
    seq(|names|, i requires 0 <= i < |names| => Upper(names[i]))
  }

  /** The position of the first column named MUKEY in any letter case. */
  function MukeyColumn(columnNames: seq<string>): Option<nat> {
    FirstIndex(UpperAll(columnNames), "MUKEY")
  }

  /** The loop that sets `mukeyIndx`, -1 when no column is MUKEY. */
  method FindMukeyColumn(columnNames: seq<string>) returns (mukeyIndx: int)
    ensures mukeyIndx == match MukeyColumn(columnNames) case Some(k) => k as int case None => -1
    ensures -1 <= mukeyIndx < |columnNames|
    ensures mukeyIndx == -1 <==> forall i :: 0 <= i < |columnNames| ==> Upper(columnNames[i]) != "MUKEY"
    ensures mukeyIndx >= 0 ==>
      Upper(columnNames[mukeyIndx]) == "MUKEY" && forall i :: 0 <= i < mukeyIndx ==> Upper(columnNames[i]) != "MUKEY"
  {
    ghost var uppers := UpperAll(columnNames);
    mukeyIndx := -1;
    for i := 0 to |columnNames|
      invariant "MUKEY" !in uppers[..i]
    {
      if Upper(columnNames[i]) == "MUKEY" {
        mukeyIndx := i;
        assert FirstIndex(uppers, "MUKEY") == Some(i) by {
          FirstIndexUnique(uppers, "MUKEY", i);
        }
        return;
      }
      assert uppers[..i + 1] == uppers[..i] + [uppers[i]];
    }
    assert uppers[..|columnNames|] == uppers;
    assert forall i :: 0 <= i < |columnNames| ==> uppers[i] in uppers;
  }

  /** The first occurrence is the only position holding `x` with none before it. */
  lemma FirstIndexUnique(names: seq<string>, target: string, k: nat)
    requires k < |names| && names[k] == target && target !in names[..k]
    ensures FirstIndex(names, target) == Some(k)
  {
    var r := FirstIndex(names, target);
    assert target in names;
    assert forall m :: 0 <= m < k ==> names[..k][m] == names[m];
    assert forall m :: 0 <= m < r.value ==> names[..r.value][m] == names[m];
  }

  /** `dMapunitInfo`: each row filed under its MUKEY; a later row with the
      same key replaces an earlier one. */
  function MapunitInfo(data: Table, idx: nat): map<string, seq<string>>
    requires ReachesColumn(data, idx)
    decreases |data|
  {
    if data == [] then map[]
    else
      var n := |data| - 1;
      MapunitInfo(data[..n], idx)[data[n][idx] := data[n]]
  }

  /** `dMapunitInfo` holds exactly the returned keys, each with the last
      row returned for it. */
  lemma {:induction false} MapunitInfoContents(data: Table, idx: nat, key: string)
    requires ReachesColumn(data, idx)
    ensures key in MapunitInfo(data, idx) <==> exists j :: 0 <= j < |data| && data[j][idx] == key
    ensures key in MapunitInfo(data, idx) ==>
      exists j :: 0 <= j < |data| && MapunitInfo(data, idx)[key] == data[j]
        && data[j][idx] == key && forall j' :: j < j' < |data| ==> data[j'][idx] != key
    decreases |data|
  {
    if data != [] {
      var n := |data| - 1;
      var p := data[..n];
      MapunitInfoContents(p, idx, key);
      assert forall j :: 0 <= j < n ==> p[j] == data[j];
      if data[n][idx] != key && key in MapunitInfo(data, idx) {
        var j :| 0 <= j < |p| && MapunitInfo(p, idx)[key] == p[j]
          && p[j][idx] == key && forall j' :: j < j' < |p| ==> p[j'][idx] != key;
        assert MapunitInfo(data, idx)[key] == data[j];
      }
    }
  }

  /** Every row of `dMapunitInfo` carries its own key in the MUKEY column. */
  lemma {:induction false} MapunitInfoKeyed(data: Table, idx: nat, key: string)
    requires ReachesColumn(data, idx) && key in MapunitInfo(data, idx)
    ensures idx < |MapunitInfo(data, idx)[key]| && MapunitInfo(data, idx)[key][idx] == key
    decreases |data|
  {
    var n := |data| - 1;
    if data[n][idx] != key {
      MapunitInfoKeyed(data[..n], idx, key);
    }
  }

  /** The loop that fills `dMapunitInfo`. A row too short to hold the MUKEY
      column raises, and the request fails. */
  method BuildMapunitInfo(dataList: Table, mukeyIndx: nat) returns (r: Result<map<string, seq<string>>, Error>)
    ensures FirstShortRow(dataList, mukeyIndx) < |dataList| ==> r == Failure(ShortDataRow(FirstShortRow(dataList, mukeyIndx)))
    ensures FirstShortRow(dataList, mukeyIndx) == |dataList| ==>
      ReachesColumn(dataList, mukeyIndx) && r == Success(MapunitInfo(dataList, mukeyIndx))
  {
    var n := FirstShortRow(dataList, mukeyIndx);
    var dMapunitInfo: map<string, seq<string>> := map[];
    for j := 0 to |dataList|
      invariant j <= n
      invariant dMapunitInfo == MapunitInfo(dataList[..j], mukeyIndx)
    {
      if |dataList[j]| <= mukeyIndx {
        return Failure(ShortDataRow(j));
      }
      assert dataList[..j + 1][..j] == dataList[..j];
      var rec := dataList[j];
      dMapunitInfo := dMapunitInfo[rec[mukeyIndx] := rec];
    }
    assert dataList[..|dataList|] == dataList;
    return Success(dMapunitInfo);
  }

  /** The MUKEY a feature holds when the cursor's columns are
      `columnNames` (`None` for NULL), and whether `dMapunitInfo` has a row
      for it that `updateRow` accepts (one value per column). */
  predicate Matched(row: Row, columnNames: seq<string>, mukeyIndx: nat, info: map<string, seq<string>>)
    requires mukeyIndx < |columnNames|
  {
    var mukey := Cell(row, columnNames[mukeyIndx]);
    mukey.Some? && mukey.value in info && |info[mukey.value]| == |columnNames|
  }

  /** One feature through the update cursor: a matched feature gets its
      map unit's row in the query's columns; any other is left alone. */
  function UpdateFeature(row: Row, columnNames: seq<string>, mukeyIndx: nat, info: map<string, seq<string>>): Row
    requires mukeyIndx < |columnNames|
  {
    if Matched(row, columnNames, mukeyIndx, info) then
      Overwrite(row, columnNames, info[Cell(row, columnNames[mukeyIndx]).value])
    else
      row
  }

  /** The MUKEY of each feature left unmatched, in cursor order, repeats
      included. */
  function UnmatchedKeys(rows: seq<Row>, columnNames: seq<string>, mukeyIndx: nat, info: map<string, seq<string>>): seq<Option<string>>
    requires mukeyIndx < |columnNames|
    decreases |rows|
  {
    if rows == [] then []
    else
      var n := |rows| - 1;
      UnmatchedKeys(rows[..n], columnNames, mukeyIndx, info)
      + (if Matched(rows[n], columnNames, mukeyIndx, info) then [] else [Cell(rows[n], columnNames[mukeyIndx])])
  }

  /** A MUKEY value is listed exactly when some feature holding it is not
      matched. */
  lemma {:induction false} UnmatchedKeysExactly(rows: seq<Row>, columnNames: seq<string>, mukeyIndx: nat, info: map<string, seq<string>>, k: Option<string>)
    requires mukeyIndx < |columnNames|
    ensures k in UnmatchedKeys(rows, columnNames, mukeyIndx, info) <==>
      exists i :: 0 <= i < |rows| && !Matched(rows[i], columnNames, mukeyIndx, info) && Cell(rows[i], columnNames[mukeyIndx]) == k
    decreases |rows|
  {
    if rows != [] {
      var n := |rows| - 1;
      var p := rows[..n];
      UnmatchedKeysExactly(p, columnNames, mukeyIndx, info, k);
      assert forall i :: 0 <= i < n ==> p[i] == rows[i];
    }
  }

  function UpdatedFeatures(rows: seq<Row>, columnNames: seq<string>, mukeyIndx: nat, info: map<string, seq<string>>): (r: seq<Row>)
    requires mukeyIndx < |columnNames|
    ensures |r| == |rows| && forall i :: 0 <= i < |rows| ==> r[i] == UpdateFeature(rows[i], columnNames, mukeyIndx, info)
  {
    seq(|rows|, i requires 0 <= i < |rows| => UpdateFeature(rows[i], columnNames, mukeyIndx, info))
  }

  /** One more feature: its MUKEY joins the unmatched keys unless it is matched. */
  lemma UnmatchedKeysStep(rows: seq<Row>, columnNames: seq<string>, mukeyIndx: nat, info: map<string, seq<string>>, i: nat)
    requires mukeyIndx < |columnNames| && i < |rows|
    ensures UnmatchedKeys(rows[..i + 1], columnNames, mukeyIndx, info) ==
      UnmatchedKeys(rows[..i], columnNames, mukeyIndx, info)
      + (if Matched(rows[i], columnNames, mukeyIndx, info) then [] else [Cell(rows[i], columnNames[mukeyIndx])])
  {
    assert rows[..i + 1][..i] == rows[..i];
  }

  /** One step of the update cursor: the features before `i` are updated,
      the one at `i` is next, and updating it extends the updated prefix. */
  lemma UpdatedFeaturesStep(rows: seq<Row>, columnNames: seq<string>, mukeyIndx: nat, info: map<string, seq<string>>, i: nat)
    requires mukeyIndx < |columnNames| && i < |rows|
    ensures var before := UpdatedFeatures(rows[..i], columnNames, mukeyIndx, info) + rows[i..];
      i < |before| && before[i] == rows[i]
      && before[i := UpdateFeature(rows[i], columnNames, mukeyIndx, info)]
         == UpdatedFeatures(rows[..i + 1], columnNames, mukeyIndx, info) + rows[i + 1..]
  {
    var before := UpdatedFeatures(rows[..i], columnNames, mukeyIndx, info) + rows[i..];
    var after := UpdatedFeatures(rows[..i + 1], columnNames, mukeyIndx, info) + rows[i + 1..];
    assert |before| == |after| == |rows|;
    forall k | 0 <= k < |rows|
      ensures before[i := UpdateFeature(rows[i], columnNames, mukeyIndx, info)][k] == after[k]
    {
      if k < i {
        assert rows[..i][k] == rows[k] == rows[..i + 1][k];
      }
    }
  }

  /** One step of the `noMatch` bookkeeping: an unmatched MUKEY is appended
      unless it is listed already. */
  lemma NoMatchStep(rows: seq<Row>, columnNames: seq<string>, mukeyIndx: nat, info: map<string, seq<string>>, i: nat,
                    noMatch: seq<Option<string>>, unmatched: Option<Option<string>>)
    requires mukeyIndx < |columnNames| && i < |rows|
    requires noMatch == Dedup(UnmatchedKeys(rows[..i], columnNames, mukeyIndx, info))
    requires unmatched == if Matched(rows[i], columnNames, mukeyIndx, info) then None
      else Some(Cell(rows[i], columnNames[mukeyIndx]))
    ensures Dedup(UnmatchedKeys(rows[..i + 1], columnNames, mukeyIndx, info)) ==
      if unmatched.Some? && unmatched.value !in noMatch then noMatch + [unmatched.value] else noMatch
  {
    var seen := UnmatchedKeys(rows[..i], columnNames, mukeyIndx, info);
    UnmatchedKeysStep(rows, columnNames, mukeyIndx, info, i);
    if unmatched.Some? {
      DedupAppend(seen, unmatched.value);
    } else {
      assert seen + [] == seen;
    }
  }

  /** One step of the update cursor: the feature at `i` is updated when its
      MUKEY is matched, and its MUKEY is returned when it is not. */
  method UpdateFeatureAt(layer: FeatureClass, i: nat, columnNames: seq<string>, mukeyIndx: nat, dMapunitInfo: map<string, seq<string>>)
    returns (unmatched: Option<Option<string>>)
    requires mukeyIndx < |columnNames| && i < |layer.rows|
    modifies layer
    ensures layer.fields == old(layer.fields)
    ensures layer.rows == old(layer.rows)[i := UpdateFeature(old(layer.rows)[i], columnNames, mukeyIndx, dMapunitInfo)]
    ensures unmatched == if Matched(old(layer.rows)[i], columnNames, mukeyIndx, dMapunitInfo) then None
      else Some(Cell(old(layer.rows)[i], columnNames[mukeyIndx]))
  {
    var rec := layer.rows[i];
    var mukey := Cell(rec, columnNames[mukeyIndx]);
    if mukey.Some? && mukey.value in dMapunitInfo && |dMapunitInfo[mukey.value]| == |columnNames| {
      var newrec := dMapunitInfo[mukey.value];
      layer.rows := layer.rows[i := Overwrite(rec, columnNames, newrec)];
      return None;
    }
    return Some(mukey);
  }

  /** The update cursor of lines 323-334: every feature is matched against
      `dMapunitInfo`; the MUKEY of a feature that cannot be updated goes to
      `noMatch` the first time it is seen. */
  method UpdateFeatures(layer: FeatureClass, columnNames: seq<string>, mukeyIndx: nat, dMapunitInfo: map<string, seq<string>>)
    returns (noMatch: seq<Option<string>>)
    requires mukeyIndx < |columnNames|
    modifies layer
    ensures layer.fields == old(layer.fields)
    ensures layer.rows == UpdatedFeatures(old(layer.rows), columnNames, mukeyIndx, dMapunitInfo)
    ensures noMatch == Dedup(UnmatchedKeys(old(layer.rows), columnNames, mukeyIndx, dMapunitInfo))
  {
    ghost var rows0 := layer.rows;
    noMatch := [];
    assert rows0[0..] == rows0;
    for i := 0 to |layer.rows|
      invariant layer.fields == old(layer.fields)
      invariant layer.rows == UpdatedFeatures(rows0[..i], columnNames, mukeyIndx, dMapunitInfo) + rows0[i..]
      invariant noMatch == Dedup(UnmatchedKeys(rows0[..i], columnNames, mukeyIndx, dMapunitInfo))
    {
      UpdatedFeaturesStep(rows0, columnNames, mukeyIndx, dMapunitInfo, i);
      var unmatched := UpdateFeatureAt(layer, i, columnNames, mukeyIndx, dMapunitInfo);
      NoMatchStep(rows0, columnNames, mukeyIndx, dMapunitInfo, i, noMatch, unmatched);
      if unmatched.Some? {
        var mukey := unmatched.value;
        if mukey !in noMatch {
          noMatch := noMatch + [mukey];
        }
      }
    }
    assert rows0[..|rows0|] == rows0;
    assert rows0[|rows0|..] == [];
  }

  /** A feature whose MUKEY has a full-width row in `dMapunitInfo` reads
      that row back in every column of the query, keeps its MUKEY, and keeps
      every other field; any other feature is unchanged. */
  lemma UpdateFeatureContents(row: Row, columnNames: seq<string>, mukeyIndx: nat, info: map<string, seq<string>>)
    requires mukeyIndx < |columnNames| && DistinctIgnoringCase(columnNames)
    requires forall k :: k in info ==> mukeyIndx < |info[k]| && info[k][mukeyIndx] == k
    ensures !Matched(row, columnNames, mukeyIndx, info) ==> UpdateFeature(row, columnNames, mukeyIndx, info) == row
    ensures Matched(row, columnNames, mukeyIndx, info) ==>
      var rec := info[Cell(row, columnNames[mukeyIndx]).value];
      var updated := UpdateFeature(row, columnNames, mukeyIndx, info);
      (forall c :: 0 <= c < |columnNames| ==> Cell(updated, columnNames[c]) == Some(rec[c]))
      && Cell(updated, columnNames[mukeyIndx]) == Cell(row, columnNames[mukeyIndx])
      && forall f :: (forall c :: 0 <= c < |columnNames| ==> Upper(columnNames[c]) != Upper(f)) ==>
           Cell(updated, f) == Cell(row, f)
  {
    if Matched(row, columnNames, mukeyIndx, info) {
      var rec := info[Cell(row, columnNames[mukeyIndx]).value];
      OverwriteContents(row, columnNames, rec);
    }
  }

  // ---------------------------------------------------------------------------
  // AttributeRequest

  /** What a successful request reports: the number of data rows, whether
      that differs from the number of keys sent (the warning), and the
      MUKEY values without attribute data. */
  datatype RequestReport = RequestReport(returned: nat, shortfall: bool, noMatch: seq<Option<string>>)

  datatype RequestOutcome = RequestOutcome(result: Result<RequestReport, Error>, state: LayerState)

  /** The update cursor opens only on fields the layer has. */
  predicate CursorOpens(fields: seq<FieldDef>, columnNames: seq<string>) {
    forall c :: 0 <= c < |columnNames| ==> HasFieldLower(fields, Lower(columnNames[c]))
  }

  /** `AttributeRequest`: the keys are joined into the IN list of one
      query, which fails before anything is sent when a key is NULL. */
  function RequestSpec(s: LayerState, mukeyList: seq<Option<string>>, network: string -> Attempt): RequestOutcome {
    match Texts(mukeyList)
    case None => RequestOutcome(Failure(NullMukey), s)
    case Some(keys) => ResponseSpec(s, keys, network(InQuery(QueryPrefix, keys)))
  }

  /** `AttributeRequest` from the response on: the first two rows of
      "Table" are the column names and the column info, the rest are data.
      The layer keeps the joined fields when a later step fails. */
  function ResponseSpec(s: LayerState, mukeyList: seq<string>, attempt: Attempt): RequestOutcome {
    match attempt
    case Raised(e) => RequestOutcome(Failure(RequestFailed(e)), s)
    case Answered(None) => RequestOutcome(Failure(NoTable), s)
    case Answered(Some(table)) =>
      if |table| < 2 then RequestOutcome(Failure(MissingHeader), s)
      else TableSpec(s, mukeyList, table[0], table[1], table[2..])
  }

  /** From the header rows on: the joined fields, then the MUKEY column. */
  function TableSpec(s: LayerState, mukeyList: seq<string>, columnNames: seq<string>, columnInfo: seq<string>, dataList: Table): RequestOutcome {
    match ColumnSpecs(DType, columnNames, columnInfo)
    case None => RequestOutcome(Failure(NoNewFields), s)
    case Some(specs) =>
      if !JoinKeysPresent(s.fields, columnNames) then RequestOutcome(Failure(NoNewFields), s)
      else
        var joined := LayerState(s.fields + JoinDefs(specs), s.rows);
        match MukeyColumn(columnNames)
        case None => RequestOutcome(Failure(MukeyColumnMissing), joined)
        case Some(idx) => UpdateSpec(s, mukeyList, joined.fields, columnNames, dataList, idx)
  }

  /** From the MUKEY column on: `dMapunitInfo`, then the update cursor. */
  function UpdateSpec(s: LayerState, mukeyList: seq<string>, fields: seq<FieldDef>, columnNames: seq<string>, dataList: Table, idx: nat): RequestOutcome
    requires idx < |columnNames|
  {
    var joined := LayerState(fields, s.rows);
    var n := FirstShortRow(dataList, idx);
    if n < |dataList| then RequestOutcome(Failure(ShortDataRow(n)), joined)
    else if !CursorOpens(fields, columnNames) then RequestOutcome(Failure(CursorFieldMissing), joined)
    else
      var info := MapunitInfo(dataList, idx);
      RequestOutcome(
        Success(RequestReport(|dataList|, |mukeyList| != |dataList|,
          Dedup(UnmatchedKeys(s.rows, columnNames, idx, info)))),
        LayerState(fields, UpdatedFeatures(s.rows, columnNames, idx, info)))
  }

  /** `AttributeRequest(theURL, mukeyList, outputShp, sQuery)`: one query for
      all the keys; `network` answers it. */
  method AttributeRequest(mukeyList: seq<Option<string>>, outputShp: FeatureClass, network: string -> Attempt)
    returns (r: Result<RequestReport, Error>)
    modifies outputShp
    ensures RequestOutcome(r, outputShp.State()) == RequestSpec(old(outputShp.State()), mukeyList, network)
  {
    var mukeys := Texts(mukeyList);
    if mukeys.None? {
      return Failure(NullMukey);
    }
    var sQuery := InQuery(QueryPrefix, mukeys.value);
    var attempt := network(sQuery);
    if attempt.Raised? {
      return Failure(RequestFailed(attempt.error));
    }
    if attempt.table.None? {
      return Failure(NoTable);
    }
    var dataList := attempt.table.value;
    if |dataList| < 2 {
      return Failure(MissingHeader);
    }
    var columnNames, columnInfo := dataList[0], dataList[1];
    dataList := dataList[2..];
    var shortfall := |mukeyList| != |dataList|;
    var newFields := AddNewFields(outputShp, columnNames, columnInfo);
    if |newFields| == 0 {
      return Failure(NoNewFields);
    }
    var mukeyIndx := FindMukeyColumn(columnNames);
    if mukeyIndx == -1 {
      return Failure(MukeyColumnMissing);
    }
    var dMapunitInfo := BuildMapunitInfo(dataList, mukeyIndx);
    if dMapunitInfo.Failure? {
      return Failure(dMapunitInfo.error);
    }
    if !CursorOpens(outputShp.fields, columnNames) {
      return Failure(CursorFieldMissing);
    }
    var noMatch := UpdateFeatures(outputShp, columnNames, mukeyIndx, dMapunitInfo.value);
    return Success(RequestReport(|dataList|, shortfall, noMatch));
  }

  /** A NULL MUKEY among the keys ends the request before the query is
      sent, the layer untouched; without one, the query lists every key. */
  lemma RequestNullMukey(s: LayerState, mukeyList: seq<Option<string>>, network: string -> Attempt)
    ensures None in mukeyList ==> RequestSpec(s, mukeyList, network) == RequestOutcome(Failure(NullMukey), s)
    ensures None !in mukeyList ==>
      (exists keys :: Known(keys) == mukeyList &&
        RequestSpec(s, mukeyList, network) == ResponseSpec(s, keys, network(InQuery(QueryPrefix, keys))))
  {
    if None !in mukeyList {
      assert forall i :: 0 <= i < |mukeyList| ==> mukeyList[i] in mukeyList;
      var keys := Texts(mukeyList).value;
      assert Known(keys) == mukeyList;
    } else {
      var i :| 0 <= i < |mukeyList| && mukeyList[i] == None;
    }
  }

  /** The `mukeyIndx == -1` exit is never taken: fields are only joined on
      a column named mukey, and that column is the MUKEY column. */
  lemma MukeyColumnNeverMissing(s: LayerState, mukeyList: seq<string>, attempt: Attempt)
    ensures ResponseSpec(s, mukeyList, attempt).result != Failure(MukeyColumnMissing)
  {
    if attempt.Answered? && attempt.table.Some? && |attempt.table.value| >= 2 {
      var table := attempt.table.value;
      if ColumnSpecs(DType, table[0], table[1]).Some? && JoinKeysPresent(s.fields, table[0]) {
        JoinedMukeyColumn(s.fields, table[0]);
      }
    }
  }

  /** What a successful request leaves behind, read off the specification. */
  lemma RequestSuccessShape(s: LayerState, mukeyList: seq<string>, table: Table)
    requires ResponseSpec(s, mukeyList, Answered(Some(table))).result.Success?
    ensures |table| >= 2 && MukeyColumn(table[0]).Some?
    ensures var columnNames, dataList := table[0], table[2..];
      var idx := MukeyColumn(columnNames).value;
      var out := ResponseSpec(s, mukeyList, Answered(Some(table)));
      idx < |columnNames| && ReachesColumn(dataList, idx)
      && out.state.rows == UpdatedFeatures(s.rows, columnNames, idx, MapunitInfo(dataList, idx))
      && out.result.value == RequestReport(|dataList|, |mukeyList| != |dataList|,
           Dedup(UnmatchedKeys(s.rows, columnNames, idx, MapunitInfo(dataList, idx))))
  {
    var out := ResponseSpec(s, mukeyList, Answered(Some(table)));
    assert |table| >= 2;
    var columnNames, columnInfo, dataList := table[0], table[1], table[2..];
    assert out == TableSpec(s, mukeyList, columnNames, columnInfo, dataList);
    var specs := ColumnSpecs(DType, columnNames, columnInfo).value;
    var fields := s.fields + JoinDefs(specs);
    assert JoinKeysPresent(s.fields, columnNames);
    var idx := MukeyColumn(columnNames).value;
    assert out == UpdateSpec(s, mukeyList, fields, columnNames, dataList, idx);
    UpdateSpecSuccess(s, mukeyList, fields, columnNames, dataList, idx);
  }

  lemma UpdateSpecSuccess(s: LayerState, mukeyList: seq<string>, fields: seq<FieldDef>, columnNames: seq<string>, dataList: Table, idx: nat)
    requires idx < |columnNames| && UpdateSpec(s, mukeyList, fields, columnNames, dataList, idx).result.Success?
    ensures var out := UpdateSpec(s, mukeyList, fields, columnNames, dataList, idx);
      var info := MapunitInfo(dataList, idx);
      ReachesColumn(dataList, idx)
      && out.state.rows == UpdatedFeatures(s.rows, columnNames, idx, info)
      && out.result.value == RequestReport(|dataList|, |mukeyList| != |dataList|, Dedup(UnmatchedKeys(s.rows, columnNames, idx, info)))
  {
    var n := FirstShortRow(dataList, idx);
    assert n == |dataList|;
    assert dataList[..n] == dataList;
  }

  /** A feature whose MUKEY has a full-width returned row gets, in every
      column of the query, the values of the last such row. */
  lemma RequestFillsFeature(s: LayerState, mukeyList: seq<string>, table: Table, i: nat, j: nat)
    requires ResponseSpec(s, mukeyList, Answered(Some(table))).result.Success?
    requires |table| >= 2 && MukeyColumn(table[0]).Some? && DistinctIgnoringCase(table[0])
    requires i < |s.rows| && j < |table| - 2
    requires var columnNames, dataList := table[0], table[2..];
      var idx := MukeyColumn(columnNames).value;
      |dataList[j]| == |columnNames| && idx < |columnNames|
      && Cell(s.rows[i], columnNames[idx]) == Some(dataList[j][idx])
      && forall j' :: j < j' < |dataList| && idx < |dataList[j']| ==> dataList[j'][idx] != dataList[j][idx]
    ensures var columnNames, dataList := table[0], table[2..];
      var out := ResponseSpec(s, mukeyList, Answered(Some(table)));
      forall c :: 0 <= c < |columnNames| ==> Cell(out.state.rows[i], columnNames[c]) == Some(dataList[j][c])
  {
    RequestSuccessShape(s, mukeyList, table);
    var columnNames, dataList := table[0], table[2..];
    var idx := MukeyColumn(columnNames).value;
    var info := MapunitInfo(dataList, idx);
    var key := dataList[j][idx];
    forall k | k in info
      ensures idx < |info[k]| && info[k][idx] == k
    {
      MapunitInfoKeyed(dataList, idx, k);
    }
    MapunitInfoContents(dataList, idx, key);
    var j2 :| 0 <= j2 < |dataList| && info[key] == dataList[j2]
      && dataList[j2][idx] == key && forall j' :: j2 < j' < |dataList| ==> dataList[j'][idx] != key;
    assert j2 == j;
    assert Matched(s.rows[i], columnNames, idx, info);
    UpdateFeatureContents(s.rows[i], columnNames, idx, info);
  }

  /** A feature the request cannot match keeps every field it had. */
  lemma RequestKeepsUnmatched(s: LayerState, mukeyList: seq<string>, table: Table, i: nat)
    requires ResponseSpec(s, mukeyList, Answered(Some(table))).result.Success?
    requires |table| >= 2 && MukeyColumn(table[0]).Some? && i < |s.rows|
    requires var idx := MukeyColumn(table[0]).value;
      idx < |table[0]| && ReachesColumn(table[2..], idx)
      && !Matched(s.rows[i], table[0], idx, MapunitInfo(table[2..], idx))
    ensures ResponseSpec(s, mukeyList, Answered(Some(table))).state.rows[i] == s.rows[i]
  {
    RequestSuccessShape(s, mukeyList, table);
  }

  /** The reported MUKEY values are those of the unmatched features, each
      once. */
  lemma RequestReportsUnmatched(s: LayerState, mukeyList: seq<string>, table: Table, key: Option<string>)
    requires ResponseSpec(s, mukeyList, Answered(Some(table))).result.Success?
    requires |table| >= 2 && MukeyColumn(table[0]).Some?
    requires var idx := MukeyColumn(table[0]).value; idx < |table[0]| && ReachesColumn(table[2..], idx)
    ensures var idx := MukeyColumn(table[0]).value;
      var noMatch := ResponseSpec(s, mukeyList, Answered(Some(table))).result.value.noMatch;
      NoDup(noMatch)
      && (key in noMatch <==>
          exists i :: 0 <= i < |s.rows| && Cell(s.rows[i], table[0][idx]) == key
            && !Matched(s.rows[i], table[0], idx, MapunitInfo(table[2..], idx)))
  {
    RequestSuccessShape(s, mukeyList, table);
    var idx := MukeyColumn(table[0]).value;
    UnmatchedKeysExactly(s.rows, table[0], idx, MapunitInfo(table[2..], idx), key);
  }
}
