# SSURGO QA scripts: a Dafny model of their data logic

The scripts support soil survey quality control in ArcGIS. AddNatMusym.py and
GetNatMusym.py collect the map-unit keys (MUKEY) of a soil polygon layer.
They ask the Soil Data Access tabular service for each key's national map-unit
symbol or other map-unit columns, and write the answers back into the layer.
Test.py makes one such request with up to three attempts and files the rows
in a dictionary. indexTest.py makes sure the requested fields have an
attribute index. QA_CommonLines.py finds common lines, boundaries between two
adjacent polygons that carry the same attribute value, survey area by survey
area.

The model keeps the sequential logic beneath the geoprocessing and network
calls:
- Layers are a field list plus rows. A row maps upper-cased field names to
  text, and an absent field is NULL (module `Layers`). A layer the scripts
  update in place is the class `Layers.FeatureClass`.
- The service is a function from the query text (or the attempt number) to
  an `Attempt`: the "Table" entry of the parsed response, or the exception
  raised (module `Service`).
- A table schema for the index script is the class
  `AttributeIndex.TableSchema`.
- A survey area for the common-line check is its selected polygons and the
  lines the polygon-to-line conversion makes of them.
- The Python built-ins the logic depends on are written out in module
  `Text`: `split`, `join`, `strip`, `int`, `str`, ASCII `upper` and `lower`.
  `splitThousands`, which four scripts each carry a copy of, is in module
  `Thousands`.

Each script's `sys.exit()`, `return False` and `except` paths become error
results. The process-level effects are left to the caller:
- exit codes;
- messages;
- the map document.

## Model

| member | source | states |
|---|---|---|
| Thousands.SplitThousandsDigits | QA_CommonLines.py:277-286 | For n >= 0, dropping the commas from `splitThousands(n)` gives `str(n)`, and a comma sits at exactly every fourth position from the right. |
| Thousands.SplitThousandsSmall | Test.py:36-45 | Numbers below 1000 come back without a separator. |
| Thousands.SplitThousandsNegative | AddNatMusym.py:41-50 | A negative number gives `-` followed by the grouped absolute value: the sign never takes a separator. |
| Thousands.GroupedByRegex | GetNatMusym.py:41-50 | On a digit string, reversing, applying the three-digit regex and reversing back is grouping by three from the right. |
| Text.ParseIntToString | GetNatMusym.py:151-153 | `int` reads back what `str` writes for every integer. |
| Text.SplitJoin | AddNatMusym.py:211 | Joining with a separator and splitting at it again gives back the pieces when no piece contains the separator. |
| Keys.CollectUniqueKeys | AddNatMusym.py:86-92 | The key-collection loop returns each cursor value once, in first-occurrence order (`Dedup`). A NULL MUKEY is kept as `None` like any other value. |
| Keys.DedupOrder | AddNatMusym.py:89-91 | Of two kept keys, the one earlier in the result occurs first in the cursor. |
| Keys.DedupSorted | GetNatMusym.py:85-88 | A cursor sorted by MUKEY yields a strictly increasing key list. |
| Keys.ToSetNoDup | AddNatMusym.py:89-91 | A duplicate-free list has as many distinct keys as entries. |
| Fields.FindField | GetNatMusym.py:174-206 | Returns the name of the first field whose stripped, last comma-separated component of the parsed name equals `chkField` ignoring case. Returns `None` for `False`: no such field, or no dataset. |
| Fields.FindsQualifiedField | AddNatMusym.py:115-147 | A field listed as "db, owner, table, NAME" is found under any spelling of NAME that agrees ignoring case. |
| Fields.BaseNameQualified | AddNatMusym.py:131-134 | The base name of a qualified parsed name is its last component. |
| Layers.OverwriteContents | GetNatMusym.py:323-329 | `updateRow` on a cursor's columns makes them read back the written values and leaves every other field unchanged. |
| Service.InQueryKeys | AddNatMusym.py:211-215 | The IN list of the query holds exactly the batch's keys, in order, when no key contains a comma. |
| Service.Texts | AddNatMusym.py:211 | `",".join` of the keys succeeds exactly when no key is NULL, and then gives every key's text in order. |
| Service.TextsKnown | GetNatMusym.py:221 | Keys of which none is NULL join to their own texts. |
| AddNatMusym.GetMukeys | AddNatMusym.py:53-112 | Fails for an unknown data type, a missing MUKEY field, no features or no keys. Otherwise returns the distinct keys in cursor order, NULL kept as `None`, cut into batches of 30. |
| AddNatMusym.ParseMukeysIntoLists | AddNatMusym.py:150-193 | An empty key list is a failure. Otherwise the batches concatenate to the input, every batch but the last has 30 keys, and the last has 1 to 30. |
| AddNatMusym.BatchContents | AddNatMusym.py:163-178 | Batch k holds the keys at positions 30k onwards, in order. |
| AddNatMusym.BatchesDisjoint | AddNatMusym.py:163-178 | Distinct keys give pairwise disjoint batches. |
| AddNatMusym.FlattenMember | AddNatMusym.py:163-178 | A key is among the batches' keys exactly when some batch holds it. |
| AddNatMusym.NullMukeyBatched | AddNatMusym.py:86-92 | A NULL MUKEY on the cursor ends up in a batch, and a batch holds `None` only if the cursor had a NULL. |
| AddNatMusym.FlattenFull | AddNatMusym.py:163-178 | Batches that are all full hold 30 keys each, so together they hold 30 times as many keys as there are batches. |
| AddNatMusym.MissingKeysExact | AddNatMusym.py:258-259 | A key is reported missing exactly when it was requested and heads no data row. |
| AddNatMusym.MissingKeysCount | AddNatMusym.py:254-256 | When the service returns each requested key at most once and nothing else, the count in the warning is the number of missing keys. |
| AddNatMusym.MissingReport | AddNatMusym.py:251-260 | The missing-key set is reported only when the number of keys sent differs from the number of data rows. |
| AddNatMusym.EnsureNatmusym | AddNatMusym.py:263-264 | A field list that already has a field lower-casing to "natmusym" is kept. Otherwise one TEXT field of length 23, named after the upper-cased second column, is appended. |
| AddNatMusym.EnsureNatmusymIdempotent | AddNatMusym.py:263-264 | Ensuring the field a second time adds nothing. |
| AddNatMusym.ApplyRecordsByKey | AddNatMusym.py:272-281 | After the records are applied in order, a row holds the last returned value for its key, and rows with other keys (or NULL) are unchanged. |
| AddNatMusym.WriteBack | AddNatMusym.py:272-281 | The update loop leaves the layer rows equal to `UpdatedRows`. It fails at the first unreadable record and keeps the rows already written. |
| AddNatMusym.ProcessBatch | AddNatMusym.py:208-287 | One batch on the layer ends in the outcome and state `BatchSpec` gives for the service's answer to that batch's query. |
| AddNatMusym.GetNatmusym | AddNatMusym.py:196-296 | The whole run ends in the outcome and layer state of `RunBatches`: batches in order, the first failure ends it. A batch with a NULL key fails at its `",".join`, before its query is sent. |
| AddNatMusym.NullMukeyEndsRun | AddNatMusym.py:209-211 | The batch holding a NULL key ends the run with a failure. What the batches before it wrote is kept, and later batches are never sent. |
| AddNatMusym.IdealRun | AddNatMusym.py:196-288 | The batches have no NULL key and the service knows every key's symbol. Then the run succeeds with nothing missing and adds the NATMUSYM field at most once. Every row whose MUKEY was sent gets that key's symbol, and every other row is unchanged. |
| GetNatMusym.GetMukeys | GetNatMusym.py:53-105 | Fails for an unknown data type, a missing MUKEY field or no features. Otherwise returns the distinct keys of the sorted cursor, NULL kept as `None`. |
| GetNatMusym.SortedMukeys | GetNatMusym.py:85-91 | The returned keys are strictly increasing in the cursor's order. |
| GetNatMusym.BuildTypeMap | GetNatMusym.py:116-134 | The dictionary built entry by entry equals `DType`. |
| GetNatMusym.TypeMapEntries | GetNatMusym.py:116-134 | int→long; smallint and bit→short; varbinary→blob; nvarchar, varchar and char→text; datetime, datetime2 and smalldatetime→date; decimal, float and real→double; numeric→float (the later entry wins); no other type is known. |
| GetNatMusym.ParseColumnInfo | GetNatMusym.py:150-154 | A parsed column keeps the column's name. It is `None` where reading an item or looking up the type raises. |
| GetNatMusym.ParseColumnInfoText | GetNatMusym.py:150-154 | Column info in the service's layout reads back its size, precision and scale, and the mapped type of its provider type in any letter case. |
| GetNatMusym.ColumnInfoSplit | GetNatMusym.py:150 | The items of column-info text are exactly its comma-separated parts. |
| GetNatMusym.ColumnSpecs | GetNatMusym.py:149-159 | When every column's info reads, the in-memory table has one field per column name, in order. |
| GetNatMusym.ColumnSpecsNoneExtends | GetNatMusym.py:149-154 | Once one column's info cannot be read, no longer column list can be read. |
| GetNatMusym.JoinFields | GetNatMusym.py:143-157 | The join list is every column name except a case-insensitive "mukey", in order. |
| GetNatMusym.JoinDefsNames | GetNatMusym.py:156-163 | The fields copied to the layer are exactly those the join list names. |
| GetNatMusym.BuildQueryTable | GetNatMusym.py:143-159 | The field loop builds `ColumnSpecs` and, when it completes, the join list. |
| GetNatMusym.AddNewFields | GetNatMusym.py:108-171 | Returns `[]` and leaves the layer unchanged in two cases: a column's info cannot be read, or the join finds no mukey field (none in the response's columns, or none in the layer). Otherwise the layer gains the joined fields, NULL in every row, and the column names are returned, never empty. |
| GetNatMusym.JoinedMukeyColumn | GetNatMusym.py:163 | A join that finds a mukey column in the response means the MUKEY column search finds one too. |
| GetNatMusym.MukeyColumnNeverMissing | GetNatMusym.py:301-302 | No response ends in "MUKEY column not found": that exit cannot be reached after a successful join. |
| GetNatMusym.FindMukeyColumn | GetNatMusym.py:295-302 | Returns the first column whose upper-cased name is MUKEY, or -1 when there is none. |
| GetNatMusym.FirstIndexUnique | GetNatMusym.py:296-299 | The first match is the only position holding MUKEY with none before it. |
| GetNatMusym.MapunitInfoContents | GetNatMusym.py:309-312 | `dMapunitInfo` holds exactly the returned keys, each with the last row returned for it. |
| GetNatMusym.MapunitInfoKeyed | GetNatMusym.py:309-312 | Every stored row carries its own key in the MUKEY column. |
| GetNatMusym.BuildMapunitInfo | GetNatMusym.py:309-319 | A row too short for the MUKEY column fails with that row's position. Otherwise the result is `MapunitInfo`. |
| GetNatMusym.UnmatchedKeysExactly | GetNatMusym.py:325-333 | A key is listed exactly when some feature with that key is not matched. |
| GetNatMusym.UpdateFeatureAt | GetNatMusym.py:325-333 | One feature through the update cursor: a matched feature becomes `UpdateFeature` of it, every other feature is unchanged, and an unmatched feature's MUKEY is returned. |
| GetNatMusym.UpdateFeatures | GetNatMusym.py:323-333 | The update cursor leaves the rows equal to `UpdatedFeatures`. The rows' unmatched keys, deduplicated in cursor order, are reported in `noMatch`. |
| GetNatMusym.UpdateFeatureContents | GetNatMusym.py:326-329 | A matched feature reads back its map unit's row in every queried column and keeps every other field; an unmatched feature is unchanged. |
| GetNatMusym.AttributeRequest | GetNatMusym.py:209-355 | The request ends in the outcome and layer state `RequestSpec` gives. A NULL key fails at the join of the key list, before the query is sent, with the layer unchanged. Otherwise it is `ResponseSpec` for the service's answer to the IN query of all keys. The fields are joined only when the response and the layer both have a mukey field; otherwise the request fails with the layer unchanged. |
| GetNatMusym.RequestNullMukey | GetNatMusym.py:220-224 | A NULL key ends the request with nothing sent and the layer unchanged. Without one, the request is the response handling of the query that lists every key. |
| GetNatMusym.RequestSuccessShape | GetNatMusym.py:248-336 | A successful request had at least the two header rows and a MUKEY column. It leaves the rows updated from `dMapunitInfo` of the data rows. It reports the number of data rows, whether that differs from the number of keys sent, and the deduplicated unmatched keys. |
| GetNatMusym.RequestFillsFeature | GetNatMusym.py:309-329 | A feature whose MUKEY has a full-width returned row gets the values of the last such row. |
| GetNatMusym.RequestKeepsUnmatched | GetNatMusym.py:331-333 | A feature the request cannot match keeps every field it had. |
| GetNatMusym.RequestReportsUnmatched | GetNatMusym.py:331-336 | The reported MUKEY values are those of the unmatched features, each once. |
| RetryRequest.Classify | Test.py:92-112 | Each exception lands in its own handler. A URLError is reported by its reason when it has one, else by its code, else unexplained. A socket timeout is a server timeout, a socket error a connection failure, and a bad status line a bad status. Any other exception is unhandled. |
| RetryRequest.RequestData | Test.py:80-112 | At most three attempts, stopping at the first answer. Every earlier attempt raised. Success exactly when one of the three attempts answered, and otherwise the third error, classified. |
| RetryRequest.NatmusymDictKeys | Test.py:123-124 | The dictionary's keys are exactly the rows' first cells. |
| RetryRequest.NatmusymDictSize | Test.py:123-124 | The dictionary has at most one entry per row. |
| RetryRequest.NatmusymDictLast | Test.py:123-124 | Each key maps to the second and third cells of the last row with that key. |
| RetryRequest.BuildNatmusymDict | Test.py:123-124 | A row with fewer than three cells fails at its position. Otherwise the result is `NatmusymDict`. |
| RetryRequest.FetchNatmusym | Test.py:77-124 | The script body from the request on returns `FetchSpec`: the first answer among three attempts, then the dictionary of its rows. |
| RetryRequest.FirstAnswered | Test.py:80-90 | The first of the three attempts that answered, with all before it raised; `None` when all three raised. |
| RetryRequest.FetchOutcomes | Test.py:118-124 | A response without "Table" fails whichever attempt it answered. A full table gives one entry per distinct first cell. |
| AttributeIndex.AddAttributeIndex | indexTest.py:49-117 | A missing table returns `False` and changes nothing. An `AddIndex` that raises (no field of exactly the requested name) returns `False` with the indexes of the earlier fields added (`FirstRaise`). Otherwise the indexes become `EnsureIndexes` of the field list. The schema's other parts are unchanged. |
| AttributeIndex.FirstRaise | indexTest.py:68-117 | The first requested field whose `AddIndex` raises: some field's name ends in it and no index covers it, but no field has exactly its name. Every field before it goes through; `None` exactly when no field raises. |
| AttributeIndex.SuffixOnlyFieldRaises | indexTest.py:71-110 | Fields MUKEY and requested KEY: `ListFields` with "*KEY" finds MUKEY, so `AddIndex` on KEY is called and raises; the run fails at KEY. |
| AttributeIndex.EnsureIndexesOnlyAdds | indexTest.py:68-113 | The old indexes are a prefix of the new list: none is removed, renamed or reordered. |
| AttributeIndex.EnsureIndexesAdded | indexTest.py:105-110 | Every added index is `IDX_<field>`, ascending, on one requested field that some field's name ends in and that no index covered when its turn came. |
| AttributeIndex.CompletedRunIndexesOwnFields | indexTest.py:105-110 | When no `AddIndex` raises, every added index is on a field the table has under exactly the requested name, ignoring case. |
| AttributeIndex.EnsureIndexesCovers | indexTest.py:68-110 | After the loop, every requested field that some field's name ends in is covered by an index. |
| AttributeIndex.EnsureIndexesNothingToDo | indexTest.py:79-102 | When every requested field is covered or matched by no field name, nothing is added. |
| AttributeIndex.EnsureIndexesIdempotent | indexTest.py:55 | Running the function twice with the same fields adds nothing the second time. |
| AttributeIndex.SkipsMissingField | indexTest.py:71-73 | A requested field that no field's name ends in is skipped, and the later fields are handled as if it had not been requested. |
| AttributeIndex.AddsOneIndex | indexTest.py:105-110 | A field that some field's name ends in and no index covers gets exactly one new index, appended after the others. |
| AttributeIndex.NewIndexCovers | indexTest.py:105-110 | `IDX_<field>` ends in the field name in any letter case and lists the field, so it covers it. |
| CommonLines.PathParts | QA_CommonLines.py:178-183 | A lower-cased path split at the separator has no blank components, and no component contains the separator. |
| CommonLines.EntryStep | QA_CommonLines.py:172-206 | A variable not in the search list changes nothing. One whose first component differs from the scratch path's only applies the HOMEDRIVE test. A step that ends the search always sets the flag. |
| CommonLines.CheckVariable | QA_CommonLines.py:172-206 | One variable of the search: it raises without HOMEDRIVE, sets the flag when the scratch path is on the home drive, and ends the search on a shared component after a common drive. The result is `EntryStep` of the variable. |
| CommonLines.ScratchOverlap | QA_CommonLines.py:166-206 | The variable loop with its flag and `break` returns `Overlap` of the variables. |
| CommonLines.OverlapExactly | QA_CommonLines.py:172-206 | With HOMEDRIVE set the search never raises. Overlap is flagged exactly when some variable flags it: a shared component, position by position, after a common drive; or a considered variable while the scratch path is on the home drive. |
| CommonLines.LastMatch | QA_CommonLines.py:357-369 | The last field whose name equals the given one ignoring case, or `None` when none does. |
| CommonLines.ReadField1AsWritten | QA_CommonLines.py:357-362 | The first field loop as written: `fld1Name` is the last matching field's name, and `fldLength` is `AsWrittenLength` (zero unless the last field matches). |
| CommonLines.ReadField1 | QA_CommonLines.py:355-362 | The first field loop with the reset before it: `fld1Name` as above, and `fldLength` the compared field's length. |
| CommonLines.LengthResetLosesWidth | QA_CommonLines.py:357-362 | With fields MUSYM (6) and AREASYMBOL (20), comparing MUSYM gives width 0 as written and 6 as intended. |
| CommonLines.IntendedLengthIsFieldLength | QA_CommonLines.py:357-362 | With the corrected loop, the width is the compared field's length wherever that field sits in the list. |
| CommonLines.AddField2Length | QA_CommonLines.py:364-372 | No second field gives `fld2Name` "" and an unchanged width. Otherwise the length of every matching field is added, and `fld2Name` is the last match. |
| CommonLines.SideFieldNames | QA_CommonLines.py:389-391 | For a shapefile, `fld1Name` is at most 10 characters; the names are `L_`/`R_` plus its first 8 characters, at most 10 long, distinct, and share their tail. Otherwise the names carry the whole field name. |
| CommonLines.Prefix | QA_CommonLines.py:477-483 | Python's `s[0:n]`: the first min(n, len s) characters. |
| CommonLines.BuildAttributes | QA_CommonLines.py:459-461 | The search cursor loop builds `AttributeMap` of the selected polygons. |
| CommonLines.AttributeMapKeys | QA_CommonLines.py:459-461 | `dAtt` holds exactly the selected OIDs. |
| CommonLines.AttributeMapContents | QA_CommonLines.py:459-461 | Each OID holds the value of its last row. |
| CommonLines.FirstUnfillable | QA_CommonLines.py:492-496 | The first line with an interior side whose OID `dAtt` lacks; every line before it can be filled. |
| CommonLines.FillSides | QA_CommonLines.py:472-496 | Lines with both FIDs > -1 get their L and R values from `dAtt`. The cursor stops at the first unknown OID, with the lines before it filled and the rest unchanged. |
| CommonLines.CommonLineExactly | QA_CommonLines.py:504 | A filled interior line is a common line exactly when both its polygons carry the same non-NULL value. |
| CommonLines.CountCommonLines | QA_CommonLines.py:504-510 | The count of the common-line selection is `CountCommon` of the lines. |
| CommonLines.ProcessSurvey | QA_CommonLines.py:436-530 | One survey area ends in `SurveySpec`: no features, the common-line count of its filled lines, or the failed fill. |
| CommonLines.SurveyList | QA_CommonLines.py:374-376 | An empty AREASYMBOL list becomes `["*"]`, and any other list is kept. |
| CommonLines.CheckSurveys | QA_CommonLines.py:403-537 | The survey loop ends in `Counters` of the survey list. |
| CommonLines.CountersAgree | QA_CommonLines.py:512-534 | The total is the sum of the per-survey counts. `listOfasCLs` names the surveys with a count > 0 and `missList` those with no features, each in list order. |
| CommonLines.CountersStopped | QA_CommonLines.py:413-537 | Once one survey raises, the whole run raises. |

## Left out

- Geoprocessing calls are inputs or state:
  - `Describe`, `GetCount`, `ListFields`, `ParseFieldName`, `ListIndexes`, `AddIndex`, `CreateTable`, `JoinField`;
  - `MakeFeatureLayer`, `PolygonToLine`, `CopyFeatures`, `Append`, `Delete`;
  - the ArcGIS Pro project and map-layer management.
- The network and JSON: `urllib2.Request`/`urlopen`, `json.dumps` and `json.loads`. The parsed "Table" entry and each attempt's outcome are inputs.
- Messages, progress bars and tracebacks: `AddMsgAndPrint`, `PrintMsg`, `errorMsg`, `print_exception`, `SetProgressor*`. They have no effect on data.
- `os.environ` and `arcpy.env` are inputs: the variables' values and HOMEDRIVE are parameters of the overlap test. The rest of `setScratchWorkspace` is left out because it is file-system and workspace setup:
  - creating the temporary folder;
  - the SYSTEMDRIVE fallback;
  - the read/write test;
  - the `packageWorkspace` branch.
- AddNatMusym.py:204 reads `mukeyList` before the loop assigns it, an UnboundLocalError. The model runs the batches.
- AddNatMusym.py:242-287 is indented outside the batch loop. The model handles every batch's response inside the loop, as the function's comments describe.
- `PrintMsg` and `MyError` are never defined in GetNatMusym.py. The model treats them as a message and as the error they name.
- The script body at GetNatMusym.py:360-376 uses undefined names and is not part of this model. `AttributeRequest` takes its inputs as parameters.
- `ratingField` and `fieldList` (GetNatMusym.py:263-279) are computed but never used, so they are not modelled.
- `JoinField_management` is modelled as it renames nothing: a joined field that clashes with an existing field name is not given a `_1` suffix.
- GetNatMusym.UpdateFeatures: the text-typed row stands in for the cursor's type conversion, so a conversion error in `updateRow` is not modelled apart from a width mismatch.
- In Test.py the final count check (lines 130-135) uses the undefined names `valueList` and `dataList`, and its count `iNumOfValues` is always 0 (line 55); it is not part of this model. The warning at line 119 uses the undefined `field`; the model reports the missing table as an error.
- A Test.py request that fails three times goes on to read a response it never received. The model stops with the classified error.
- AttributeIndex.AddAttributeIndex: `AddIndex` is modelled as raising only when no field has the requested name. A lock, an invalid index name or an existing index named IDX_<field> are not modelled. The comparison of a list with 0 at indexTest.py:84 is always true and has no effect.
- QA_CommonLines.py:535 uses the undefined name `sp` right after the survey is added to `missList`. The model goes on to the next survey, as the loop intends.
- CommonLines.FillSides: the L_ and R_ fields' declared width does not truncate the stored values.
- The ordering of a `SearchCursor` without `ORDER BY` is taken to be the order of the row sequence.
- `str.upper` and `str.lower` cover ASCII letters only. The scripts' keys, field names and paths are ASCII.
- CommonLines.CheckSurveys: a second field named but not found (`fld2Name` undefined, a NameError at line 438) is not modelled. The selection for each AREASYMBOL is an input.

## Findings

| source | as written | input that shows it | evidently intended | confidence | as-written member | corrected member |
|---|---|---|---|---|---|---|
| QA_CommonLines.py:357-362 | `fldLength = 0` is inside the field loop, so the first field's width survives only when that field is the layer's last field | fields MUSYM (length 6) and AREASYMBOL (length 20), compared field MUSYM: the L_/R_ width is 0 | the reset runs once before the loop, so the width is the compared field's length (plus the second field's, lines 365-370) | not executed | CommonLines.ReadField1AsWritten, CommonLines.LengthResetLosesWidth | CommonLines.ReadField1, CommonLines.IntendedLengthIsFieldLength |
