/** QA_CommonLines.py: find common lines in a soil survey layer, the
    boundaries between two adjacent polygons that carry the same value of
    the compared attribute, survey area by survey area.

    The polygon selections, the polygon-to-line conversion and the layer
    outputs are geoprocessing calls; here a survey is given as its
    polygons (OID and attribute value) and the lines the conversion makes
    of them. The message for a survey without features (line 535) uses the
    undefined name `sp`, so as written the first such survey ends the run
    right after being added to `missList`; the model goes on to the next
    survey, as the loop evidently intends. */
module CommonLines {
  import opened Wrappers
  import opened Text

  // ---------------------------------------------------------------------------
  // setScratchWorkspace: does the scratch path overlap a system path?

  /** The environment variables whose paths the scratch workspace must not
      share (lines 162-165). */
  const VarsToSearch: seq<string> := ["HOMEDRIVE", "HOMEPATH", "HOMESHARE", "ONEDRIVE", "ARCHOME", "ARCHOME_USER",
    "ESRI_OS_DATADIR_LOCAL_DONOTUSE", "ESRI_OS_DIR_DONOTUSE", "ESRI_OS_DATADIR_MYDOCUMENTS_DONOTUSE",
    "ESRI_OS_DATADIR_ROAMING_DONOTUSE", "TEMP", "LOCALAPPDATA", "PROGRAMW6432", "COMMONPROGRAMFILES", "APPDATA",
    "USERPROFILE", "PUBLIC", "SYSTEMROOT", "PROGRAMFILES", "COMMONPROGRAMFILES(X86)", "ALLUSERSPROFILE"]

  /** The components that are not blank. */
  function NonBlank(parts: seq<string>): (r: seq<string>)
    ensures forall k :: 0 <= k < |r| ==> r[k] != [] && r[k] in parts
    decreases |parts|
  {
    if parts == [] then []
    else if parts[0] == [] then NonBlank(parts[1..])
    else [parts[0]] + NonBlank(parts[1..])
  }

  /** A path lower-cased and split at the separator, blanks dropped. */
  function PathParts(path: string, sep: char): (parts: seq<string>)
    ensures forall k :: 0 <= k < |parts| ==> parts[k] != [] && sep !in parts[k]
  {
    NonBlank(Split(Lower(path), sep))
  }

  /** `len([i for i, j in zip(a, b) if i == j]) > 0` */
  predicate SharesPosition(a: seq<string>, b: seq<string>) {
    exists k :: 0 <= k < |a| && k < |b| && a[k] == b[k]
  }

  /** What one environment variable does to the flag: raise (the
      `HOMEDRIVE` lookup fails when the variable is not set), or set it
      and possibly end the search. */
  datatype Step = Raises | Step(flags: bool, stops: bool)

  /** One pass of the loop of lines 172-206 for variable `name` with value
      `value`. A variable whose first component differs from the scratch
      path's moves on after the HOMEDRIVE test. */
  function EntryStep(name: string, value: string, scratchWK: string, homeDrive: Option<string>, sep: char): (st: Step)
    ensures st.Step? && st.stops ==> st.flags
    ensures name !in VarsToSearch ==> st == Step(false, false)
    ensures (name in VarsToSearch && homeDrive.Some? && |PathParts(value, sep)| > 0 && |PathParts(scratchWK, sep)| > 0
             && PathParts(value, sep)[0] != PathParts(scratchWK, sep)[0]) ==>
      st == Step(PathParts(scratchWK, sep)[0] == Lower(homeDrive.value), false)
  {
    if name !in VarsToSearch then Step(false, false)
    else
      var varValueList, scratchWSList := PathParts(value, sep), PathParts(scratchWK, sep);
      if |varValueList| > 0 && |scratchWSList| > 0 then
        if homeDrive.None? then Raises
        else
          var onHomeDrive := scratchWSList[0] == Lower(homeDrive.value);
          if varValueList[0] == scratchWSList[0] then
            var common := SharesPosition(varValueList[1..], scratchWSList[1..]);
            Step(onHomeDrive || common, common)
          else
            Step(onHomeDrive, false)
      else
        Step(false, false)
  }

  /** The flag after the variables `env` (name and value, in the order the
      environment lists them), starting from `flag`; `None` when the loop
      raises. */
  function Overlap(env: seq<(string, string)>, scratchWK: string, homeDrive: Option<string>, sep: char, flag: bool): Option<bool>
    decreases |env|
  {
    if env == [] then Some(flag)
    else
      match EntryStep(env[0].0, env[0].1, scratchWK, homeDrive, sep)
      case Raises => None
      case Step(flags, stops) =>
        if stops then Some(true) else Overlap(env[1..], scratchWK, homeDrive, sep, flag || flags)
  }

  /** The body of the loop of lines 172-206 for one variable: whether it
      raises, sets `bSetTempWorkSpace`, or ends the search. */
  method CheckVariable(name: string, value: string, scratchWK: string, homeDrive: Option<string>, sep: char)
    returns (st: Step)
    ensures st == EntryStep(name, value, scratchWK, homeDrive, sep)
  {
    if name !in VarsToSearch {
      return Step(false, false);
    }
    var bSetTempWorkSpace := false;
    var varValueList := PathParts(value, sep);
    var scratchWSList := PathParts(scratchWK, sep);
    if |varValueList| > 0 && |scratchWSList| > 0 {
      if homeDrive.None? {
        return Raises;
      }
      if scratchWSList[0] == Lower(homeDrive.value) {
        bSetTempWorkSpace := true;
      }
      if varValueList[0] == scratchWSList[0] {
        varValueList := varValueList[1..];
        scratchWSList := scratchWSList[1..];
      } else {
        return Step(bSetTempWorkSpace, false);
      }
    }
    if SharesPosition(varValueList, scratchWSList) {
      return Step(true, true);
    }
    return Step(bSetTempWorkSpace, false);
  }

  /** One variable of the search, given what it does. */
  lemma OverlapStep(env: seq<(string, string)>, scratchWK: string, homeDrive: Option<string>, sep: char, flag: bool, st: Step)
    requires env != [] && st == EntryStep(env[0].0, env[0].1, scratchWK, homeDrive, sep)
    ensures Overlap(env, scratchWK, homeDrive, sep, flag) ==
      if st.Raises? then None
      else if st.stops then Some(true)
      else Overlap(env[1..], scratchWK, homeDrive, sep, flag || st.flags)
  {
  }

  /** The overlap test of `setScratchWorkspace`: `bSetTempWorkSpace`, or
      `None` where the function's `except` takes over. */
  method ScratchOverlap(env: seq<(string, string)>, scratchWK: string, homeDrive: Option<string>, sep: char)
    returns (r: Option<bool>)
    ensures r == Overlap(env, scratchWK, homeDrive, sep, false)
  {
    var bSetTempWorkSpace := false;
    var n := 0;
    while n < |env|
      invariant 0 <= n <= |env|
      invariant Overlap(env, scratchWK, homeDrive, sep, false) == Overlap(env[n..], scratchWK, homeDrive, sep, bSetTempWorkSpace)
    {
      var (name, value) := env[n];
      var st := CheckVariable(name, value, scratchWK, homeDrive, sep);
      OverlapStep(env[n..], scratchWK, homeDrive, sep, bSetTempWorkSpace, st);
      assert env[n..][1..] == env[n + 1..];
      if st.Raises? {
        return None;
      }
      if st.flags {
        bSetTempWorkSpace := true;
      }
      if st.stops {
        return Some(true);
      }
      n := n + 1;
    }
    return Some(bSetTempWorkSpace);
  }

  /** A variable that sets the flag. */
  predicate Flags(entry: (string, string), scratchWK: string, homeDrive: Option<string>, sep: char) {
    EntryStep(entry.0, entry.1, scratchWK, homeDrive, sep) == Step(true, false)
    || EntryStep(entry.0, entry.1, scratchWK, homeDrive, sep) == Step(true, true)
  }

  /** With HOMEDRIVE set, the search never raises, and the scratch path
      overlaps exactly when some variable flags it: one that shares a
      component position by position after a common drive, or any
      considered variable while the scratch path is on the home drive. */
  lemma {:induction false} OverlapExactly(env: seq<(string, string)>, scratchWK: string, homeDrive: Option<string>, sep: char, flag: bool)
    requires homeDrive.Some?
    ensures Overlap(env, scratchWK, homeDrive, sep, flag)
      == Some(flag || exists i :: 0 <= i < |env| && Flags(env[i], scratchWK, homeDrive, sep))
    decreases |env|
  {
    if env != [] {
      var st := EntryStep(env[0].0, env[0].1, scratchWK, homeDrive, sep);
      OverlapExactly(env[1..], scratchWK, homeDrive, sep, flag || st.flags);
      assert forall i :: 0 < i < |env| ==> env[i] == env[1..][i - 1];
      assert forall i :: 0 <= i < |env| - 1 ==> env[1..][i] == env[i + 1];
    }
  }

  // ---------------------------------------------------------------------------
  // The width of the L_ and R_ fields (lines 355-372)

  datatype FieldInfo = FieldInfo(name: string, length: int)

  predicate NameMatches(f: FieldInfo, name: string) {
    Upper(f.name) == Upper(name)
  }

  /** The last field whose name equals `name` ignoring case. */
  function LastMatch(fields: seq<FieldInfo>, name: string): (r: Option<nat>)
    ensures r.Some? ==>
      r.value < |fields| && NameMatches(fields[r.value], name) && forall k :: r.value < k < |fields| ==> !NameMatches(fields[k], name)
    ensures r.None? ==> forall k :: 0 <= k < |fields| ==> !NameMatches(fields[k], name)
    decreases |fields|
  {
    if fields == [] then None
    else if NameMatches(fields[|fields| - 1], name) then Some(|fields| - 1)
    else LastMatch(fields[..|fields| - 1], name)
  }

  /** `fldLength` after the first loop as written: it is reset for every
      field, so only a match in the last field survives. */
  function AsWrittenLength(chkFields: seq<FieldInfo>, inField1: string): int {
    if chkFields != [] && NameMatches(chkFields[|chkFields| - 1], inField1) then chkFields[|chkFields| - 1].length
    else 0
  }

  /** `fldLength` with the reset made once, before the loop: the length of
      the compared field. */
  function IntendedLength(chkFields: seq<FieldInfo>, inField1: string): (n: int)
    ensures LastMatch(chkFields, inField1).None? ==> n == 0
  {
    match LastMatch(chkFields, inField1)
    case Some(k) => chkFields[k].length
    case None => 0
  }

  /** The first field loop as written (lines 357-362); `fld1Name` is `None`
      when no field matches. */
  method ReadField1AsWritten(chkFields: seq<FieldInfo>, inField1: string) returns (fld1Name: Option<string>, fldLength: int)
    ensures fld1Name == match LastMatch(chkFields, inField1) case Some(k) => Some(chkFields[k].name) case None => None
    ensures fldLength == AsWrittenLength(chkFields, inField1)
  {
    fld1Name := None;
    fldLength := 0;
    for k := 0 to |chkFields|
      invariant fld1Name == match LastMatch(chkFields[..k], inField1) case Some(m) => Some(chkFields[m].name) case None => None
      invariant fldLength == AsWrittenLength(chkFields[..k], inField1)
    {
      assert chkFields[..k + 1][..k] == chkFields[..k];
      fldLength := 0;
      if Upper(chkFields[k].name) == Upper(inField1) {
        fld1Name := Some(chkFields[k].name);
        fldLength := chkFields[k].length;
      }
    }
    assert chkFields[..|chkFields|] == chkFields;
  }

  /** The first field loop with `fldLength` reset once before it. */
  method ReadField1(chkFields: seq<FieldInfo>, inField1: string) returns (fld1Name: Option<string>, fldLength: int)
    ensures fld1Name == match LastMatch(chkFields, inField1) case Some(k) => Some(chkFields[k].name) case None => None
    ensures fldLength == IntendedLength(chkFields, inField1)
  {
    fld1Name := None;
    fldLength := 0;
    for k := 0 to |chkFields|
      invariant fld1Name == match LastMatch(chkFields[..k], inField1) case Some(m) => Some(chkFields[m].name) case None => None
      invariant fldLength == IntendedLength(chkFields[..k], inField1)
    {
      assert chkFields[..k + 1][..k] == chkFields[..k];
      if Upper(chkFields[k].name) == Upper(inField1) {
        fld1Name := Some(chkFields[k].name);
        fldLength := chkFields[k].length;
      }
    }
    assert chkFields[..|chkFields|] == chkFields;
  }

  /** With fields MUSYM (length 6) and AREASYMBOL (length 20), comparing
      MUSYM gives the L_ and R_ fields width 0 as written, not 6. */
  lemma LengthResetLosesWidth()
    ensures AsWrittenLength([FieldInfo("MUSYM", 6), FieldInfo("AREASYMBOL", 20)], "MUSYM") == 0
    ensures IntendedLength([FieldInfo("MUSYM", 6), FieldInfo("AREASYMBOL", 20)], "MUSYM") == 6
  {
    var fields := [FieldInfo("MUSYM", 6), FieldInfo("AREASYMBOL", 20)];
    assert Upper("AREASYMBOL")[0] == 'A';
    assert Upper("MUSYM")[0] == 'M';
    assert !NameMatches(fields[1], "MUSYM");
    assert fields[..1] == [FieldInfo("MUSYM", 6)];
    assert LastMatch(fields[..1], "MUSYM") == Some(0);
  }

  /** The corrected width is the length of the compared field whenever the
      layer has it, wherever it sits in the field list. */
  lemma IntendedLengthIsFieldLength(chkFields: seq<FieldInfo>, inField1: string, k: nat)
    requires k < |chkFields| && NameMatches(chkFields[k], inField1)
    requires forall j :: 0 <= j < |chkFields| && j != k ==> !NameMatches(chkFields[j], inField1)
    ensures IntendedLength(chkFields, inField1) == chkFields[k].length
  {
    var m := LastMatch(chkFields, inField1);
    assert m.Some?;
  }

  /** The total length of the fields named `name` ignoring case. */
  function MatchingLength(fields: seq<FieldInfo>, name: string): int
    decreases |fields|
  {
    if fields == [] then 0
    else
      var n := |fields| - 1;
      MatchingLength(fields[..n], name) + (if NameMatches(fields[n], name) then fields[n].length else 0)
  }

  /** The second field loop (lines 365-372): the optional second field's
      length is added to the width; `fld2Name` is "" when there is no second
      field and `None` when it is named but not found. */
  method AddField2Length(chkFields: seq<FieldInfo>, inField2: string, fldLength: int)
    returns (fld2Name: Option<string>, width: int)
    ensures inField2 == "" ==> fld2Name == Some("") && width == fldLength
    ensures inField2 != "" ==>
      width == fldLength + MatchingLength(chkFields, inField2) && fld2Name == match LastMatch(chkFields, inField2) case Some(k) => Some(chkFields[k].name) case None => None
  {
    width := fldLength;
    if inField2 == "" {
      return Some(""), width;
    }
    fld2Name := None;
    for k := 0 to |chkFields|
      invariant width == fldLength + MatchingLength(chkFields[..k], inField2)
      invariant fld2Name == match LastMatch(chkFields[..k], inField2) case Some(m) => Some(chkFields[m].name) case None => None
    {
      assert chkFields[..k + 1][..k] == chkFields[..k];
      if Upper(chkFields[k].name) == Upper(inField2) {
        fld2Name := Some(chkFields[k].name);
        width := width + chkFields[k].length;
      }
    }
    assert chkFields[..|chkFields|] == chkFields;
  }

  // ---------------------------------------------------------------------------
  // Shapefile field names (lines 389-391, 477-483)

  /** Python's `s[0:n]`. */
  function Prefix(s: string, n: nat): (p: string)
    ensures |p| <= n && |p| <= |s| && p == s[..|p|]
    ensures |s| <= n ==> p == s
  {
    if |s| <= n then s else s[..n]
  }

  /** `inputFC.endswith(".shp")` */
  predicate IsShapefile(inputFC: string) {
    EndsWith(inputFC, ".shp")
  }

  /** `fld1Name` as the output uses it: cut to 10 characters for a
      shapefile. */
  function OutputField1(fld1Name: string, inputFC: string): string {
    if IsShapefile(inputFC) then Prefix(fld1Name, 10) else fld1Name
  }

  /** The names of the left and right attribute fields. */
  function SideFields(fld1Name: string, inputFC: string): (string, string) {
    if IsShapefile(inputFC) then ("L_" + Prefix(fld1Name, 8), "R_" + Prefix(fld1Name, 8))
    else ("L_" + fld1Name, "R_" + fld1Name)
  }

  /** For a shapefile the left and right field names fit the 10-character
      limit of a DBF column, differ from each other, and carry the first 8
      characters of the compared field; otherwise they carry its whole
      name. */
  lemma SideFieldNames(fld1Name: string, inputFC: string)
    ensures var (lFld, rFld) := SideFields(OutputField1(fld1Name, inputFC), inputFC);
      lFld[..2] == "L_" && rFld[..2] == "R_" && lFld != rFld && lFld[2..] == rFld[2..]
      && (IsShapefile(inputFC) ==>
            |lFld| <= 10 && |rFld| <= 10 && lFld[2..] == Prefix(fld1Name, 8) && |OutputField1(fld1Name, inputFC)| <= 10)
      && (!IsShapefile(inputFC) ==> lFld[2..] == fld1Name)
  {
    var (lFld, rFld) := SideFields(OutputField1(fld1Name, inputFC), inputFC);
    assert lFld[0] != rFld[0];
    if IsShapefile(inputFC) {
      var cut := Prefix(fld1Name, 10);
      assert Prefix(cut, 8) == Prefix(fld1Name, 8);
    }
  }

  // ---------------------------------------------------------------------------
  // One survey area: attributes, left/right fill, common lines

  /** A polygon of the selection: its OID and its value of the compared
      field (`None` for NULL). */
  datatype Feature = Feature(oid: int, value: Option<string>)

  /** A line of the polygon-to-line output with its neighbour OIDs (-1 on
      the outside) and its L_ and R_ values. */
  datatype Line = Line(leftFid: int, rightFid: int, left: Option<string>, right: Option<string>)

  /** A survey area as the selection and the conversion give it. */
  datatype Survey = Survey(features: seq<Feature>, lines: seq<Line>)

  /** `dAtt` after the search cursor of lines 459-461. */
  function AttributeMap(features: seq<Feature>): map<int, Option<string>>
    decreases |features|
  {
    if features == [] then map[]
    else
      var n := |features| - 1;
      AttributeMap(features[..n])[features[n].oid := features[n].value]
  }

  /** `dAtt` holds every selected OID with the value of its last row. */
  lemma {:induction false} AttributeMapContents(features: seq<Feature>, k: nat)
    requires k < |features| && forall j :: k < j < |features| ==> features[j].oid != features[k].oid
    ensures features[k].oid in AttributeMap(features)
    ensures AttributeMap(features)[features[k].oid] == features[k].value
    decreases |features|
  {
    var n := |features| - 1;
    if k < n {
      AttributeMapContents(features[..n], k);
    }
  }

  /** The OIDs in `dAtt` are exactly the selected ones. */
  lemma {:induction false} AttributeMapKeys(features: seq<Feature>)
    ensures AttributeMap(features).Keys == set j | 0 <= j < |features| :: features[j].oid
    decreases |features|
  {
    if features != [] {
      var n := |features| - 1;
      AttributeMapKeys(features[..n]);
      assert forall j :: 0 <= j < n ==> features[..n][j] == features[j];
      assert (set j | 0 <= j < |features| :: features[j].oid)
        == (set j | 0 <= j < n :: features[..n][j].oid) + {features[n].oid};
    }
  }

  method BuildAttributes(features: seq<Feature>) returns (dAtt: map<int, Option<string>>)
    ensures dAtt == AttributeMap(features)
  {
    dAtt := map[];
    for j := 0 to |features|
      invariant dAtt == AttributeMap(features[..j])
    {
      assert features[..j + 1][..j] == features[..j];
      dAtt := dAtt[features[j].oid := features[j].value];
    }
    assert features[..|features|] == features;
  }

  /** The cursor's where clause: both neighbours are polygons. */
  predicate Interior(line: Line) {
    line.leftFid > -1 && line.rightFid > -1
  }

  /** `dAtt[row[0]]` raises for an OID that is not in the dictionary. */
  predicate Fillable(line: Line, dAtt: map<int, Option<string>>) {
    !Interior(line) || (line.leftFid in dAtt && line.rightFid in dAtt)
  }

  /** One row of the update cursor of lines 492-496. */
  function FillLine(line: Line, dAtt: map<int, Option<string>>): Line
    requires Fillable(line, dAtt)
  {
    if Interior(line) then line.(left := dAtt[line.leftFid], right := dAtt[line.rightFid]) else line
  }

  /** The first line the cursor cannot fill; `|lines|` if none. */
  function FirstUnfillable(lines: seq<Line>, dAtt: map<int, Option<string>>): (n: nat)
    ensures n <= |lines| && forall j :: 0 <= j < n ==> Fillable(lines[j], dAtt)
    ensures n < |lines| ==> !Fillable(lines[n], dAtt)
    decreases |lines|
  {
    if lines == [] || !Fillable(lines[0], dAtt) then 0
    else
      var n := FirstUnfillable(lines[1..], dAtt);
      assert forall j :: 1 <= j < n + 1 ==> lines[j] == lines[1..][j - 1];
      n + 1
  }

  /** The lines after the cursor has filled the first `n`. */
  function Filled(lines: seq<Line>, dAtt: map<int, Option<string>>, n: nat): (r: seq<Line>)
    requires n <= |lines| && forall j :: 0 <= j < n ==> Fillable(lines[j], dAtt)
    ensures |r| == |lines|
  {
    seq(|lines|, j requires 0 <= j < |lines| => if j < n then FillLine(lines[j], dAtt) else lines[j])
  }

  /** The in-memory line feature class the conversion creates. */
  class LineClass {
    var lines: seq<Line>

    constructor (lines: seq<Line>)
      ensures this.lines == lines
    {
      this.lines := lines;
    }
  }

  /** The update cursor: it stops at the first interior line with an OID
      `dAtt` lacks, leaving the lines before it filled. */
  method FillSides(comFC: LineClass, dAtt: map<int, Option<string>>) returns (ok: bool)
    modifies comFC
    ensures var n := FirstUnfillable(old(comFC.lines), dAtt);
      ok == (n == |old(comFC.lines)|) && comFC.lines == Filled(old(comFC.lines), dAtt, n)
  {
    ghost var lines0 := comFC.lines;
    ghost var n := FirstUnfillable(lines0, dAtt);
    for j := 0 to |comFC.lines|
      invariant |comFC.lines| == |lines0| && j <= n
      invariant forall k :: 0 <= k < j ==> comFC.lines[k] == FillLine(lines0[k], dAtt)
      invariant forall k :: j <= k < |lines0| ==> comFC.lines[k] == lines0[k]
    {
      var row := comFC.lines[j];
      if Interior(row) {
        if row.leftFid !in dAtt || row.rightFid !in dAtt {
          return false;
        }
        comFC.lines := comFC.lines[j := row.(left := dAtt[row.leftFid], right := dAtt[row.rightFid])];
      }
    }
    return true;
  }

  /** The selection of line 504: interior lines whose L_ and R_ values are
      equal; a NULL equals nothing in the where clause. */
  predicate IsCommonLine(line: Line) {
    Interior(line) && line.left.Some? && line.left == line.right
  }

  /** A filled interior line is a common line exactly when its two
      polygons carry the same non-NULL value. */
  lemma CommonLineExactly(line: Line, dAtt: map<int, Option<string>>)
    requires Fillable(line, dAtt)
    ensures IsCommonLine(FillLine(line, dAtt)) <==>
      Interior(line) && dAtt[line.leftFid].Some? && dAtt[line.leftFid] == dAtt[line.rightFid]
  {
  }

  /** `GetCount` of the common-line selection. */
  function CountCommon(lines: seq<Line>): (c: nat)
    ensures c <= |lines|
    decreases |lines|
  {
    if lines == [] then 0
    else CountCommon(lines[..|lines| - 1]) + (if IsCommonLine(lines[|lines| - 1]) then 1 else 0)
  }

  method CountCommonLines(comFC: LineClass) returns (asCommonLines: nat)
    ensures asCommonLines == CountCommon(comFC.lines)
  {
    asCommonLines := 0;
    for j := 0 to |comFC.lines|
      invariant asCommonLines == CountCommon(comFC.lines[..j])
    {
      assert comFC.lines[..j + 1][..j] == comFC.lines[..j];
      if IsCommonLine(comFC.lines[j]) {
        asCommonLines := asCommonLines + 1;
      }
    }
    assert comFC.lines[..|comFC.lines|] == comFC.lines;
  }

  /** What one survey area comes to. */
  datatype SurveyResult = NoFeatures | Counted(count: nat) | FillFailed

  function SurveySpec(s: Survey): SurveyResult {
    if |s.features| == 0 then NoFeatures
    else
      var dAtt := AttributeMap(s.features);
      var n := FirstUnfillable(s.lines, dAtt);
      if n < |s.lines| then FillFailed else Counted(CountCommon(Filled(s.lines, dAtt, n)))
  }

  /** The body of the survey loop for one area with features (lines
      445-530). */
  method ProcessSurvey(s: Survey) returns (r: SurveyResult)
    ensures r == SurveySpec(s)
  {
    if |s.features| == 0 {
      return NoFeatures;
    }
    var dAtt := BuildAttributes(s.features);
    var comFC := new LineClass(s.lines);
    var ok := FillSides(comFC, dAtt);
    if !ok {
      return FillFailed;
    }
    var asCommonLines := CountCommonLines(comFC);
    return Counted(asCommonLines);
  }

  // ---------------------------------------------------------------------------
  // The survey loop and its counters

  /** An empty AREASYMBOL list means one pass over the whole layer. */
  function SurveyList(asList: seq<string>): (surveys: seq<string>)
    ensures |surveys| >= 1
    ensures asList != [] ==> surveys == asList
    ensures asList == [] ==> surveys == ["*"]
  {
    if |asList| == 0 then ["*"] else asList
  }

  /** The name a survey is reported under: the layer's base name for the
      whole-layer pass. */
  function Label(areaSymbol: string, baseName: string): string {
    if areaSymbol == "*" then baseName else areaSymbol
  }

  datatype Tally = Tally(total: nat, listOfasCLs: seq<string>, missList: seq<string>)

  /** The counters after the surveys `asList`; `surveyData(AS)` is the
      selection for AREASYMBOL `AS` ("*" for the whole layer). */
  function Counters(asList: seq<string>, baseName: string, surveyData: string -> Survey): Option<Tally>
    decreases |asList|
  {
    if asList == [] then Some(Tally(0, [], []))
    else
      var n := |asList| - 1;
      var reported := Label(asList[n], baseName);
      match Counters(asList[..n], baseName, surveyData)
      case None => None
      case Some(t) =>
        match SurveySpec(surveyData(asList[n]))
        case FillFailed => None
        case NoFeatures => Some(t.(missList := t.missList + [reported]))
        case Counted(c) =>
          if c > 0 then Some(Tally(t.total + c, t.listOfasCLs + [reported], t.missList)) else Some(t)
  }

  /** The main loop of lines 413-537; `None` where it raises. */
  method CheckSurveys(asList: seq<string>, baseName: string, surveyData: string -> Survey) returns (r: Option<Tally>)
    ensures r == Counters(SurveyList(asList), baseName, surveyData)
  {
    var surveys := SurveyList(asList);
    var totalCommonLines := 0;
    var missList: seq<string> := [];
    var listOfasCLs: seq<string> := [];
    for i := 0 to |surveys|
      invariant Counters(surveys[..i], baseName, surveyData) == Some(Tally(totalCommonLines, listOfasCLs, missList))
    {
      assert surveys[..i + 1][..i] == surveys[..i];
      var areaSymbol := surveys[i];
      var reported := Label(areaSymbol, baseName);
      var result := ProcessSurvey(surveyData(areaSymbol));
      match result {
        case FillFailed =>
          CountersStopped(surveys, baseName, surveyData, i + 1);
          return None;
        case NoFeatures =>
          missList := missList + [reported];
        case Counted(asCommonLines) =>
          if asCommonLines > 0 {
            totalCommonLines := totalCommonLines + asCommonLines;
            listOfasCLs := listOfasCLs + [reported];
          }
      }
    }
    assert surveys[..|surveys|] == surveys;
    return Some(Tally(totalCommonLines, listOfasCLs, missList));
  }

  /** Once a survey raises, the run raises whatever follows. */
  lemma {:induction false} CountersStopped(asList: seq<string>, baseName: string, surveyData: string -> Survey, k: nat)
    requires k <= |asList| && Counters(asList[..k], baseName, surveyData).None?
    ensures Counters(asList, baseName, surveyData).None?
    decreases |asList| - k
  {
    if k < |asList| {
      assert asList[..k + 1][..k] == asList[..k];
      CountersStopped(asList, baseName, surveyData, k + 1);
    } else {
      assert asList[..k] == asList;
    }
  }

  /** The common lines a survey contributes. */
  function SurveyCount(s: Survey): nat {
    match SurveySpec(s)
    case Counted(c) => c
    case _ => 0
  }

  /** The sum of the per-survey counts. */
  function SumCounts(asList: seq<string>, surveyData: string -> Survey): nat
    decreases |asList|
  {
    if asList == [] then 0
    else SumCounts(asList[..|asList| - 1], surveyData) + SurveyCount(surveyData(asList[|asList| - 1]))
  }

  /** The labels of the surveys that satisfy `p`, in order. */
  function LabelsWhere(asList: seq<string>, baseName: string, surveyData: string -> Survey, p: SurveyResult -> bool): seq<string>
    decreases |asList|
  {
    if asList == [] then []
    else
      var n := |asList| - 1;
      LabelsWhere(asList[..n], baseName, surveyData, p)
        + (if p(SurveySpec(surveyData(asList[n]))) then [Label(asList[n], baseName)] else [])
  }

  /** When the loop completes, the total is the sum of the per-survey
      counts, `listOfasCLs` names the surveys with at least one common line
      and `missList` those without features, each in list order; together
      they name no more surveys than were processed. */
  lemma {:induction false} CountersAgree(asList: seq<string>, baseName: string, surveyData: string -> Survey)
    requires Counters(asList, baseName, surveyData).Some?
    ensures var t := Counters(asList, baseName, surveyData).value;
      t.total == SumCounts(asList, surveyData)
      && t.listOfasCLs == LabelsWhere(asList, baseName, surveyData, (r: SurveyResult) => r.Counted? && r.count > 0)
      && t.missList == LabelsWhere(asList, baseName, surveyData, (r: SurveyResult) => r.NoFeatures?)
      && |t.listOfasCLs| + |t.missList| <= |asList|
    decreases |asList|
  {
    if asList != [] {
      var n := |asList| - 1;
      CountersAgree(asList[..n], baseName, surveyData);
    }
  }
}
