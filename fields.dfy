/** `FindField`, identical in AddNatMusym.py and GetNatMusym.py: look for a
    field by its unqualified name, ignoring case, and return the name the
    dataset knows it by. */
module Fields {
  import opened Wrappers
  import opened Text

  /** A field of a dataset: its name and what `arcpy.ParseFieldName` makes
      of it (database, owner, table and field name joined by ", "). */
  datatype FieldDesc = FieldDesc(name: string, parsedName: string)

  /** The last comma-separated component of a parsed name, stripped. */
  function BaseName(parsedName: string): string {
    var parts := Split(parsedName, ',');
    Strip(parts[|parts| - 1])
  }

  /** What a field is compared by: its unqualified name, upper-cased. */
  function MatchKey(f: FieldDesc): string {
    Upper(BaseName(f.parsedName))
  }

  predicate NamesField(f: FieldDesc, chkField: string) {
    MatchKey(f) == Upper(chkField)
  }

  /** Position of the first entry equal to `target`. */
  function FirstIndex(names: seq<string>, target: string): (r: Option<nat>)
    ensures r.Some? ==> r.value < |names| && names[r.value] == target && target !in names[..r.value]
    ensures r.None? <==> target !in names
  {
    if names == [] then None
    else if names[0] == target then Some(0)
    else
      match FirstIndex(names[1..], target)
      case Some(k) => (assert names[..k + 1] == [names[0]] + names[1..][..k]; Some(k + 1))
      case None => None
  }

  /** The upper-cased unqualified name of every field, in field order. */
  function MatchKeys(fields: seq<FieldDesc>): (keys: seq<string>)
    ensures |keys| == |fields|
    ensures forall i :: 0 <= i < |fields| ==> keys[i] == MatchKey(fields[i])
  {
    seq(|fields|, i requires 0 <= i < |fields| => MatchKey(fields[i]))
  }

  /** `FindField(layer, chkField)`: `layer` is `None` when the dataset does
      not exist; the `False` return is `None`. */
  function FindField(layer: Option<seq<FieldDesc>>, chkField: string): (r: Option<string>)
    ensures r.Some? <==> layer.Some? && exists i :: 0 <= i < |layer.value| && NamesField(layer.value[i], chkField)
    ensures r.Some? ==>
      exists i :: 0 <= i < |layer.value| && r.value == layer.value[i].name
        && NamesField(layer.value[i], chkField)
        && forall j :: 0 <= j < i ==> !NamesField(layer.value[j], chkField)
  {
    match layer
    case None => None
    case Some(fields) =>
      var keys := MatchKeys(fields);
      var target := Upper(chkField);
      match FirstIndex(keys, target)
      case Some(k) =>
        assert NamesField(fields[k], chkField);
        assert forall j :: 0 <= j < k ==> keys[..k][j] == keys[j] && !NamesField(fields[j], chkField);
        Some(fields[k].name)
      case None =>
        assert forall j :: 0 <= j < |fields| ==> keys[j] in keys && !NamesField(fields[j], chkField);
        None
  }

  /** A qualified name "db, owner, table, NAME" has base name NAME. */
  lemma BaseNameQualified(prefix: string, name: string)
    requires ',' !in name
    requires name == [] || (!IsSpace(name[0]) && !IsSpace(name[|name| - 1]))
    ensures BaseName(prefix + ", " + name) == name
  {
    assert prefix + ", " + name == prefix + [','] + (" " + name);
    SplitAtSep(prefix, " " + name, ',');
    SplitNoSep(" " + name, ',');
    StripLeadingSpace(" ", name);
    StripTrimmed(name);
  }

  /** An unqualified name is its own base name. */
  lemma BaseNamePlain(name: string)
    requires ',' !in name
    requires name == [] || (!IsSpace(name[0]) && !IsSpace(name[|name| - 1]))
    ensures BaseName(name) == name
  {
    SplitNoSep(name, ',');
    StripTrimmed(name);
  }

  /** A field listed as "db, owner, table, NAME" is found under any
      spelling of NAME that agrees ignoring case ("mukey" finds
      "(null), (null), (null), MUKEY"). */
  lemma FindsQualifiedField(fields: seq<FieldDesc>, i: nat, prefix: string, name: string, chkField: string)
    requires i < |fields| && fields[i].parsedName == prefix + ", " + name
    requires ',' !in name
    requires name == [] || (!IsSpace(name[0]) && !IsSpace(name[|name| - 1]))
    requires Upper(name) == Upper(chkField)
    ensures FindField(Some(fields), chkField).Some?
  {
    BaseNameQualified(prefix, name);
    assert NamesField(fields[i], chkField);
  }
}
