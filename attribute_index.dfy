/** indexTest.py: `addAttributeIndex` gives each requested field an
    ascending attribute index named IDX_<field>, unless the table has no
    field whose name ends in that field name or an index whose name ends in
    it already covers a field of exactly that name.

    The wildcard `"*" + name` of `ListFields` and `ListIndexes` matches
    names that end in `name`, ignoring case; the comparison of an index's
    field with the requested field is exact. `AddIndex` itself needs a
    field of the requested name (ignoring case): when only a longer name
    ends in it, the call raises and the function returns False, keeping
    the indexes added for the earlier fields. */
module AttributeIndex {
  import opened Wrappers
  import opened Text

  /** An attribute index: its name, the names of its fields, its order. */
  datatype Index = Index(name: string, fields: seq<string>, ascending: bool)

  /** The part of a table's schema the function reads and changes. */
  class TableSchema {
    var present: bool
    var fields: seq<string>
    var indexes: seq<Index>

    constructor (present: bool, fields: seq<string>, indexes: seq<Index>)
      ensures this.present == present && this.fields == fields && this.indexes == indexes
    {
      this.present := present;
      this.fields := fields;
      this.indexes := indexes;
    }
  }

  /** The wildcard `"*" + pattern`. */
  predicate MatchesSuffix(name: string, pattern: string) {
    EndsWith(Upper(name), Upper(pattern))
  }

  /** `ListFields(table, "*" + field)` is not empty. */
  predicate HasMatchingField(fields: seq<string>, field: string) {
    exists i :: 0 <= i < |fields| && MatchesSuffix(fields[i], field)
  }

  /** A field `AddIndex_management` finds: its name is `field`, ignoring
      case. */
  predicate HasField(fields: seq<string>, field: string) {
    exists i :: 0 <= i < |fields| && Upper(fields[i]) == Upper(field)
  }

  /** Some index listed by `ListIndexes(table, "*" + field)` has a field
      named exactly `field`. */
  predicate Covered(indexes: seq<Index>, field: string) {
    exists m :: 0 <= m < |indexes| && MatchesSuffix(indexes[m].name, field) && field in indexes[m].fields
  }

  function NewIndex(field: string): Index {
    Index("IDX_" + field, [field], true)
  }

  /** The body of the field loop for one requested field. */
  function EnsureOne(fields: seq<string>, indexes: seq<Index>, field: string): seq<Index> {
    if HasMatchingField(fields, field) && !Covered(indexes, field) then indexes + [NewIndex(field)]
    else indexes
  }

  /** The indexes after the loop over `fieldList`; a field handled later
      sees the indexes added for earlier ones. */
  function EnsureIndexes(fields: seq<string>, indexes: seq<Index>, fieldList: seq<string>): seq<Index>
    decreases |fieldList|
  {
    if fieldList == [] then indexes
    else
      var n := |fieldList| - 1;
      EnsureOne(fields, EnsureIndexes(fields, indexes, fieldList[..n]), fieldList[n])
  }

  /** `AddIndex_management` raises for the `k`-th requested field: the loop
      reaches the call (a field's name ends in it and no index covers it)
      but no field has exactly that name. */
  predicate Raises(fields: seq<string>, indexes: seq<Index>, fieldList: seq<string>, k: nat)
    requires k < |fieldList|
  {
    && HasMatchingField(fields, fieldList[k])
    && !Covered(EnsureIndexes(fields, indexes, fieldList[..k]), fieldList[k])
    && !HasField(fields, fieldList[k])
  }

  /** Whether field `j` raises depends only on the fields up to `j`. */
  lemma RaisesPrefix(fields: seq<string>, indexes: seq<Index>, fieldList: seq<string>, p: nat, j: nat)
    requires j < p <= |fieldList|
    ensures Raises(fields, indexes, fieldList[..p], j) == Raises(fields, indexes, fieldList, j)
  {
    assert fieldList[..p][..j] == fieldList[..j];
  }

  /** The requested field whose `AddIndex` raises first, if any. */
  function FirstRaise(fields: seq<string>, indexes: seq<Index>, fieldList: seq<string>): (r: Option<nat>)
    ensures r.Some? ==> r.value < |fieldList| && Raises(fields, indexes, fieldList, r.value)
    ensures r.Some? ==> forall j :: 0 <= j < r.value ==> !Raises(fields, indexes, fieldList, j)
    ensures r.None? <==> forall j :: 0 <= j < |fieldList| ==> !Raises(fields, indexes, fieldList, j)
    decreases |fieldList|
  {
    if fieldList == [] then None
    else
      var n := |fieldList| - 1;
      var front := FirstRaise(fields, indexes, fieldList[..n]);
      assert forall j :: 0 <= j < n ==> Raises(fields, indexes, fieldList[..n], j) == Raises(fields, indexes, fieldList, j) by {
        forall j | 0 <= j < n
          ensures Raises(fields, indexes, fieldList[..n], j) == Raises(fields, indexes, fieldList, j)
        {
          RaisesPrefix(fields, indexes, fieldList, n, j);
        }
      }
      if front.Some? then front
      else if Raises(fields, indexes, fieldList, n) then Some(n)
      else None
  }

  /** `addAttributeIndex(table, fieldList)`: `Some(false)` for the `False`
      returned when the table does not exist or an `AddIndex` raises,
      `None` for the implicit `None` otherwise. A raising `AddIndex` ends
      the loop with the indexes of the fields before it added. */
  method AddAttributeIndex(table: TableSchema, fieldList: seq<string>) returns (r: Option<bool>)
    modifies table
    ensures table.present == old(table.present) && table.fields == old(table.fields)
    ensures !old(table.present) ==> r == Some(false) && table.indexes == old(table.indexes)
    ensures old(table.present) ==>
      match FirstRaise(old(table.fields), old(table.indexes), fieldList)
      case Some(k) => r == Some(false) && table.indexes == EnsureIndexes(old(table.fields), old(table.indexes), fieldList[..k])
      case None => r == None && table.indexes == EnsureIndexes(old(table.fields), old(table.indexes), fieldList)
  {
    if !table.present {
      return Some(false);
    }
    for k := 0 to |fieldList|
      invariant table.present == old(table.present) && table.fields == old(table.fields)
      invariant table.indexes == EnsureIndexes(table.fields, old(table.indexes), fieldList[..k])
      invariant forall j :: 0 <= j < k ==> !Raises(table.fields, old(table.indexes), fieldList, j)
    {
      assert fieldList[..k + 1][..k] == fieldList[..k];
      var fieldToIndex := fieldList[k];
      if !HasMatchingField(table.fields, fieldToIndex) {
        continue;
      }
      var bFieldIndexExists := false;
      var m := 0;
      while m < |table.indexes| && !bFieldIndexExists
        invariant 0 <= m <= |table.indexes|
        invariant bFieldIndexExists ==> Covered(table.indexes, fieldToIndex)
        invariant !bFieldIndexExists ==>
          forall m' :: 0 <= m' < m && MatchesSuffix(table.indexes[m'].name, fieldToIndex) ==>
            fieldToIndex !in table.indexes[m'].fields
      {
        var index := table.indexes[m];
        if MatchesSuffix(index.name, fieldToIndex) {
          var associatedFlds := index.fields;
          for f := 0 to |associatedFlds|
            invariant bFieldIndexExists <==> fieldToIndex in associatedFlds[..f]
          {
            assert associatedFlds[..f + 1] == associatedFlds[..f] + [associatedFlds[f]];
            if associatedFlds[f] == fieldToIndex {
              bFieldIndexExists := true;
            }
          }
          assert associatedFlds[..|associatedFlds|] == associatedFlds;
        }
        m := m + 1;
      }
      if !bFieldIndexExists {
        if !HasField(table.fields, fieldToIndex) {
          // AddIndex_management raises; the except returns False
          assert Raises(table.fields, old(table.indexes), fieldList, k);
          return Some(false);
        }
        table.indexes := table.indexes + [NewIndex(fieldToIndex)];
      }
    }
    assert fieldList[..|fieldList|] == fieldList;
    return None;
  }

  // ---------------------------------------------------------------------------
  // Properties of the loop

  /** Existing indexes are never removed, renamed or reordered: the old list
      is a prefix of the new one. */
  lemma {:induction false} EnsureIndexesOnlyAdds(fields: seq<string>, indexes: seq<Index>, fieldList: seq<string>)
    ensures |EnsureIndexes(fields, indexes, fieldList)| >= |indexes|
    ensures EnsureIndexes(fields, indexes, fieldList)[..|indexes|] == indexes
    decreases |fieldList|
  {
    if fieldList != [] {
      var n := |fieldList| - 1;
      EnsureIndexesOnlyAdds(fields, indexes, fieldList[..n]);
      var before := EnsureIndexes(fields, indexes, fieldList[..n]);
      assert (before + [NewIndex(fieldList[n])])[..|indexes|] == before[..|indexes|];
    }
  }

  /** Every index the loop adds is IDX_<field>, ascending, on one requested
      field that some field's name ends in and that no index covered when
      its turn came. */
  lemma {:induction false} EnsureIndexesAdded(fields: seq<string>, indexes: seq<Index>, fieldList: seq<string>, m: nat)
    requires |indexes| <= m < |EnsureIndexes(fields, indexes, fieldList)|
    ensures exists k ::
      && 0 <= k < |fieldList| && HasMatchingField(fields, fieldList[k])
      && !Covered(EnsureIndexes(fields, indexes, fieldList[..k]), fieldList[k])
      && EnsureIndexes(fields, indexes, fieldList)[m] == NewIndex(fieldList[k])
    decreases |fieldList|
  {
    var n := |fieldList| - 1;
    var before := EnsureIndexes(fields, indexes, fieldList[..n]);
    assert fieldList != [];
    if m < |before| {
      EnsureIndexesAdded(fields, indexes, fieldList[..n], m);
      var k :| 0 <= k < n && HasMatchingField(fields, fieldList[..n][k])
        && !Covered(EnsureIndexes(fields, indexes, fieldList[..n][..k]), fieldList[..n][k])
        && before[m] == NewIndex(fieldList[..n][k]);
      assert fieldList[..n][k] == fieldList[k];
      assert fieldList[..n][..k] == fieldList[..k];
    } else {
      assert EnsureIndexes(fields, indexes, fieldList)[m] == NewIndex(fieldList[n]);
    }
  }

  /** When no `AddIndex` raises, every added index is on a field the table
      has under exactly the requested name (ignoring case). */
  lemma CompletedRunIndexesOwnFields(fields: seq<string>, indexes: seq<Index>, fieldList: seq<string>, m: nat)
    requires FirstRaise(fields, indexes, fieldList).None?
    requires |indexes| <= m < |EnsureIndexes(fields, indexes, fieldList)|
    ensures exists k ::
      0 <= k < |fieldList| && HasField(fields, fieldList[k]) && EnsureIndexes(fields, indexes, fieldList)[m] == NewIndex(fieldList[k])
  {
    EnsureIndexesAdded(fields, indexes, fieldList, m);
    var k :| && 0 <= k < |fieldList| && HasMatchingField(fields, fieldList[k])
      && !Covered(EnsureIndexes(fields, indexes, fieldList[..k]), fieldList[k])
      && EnsureIndexes(fields, indexes, fieldList)[m] == NewIndex(fieldList[k]);
    assert !Raises(fields, indexes, fieldList, k);
  }

  /** A requested field that only a longer field name ends in: `ListFields`
      with "*KEY" finds MUKEY, but `AddIndex` on KEY raises, so the run
      fails at that field with no index added. */
  lemma SuffixOnlyFieldRaises()
    ensures FirstRaise(["MUKEY"], [], ["KEY"]) == Some(0)
  {
    var fields, fieldList: seq<string> := ["MUKEY"], ["KEY"];
    assert Upper("MUKEY") == "MUKEY" && Upper("KEY") == "KEY";
    assert EndsWith(Upper(fields[0]), Upper(fieldList[0]));
    assert HasMatchingField(fields, fieldList[0]);
    assert fieldList[..0] == [];
    assert !Covered(EnsureIndexes(fields, [], fieldList[..0]), fieldList[0]);
    assert !HasField(fields, fieldList[0]);
    assert Raises(fields, [], fieldList, 0);
  }

  /** A new index covers the field it is named after: IDX_<field> ends in
      the field name whatever its case, and lists the field. */
  lemma NewIndexCovers(field: string)
    ensures MatchesSuffix(NewIndex(field).name, field) && field in NewIndex(field).fields
  {
    UpperOfConcat("IDX_", field);
    var u := Upper("IDX_" + field);
    assert u[|u| - |Upper(field)|..] == Upper(field);
  }

  /** Coverage survives adding indexes. */
  lemma CoveredExtends(indexes: seq<Index>, more: seq<Index>, field: string)
    requires Covered(indexes, field)
    ensures Covered(indexes + more, field)
  {
    var m :| 0 <= m < |indexes| && MatchesSuffix(indexes[m].name, field) && field in indexes[m].fields;
    assert (indexes + more)[m] == indexes[m];
  }

  /** After the loop, every requested field that some field's name ends in
      is covered by an index. */
  lemma {:induction false} EnsureIndexesCovers(fields: seq<string>, indexes: seq<Index>, fieldList: seq<string>, k: nat)
    requires k < |fieldList| && HasMatchingField(fields, fieldList[k])
    ensures Covered(EnsureIndexes(fields, indexes, fieldList), fieldList[k])
    decreases |fieldList|
  {
    var n := |fieldList| - 1;
    var before := EnsureIndexes(fields, indexes, fieldList[..n]);
    var after := EnsureIndexes(fields, indexes, fieldList);
    if k < n {
      assert fieldList[..n][k] == fieldList[k];
      EnsureIndexesCovers(fields, indexes, fieldList[..n], k);
      if after != before {
        CoveredExtends(before, [NewIndex(fieldList[n])], fieldList[k]);
      }
    } else if !Covered(before, fieldList[n]) {
      NewIndexCovers(fieldList[n]);
      assert after[|before|] == NewIndex(fieldList[n]);
    }
  }

  /** A table whose requested fields are all covered or matched by no
      field name gets nothing new. */
  lemma {:induction false} EnsureIndexesNothingToDo(fields: seq<string>, indexes: seq<Index>, fieldList: seq<string>)
    requires forall k :: 0 <= k < |fieldList| && HasMatchingField(fields, fieldList[k]) ==> Covered(indexes, fieldList[k])
    ensures EnsureIndexes(fields, indexes, fieldList) == indexes
    decreases |fieldList|
  {
    if fieldList != [] {
      var n := |fieldList| - 1;
      assert forall k :: 0 <= k < n ==> fieldList[..n][k] == fieldList[k];
      EnsureIndexesNothingToDo(fields, indexes, fieldList[..n]);
    }
  }

  /** Running the function a second time with the same fields adds no
      index. */
  lemma EnsureIndexesIdempotent(fields: seq<string>, indexes: seq<Index>, fieldList: seq<string>)
    ensures EnsureIndexes(fields, EnsureIndexes(fields, indexes, fieldList), fieldList)
      == EnsureIndexes(fields, indexes, fieldList)
  {
    var once := EnsureIndexes(fields, indexes, fieldList);
    forall k | 0 <= k < |fieldList| && HasMatchingField(fields, fieldList[k])
      ensures Covered(once, fieldList[k])
    {
      EnsureIndexesCovers(fields, indexes, fieldList, k);
    }
    EnsureIndexesNothingToDo(fields, once, fieldList);
  }

  /** A requested field that no field's name ends in is skipped; the
      fields after it are handled as if it had not been requested. */
  lemma SkipsMissingField(fields: seq<string>, indexes: seq<Index>, before: seq<string>, field: string)
    requires !HasMatchingField(fields, field)
    ensures EnsureIndexes(fields, indexes, before + [field]) == EnsureIndexes(fields, indexes, before)
  {
    assert (before + [field])[..|before|] == before;
  }

  /** A requested field that some field's name ends in and no index covers
      gets exactly one new index, IDX_<field>, appended after the others. */
  lemma AddsOneIndex(fields: seq<string>, indexes: seq<Index>, before: seq<string>, field: string)
    requires HasMatchingField(fields, field) && !Covered(EnsureIndexes(fields, indexes, before), field)
    ensures EnsureIndexes(fields, indexes, before + [field]) == EnsureIndexes(fields, indexes, before) + [NewIndex(field)]
  {
    assert (before + [field])[..|before|] == before;
  }
}
