/** Key extraction shared by AddNatMusym.py and GetNatMusym.py: both build
    their MUKEY list with the loop `if not rec[0] in mukeyList:
    mukeyList.append(rec[0])` over a search cursor. */
module Keys {
  import opened Wrappers

  predicate NoDup<T(==,!new)>(s: seq<T>) {
    forall i, j :: 0 <= i < j < |s| ==> s[i] != s[j]
  }

  function ToSet<T(!new)>(s: seq<T>): set<T> {
    set x | x in s
  }

  /** The distinct elements of `s`, each where it first occurs. */
  function Dedup<T(==,!new)>(s: seq<T>): (d: seq<T>)
    ensures NoDup(d)
    ensures forall x :: x in d <==> x in s
  {
    if s == [] then []
    else
      var p := Dedup(s[..|s| - 1]);
      assert s == s[..|s| - 1] + [s[|s| - 1]];
      if s[|s| - 1] in p then p else p + [s[|s| - 1]]
  }

  /** One more element: `Dedup` grows by it exactly when it is new. */
  lemma DedupAppend<T(!new)>(s: seq<T>, x: T)
    ensures Dedup(s + [x]) == if x in Dedup(s) then Dedup(s) else Dedup(s) + [x]
  {
    assert (s + [x])[..|s|] == s;
  }

  /** Position of the first occurrence of `x` in `s`. */
  function IndexOf<T(==,!new)>(s: seq<T>, x: T): (i: nat)
    requires x in s
    ensures i < |s| && s[i] == x && x !in s[..i]
  {
    if s[0] == x then 0 else 1 + IndexOf(s[1..], x)
  }

  /** The first occurrence is the only position holding `x` with no `x` before it. */
  lemma {:induction false} IndexOfUnique<T(!new)>(s: seq<T>, x: T, k: nat)
    requires k < |s| && s[k] == x && x !in s[..k]
    ensures IndexOf(s, x) == k
    decreases k
  {
    if k > 0 {
      assert s[..k][0] == s[0];
      assert s[1..][..k - 1] == s[1..k];
      assert s[1..k] <= s[..k][1..];
      IndexOfUnique(s[1..], x, k - 1);
    }
  }

  lemma IndexOfExtend<T(!new)>(s: seq<T>, x: T, y: T)
    requires y in s
    ensures IndexOf(s + [x], y) == IndexOf(s, y)
  {
    var i := IndexOf(s, y);
    assert (s + [x])[..i] == s[..i];
    IndexOfUnique(s + [x], y, i);
  }

  /** `Dedup` keeps first-occurrence order: of two kept keys, the one that
      comes first in the result occurred first in the cursor. */
  lemma {:induction false} DedupOrder<T(!new)>(s: seq<T>)
    ensures forall i, j :: 0 <= i < j < |Dedup(s)| ==>
      IndexOf(s, Dedup(s)[i]) < IndexOf(s, Dedup(s)[j])
    decreases |s|
  {
    if s != [] {
      var p, x := s[..|s| - 1], s[|s| - 1];
      assert s == p + [x];
      DedupOrder(p);
      var dp, d := Dedup(p), Dedup(s);
      forall k | 0 <= k < |dp|
        ensures IndexOf(s, dp[k]) == IndexOf(p, dp[k])
      {
        IndexOfExtend(p, x, dp[k]);
      }
      if x !in dp {
        assert d == dp + [x];
        assert IndexOf(s, x) == |p| by {
          assert s[|p|] == x;
          assert x !in p;
          assert s[..|p|] == p;
        }
      }
    }
  }

  /** A cursor sorted by some order yields a strictly sorted key list (the
      GetNatMusym.py cursor is opened with `ORDER BY MUKEY`). */
  lemma DedupSorted<T(!new)>(s: seq<T>, le: (T, T) -> bool)
    requires forall i, j :: 0 <= i < j < |s| ==> le(s[i], s[j])
    ensures forall i, j :: 0 <= i < j < |Dedup(s)| ==>
      le(Dedup(s)[i], Dedup(s)[j]) && Dedup(s)[i] != Dedup(s)[j]
  {
    DedupOrder(s);
    var d := Dedup(s);
    forall i, j | 0 <= i < j < |d|
      ensures le(d[i], d[j])
    {
      var a, b := IndexOf(s, d[i]), IndexOf(s, d[j]);
      assert a < b;
    }
  }

  /** A duplicate-free sequence has as many distinct elements as entries. */
  lemma {:induction false} ToSetNoDup<T(!new)>(s: seq<T>)
    requires NoDup(s)
    ensures |ToSet(s)| == |s|
    decreases |s|
  {
    if s != [] {
      var p, x := s[..|s| - 1], s[|s| - 1];
      assert s == p + [x];
      ToSetNoDup(p);
      assert ToSet(s) == ToSet(p) + {x};
      assert x !in ToSet(p);
    }
  }

  /** The key-collection loop of `GetMukeys`: every cursor value once, in
      first-occurrence order, a NULL MUKEY (`None`) included. */
  method CollectUniqueKeys(cursor: seq<Option<string>>) returns (mukeyList: seq<Option<string>>)
    ensures mukeyList == Dedup(cursor)
  {
    mukeyList := [];
    for n := 0 to |cursor|
      invariant mukeyList == Dedup(cursor[..n])
    {
      assert cursor[..n + 1][..n] == cursor[..n];
      if cursor[n] !in mukeyList {
        mukeyList := mukeyList + [cursor[n]];
      }
    }
    assert cursor[..|cursor|] == cursor;
  }
}
