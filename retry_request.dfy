/** Test.py: one query to Soil Data Access with up to three attempts, then
    a dictionary from MUKEY to (national map unit symbol, map unit name)
    built from the returned rows.

    The request asks for FORMAT "JSON", so "Table" holds data rows only,
    with no column-name or metadata row. When all three attempts fail the
    script reports the error and goes on to read a response it never got;
    the model stops there with the classified error. The closing count
    check (lines 130-135) uses names the script never defines and is not
    part of this model. */
module RetryRequest {
  import opened Wrappers
  import opened Service

  /** How the last failed attempt is reported (lines 92-112). A socket
      error and a bad status line print the same message but are caught
      by different handlers. `Unhandled` is an exception none of the
      handlers catches. */
  datatype RequestError =
    | UrlReason(reason: string)
    | UrlCode(code: int)
    | UrlUnexplained
    | ServerTimeout
    | ConnectionFailure
    | BadStatus
    | Unhandled
    | NoTable
    | ShortRow(index: nat)

  const Attempts := 3

  /** The handler the third failure lands in: a URLError is reported by its
      reason when it has one, else by its code. */
  function Classify(e: NetError): (c: RequestError)
    ensures c.UrlReason? <==> e.UrlError? && e.reason.Some?
    ensures c.UrlReason? ==> c.reason == e.reason.value
    ensures c.UrlCode? <==> e.UrlError? && e.reason.None? && e.code.Some?
    ensures c.UrlCode? ==> c.code == e.code.value
    ensures c == UrlUnexplained <==> e.UrlError? && e.reason.None? && e.code.None?
    ensures c == ServerTimeout <==> e == SocketTimeout
    ensures c == ConnectionFailure <==> e == SocketError
    ensures c == BadStatus <==> e == BadStatusLine
    ensures c == Unhandled <==> e == OtherError
    ensures !c.NoTable? && !c.ShortRow?
  {
    match e
    case UrlError(reason, code) =>
      if reason.Some? then UrlReason(reason.value)
      else if code.Some? then UrlCode(code.value)
      else UrlUnexplained
    case SocketTimeout => ServerTimeout
    case SocketError => ConnectionFailure
    case BadStatusLine => BadStatus
    case OtherError => Unhandled
  }

  /** The nested `try` of lines 80-112: `network(k)` is what the `k`-th
      call of `urlopen` (from 0) yields. Returns the response's "Table"
      entry and the number of calls made. */
  method RequestData(network: nat -> Attempt) returns (resp: Result<Option<Table>, RequestError>, tries: nat)
    ensures 1 <= tries <= Attempts
    ensures forall k :: 0 <= k < tries - 1 ==> network(k).Raised?
    ensures resp.Success? ==> network(tries - 1) == Answered(resp.value)
    ensures resp.Failure? ==>
      tries == Attempts && network(tries - 1).Raised? && resp.error == Classify(network(tries - 1).error)
    ensures resp.Success? <==> exists k :: 0 <= k < Attempts && network(k).Answered?
  {
    var first := network(0);
    if first.Answered? {
      return Success(first.table), 1;
    }
    var second := network(1);
    if second.Answered? {
      return Success(second.table), 2;
    }
    var third := network(2);
    if third.Answered? {
      return Success(third.table), 3;
    }
    return Failure(Classify(third.error)), 3;
  }

  /** `natmusymDict` after the loop of lines 123-124: every row filed under
      its first cell with its second and third; a later row with the same
      key replaces an earlier one. */
  function NatmusymDict(table: Table): map<string, (string, string)>
    requires ReachesColumn(table, 2)
    decreases |table|
  {
    if table == [] then map[]
    else
      var n := |table| - 1;
      NatmusymDict(table[..n])[table[n][0] := (table[n][1], table[n][2])]
  }

  /** The dictionary's keys are exactly the first cells of the rows. */
  lemma {:induction false} NatmusymDictKeys(table: Table)
    requires ReachesColumn(table, 2)
    ensures NatmusymDict(table).Keys == set j | 0 <= j < |table| :: table[j][0]
    decreases |table|
  {
    if table != [] {
      var n := |table| - 1;
      NatmusymDictKeys(table[..n]);
      assert forall j :: 0 <= j < n ==> table[..n][j] == table[j];
      assert (set j | 0 <= j < |table| :: table[j][0]) == (set j | 0 <= j < n :: table[..n][j][0]) + {table[n][0]};
    }
  }

  /** The dictionary has at most one entry per row. */
  lemma {:induction false} NatmusymDictSize(table: Table)
    requires ReachesColumn(table, 2)
    ensures |NatmusymDict(table)| <= |table|
    decreases |table|
  {
    if table != [] {
      var n := |table| - 1;
      var d := NatmusymDict(table[..n]);
      NatmusymDictSize(table[..n]);
      assert NatmusymDict(table).Keys == d.Keys + {table[n][0]};
      assert |d.Keys + {table[n][0]}| <= |d.Keys| + 1;
    }
  }

  /** Each key holds the second and third cells of the last row with that
      first cell. */
  lemma {:induction false} NatmusymDictLast(table: Table, j: nat)
    requires ReachesColumn(table, 2) && j < |table|
    requires forall j' :: j < j' < |table| ==> table[j'][0] != table[j][0]
    ensures table[j][0] in NatmusymDict(table)
    ensures NatmusymDict(table)[table[j][0]] == (table[j][1], table[j][2])
    decreases |table|
  {
    var n := |table| - 1;
    if j < n {
      NatmusymDictLast(table[..n], j);
    }
  }

  /** The loop of lines 123-124; a row with fewer than three cells raises
      and the script stops. */
  method BuildNatmusymDict(table: Table) returns (r: Result<map<string, (string, string)>, RequestError>)
    ensures FirstShortRow(table, 2) < |table| ==> r == Failure(ShortRow(FirstShortRow(table, 2)))
    ensures FirstShortRow(table, 2) == |table| ==> ReachesColumn(table, 2) && r == Success(NatmusymDict(table))
  {
    var natmusymDict: map<string, (string, string)> := map[];
    var n := FirstShortRow(table, 2);
    for j := 0 to |table|
      invariant j <= n
      invariant natmusymDict == NatmusymDict(table[..j])
    {
      var pair := table[j];
      if |pair| < 3 {
        return Failure(ShortRow(j));
      }
      assert table[..j + 1][..j] == table[..j];
      natmusymDict := natmusymDict[pair[0] := (pair[1], pair[2])];
    }
    assert table[..|table|] == table;
    return Success(natmusymDict);
  }

  /** The main body from the request on (lines 77-124). */
  method FetchNatmusym(network: nat -> Attempt) returns (r: Result<map<string, (string, string)>, RequestError>)
    ensures r == FetchSpec(network)
  {
    var resp, tries := RequestData(network);
    if resp.Failure? {
      return Failure(resp.error);
    }
    if resp.value.None? {
      return Failure(NoTable);
    }
    r := BuildNatmusymDict(resp.value.value);
  }

  /** The position of the first attempt that is answered, if any of the
      three is. */
  function FirstAnswered(network: nat -> Attempt, k: nat): (r: Option<nat>)
    requires k <= Attempts
    ensures r.Some? ==>
      k <= r.value < Attempts && network(r.value).Answered? && forall m :: k <= m < r.value ==> network(m).Raised?
    ensures r.None? ==> forall m :: k <= m < Attempts ==> network(m).Raised?
    decreases Attempts - k
  {
    if k == Attempts then None
    else if network(k).Answered? then Some(k)
    else FirstAnswered(network, k + 1)
  }

  /** The outcome of the script: the first answer among three attempts,
      then the dictionary of its rows. */
  function FetchSpec(network: nat -> Attempt): Result<map<string, (string, string)>, RequestError> {
    match FirstAnswered(network, 0)
    case None => Failure(Classify(network(Attempts - 1).error))
    case Some(k) =>
      match network(k).table
      case None => Failure(NoTable)
      case Some(table) =>
        var n := FirstShortRow(table, 2);
        if n < |table| then Failure(ShortRow(n)) else Success(NatmusymDict(table))
  }

  /** A response without "Table" leaves no entries whichever attempt it
      answered; a table with full rows gives one entry per distinct first
      cell. */
  lemma FetchOutcomes(network: nat -> Attempt, k: nat)
    requires k < Attempts && network(k).Answered?
    requires forall m :: 0 <= m < k ==> network(m).Raised?
    ensures network(k).table.None? ==> FetchSpec(network) == Failure(NoTable)
    ensures network(k).table.Some? && ReachesColumn(network(k).table.value, 2) ==>
      FetchSpec(network).Success?
      && FetchSpec(network).value.Keys == set j | 0 <= j < |network(k).table.value| :: network(k).table.value[j][0]
  {
    var r := FirstAnswered(network, 0);
    assert r == Some(k);
    if network(k).table.Some? && ReachesColumn(network(k).table.value, 2) {
      var table := network(k).table.value;
      FirstShortRowNone(table, 2);
      NatmusymDictKeys(table);
    }
  }
}
