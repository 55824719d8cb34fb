/** The Soil Data Access tabular service as the scripts see it: a query
    string goes out, and either an exception comes back or the parsed JSON
    response, whose "Table" entry is a list of rows of text. */
module Service {
  import opened Wrappers
  import opened Text

  type Table = seq<seq<string>>

  /** The exceptions `urllib2.urlopen` may raise. `UrlError` carries the
      `reason` and `code` attributes when the exception has them (an
      `HTTPError` has a code). */
  datatype NetError =
    | UrlError(reason: Option<string>, code: Option<int>)
    | SocketTimeout
    | SocketError
    | BadStatusLine
    | OtherError

  /** One request: the response's "Table" entry (`None` when the key is
      absent), or the exception raised. */
  datatype Attempt = Answered(table: Option<Table>) | Raised(error: NetError)

  /** The text of each key for `",".join(keys)`: `None` when some key is
      NULL (`None` in the list), on which the join raises TypeError. */
  function Texts(keys: seq<Option<string>>): (r: Option<seq<string>>)
    ensures r.Some? <==> forall i :: 0 <= i < |keys| ==> keys[i].Some?
    ensures r.Some? ==> |r.value| == |keys| && forall i :: 0 <= i < |keys| ==> keys[i] == Some(r.value[i])
    decreases |keys|
  {
    if keys == [] then Some([])
    else
      match Texts(keys[1..])
      case None => None
      case Some(rest) =>
        match keys[0]
        case None => None
        case Some(k) => Some([k] + rest)
  }

  /** Keys read from a cursor on which no value is NULL. */
  function Known(keys: seq<string>): (r: seq<Option<string>>)
    ensures |r| == |keys| && forall i :: 0 <= i < |keys| ==> r[i] == Some(keys[i])
  {
    seq(|keys|, i requires 0 <= i < |keys| => Some(keys[i]))
  }

  /** Keys with no NULL among them join to their texts. */
  lemma TextsKnown(keys: seq<string>)
    ensures Texts(Known(keys)) == Some(keys)
  {
    var r := Texts(Known(keys));
    assert r.Some?;
    assert r.value == keys;
  }

  /** `prefix + ",".join(keys) + ")"`: the query for one set of keys. */
  function InQuery(prefix: string, keys: seq<string>): (q: string)
    ensures |q| >= |prefix| + 1 && q[..|prefix|] == prefix && q[|q| - 1] == ')'
  {
    prefix + Join(keys, ',') + ")"
  }

  /** The keys listed between `prefix` and the closing parenthesis. */
  function InListOf(prefix: string, q: string): Option<seq<string>> {
    if |q| >= |prefix| + 1 && q[..|prefix|] == prefix && q[|q| - 1] == ')' then
      Some(Split(q[|prefix|..|q| - 1], ','))
    else
      None
  }

  /** The IN list of the query holds exactly the batch, in order, as long as
      no key contains a comma (MUKEY values are numerals). */
  lemma InQueryKeys(prefix: string, keys: seq<string>)
    requires |keys| >= 1
    requires forall i :: 0 <= i < |keys| ==> ',' !in keys[i]
    ensures InListOf(prefix, InQuery(prefix, keys)) == Some(keys)
  {
    var q := InQuery(prefix, keys);
    assert q[|prefix|..|q| - 1] == Join(keys, ',');
    SplitJoin(keys, ',');
  }

  /** Every row has a column `idx`. */
  predicate ReachesColumn(data: Table, idx: nat) {
    forall j :: 0 <= j < |data| ==> idx < |data[j]|
  }

  /** The first row too short to have column `idx`; `|data|` if none. */
  function FirstShortRow(data: Table, idx: nat): (n: nat)
    ensures n <= |data| && ReachesColumn(data[..n], idx)
    ensures n < |data| ==> |data[n]| <= idx
    decreases |data|
  {
    if data == [] || |data[0]| <= idx then 0
    else
      var n := FirstShortRow(data[1..], idx);
      assert data[..n + 1] == [data[0]] + data[1..][..n];
      n + 1
  }

  /** When every row has column `idx`, no row is short. */
  lemma FirstShortRowNone(data: Table, idx: nat)
    requires ReachesColumn(data, idx)
    ensures FirstShortRow(data, idx) == |data|
  {
  }
}
