/**
 The keyset pagination both upstream scans use: fetch up to a batch of enabled channels with ids
 above the last one seen, until a batch comes back short.
 */
module KeysetScan {

  /** Primary keys of the enabled channels: positive, ascending, no two alike. */
  ghost predicate Keys(table: seq<int>) {
    && (forall i :: 0 <= i < |table| ==> table[i] > 0)
    && (forall i, j :: 0 <= i < j < |table| ==> table[i] < table[j])
  }

  function Above(table: seq<int>, id: int): seq<int> {
    if table == [] then []
    else if table[0] > id then [table[0]] + Above(table[1..], id)
    else Above(table[1..], id)
  }

  /** The query: ordered by id, at most `size` rows, the lower bound only once an id was seen. */
  function Batch(table: seq<int>, lastID: int, size: nat): seq<int> {
    var rest := if lastID > 0 then Above(table, lastID) else table;
    if |rest| <= size then rest else rest[..size]
  }

  lemma {:induction false} AboveAll(table: seq<int>, id: int)
    requires forall i :: 0 <= i < |table| ==> table[i] > id
    ensures Above(table, id) == table
  {
    if table != [] { AboveAll(table[1..], id); }
  }

  lemma {:induction false} AboveNth(table: seq<int>, n: nat)
    requires Keys(table) && 0 < n <= |table|
    ensures Above(table, table[n - 1]) == table[n..]
  {
    if n == 1 {
      AboveAll(table[1..], table[0]);
    } else {
      AboveNth(table[1..], n - 1);
      assert table[1..][n - 1..] == table[n..];
    }
  }

  function LastOf(table: seq<int>, n: nat): int
    requires n <= |table|
  {
    if n == 0 then 0 else table[n - 1]
  }

  /** After the first `n` rows, the next query returns exactly the rows that follow. */
  lemma BatchFollows(table: seq<int>, n: nat, size: nat)
    requires Keys(table) && n <= |table|
    ensures var m := if |table| - n <= size then |table| else n + size;
            Batch(table, LastOf(table, n), size) == table[n..m]
  {
    if n > 0 { AboveNth(table, n); }
    assert table[n..] == if n == 0 then table else Above(table, LastOf(table, n));
  }

  /** Every enabled channel is visited, once, in id order, whatever the batch size. */
  method Scan(table: seq<int>, size: nat) returns (visited: seq<int>)
    requires Keys(table) && size >= 1
    ensures visited == table
  {
    visited := [];
    var lastID := 0;
    ghost var n := 0;
    while true
      invariant n <= |table| && visited == table[..n] && lastID == LastOf(table, n)
      decreases |table| - n
    {
      BatchFollows(table, n, size);
      var batch := Batch(table, lastID, size);
      if |batch| == 0 { break; }
      lastID := batch[|batch| - 1];
      var i := 0;
      while i < |batch|
        invariant 0 <= i <= |batch| && visited == table[..n + i]
      {
        assert table[..n + i + 1] == table[..n + i] + [batch[i]];
        visited := visited + [batch[i]];
        i := i + 1;
      }
      n := n + |batch|;
      if |batch| < size { break; }
    }
  }
}
