/** The group-by that aggregation and the era rollup share: rows are keyed by the tuple of
    their cells in the grouping columns, a missing cell being a key value like any other
    (`dropna=False`), and there is one group per distinct key. */
module Grouping {
  import opened Tables

  type Key = seq<Cell>

  /** The key of `row` under the grouping columns `cols`. */
  function KeyOf(row: Row, cols: seq<string>): (k: Key)
    ensures |k| == |cols|
    ensures forall i :: 0 <= i < |cols| ==> k[i] == Get(row, cols[i])
  {
    seq(|cols|, i requires 0 <= i < |cols| => Get(row, cols[i]))
  }

  /** The values of `s` at their first occurrence, in order. */
  function Distinct(s: seq<Key>): (r: seq<Key>)
    ensures forall x :: x in r <==> x in s
    ensures forall i, j :: 0 <= i < j < |r| ==> r[i] != r[j]
    ensures |r| <= |s|
  {
    if |s| == 0 then []
    else
      var d := Distinct(s[..|s| - 1]);
      assert forall x :: x in s <==> x in s[..|s| - 1] || x == s[|s| - 1];
      if s[|s| - 1] in d then d else d + [s[|s| - 1]]
  }

  /** A sequence without repetitions is its own set of first occurrences. */
  lemma {:induction false} DistinctOfUnique(s: seq<Key>)
    requires forall i, j :: 0 <= i < j < |s| ==> s[i] != s[j]
    ensures Distinct(s) == s
  {
    if |s| > 0 {
      var p := s[..|s| - 1];
      DistinctOfUnique(p);
      assert s[|s| - 1] !in p;
      assert p + [s[|s| - 1]] == s;
    }
  }

  function RowKeys(rows: seq<Row>, cols: seq<string>): (ks: seq<Key>)
    ensures |ks| == |rows|
    ensures forall i :: 0 <= i < |rows| ==> ks[i] == KeyOf(rows[i], cols)
  {
    seq(|rows|, i requires 0 <= i < |rows| => KeyOf(rows[i], cols))
  }

  /** The groups of `rows` under `cols`, one key per group, in order of first occurrence. */
  function GroupKeys(rows: seq<Row>, cols: seq<string>): (ks: seq<Key>)
    ensures forall k :: k in ks <==> exists i :: 0 <= i < |rows| && KeyOf(rows[i], cols) == k
    ensures forall i, j :: 0 <= i < j < |ks| ==> ks[i] != ks[j]
    ensures forall i :: 0 <= i < |ks| ==> |ks[i]| == |cols|
  {
    var all := RowKeys(rows, cols);
    assert forall i :: 0 <= i < |rows| ==> all[i] == KeyOf(rows[i], cols);
    assert forall k :: k in all ==> |k| == |cols|;
    var ks := Distinct(all);
    assert forall i :: 0 <= i < |ks| ==> ks[i] in all;
    ks
  }

  /** The rows of the group with key `k`, in their original order. */
  function Group(rows: seq<Row>, cols: seq<string>, k: Key): (g: seq<Row>)
    ensures |g| <= |rows|
    ensures forall r :: r in g ==> r in rows && KeyOf(r, cols) == k
    ensures (exists i :: 0 <= i < |rows| && KeyOf(rows[i], cols) == k) ==> |g| > 0
  {
    if |rows| == 0 then []
    else
      var last := rows[|rows| - 1];
      var g := Group(rows[..|rows| - 1], cols, k);
      assert forall r :: r in rows[..|rows| - 1] ==> r in rows;
      if KeyOf(last, cols) == k then g + [last] else g
  }

  /** Every row lands in exactly one group: its own key's, which is among the group keys. */
  lemma {:induction false} RowInItsGroup(rows: seq<Row>, cols: seq<string>, i: int)
    requires 0 <= i < |rows|
    ensures KeyOf(rows[i], cols) in GroupKeys(rows, cols)
    ensures rows[i] in Group(rows, cols, KeyOf(rows[i], cols))
    ensures forall k :: k != KeyOf(rows[i], cols) ==> rows[i] !in Group(rows, cols, k)
  {
    var k := KeyOf(rows[i], cols);
    if i < |rows| - 1 {
      RowInItsGroup(rows[..|rows| - 1], cols, i);
      assert rows[..|rows| - 1][i] == rows[i];
    }
  }

  /** When no two rows share a key, the group of row `i` is that row alone. */
  lemma {:induction false} SingletonGroup(rows: seq<Row>, cols: seq<string>, i: int)
    requires forall a, b :: 0 <= a < b < |rows| ==> KeyOf(rows[a], cols) != KeyOf(rows[b], cols)
    requires 0 <= i < |rows|
    ensures Group(rows, cols, KeyOf(rows[i], cols)) == [rows[i]]
  {
    var p := rows[..|rows| - 1];
    if i == |rows| - 1 {
      NoGroupOutside(p, cols, KeyOf(rows[i], cols));
    } else {
      SingletonGroup(p, cols, i);
      assert p[i] == rows[i];
    }
  }

  lemma {:induction false} NoGroupOutside(rows: seq<Row>, cols: seq<string>, k: Key)
    requires forall a :: 0 <= a < |rows| ==> KeyOf(rows[a], cols) != k
    ensures Group(rows, cols, k) == []
  {
    if |rows| > 0 {
      NoGroupOutside(rows[..|rows| - 1], cols, k);
    }
  }

  /** When no two rows share a key, the groups come in row order. */
  lemma UniqueGroupKeys(rows: seq<Row>, cols: seq<string>)
    requires forall a, b :: 0 <= a < b < |rows| ==> KeyOf(rows[a], cols) != KeyOf(rows[b], cols)
    ensures GroupKeys(rows, cols) == RowKeys(rows, cols)
  {
    DistinctOfUnique(RowKeys(rows, cols));
  }
}
