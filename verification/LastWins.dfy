/** Writing keyed rows one after the other: for each key the last row stays. */
module LastWins {

  function PutAll<K, V>(m: map<K, V>, rows: seq<(K, V)>): map<K, V> {
    if rows == [] then m
    else PutAll(m, rows[..|rows| - 1])[rows[|rows| - 1].0 := rows[|rows| - 1].1]
  }

  predicate IsLast<K(==), V>(rows: seq<(K, V)>, i: nat) {
    i < |rows| && forall j | i < j < |rows| :: rows[j].0 != rows[i].0
  }

  ghost function LastRows<K, V>(rows: seq<(K, V)>): set<(K, V)> {
    set i | 0 <= i < |rows| && IsLast(rows, i) :: rows[i]
  }

  lemma LastRowsInit<K, V>(rows: seq<(K, V)>, it: (K, V))
    requires rows != [] && it in LastRows(rows[..|rows| - 1]) && it.0 != rows[|rows| - 1].0
    ensures it in LastRows(rows)
  {
    var n := |rows| - 1;
    var init := rows[..n];
    var i :| 0 <= i < |init| && IsLast(init, i) && it == init[i];
    forall j | i < j < |rows|
      ensures rows[j].0 != rows[i].0
    {
      if j < n {
        assert init[j] == rows[j];
      }
    }
    assert IsLast(rows, i) && it == rows[i];
  }

  lemma LastRowsSnoc<K, V>(rows: seq<(K, V)>, it: (K, V))
    requires rows != []
    ensures var last, init := rows[|rows| - 1], rows[..|rows| - 1];
            it in LastRows(rows) <==> it == last || (it in LastRows(init) && it.0 != last.0)
  {
    var n := |rows| - 1;
    var last, init := rows[n], rows[..n];
    if it in LastRows(rows) {
      var i :| 0 <= i < |rows| && IsLast(rows, i) && it == rows[i];
      if i < n {
        assert IsLast(init, i) && it == init[i];
      }
    }
    if it == last {
      assert IsLast(rows, n);
    } else if it in LastRows(init) && it.0 != last.0 {
      LastRowsInit(rows, it);
    }
  }

  /** Rows with fresh keys add their last rows to what was stored. */
  lemma {:induction false} PutAllItems<K, V>(m: map<K, V>, rows: seq<(K, V)>, it: (K, V))
    requires forall i | 0 <= i < |rows| :: rows[i].0 !in m
    ensures it in PutAll(m, rows).Items <==> it in m.Items || it in LastRows(rows)
  {
    if rows != [] {
      var n := |rows| - 1;
      var last, init := rows[n], rows[..n];
      forall i | 0 <= i < |init|
        ensures init[i].0 !in m
      {
        assert init[i] == rows[i];
      }
      PutAllItems(m, init, it);
      LastRowsSnoc(rows, it);
      var before := PutAll(m, init);
      ItemsAfterPut(before, last.0, last.1, it);
      assert rows[n].0 !in m;
    }
  }

  lemma ItemsAfterPut<K, V>(m: map<K, V>, k: K, v: V, it: (K, V))
    ensures it in m[k := v].Items <==> it == (k, v) || (it in m.Items && it.0 != k)
  {
    var n := m[k := v];
    assert it in n.Items <==> it.0 in n && n[it.0] == it.1;
    assert it in m.Items <==> it.0 in m && m[it.0] == it.1;
    assert it == (it.0, it.1);
  }
}
