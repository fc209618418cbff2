/** Database tables as maps from primary key to row: conflict handling and SUM aggregates. */
module Tables {

  /** INSERT ... ON CONFLICT DO NOTHING. */
  function InsertIfAbsent<K, V>(table: map<K, V>, key: K, row: V): (r: map<K, V>)
    ensures r.Keys == table.Keys + {key}
    ensures forall k | k in table :: r[k] == table[k]
    ensures key !in table ==> r[key] == row
  {
    if key in table then table else table[key := row]
  }

  /** SELECT COALESCE(SUM(column), 0): the rows are added up in no particular order. */
  ghost function Sum<K>(column: map<K, int>): int
  {
    if column == map[] then 0
    else
      var k :| k in column;
      column[k] + Sum(column - {k})
  }

  /** The sum does not depend on the order: any row can be split off. */
  lemma {:induction false} SumSplit<K>(column: map<K, int>, key: K)
    requires key in column
    ensures Sum(column) == column[key] + Sum(column - {key})
    decreases |column|
  {
    var k :| k in column && Sum(column) == column[k] + Sum(column - {k});
    if k != key {
      assert |column - {k}| < |column| by { assert (column - {k}).Keys == column.Keys - {k}; }
      assert |column - {key}| < |column| by { assert (column - {key}).Keys == column.Keys - {key}; }
      SumSplit(column - {k}, key);
      SumSplit(column - {key}, k);
      assert column - {k} - {key} == column - {key} - {k};
    }
  }

  /** Inserting a row under a new key adds exactly its value. */
  lemma SumInsert<K>(column: map<K, int>, key: K, value: int)
    requires key !in column
    ensures Sum(column[key := value]) == Sum(column) + value
  {
    SumSplit(column[key := value], key);
    assert column[key := value] - {key} == column;
  }

  /** Overwriting a row moves the sum by the difference of the two values. */
  lemma SumUpdate<K>(column: map<K, int>, key: K, value: int)
    requires key in column
    ensures Sum(column[key := value]) == Sum(column) - column[key] + value
  {
    SumSplit(column, key);
    SumSplit(column[key := value], key);
    assert column[key := value] - {key} == column - {key};
  }

  // ------------------------------------------------------------------ batches of inserts

  /** A batch of inserts that each do nothing on conflict. */
  function InsertAll<K, V>(table: map<K, V>, rows: seq<(K, V)>): (r: map<K, V>)
    ensures forall k | k in table :: k in r && r[k] == table[k]
  {
    if rows == [] then table
    else
      var last := rows[|rows| - 1];
      InsertIfAbsent(InsertAll(table, rows[..|rows| - 1]), last.0, last.1)
  }

  lemma {:induction false} InsertAllKeys<K, V>(table: map<K, V>, rows: seq<(K, V)>)
    ensures InsertAll(table, rows).Keys == table.Keys + set row | row in rows :: row.0
  {
    if rows != [] {
      InsertAllKeys(table, rows[..|rows| - 1]);
      assert rows == rows[..|rows| - 1] + [rows[|rows| - 1]];
    }
  }

  /** Rows under pairwise different keys that were free before are all stored as given. */
  lemma {:induction false} InsertAllStores<K, V>(table: map<K, V>, rows: seq<(K, V)>, i: nat)
    requires forall a, b | 0 <= a < b < |rows| :: rows[a].0 != rows[b].0
    requires forall row | row in rows :: row.0 !in table
    requires i < |rows|
    ensures rows[i].0 in InsertAll(table, rows) && InsertAll(table, rows)[rows[i].0] == rows[i].1
  {
    var init := rows[..|rows| - 1];
    if i < |init| {
      InsertAllStores(table, init, i);
      assert init[i] == rows[i];
    } else {
      InsertAllKeys(table, init);
      assert rows[i] in rows;
      assert forall row | row in init :: row.0 != rows[i].0;
    }
  }

  /** Inserting rows whose keys are all taken changes nothing. */
  lemma {:induction false} InsertAllTaken<K, V>(table: map<K, V>, rows: seq<(K, V)>)
    requires forall row | row in rows :: row.0 in table
    ensures InsertAll(table, rows) == table
  {
    if rows != [] {
      InsertAllTaken(table, rows[..|rows| - 1]);
      assert rows[|rows| - 1] in rows;
    }
  }

  lemma {:induction false} InsertAllAppend<K, V>(table: map<K, V>, rows: seq<(K, V)>, more: seq<(K, V)>)
    ensures InsertAll(table, rows + more) == InsertAll(InsertAll(table, rows), more)
  {
    if more == [] {
      assert rows + more == rows;
    } else {
      InsertAllAppend(table, rows, more[..|more| - 1]);
      assert (rows + more)[..|rows + more| - 1] == rows + more[..|more| - 1];
    }
  }
}
