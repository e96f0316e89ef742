/** Vocabulary shared by every service model: optional columns, results with the
    service's error codes, and the rows of an append-only table that carry one key. */
module Tables {

  datatype Option<+T> = None | Some(value: T)

  datatype Result<+T, +E> = Ok(value: T) | Err(error: E)

  /** An append-only table whose rows are tagged with a foreign key, oldest row first. */
  type Table<K, T> = seq<(K, T)>

  /** The rows of `table` for `key`, oldest first (a SELECT with an equality filter). */
  function RowsOf<K(==), T>(table: Table<K, T>, key: K): (rows: seq<T>) {
    if |table| == 0 then []
    else
      var last := table[|table| - 1];
      RowsOf(table[..|table| - 1], key) + (if last.0 == key then [last.1] else [])
  }

  lemma RowsOfAppend<K, T>(table: Table<K, T>, key: K, row: (K, T))
    ensures RowsOf(table + [row], key) == RowsOf(table, key) + (if row.0 == key then [row.1] else [])
  {
    assert (table + [row])[..|table|] == table;
  }

  /** Every selected row is one of the table's rows for that key. */
  lemma {:induction false} RowsOfMember<K, T>(table: Table<K, T>, key: K, k: nat)
    requires k < |RowsOf(table, key)|
    ensures (key, RowsOf(table, key)[k]) in table
  {
    var init := table[..|table| - 1];
    if k < |RowsOf(init, key)| {
      RowsOfMember(init, key, k);
    }
  }

  /** The first row that satisfies a filter: what an unordered SELECT of one row is taken to return. */
  function First<T>(rows: seq<T>, accepts: T -> bool): (found: Option<nat>)
    ensures found.Some? ==> found.value < |rows| && accepts(rows[found.value])
    ensures found.None? ==> forall i :: 0 <= i < |rows| ==> !accepts(rows[i])
  {
    if |rows| == 0 then None
    else
      var earlier := First(rows[..|rows| - 1], accepts);
      if earlier.Some? then earlier
      else if accepts(rows[|rows| - 1]) then Some(|rows| - 1)
      else None
  }

  method FindFirst<T>(rows: seq<T>, accepts: T -> bool) returns (found: Option<nat>)
    ensures found == First(rows, accepts)
  {
    for i := 0 to |rows|
      invariant First(rows[..i], accepts) == None
    {
      assert rows[..i + 1][..i] == rows[..i];
      if accepts(rows[i]) {
        FirstIsEarliest(rows, accepts, i);
        return Some(i);
      }
    }
    assert rows[..|rows|] == rows;
    return None;
  }

  lemma {:induction false} FirstIsEarliest<T>(rows: seq<T>, accepts: T -> bool, i: nat)
    requires i < |rows| && accepts(rows[i])
    requires First(rows[..i], accepts) == None
    ensures First(rows, accepts) == Some(i)
  {
    var init := rows[..|rows| - 1];
    if i < |init| {
      assert init[..i] == rows[..i];
      FirstIsEarliest(init, accepts, i);
    }
  }
}
