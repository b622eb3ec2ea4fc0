/**
 * Writing a batch of rate rows into the sheet (`upsert_rows`, app.py): rows
 * whose key the sheet already holds are overwritten in place one by one, all
 * others are appended together in one request, in input order. The key
 * index is built once, before the first write.
 */
module Upsert {
  import opened RecordStore

  /** Rows the sheet can take: a key (columns A and B) and no more cells than columns A..E. */
  predicate WellFormed(rows: seq<Row>)
  {
    forall i :: 0 <= i < |rows| ==> 2 <= |rows[i]| <= Width
  }

  /** Every row number in `index` addresses a row of a sheet of `n` rows. */
  predicate IndexWithin(index: map<Key, nat>, n: nat)
  {
    forall k :: k in index ==> 1 <= index[k] <= n
  }

  /** The keys the rows of a batch carry. */
  function KeysOf(rows: seq<Row>): (keys: set<Key>)
    requires WellFormed(rows)
    ensures forall i :: 0 <= i < |rows| ==> KeyOf(rows[i]) in keys
    ensures forall k :: k in keys ==> exists i :: 0 <= i < |rows| && KeyOf(rows[i]) == k
  {
    set i | 0 <= i < |rows| :: KeyOf(rows[i])
  }

  /** The input rows whose key is not in `index`, in input order: the append batch. */
  function NewRows(index: map<Key, nat>, rows: seq<Row>): (batch: seq<Row>)
    requires WellFormed(rows)
  {
    if rows == [] then []
    else
      var last := rows[|rows| - 1];
      NewRows(index, rows[..|rows| - 1]) + if KeyOf(last) in index then [] else [last]
  }

  /** The sheet after the in-place updates for `rows`, applied in input order. */
  function Updated(values: seq<Row>, index: map<Key, nat>, rows: seq<Row>): (r: seq<Row>)
    requires WellFormed(rows) && IndexWithin(index, |values|)
    ensures |r| == |values|
  {
    if rows == [] then values
    else
      var prev := Updated(values, index, rows[..|rows| - 1]);
      var last := rows[|rows| - 1];
      if KeyOf(last) in index then
        var n := index[KeyOf(last)];
        prev[n - 1 := Overlay(last, prev[n - 1])]
      else prev
  }

  /** The update requests for `rows`, one per row whose key is indexed. */
  function UpdateWrites(index: map<Key, nat>, rows: seq<Row>): (writes: seq<Write>)
    requires WellFormed(rows)
  {
    if rows == [] then []
    else
      var last := rows[|rows| - 1];
      UpdateWrites(index, rows[..|rows| - 1])
        + if KeyOf(last) in index then [UpdateRange(index[KeyOf(last)], last)] else []
  }

  /** The sheet after `upsert_rows(ws, rows)` on a sheet holding `values`. */
  function Upserted(values: seq<Row>, rows: seq<Row>): (r: seq<Row>)
    requires WellFormed(rows)
    ensures |values| <= |r| <= |values| + |rows|
  {
    var index := KeyIndex(values);
    OneWritePerRow(index, rows);
    Updated(values, index, rows) + NewRows(index, rows)
  }

  /** The requests `upsert_rows(ws, rows)` sends: the updates, then at most one append. */
  function UpsertWrites(values: seq<Row>, rows: seq<Row>): (writes: seq<Write>)
    requires WellFormed(rows)
    ensures |writes| <= |rows| + 1
    ensures forall i :: 0 <= i < |writes| - 1 ==> writes[i].UpdateRange?
  {
    var index := KeyIndex(values);
    UpdateWritesAreUpdates(index, rows);
    OneWritePerRow(index, rows);
    var batch := NewRows(index, rows);
    UpdateWrites(index, rows) + if batch == [] then [] else [AppendRows(batch)]
  }

  /** Reads the key index once, updates the known rows in place, then appends the rest in one request. */
  method UpsertRows(ws: Worksheet, rows: seq<Row>)
    requires WellFormed(rows)
    modifies ws
    ensures ws.values == Upserted(old(ws.values), rows)
    ensures ws.writes == old(ws.writes) + UpsertWrites(old(ws.values), rows)
  {
    var existing := LoadExistingKeys(ws);
    var toAppend := UpdateKnownRows(ws, existing, rows);
    if toAppend != [] {
      ws.Append(toAppend);
    }
  }

  /**
   * The loop of `upsert_rows`: each row whose key is in `existing` overwrites
   * that sheet row at once; the others are collected, in order, for the append.
   */
  method UpdateKnownRows(ws: Worksheet, existing: map<Key, nat>, rows: seq<Row>) returns (toAppend: seq<Row>)
    requires WellFormed(rows) && IndexWithin(existing, |ws.values|)
    modifies ws
    ensures ws.values == Updated(old(ws.values), existing, rows)
    ensures ws.writes == old(ws.writes) + UpdateWrites(existing, rows)
    ensures toAppend == NewRows(existing, rows)
  {
    toAppend := [];
    var i := 0;
    while i < |rows|
      invariant 0 <= i <= |rows|
      invariant WellFormed(rows[..i])
      invariant ws.values == Updated(old(ws.values), existing, rows[..i])
      invariant ws.writes == old(ws.writes) + UpdateWrites(existing, rows[..i])
      invariant toAppend == NewRows(existing, rows[..i])
    {
      var row := rows[i];
      UpsertStep(old(ws.values), existing, rows, i);
      var key := (row[0], row[1]);
      assert key == KeyOf(row);
      if key in existing {
        var n := existing[key];
        assert 1 <= n <= |ws.values|;
        ws.Update(n, row);
      } else {
        toAppend := toAppend + [row];
      }
      i := i + 1;
    }
    assert rows[..|rows|] == rows;
  }

  /** One more input row: the specification of the first `i + 1` rows in terms of the first `i`. */
  lemma UpsertStep(values: seq<Row>, index: map<Key, nat>, rows: seq<Row>, i: nat)
    requires WellFormed(rows) && IndexWithin(index, |values|)
    requires i < |rows|
    ensures WellFormed(rows[..i]) && WellFormed(rows[..i + 1])
    ensures var row := rows[i];
      var prev := Updated(values, index, rows[..i]);
      && NewRows(index, rows[..i + 1]) == NewRows(index, rows[..i]) + (if KeyOf(row) in index then [] else [row])
      && UpdateWrites(index, rows[..i + 1])
           == UpdateWrites(index, rows[..i]) + (if KeyOf(row) in index then [UpdateRange(index[KeyOf(row)], row)] else [])
      && Updated(values, index, rows[..i + 1])
           == if KeyOf(row) in index then prev[index[KeyOf(row)] - 1 := Overlay(row, prev[index[KeyOf(row)] - 1])] else prev
  {
    assert rows[..i + 1][..i] == rows[..i];
  }

  /** Each input row gives rise to at most one update request and at most one appended row. */
  lemma {:induction false} OneWritePerRow(index: map<Key, nat>, rows: seq<Row>)
    requires WellFormed(rows)
    ensures |NewRows(index, rows)| <= |rows|
    ensures |UpdateWrites(index, rows)| <= |rows|
  {
    if rows != [] {
      OneWritePerRow(index, rows[..|rows| - 1]);
    }
  }

  /** A row whose key the sheet already holds is never appended. */
  lemma {:induction false} NewRowsNotIndexed(index: map<Key, nat>, rows: seq<Row>)
    requires WellFormed(rows)
    ensures forall x :: x in NewRows(index, rows) ==> |x| >= 2 && KeyOf(x) !in index
  {
    if rows != [] {
      NewRowsNotIndexed(index, rows[..|rows| - 1]);
    }
  }

  /**
   * Every other row is appended exactly as often as it occurs in the input:
   * a row with an indexed key never, any other row once per occurrence.
   */
  lemma {:induction false} NewRowsCount(index: map<Key, nat>, rows: seq<Row>, x: Row)
    requires WellFormed(rows) && |x| >= 2
    ensures multiset(NewRows(index, rows))[x] == if KeyOf(x) in index then 0 else multiset(rows)[x]
  {
    if rows != [] {
      var n := |rows|;
      var prefix, last := rows[..n - 1], rows[n - 1];
      NewRowsCount(index, prefix, x);
      assert rows == prefix + [last];
      assert multiset(rows) == multiset(prefix) + multiset{last};
      var tail := if KeyOf(last) in index then [] else [last];
      assert NewRows(index, rows) == NewRows(index, prefix) + tail;
      assert multiset(NewRows(index, rows)) == multiset(NewRows(index, prefix)) + multiset(tail);
    }
  }

  /** The batch keeps input order: the batch of a concatenation is the concatenation of the batches. */
  lemma {:induction false} NewRowsConcat(index: map<Key, nat>, a: seq<Row>, b: seq<Row>)
    requires WellFormed(a) && WellFormed(b)
    ensures WellFormed(a + b)
    ensures NewRows(index, a + b) == NewRows(index, a) + NewRows(index, b)
    decreases |b|
  {
    assert WellFormed(a + b) by {
      forall i | 0 <= i < |a + b| ensures 2 <= |(a + b)[i]| <= Width {
        if i >= |a| { assert (a + b)[i] == b[i - |a|]; }
      }
    }
    if b == [] {
      assert a + b == a;
    } else {
      var n := |b|;
      assert (a + b)[..|a + b| - 1] == a + b[..n - 1];
      NewRowsConcat(index, a, b[..n - 1]);
    }
  }

  /** When every input key is indexed, nothing is appended. */
  lemma {:induction false} NewRowsEmpty(index: map<Key, nat>, rows: seq<Row>)
    requires WellFormed(rows)
    requires forall i :: 0 <= i < |rows| ==> KeyOf(rows[i]) in index
    ensures NewRows(index, rows) == []
  {
    if rows != [] {
      NewRowsEmpty(index, rows[..|rows| - 1]);
    }
  }

  /** A sheet row that no input row's key points at is left as it was. */
  lemma {:induction false} UpdatedUntargeted(values: seq<Row>, index: map<Key, nat>, rows: seq<Row>, j: nat)
    requires WellFormed(rows) && IndexWithin(index, |values|)
    requires j < |values|
    requires forall i :: 0 <= i < |rows| && KeyOf(rows[i]) in index ==> index[KeyOf(rows[i])] != j + 1
    ensures Updated(values, index, rows)[j] == values[j]
  {
    if rows != [] {
      UpdatedUntargeted(values, index, rows[..|rows| - 1], j);
    }
  }

  /**
   * An input row whose key is indexed, and which no later input row with the same
   * key follows, ends up in columns A..E of the indexed sheet row.
   */
  lemma {:induction false} UpdatedTargeted(values: seq<Row>, index: map<Key, nat>, rows: seq<Row>, i: nat)
    requires WellFormed(rows) && IndexWithin(index, |values|) && Injective(index)
    requires i < |rows| && KeyOf(rows[i]) in index
    requires forall j :: i < j < |rows| ==> KeyOf(rows[j]) != KeyOf(rows[i])
    ensures var r := Updated(values, index, rows)[index[KeyOf(rows[i])] - 1];
      |rows[i]| <= |r| && r[..|rows[i]|] == rows[i]
  {
    var n := |rows|;
    var k := KeyOf(rows[i]);
    if i < n - 1 {
      UpdatedTargeted(values, index, rows[..n - 1], i);
      var last := rows[n - 1];
      if KeyOf(last) in index {
        assert index[KeyOf(last)] != index[k];
      }
    }
  }

  /**
   * Each indexed row keeps its key through the updates: an update only writes a
   * row whose key is the one the row is indexed under.
   */
  lemma {:induction false} UpdatedKeepsKeys(values: seq<Row>, index: map<Key, nat>, rows: seq<Row>, k: Key)
    requires WellFormed(rows) && IndexWithin(index, |values|) && Injective(index)
    requires forall i :: 0 <= i < |rows| ==> Keyed(rows[i])
    requires k in index
    requires Keyed(values[index[k] - 1]) && KeyOf(values[index[k] - 1]) == k
    ensures var r := Updated(values, index, rows)[index[k] - 1];
      Keyed(r) && KeyOf(r) == k
  {
    if rows != [] {
      var n := |rows|;
      UpdatedKeepsKeys(values, index, rows[..n - 1], k);
      var last := rows[n - 1];
      if KeyOf(last) in index && index[KeyOf(last)] == index[k] {
        assert KeyOf(last) == k;
      }
    }
  }

  /** After an upsert on a sheet with a header row, every input row's key is in the sheet's index. */
  lemma UpsertIndexesAll(values: seq<Row>, rows: seq<Row>)
    requires |values| >= 1
    requires WellFormed(rows)
    requires forall i :: 0 <= i < |rows| ==> Keyed(rows[i])
    ensures forall i :: 0 <= i < |rows| ==> KeyOf(rows[i]) in KeyIndex(Upserted(values, rows))
  {
    forall i | 0 <= i < |rows| ensures KeyOf(rows[i]) in KeyIndex(Upserted(values, rows)) {
      if KeyOf(rows[i]) in KeyIndex(values) {
        UpsertKeepsKey(values, rows, KeyOf(rows[i]));
      } else {
        UpsertIndexesNewRow(values, rows, i);
      }
    }
  }

  /** A key the sheet already indexed is still indexed after an upsert: updates keep columns A and B. */
  lemma UpsertKeepsKey(values: seq<Row>, rows: seq<Row>, k: Key)
    requires WellFormed(rows)
    requires forall i :: 0 <= i < |rows| ==> Keyed(rows[i])
    requires k in KeyIndex(values)
    ensures k in KeyIndex(Upserted(values, rows))
  {
    var index := KeyIndex(values);
    KeyIndexInjective(values);
    var once := Upserted(values, rows);
    var updated := Updated(values, index, rows);
    assert once == updated + NewRows(index, rows);
    IndexUpToSound(values, |values|, k);
    UpdatedKeepsKeys(values, index, rows, k);
    assert once[index[k] - 1] == updated[index[k] - 1];
    IndexUpToComplete(once, |once|, index[k] - 1);
  }

  /** An input row whose key the sheet did not index is appended, and so its key is indexed afterwards. */
  lemma UpsertIndexesNewRow(values: seq<Row>, rows: seq<Row>, i: nat)
    requires |values| >= 1
    requires WellFormed(rows)
    requires i < |rows| && Keyed(rows[i])
    requires KeyOf(rows[i]) !in KeyIndex(values)
    ensures KeyOf(rows[i]) in KeyIndex(Upserted(values, rows))
  {
    var index := KeyIndex(values);
    var once := Upserted(values, rows);
    var batch := NewRows(index, rows);
    assert once == Updated(values, index, rows) + batch;
    NewRowsCount(index, rows, rows[i]);
    assert rows[i] in rows;
    assert rows[i] in batch;
    var p :| 0 <= p < |batch| && batch[p] == rows[i];
    assert once[|values| + p] == rows[i];
    IndexUpToComplete(once, |once|, |values| + p);
  }

  /**
   * Idempotence: after an upsert on a sheet with a header row, a second upsert
   * whose rows carry only keys of the first (the same rows, or the same days
   * with fresh rates and timestamps) appends nothing and leaves the row count
   * as it is; all it sends are in-place updates.
   */
  lemma UpsertIdempotent(values: seq<Row>, rows: seq<Row>, again: seq<Row>)
    requires |values| >= 1
    requires WellFormed(rows) && WellFormed(again)
    requires forall i :: 0 <= i < |rows| ==> Keyed(rows[i])
    requires forall j :: 0 <= j < |again| ==> KeyOf(again[j]) in KeysOf(rows)
    ensures NewRows(KeyIndex(Upserted(values, rows)), again) == []
    ensures |Upserted(Upserted(values, rows), again)| == |Upserted(values, rows)|
    ensures forall w :: w in UpsertWrites(Upserted(values, rows), again) ==> w.UpdateRange?
  {
    var once := Upserted(values, rows);
    UpsertIndexesAll(values, rows);
    forall j | 0 <= j < |again| ensures KeyOf(again[j]) in KeyIndex(once) {
      var i :| 0 <= i < |rows| && KeyOf(rows[i]) == KeyOf(again[j]);
    }
    NewRowsEmpty(KeyIndex(once), again);
    UpdateWritesAreUpdates(KeyIndex(once), again);
  }

  lemma {:induction false} UpdateWritesAreUpdates(index: map<Key, nat>, rows: seq<Row>)
    requires WellFormed(rows)
    ensures forall w :: w in UpdateWrites(index, rows) ==> w.UpdateRange?
  {
    if rows != [] {
      UpdateWritesAreUpdates(index, rows[..|rows| - 1]);
    }
  }

  /**
   * Without a header row the first appended row lands in row 1, which the index
   * skips, so a second identical run appends it again.
   */
  lemma HeaderlessSheetGrows(row: Row)
    requires 2 <= |row| <= Width
    ensures Upserted([], [row]) == [row]
    ensures Upserted(Upserted([], [row]), [row]) == [row, row]
  {
    assert KeyIndex([]) == map[];
    assert Upserted([], [row]) == [row];
    assert KeyIndex([row]) == map[];
    assert NewRows(map[], [row]) == [row];
    assert Updated([row], map[], [row]) == [row];
  }
}
