/**
 * The spreadsheet behind the sync (a gspread worksheet): a header row and
 * data rows of positional cells, addressed by 1-based row number, plus the
 * key index `load_existing_keys` builds over it (app.py).
 */
module RecordStore {

  type Row = seq<string>

  /** The composite key of a rate row: (date, currency), columns A and B. */
  type Key = (string, string)

  /** The columns an update addresses, A through E. */
  const Width: nat := 5

  /** A row the index can key: it has columns A and B and neither is empty. */
  predicate Keyed(row: Row)
  {
    |row| >= 2 && row[0] != "" && row[1] != ""
  }

  function KeyOf(row: Row): Key
    requires |row| >= 2
  {
    (row[0], row[1])
  }

  /** A write request sent to the spreadsheet service. */
  datatype Write =
    | UpdateRange(rowNumber: nat, row: Row)  // `ws.update(range_name="A<r>:E<r>", values=[row])`
    | AppendRows(rows: seq<Row>)             // `ws.append_rows(rows)`

  /** The cells `row` writes from column A on replace the old ones; cells past its width stay. */
  function Overlay(row: Row, current: Row): (r: Row)
    ensures |r| == if |row| < |current| then |current| else |row|
    ensures r[..|row|] == row
    ensures forall c :: |row| <= c < |current| ==> r[c] == current[c]
  {
    if |row| < |current| then row + current[|row|..] else row
  }

  class Worksheet {
    /** Every row of the sheet, the header included, as `get_all_values` returns them. */
    var values: seq<Row>
    /** The writes sent so far, in order. */
    var writes: seq<Write>

    constructor (initial: seq<Row>)
      ensures values == initial && writes == []
    {
      values := initial;
      writes := [];
    }

    /** Overwrites columns A..E of row `rowNumber` (1-based) with `row`. */
    method Update(rowNumber: nat, row: Row)
      requires 1 <= rowNumber <= |values|
      requires |row| <= Width
      modifies this
      ensures values == old(values)[rowNumber - 1 := Overlay(row, old(values)[rowNumber - 1])]
      ensures writes == old(writes) + [UpdateRange(rowNumber, row)]
    {
      values := values[rowNumber - 1 := Overlay(row, values[rowNumber - 1])];
      writes := writes + [UpdateRange(rowNumber, row)];
    }

    /** Adds `rows` after the last row, in order, in one request. */
    method Append(rows: seq<Row>)
      modifies this
      ensures values == old(values) + rows
      ensures writes == old(writes) + [AppendRows(rows)]
    {
      values := values + rows;
      writes := writes + [AppendRows(rows)];
    }
  }

  /**
   * The index over the first `n` rows: every keyed row after the header maps its
   * key to its 1-based row number, a later row overwriting an earlier one.
   */
  function IndexUpTo(values: seq<Row>, n: nat): map<Key, nat>
    requires n <= |values|
  {
    if n <= 1 then map[]
    else
      var m := IndexUpTo(values, n - 1);
      var row := values[n - 1];
      if Keyed(row) then m[KeyOf(row) := n] else m
  }

  /** The key index of a whole sheet: every indexed row number is a data row of the sheet. */
  function KeyIndex(values: seq<Row>): (index: map<Key, nat>)
    ensures forall k :: k in index ==> 2 <= index[k] <= |values|
  {
    IndexUpToBounds(values, |values|);
    IndexUpTo(values, |values|)
  }

  /** Reads the whole sheet once and indexes every keyed data row by (date, currency). */
  method LoadExistingKeys(ws: Worksheet) returns (keys: map<Key, nat>)
    ensures keys == KeyIndex(ws.values)
  {
    var values := ws.values;
    keys := map[];
    var i := 1;
    while i < |values|
      invariant 1 <= i <= |values| || (values == [] && i == 1)
      invariant keys == IndexUpTo(values, if values == [] then 0 else i)
    {
      var row := values[i];
      if |row| >= 2 && row[0] != "" && row[1] != "" {
        keys := keys[(row[0], row[1]) := i + 1];
      }
      i := i + 1;
    }
  }

  /**
   * Soundness of the index: a key maps to a data row (never the header, row 1)
   * that carries that key, and no later row carries it (the last duplicate wins).
   */
  lemma {:induction false} IndexUpToSound(values: seq<Row>, n: nat, k: Key)
    requires n <= |values|
    requires k in IndexUpTo(values, n)
    ensures var r := IndexUpTo(values, n)[k];
      && 2 <= r <= n
      && Keyed(values[r - 1]) && KeyOf(values[r - 1]) == k
      && forall j :: r <= j < n ==> !(Keyed(values[j]) && KeyOf(values[j]) == k)
  {
    var row := values[n - 1];
    if !(Keyed(row) && KeyOf(row) == k) {
      IndexUpToSound(values, n - 1, k);
    }
  }

  /** Completeness of the index: every keyed data row's key is present, at that row or a later one. */
  lemma {:induction false} IndexUpToComplete(values: seq<Row>, n: nat, j: nat)
    requires n <= |values|
    requires 1 <= j < n && Keyed(values[j])
    ensures KeyOf(values[j]) in IndexUpTo(values, n)
    ensures IndexUpTo(values, n)[KeyOf(values[j])] >= j + 1
  {
    if j < n - 1 {
      IndexUpToComplete(values, n - 1, j);
    }
  }

  /**
   * The key index in full: `k` is indexed exactly when some data row carries it,
   * and then it maps to the last such row's 1-based number.
   */
  lemma KeyIndexCharacterized(values: seq<Row>, k: Key)
    ensures k in KeyIndex(values) <==> exists j :: 1 <= j < |values| && Keyed(values[j]) && KeyOf(values[j]) == k
    ensures k in KeyIndex(values) ==>
      var r := KeyIndex(values)[k];
      && 2 <= r <= |values|
      && Keyed(values[r - 1]) && KeyOf(values[r - 1]) == k
      && forall j :: r <= j < |values| ==> !(Keyed(values[j]) && KeyOf(values[j]) == k)
  {
    if k in KeyIndex(values) {
      IndexUpToSound(values, |values|, k);
    } else if j :| 1 <= j < |values| && Keyed(values[j]) && KeyOf(values[j]) == k {
      IndexUpToComplete(values, |values|, j);
    }
  }

  /** No two keys share a row. */
  predicate Injective(index: map<Key, nat>)
  {
    forall k1, k2 :: k1 in index && k2 in index && index[k1] == index[k2] ==> k1 == k2
  }

  /** Distinct keys map to distinct rows. */
  lemma KeyIndexInjective(values: seq<Row>)
    ensures Injective(KeyIndex(values))
  {
    forall k1, k2 | k1 in KeyIndex(values) && k2 in KeyIndex(values) && KeyIndex(values)[k1] == KeyIndex(values)[k2]
      ensures k1 == k2
    {
      IndexUpToSound(values, |values|, k1);
      IndexUpToSound(values, |values|, k2);
    }
  }

  /** Every row number in the index over the first `n` rows is a data row among them. */
  lemma IndexUpToBounds(values: seq<Row>, n: nat)
    requires n <= |values|
    ensures forall k :: k in IndexUpTo(values, n) ==> 2 <= IndexUpTo(values, n)[k] <= n
  {
    forall k | k in IndexUpTo(values, n) ensures 2 <= IndexUpTo(values, n)[k] <= n {
      IndexUpToSound(values, n, k);
    }
  }
}
