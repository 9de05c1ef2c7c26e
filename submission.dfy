/**
  The batch pipeline both ScannedBarcodeService versions run before writing: trim each value, keep the
  first row of each value (case-sensitive), and drop the values the store already holds.
 */
module Submission {
  import opened Text
  import opened Lists
  import opened Domain

  /** The row an item becomes: its value trimmed, its format, category and time copied; the store assigns the id. */
  function ToRow(item: ScanItem): ScannedBarcode
  {
    ScannedBarcode(0, Trim(item.value), item.barcodeType, item.category, item.scannedTime)
  }

  /** `items.Select(ToRow)`. */
  function ToRows(items: seq<ScanItem>): (rows: seq<ScannedBarcode>)
    ensures |rows| == |items| && forall i :: 0 <= i < |items| ==> rows[i] == ToRow(items[i])
  {
    seq(|items|, i requires 0 <= i < |items| => ToRow(items[i]))
  }

  function RowValues(rows: seq<ScannedBarcode>): (r: seq<string>)
    ensures |r| == |rows| && forall i :: 0 <= i < |rows| ==> r[i] == rows[i].value
  {
    seq(|rows|, i requires 0 <= i < |rows| => rows[i].value)
  }

  predicate DistinctValues(rows: seq<ScannedBarcode>)
  {
    forall i, j :: 0 <= i < j < |rows| ==> rows[i].value != rows[j].value
  }

  /** `GroupBy(x => x.Value).Select(g => g.First())`: one row per value, the first one, in order of first appearance. */
  function DistinctByValue(rows: seq<ScannedBarcode>): (r: seq<ScannedBarcode>)
    ensures |r| <= |rows| && DistinctValues(r)
    ensures forall x :: x in r ==> x in rows
  {
    if |rows| == 0 then []
    else
      var d := DistinctByValue(rows[..|rows| - 1]);
      var x := rows[|rows| - 1];
      if x.value in RowValues(d) then d else d + [x]
  }

  /** No value is lost: the distinct rows carry exactly the values of the batch. */
  lemma {:induction false} DistinctKeepsValues(rows: seq<ScannedBarcode>, v: string)
    ensures v in RowValues(DistinctByValue(rows)) <==> v in RowValues(rows)
  {
    if |rows| > 0 {
      var init := rows[..|rows| - 1];
      DistinctKeepsValues(init, v);
      assert RowValues(rows) == RowValues(init) + [rows[|rows| - 1].value];
      var d := DistinctByValue(init);
      if rows[|rows| - 1].value !in RowValues(d) {
        assert RowValues(d + [rows[|rows| - 1]]) == RowValues(d) + [rows[|rows| - 1].value];
      }
    }
  }

  /** Each row of `r` is the first row of `rows` carrying its value. */
  predicate FirstOccurrences(r: seq<ScannedBarcode>, rows: seq<ScannedBarcode>)
  {
    forall k :: 0 <= k < |r| ==>
      r[k].value in RowValues(rows) && r[k] == rows[IndexOf(RowValues(rows), r[k].value)]
  }

  /** The rows of `r` come in the order in which their values first appear in `rows`. */
  predicate InFirstOccurrenceOrder(r: seq<ScannedBarcode>, rows: seq<ScannedBarcode>)
  {
    forall k, l :: 0 <= k < l < |r| ==>
      IndexOf(RowValues(rows), r[k].value) < IndexOf(RowValues(rows), r[l].value)
  }

  /** Each kept row is the first row of the batch with its value, and the kept rows are in the order of those first rows. */
  lemma DistinctKeepsFirst(rows: seq<ScannedBarcode>)
    ensures forall k :: 0 <= k < |DistinctByValue(rows)| ==>
      DistinctByValue(rows)[k].value in RowValues(rows)
      && DistinctByValue(rows)[k] == rows[IndexOf(RowValues(rows), DistinctByValue(rows)[k].value)]
    ensures forall k, l :: 0 <= k < l < |DistinctByValue(rows)| ==>
      IndexOf(RowValues(rows), DistinctByValue(rows)[k].value) < IndexOf(RowValues(rows), DistinctByValue(rows)[l].value)
  {
    DistinctFirstRows(rows);
    DistinctFirstOrder(rows);
  }

  /** Appending a row keeps the first index of every value the list already held. */
  lemma IndexOfSnoc(rows: seq<ScannedBarcode>)
    requires |rows| > 0
    ensures forall v :: v in RowValues(rows[..|rows| - 1]) ==>
      IndexOf(RowValues(rows), v) == IndexOf(RowValues(rows[..|rows| - 1]), v)
  {
    var init := rows[..|rows| - 1];
    assert RowValues(rows) == RowValues(init) + [rows[|rows| - 1].value];
    forall v | v in RowValues(init)
      ensures IndexOf(RowValues(rows), v) == IndexOf(RowValues(init), v)
    {
      IndexOfPrefix(RowValues(init), [rows[|rows| - 1].value], v);
    }
  }

  /** Every kept row's value occurs in the batch. */
  lemma DistinctValuesOccur(rows: seq<ScannedBarcode>)
    ensures forall k :: 0 <= k < |DistinctByValue(rows)| ==> DistinctByValue(rows)[k].value in RowValues(rows)
  {
    var d := DistinctByValue(rows);
    forall k | 0 <= k < |d| ensures d[k].value in RowValues(rows) {
      DistinctKeepsValues(rows, d[k].value);
      assert d[k].value in RowValues(d);
    }
  }

  /** A value new to the batch so far is first found at the appended row. */
  lemma IndexOfNewLast(rows: seq<ScannedBarcode>)
    requires |rows| > 0 && rows[|rows| - 1].value !in RowValues(rows[..|rows| - 1])
    ensures IndexOf(RowValues(rows), rows[|rows| - 1].value) == |rows| - 1
  {
    var init := rows[..|rows| - 1];
    assert RowValues(rows) == RowValues(init) + [rows[|rows| - 1].value];
    IndexOfLast(RowValues(init), rows[|rows| - 1].value);
  }

  lemma {:induction false} DistinctFirstRows(rows: seq<ScannedBarcode>)
    ensures FirstOccurrences(DistinctByValue(rows), rows)
  {
    if |rows| > 0 {
      var init := rows[..|rows| - 1];
      var x := rows[|rows| - 1];
      var d := DistinctByValue(init);
      DistinctFirstRows(init);
      IndexOfSnoc(rows);
      DistinctValuesOccur(init);
      assert RowValues(rows) == RowValues(init) + [x.value];
      assert forall k :: 0 <= k < |init| ==> rows[k] == init[k];
      if x.value !in RowValues(d) {
        DistinctKeepsValues(init, x.value);
        IndexOfNewLast(rows);
      }
    }
  }

  lemma {:induction false} DistinctFirstOrder(rows: seq<ScannedBarcode>)
    ensures InFirstOccurrenceOrder(DistinctByValue(rows), rows)
  {
    if |rows| > 0 {
      var init := rows[..|rows| - 1];
      var x := rows[|rows| - 1];
      var d := DistinctByValue(init);
      DistinctFirstOrder(init);
      IndexOfSnoc(rows);
      DistinctValuesOccur(init);
      if x.value !in RowValues(d) {
        DistinctKeepsValues(init, x.value);
        IndexOfNewLast(rows);
        var r := d + [x];
        forall k, l | 0 <= k < l < |r|
          ensures IndexOf(RowValues(rows), r[k].value) < IndexOf(RowValues(rows), r[l].value)
        {
          assert r[k] == d[k];
          assert IndexOf(RowValues(rows), d[k].value) == IndexOf(RowValues(init), d[k].value) < |init|;
          if l < |d| {
            assert r[l] == d[l];
          }
        }
      } else {
        assert DistinctByValue(rows) == d;
      }
    }
  }

  /** The first index of `v` in `a + b` is its first index in `a` when `a` holds it. */
  lemma IndexOfPrefix<T>(a: seq<T>, b: seq<T>, v: T)
    requires v in a
    ensures IndexOf(a + b, v) == IndexOf(a, v)
  {
    var i := IndexOf(a, v);
    assert (a + b)[i] == v;
    assert forall k :: 0 <= k < i ==> (a + b)[k] == a[k];
  }

  /** A value missing from `a` is first found at the end of `a + [v]`. */
  lemma IndexOfLast<T>(a: seq<T>, v: T)
    requires v !in a
    ensures IndexOf(a + [v], v) == |a|
  {
    assert (a + [v])[|a|] == v;
    assert forall k :: 0 <= k < |a| ==> (a + [v])[k] == a[k];
  }

  /** `Where(i => !existing.Contains(i.Value))`: the rows whose value the store does not hold. */
  function NewOnly(rows: seq<ScannedBarcode>, stored: set<string>): (r: seq<ScannedBarcode>)
    ensures forall x :: x in r <==> x in rows && x.value !in stored
  {
    var keep := (x: ScannedBarcode) => x.value !in stored;
    FilterMembershipAll(keep, rows);
    Filter(keep, rows)
  }

  /** The rows a submission of `items` would insert into a store holding the values `stored`. */
  function NewRows(items: seq<ScanItem>, stored: set<string>): seq<ScannedBarcode>
  {
    NewOnly(DistinctByValue(ToRows(items)), stored)
  }

  /** What is inserted is new, not repeated within itself, and covers every trimmed value the store lacked. */
  lemma NewRowsProperties(items: seq<ScanItem>, stored: set<string>)
    ensures |NewRows(items, stored)| <= |items|
    ensures DistinctValues(NewRows(items, stored))
    ensures forall x :: x in NewRows(items, stored) ==> x.value !in stored
    ensures forall i :: 0 <= i < |items| && Trim(items[i].value) !in stored ==>
      Trim(items[i].value) in RowValues(NewRows(items, stored))
  {
    var rows := ToRows(items);
    var d := DistinctByValue(rows);
    var n := NewRows(items, stored);
    FilterSubsequence(d, stored);
    forall i | 0 <= i < |items| && Trim(items[i].value) !in stored
      ensures Trim(items[i].value) in RowValues(n)
    {
      var v := Trim(items[i].value);
      assert RowValues(rows)[i] == v;
      DistinctKeepsValues(rows, v);
      var k :| 0 <= k < |d| && RowValues(d)[k] == v;
      assert d[k] in n;
      var m :| 0 <= m < |n| && n[m] == d[k];
      assert RowValues(n)[m] == v;
    }
  }

  /** Filtering distinct rows keeps them distinct and does not make the list longer. */
  lemma FilterSubsequence(d: seq<ScannedBarcode>, stored: set<string>)
    requires DistinctValues(d)
    ensures |NewOnly(d, stored)| <= |d| && DistinctValues(NewOnly(d, stored))
  {
    FilterDistinct(d, (x: ScannedBarcode) => x.value !in stored);
  }

  lemma {:induction false} FilterDistinct(d: seq<ScannedBarcode>, p: ScannedBarcode -> bool)
    requires DistinctValues(d)
    ensures DistinctValues(Filter(p, d))
  {
    if |d| > 0 {
      FilterDistinct(d[1..], p);
      if p(d[0]) {
        var f := Filter(p, d[1..]);
        forall x | x in f ensures x.value != d[0].value {
          FilterMembership(p, d[1..], x);
          var j :| 0 <= j < |d[1..]| && d[1..][j] == x;
          assert d[j + 1] == x;
        }
      }
    }
  }

  /** Submitting again what was just stored inserts nothing: the second call finds every value in the store. */
  lemma ResubmitInsertsNothing(items: seq<ScanItem>, stored: set<string>)
    ensures NewRows(items, stored + set x | x in NewRows(items, stored) :: x.value) == []
  {
    var n := NewRows(items, stored);
    var after := stored + set x | x in n :: x.value;
    var d := DistinctByValue(ToRows(items));
    forall x | x in d ensures x.value in after {
      if x.value !in stored {
        assert x in n;
      }
    }
    var n2 := NewRows(items, after);
    assert forall x :: x !in n2;
    NoMembersIsEmpty(n2);
  }
}
