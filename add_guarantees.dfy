/** What AddScannedBarcodesAsync, in both services, guarantees about the table across calls. */
module AddGuarantees {
  import opened Text
  import opened Lists
  import opened Domain
  import opened Submission
  import opened ScannedBarcodeStore

  /** Nothing is new exactly when every trimmed value of the batch is already in the table. */
  lemma NothingNewIffAllStored(items: seq<ScanItem>, stored: set<string>)
    ensures NewRows(items, stored) == [] <==> forall i :: 0 <= i < |items| ==> Trim(items[i].value) in stored
  {
    NewRowsProperties(items, stored);
    var n := NewRows(items, stored);
    if forall i :: 0 <= i < |items| ==> Trim(items[i].value) in stored {
      var rows := ToRows(items);
      forall x | x in DistinctByValue(rows) ensures x.value in stored {
        var i :| 0 <= i < |rows| && rows[i] == x;
        assert x.value == Trim(items[i].value);
      }
      NoMembersIsEmpty(n);
    } else {
      var i :| 0 <= i < |items| && Trim(items[i].value) !in stored;
      assert Trim(items[i].value) in RowValues(n);
    }
  }

  /** Once a batch is saved, the same batch finds nothing new: submitting it again saves nothing more. */
  lemma AddTwiceSavesOnce(store: Store, nextId: int, items: seq<ScanItem>)
    requires Keyed(store, nextId)
    ensures var unseen := NewRows(items, StoredValues(store));
      NewRows(items, StoredValues(store + WithIds(unseen, nextId))) == []
  {
    var stored := StoredValues(store);
    var unseen := NewRows(items, stored);
    InsertedValues(store, nextId, unseen);
    ResubmitInsertsNothing(items, stored);
  }
}
