/**
  The MAUI ScannedBarcodeService: the same batch add as the Web service, but reading and deleting are
  no-ops on the device.
 */
module MauiScannedBarcodes {
  import opened Wrappers
  import opened Domain
  import opened ServiceResponses
  import opened Submission
  import opened ScannedBarcodeStore

  const EmptyListMessage: string := "Mobile no-op: returning empty list."
  const DeleteSkippedMessage: string := "Mobile no-op: delete skipped."

  class ScannedBarcodeService {
    /** The local ScannedBarcodes table and the next value of its identity column. */
    var store: Store
    var nextId: int

    ghost predicate Valid()
      reads this
    {
      Keyed(store, nextId)
    }

    constructor(table: Store, next: int)
      requires Keyed(table, next)
      ensures Valid() && store == table && nextId == next
    {
      store := table;
      nextId := next;
    }

    /** GetScannedBarcodeListAsync: always an empty list, whatever the table holds. */
    method GetScannedBarcodeList() returns (r: DataResponse<seq<ScannedBarcode>>)
      ensures r.success && r.data == Some([]) && r.message == Some(EmptyListMessage)
    {
      r := OkWith([], Some(EmptyListMessage));
    }

    /**
      AddScannedBarcodesAsync: saves the batch's trimmed values the table lacks, one row per value,
      and reports how many were saved and skipped. Any other exception gives the generic message.
     */
    method AddScannedBarcodes(items: Option<seq<ScanItem>>, fault: Fault) returns (r: DataResponse<int>)
      requires Valid()
      modifies this
      ensures Valid() && (old(DistinctStore(store)) ==> DistinctStore(store))
      ensures items.None? || |items.value| == 0 ==>
        r == FailMessage(NoItemsMessage) && store == old(store) && nextId == old(nextId)
      ensures items.Some? && |items.value| > 0 && fault.Cancelled? ==>
        r == FailMessage(CancelledMessage) && store == old(store) && nextId == old(nextId)
      ensures items.Some? && |items.value| > 0 && fault.Unexpected? ==>
        r == FailMessage(UnexpectedMessage) && store == old(store) && nextId == old(nextId)
      ensures items.Some? && |items.value| > 0 && (fault.NoFault? || fault.UpdateConflict?) && NewRows(items.value, StoredValues(old(store))) == [] ==>
        r == OkWith(0, Some(NothingNewMessage)) && store == old(store) && nextId == old(nextId)
      ensures items.Some? && |items.value| > 0 && fault.UpdateConflict? && NewRows(items.value, StoredValues(old(store))) != [] ==>
        r == FailMessage(InsertConflictMessage) && store == old(store) && nextId == old(nextId)
      ensures items.Some? && |items.value| > 0 && fault.NoFault? && NewRows(items.value, StoredValues(old(store))) != [] ==>
        store == old(store) + WithIds(NewRows(items.value, StoredValues(old(store))), old(nextId))
        && nextId == old(nextId) + |NewRows(items.value, StoredValues(old(store)))|
        && r == SavedResponse(|items.value|, |NewRows(items.value, StoredValues(old(store)))|)
    {
      if items.None? || |items.value| == 0 {
        r := FailMessage(NoItemsMessage);
      } else if fault.Cancelled? {
        r := FailMessage(CancelledMessage);
      } else if fault.Unexpected? {
        r := FailMessage(UnexpectedMessage);
      } else {
        var unseen := NewRows(items.value, StoredValues(store));
        if |unseen| == 0 {
          r := OkWith(0, Some(NothingNewMessage));
        } else if fault.UpdateConflict? {
          r := FailMessage(InsertConflictMessage);
        } else {
          NewRowsProperties(items.value, StoredValues(store));
          r := SavedResponse(|items.value|, |unseen|);
          Save(unseen);
        }
      }
    }

    /** AddRangeAsync and SaveChangesAsync: the rows enter the table under the next ids. */
    method Save(rows: seq<ScannedBarcode>)
      requires Valid()
      requires DistinctValues(rows) && forall x :: x in rows ==> x.value !in StoredValues(store)
      modifies this
      ensures Valid()
      ensures store == old(store) + WithIds(rows, old(nextId)) && nextId == old(nextId) + |rows|
      ensures old(DistinctStore(store)) ==> DistinctStore(store)
    {
      InsertKeepsStore(store, nextId, rows);
      store := store + WithIds(rows, nextId);
      nextId := nextId + |rows|;
    }

    /** DeleteScannedBarcodeAsync: nothing is deleted; the answer is a success with 0 rows affected. */
    method DeleteScannedBarcode(id: int) returns (r: DataResponse<int>)
      ensures r.success && r.data == Some(0) && r.message == Some(DeleteSkippedMessage)
    {
      r := OkWith(0, Some(DeleteSkippedMessage));
    }
  }
}
