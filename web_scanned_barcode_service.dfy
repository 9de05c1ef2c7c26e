/** The Web ScannedBarcodeService: reads, adds to and deletes from the ScannedBarcodes table. */
module WebScannedBarcodes {
  import opened Wrappers
  import opened Domain
  import opened ServiceResponses
  import opened Submission
  import opened ScannedBarcodeStore

  class ScannedBarcodeService {
    /** The ScannedBarcodes table and the next value of its identity column. */
    var store: Store
    var nextId: int

    ghost predicate Valid()
      reads this
    {
      Keyed(store, nextId)
    }

    constructor(table: Store, next: int)
      requires Keyed(table, next)
      ensures Valid() && store == table && nextId == next
    {
      store := table;
      nextId := next;
    }

    /** GetScannedBarcodeListAsync: every row, newest id first; a cancelled or failed read gives its message. */
    method GetScannedBarcodeList(fault: Fault) returns (r: DataResponse<seq<ScannedBarcode>>)
      requires Valid()
      ensures fault.NoFault? ==> (r.success && r.message.None? && r.data.Some?
        && (forall id :: id in store ==> store[id] in r.data.value)
        && (forall x :: x in r.data.value ==> x.id in store && store[x.id] == x)
        && (forall i, j :: 0 <= i < j < |r.data.value| ==> r.data.value[i].id > r.data.value[j].id))
      ensures fault.Cancelled? ==> r == FailMessage(CancelledMessage)
      ensures fault.UpdateConflict? || fault.Unexpected? ==> r == FailMessage(UnexpectedMessage)
    {
      match fault {
        case NoFault =>
          AllRowsDescending(store, nextId);
          r := OkWith(RowsBelow(store, nextId), None);
        case Cancelled =>
          r := FailMessage(CancelledMessage);
        case _ =>
          r := FailMessage(UnexpectedMessage);
      }
    }

    /**
      AddScannedBarcodesAsync: saves the batch's trimmed values the table lacks, one row per value,
      and reports how many were saved and skipped. Any other exception's own message is returned.
     */
    method AddScannedBarcodes(items: Option<seq<ScanItem>>, fault: Fault) returns (r: DataResponse<int>)
      requires Valid()
      modifies this
      ensures Valid() && (old(DistinctStore(store)) ==> DistinctStore(store))
      ensures items.None? || |items.value| == 0 ==>
        r == FailMessage(NoItemsMessage) && store == old(store) && nextId == old(nextId)
      ensures items.Some? && |items.value| > 0 && fault.Cancelled? ==>
        r == FailMessage(CancelledMessage) && store == old(store) && nextId == old(nextId)
      ensures items.Some? && |items.value| > 0 && fault.Unexpected? ==>
        r == FailMessage(fault.message) && store == old(store) && nextId == old(nextId)
      ensures items.Some? && |items.value| > 0 && (fault.NoFault? || fault.UpdateConflict?) && NewRows(items.value, StoredValues(old(store))) == [] ==>
        r == OkWith(0, Some(NothingNewMessage)) && store == old(store) && nextId == old(nextId)
      ensures items.Some? && |items.value| > 0 && fault.UpdateConflict? && NewRows(items.value, StoredValues(old(store))) != [] ==>
        r == FailMessage(InsertConflictMessage) && store == old(store) && nextId == old(nextId)
      ensures items.Some? && |items.value| > 0 && fault.NoFault? && NewRows(items.value, StoredValues(old(store))) != [] ==>
        store == old(store) + WithIds(NewRows(items.value, StoredValues(old(store))), old(nextId))
        && nextId == old(nextId) + |NewRows(items.value, StoredValues(old(store)))|
        && r == SavedResponse(|items.value|, |NewRows(items.value, StoredValues(old(store)))|)
    {
      if items.None? || |items.value| == 0 {
        r := FailMessage(NoItemsMessage);
      } else if fault.Cancelled? {
        r := FailMessage(CancelledMessage);
      } else if fault.Unexpected? {
        r := FailMessage(fault.message);
      } else {
        var unseen := NewRows(items.value, StoredValues(store));
        if |unseen| == 0 {
          r := OkWith(0, Some(NothingNewMessage));
        } else if fault.UpdateConflict? {
          r := FailMessage(InsertConflictMessage);
        } else {
          NewRowsProperties(items.value, StoredValues(store));
          r := SavedResponse(|items.value|, |unseen|);
          Save(unseen);
        }
      }
    }

    /** AddRangeAsync and SaveChangesAsync: the rows enter the table under the next ids. */
    method Save(rows: seq<ScannedBarcode>)
      requires Valid()
      requires DistinctValues(rows) && forall x :: x in rows ==> x.value !in StoredValues(store)
      modifies this
      ensures Valid()
      ensures store == old(store) + WithIds(rows, old(nextId)) && nextId == old(nextId) + |rows|
      ensures old(DistinctStore(store)) ==> DistinctStore(store)
    {
      InsertKeepsStore(store, nextId, rows);
      store := store + WithIds(rows, nextId);
      nextId := nextId + |rows|;
    }

    /** DeleteScannedBarcodeAsync: removes the row with that id; a missing id is reported, not an error. */
    method DeleteScannedBarcode(id: int, fault: Fault) returns (r: DataResponse<int>)
      requires Valid()
      modifies this
      ensures Valid() && nextId == old(nextId)
      ensures id <= 0 ==> r == FailMessage(InvalidIdMessage) && store == old(store)
      ensures id > 0 && fault.Cancelled? ==> r == FailMessage(CancelledMessage) && store == old(store)
      ensures id > 0 && fault.Unexpected? ==> r == FailMessage(UnexpectedMessage) && store == old(store)
      ensures id > 0 && !fault.Cancelled? && !fault.Unexpected? && id !in old(store) ==>
        r == OkWith(0, Some(NotFoundMessage(id))) && store == old(store)
      ensures id > 0 && fault.UpdateConflict? && id in old(store) ==>
        r == FailMessage(DeleteConflictMessage) && store == old(store)
      ensures id > 0 && fault.NoFault? && id in old(store) ==>
        r == OkWith(1, Some(DeletedMessage(old(store)[id].value))) && store == old(store) - {id}
    {
      if id <= 0 {
        r := FailMessage(InvalidIdMessage);
      } else if fault.Cancelled? {
        r := FailMessage(CancelledMessage);
      } else if fault.Unexpected? {
        r := FailMessage(UnexpectedMessage);
      } else if id !in store {
        r := OkWith(0, Some(NotFoundMessage(id)));
      } else if fault.UpdateConflict? {
        r := FailMessage(DeleteConflictMessage);
      } else {
        var row := store[id];
        store := store - {id};
        r := OkWith(1, Some(DeletedMessage(row.value)));
      }
    }
  }

  /** Deleting is idempotent: once a row is gone, deleting its id again reports it as not found. */
  method DeleteTwice(s: ScannedBarcodeService, id: int)
    requires s.Valid() && id > 0 && id in s.store
    modifies s
    ensures s.store == old(s.store) - {id}
  {
    var first := s.DeleteScannedBarcode(id, NoFault);
    assert first.success;
    var second := s.DeleteScannedBarcode(id, NoFault);
    assert second == OkWith(0, Some(NotFoundMessage(id)));
  }
}
