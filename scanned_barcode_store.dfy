/**
  What the Web and MAUI ScannedBarcodeService share: the ScannedBarcodes table as a map from id to row,
  the failures a database call can end in, the messages, and the plan AddScannedBarcodesAsync follows.
 */
module ScannedBarcodeStore {
  import opened Wrappers
  import opened ServiceResponses
  import opened Text
  import opened Lists
  import opened Domain
  import opened Submission

  /**
    How the database calls of one service call end. `Unexpected` is any other exception, with its message.
    Cancellation and unexpected failures are taken to happen at the first call (the query); an
    update conflict can only come from SaveChangesAsync, so it matters only when something is saved.
   */
  datatype Fault = NoFault | Cancelled | UpdateConflict | Unexpected(message: string)

  const NoItemsMessage: string := "No barcode items provided."
  const NothingNewMessage: string := "No new barcodes to save. All provided values already exist or are duplicates."
  const InsertConflictMessage: string := "Some barcodes were already inserted (possibly by another process). Please retry."
  const CancelledMessage: string := "Operation cancelled."
  const UnexpectedMessage: string := "Unexpected error occurred. Please try again later."
  const InvalidIdMessage: string := "Invalid barcode ID."
  const DeleteConflictMessage: string := "Unable to delete the barcode due to a database constraint or concurrency issue."

  function SavedMessage(affected: nat, skipped: nat): string
  {
    NatToString(affected) + " new barcode(s) saved. " + NatToString(skipped) + " duplicate/existing value(s) skipped."
  }

  /** The success answer of a save: `saved` rows written, the rest of the batch of `batch` items skipped. */
  function SavedResponse(batch: nat, saved: nat): (r: DataResponse<int>)
    requires saved <= batch
    ensures r.success && r.data == Some(saved) && r.message == Some(SavedMessage(saved, batch - saved))
  {
    OkWith(saved, Some(SavedMessage(saved, batch - saved)))
  }

  function NotFoundMessage(id: nat): string
  {
    "Barcode (Id=" + NatToString(id) + ") not found. Nothing to delete."
  }

  function DeletedMessage(value: string): string
  {
    "Barcode value (" + value + ") deleted."
  }

  /** The table: each row under its own id. */
  type Store = map<int, ScannedBarcode>

  /** Ids are positive, each row sits under its own id, and every id is below the next one the table hands out. */
  predicate Keyed(store: Store, nextId: int)
  {
    0 < nextId && forall id :: id in store ==> 0 < id < nextId && store[id].id == id
  }

  function StoredValues(store: Store): set<string>
  {
    set id | id in store :: store[id].value
  }

  /** No two rows of the table hold the same value. */
  predicate DistinctStore(store: Store)
  {
    forall a, b :: a in store && b in store && a != b ==> store[a].value != store[b].value
  }

  /** The identity column: `rows` stored under consecutive ids starting at `first`. */
  function WithIds(rows: seq<ScannedBarcode>, first: int): (r: map<int, ScannedBarcode>)
    ensures forall id :: id in r <==> first <= id < first + |rows|
    ensures forall k :: 0 <= k < |rows| ==> r[first + k] == rows[k].(id := first + k)
  {
    if |rows| == 0 then map[]
    else
      var last := first + |rows| - 1;
      WithIds(rows[..|rows| - 1], first)[last := rows[|rows| - 1].(id := last)]
  }

  /** `OrderByDescending(u => u.Id)` over the rows with an id below `k`. */
  function RowsBelow(store: Store, k: int): (r: seq<ScannedBarcode>)
    requires forall id :: id in store ==> 0 < id && store[id].id == id
    ensures forall i, j :: 0 <= i < j < |r| ==> r[i].id > r[j].id
    ensures forall i :: 0 <= i < |r| ==> r[i].id < k
    ensures forall x :: x in r <==> x.id < k && x.id in store && store[x.id] == x
    decreases k
  {
    if k <= 1 then []
    else (if k - 1 in store then [store[k - 1]] else []) + RowsBelow(store, k - 1)
  }

  /** The whole table, newest id first: every row once, in strictly descending id order. */
  lemma AllRowsDescending(store: Store, nextId: int)
    requires Keyed(store, nextId)
    ensures forall id :: id in store ==> store[id] in RowsBelow(store, nextId)
    ensures forall x :: x in RowsBelow(store, nextId) ==> x.id in store && store[x.id] == x
    ensures forall i, j :: 0 <= i < j < |RowsBelow(store, nextId)| ==>
      RowsBelow(store, nextId)[i].id > RowsBelow(store, nextId)[j].id
  {
  }

  /** The values of a table grown by WithIds are the old values and those of the inserted rows. */
  lemma InsertedValues(store: Store, nextId: int, rows: seq<ScannedBarcode>)
    requires Keyed(store, nextId)
    ensures StoredValues(store + WithIds(rows, nextId)) == StoredValues(store) + set x | x in rows :: x.value
  {
    var grown := store + WithIds(rows, nextId);
    forall v | v in StoredValues(grown) ensures v in StoredValues(store) + set x | x in rows :: x.value {
      var id :| id in grown && grown[id].value == v;
      if id !in store {
        assert rows[id - nextId] in rows;
      }
    }
    forall v | v in (set x | x in rows :: x.value) ensures v in StoredValues(grown) {
      var x :| x in rows && x.value == v;
      var k :| 0 <= k < |rows| && rows[k] == x;
      assert nextId + k !in store;
      assert grown[nextId + k].value == v;
    }
  }

  /** Inserting rows with distinct new values into the table keeps its ids and its values distinct. */
  lemma InsertKeepsStore(store: Store, nextId: int, rows: seq<ScannedBarcode>)
    requires Keyed(store, nextId)
    requires DistinctValues(rows) && forall x :: x in rows ==> x.value !in StoredValues(store)
    ensures Keyed(store + WithIds(rows, nextId), nextId + |rows|)
    ensures DistinctStore(store) ==> DistinctStore(store + WithIds(rows, nextId))
  {
    var added := WithIds(rows, nextId);
    var grown := store + added;
    forall id | id in added ensures added[id] == rows[id - nextId].(id := id) {
      assert nextId + (id - nextId) == id;
    }
    if DistinctStore(store) {
      forall a, b | a in grown && b in grown && a != b ensures grown[a].value != grown[b].value {
        if a in store && b !in store {
          assert rows[b - nextId] in rows;
        } else if a !in store && b in store {
          assert rows[a - nextId] in rows;
        } else if a !in store && b !in store {
          assert grown[a].value == rows[a - nextId].value;
          assert grown[b].value == rows[b - nextId].value;
        }
      }
    }
  }

}
