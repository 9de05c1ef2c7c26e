/**
  The Reorder page: the barcodes in reorder scope become draggable entries, a drop moves one entry
  with RemoveAt followed by Insert, and the copy text lists the entries in their current order.
 */
module Reorder {
  import opened Wrappers
  import opened Text
  import opened Lists
  import opened Domain
  import opened GroupLists

  /** DropBarcodeItem: the text shown, the drop zone it sits in, and the barcode it stands for. */
  datatype DropEntry = DropEntry(name: string, selector: string, barcode: Option<ScanItem>)

  /** `new DropBarcodeItem()`. */
  const DefaultEntry: DropEntry := DropEntry("", "1", None)

  /** MudItemDropInfo: the dropped item (possibly null), the zone it was dropped in and its index there. */
  datatype DropInfo = DropInfo(item: Option<DropEntry>, zone: string, indexInZone: int)

  /** How a drop ends: handled, or with an exception escaping the handler. */
  datatype DropOutcome = Handled | Threw

  /** The entry for one barcode: its value as the name, in zone "1", pointing back at the barcode. */
  function EntryFor(b: ScanItem): (e: DropEntry)
    ensures e.name == b.value && e.selector == "1" && e.barcode == Some(b)
  {
    DropEntry(b.value, "1", Some(b))
  }

  function EntriesFor(barcodes: seq<ScanItem>): (r: seq<DropEntry>)
    ensures |r| == |barcodes| && forall i :: 0 <= i < |barcodes| ==> r[i] == EntryFor(barcodes[i])
  {
    seq(|barcodes|, i requires 0 <= i < |barcodes| => EntryFor(barcodes[i]))
  }

  /**
    The barcodes OnInitialized puts in scope, as its queries select them (None when the list is untouched).
    The detector's selected id is nullable; a null id equals no group's id, so it finds no group.
   */
  function ScopeBarcodes(groups: Option<seq<Group>>, selectedId: Option<Guid>, source: BarcodeSource): Option<seq<ScanItem>>
  {
    if groups.None? || |groups.value| == 0 then None
    else if selectedId == Some(EmptyGuid) then
      Some(AllBarcodes(Filter((g: Group) => g.source == source && |g.barcodes| > 0, groups.value)))
    else if selectedId.None? then None
    else
      var found := FindById(groups.value, selectedId.value);
      if found.Some? && |found.value.barcodes| > 0 then Some(found.value.barcodes) else None
  }

  /**
    The scope in plain terms: with Guid.Empty selected, every barcode of every group of the selected source,
    group after group; with another id, the barcodes of the first group with that id, whatever its source;
    with no id at all, nothing.
   */
  lemma ScopeCharacterised(groups: Option<seq<Group>>, selectedId: Option<Guid>, source: BarcodeSource)
    ensures var s := ScopeBarcodes(groups, selectedId, source);
      && (groups.Some? && |groups.value| > 0 && selectedId == Some(EmptyGuid) ==>
            s == Some(AllBarcodes(OfSource(groups.value, source))))
      && (groups.Some? && selectedId.Some? && selectedId.value != EmptyGuid && FindById(groups.value, selectedId.value).Some?
            && |FindById(groups.value, selectedId.value).value.barcodes| > 0 ==>
            s == Some(FindById(groups.value, selectedId.value).value.barcodes))
      && (selectedId.None? ==> s.None?)
      && (s.None? ==> (groups.None? || |groups.value| == 0 || selectedId.None? || (selectedId.value != EmptyGuid &&
            (FindById(groups.value, selectedId.value).None? || FindById(groups.value, selectedId.value).value.barcodes == []))))
  {
    if groups.Some? {
      EmptyGroupsAddNothing(groups.value, source);
    }
  }

  /** Every barcode in the all-groups scope comes from a group of the selected source, and every such barcode is there. */
  lemma AllScopeMembership(groups: seq<Group>, source: BarcodeSource, b: ScanItem)
    ensures b in AllBarcodes(OfSource(groups, source)) <==> exists g :: g in groups && g.source == source && b in g.barcodes
  {
    var sel := OfSource(groups, source);
    AllBarcodesMembership(sel, b);
    if exists g :: g in groups && g.source == source && b in g.barcodes {
      var g :| g in groups && g.source == source && b in g.barcodes;
      assert g in sel;
      var k :| 0 <= k < |sel| && sel[k] == g;
    }
  }

  /** The copy text: the entry names joined by line feeds, or nothing to copy for an empty list. */
  function CopyText(entries: seq<DropEntry>): (text: Option<string>)
    ensures text.None? <==> entries == []
  {
    if |entries| > 0 then Some(JoinLines(Names(entries))) else None
  }

  function Names(entries: seq<DropEntry>): (r: seq<string>)
    ensures |r| == |entries| && forall i :: 0 <= i < |entries| ==> r[i] == entries[i].name
  {
    seq(|entries|, i requires 0 <= i < |entries| => entries[i].name)
  }

  /** The copied text splits back into the names in list order, when no name holds a line feed. */
  lemma CopyTextRoundTrip(entries: seq<DropEntry>)
    requires |entries| > 0 && forall i :: 0 <= i < |entries| ==> NoLineFeed(entries[i].name)
    ensures CopyText(entries).Some? && SplitLines(CopyText(entries).value) == Names(entries)
  {
    SplitJoinRoundTrip(Names(entries));
  }

  class ReorderPage {
    /** reorderableBarcodeItems. */
    var entries: seq<DropEntry>

    constructor()
      ensures entries == []
    {
      entries := [];
    }

    /** OnInitialized: builds the list from the detector's groups and reorder scope. */
    method OnInitialized(groups: Option<seq<Group>>, selectedId: Option<Guid>, source: BarcodeSource)
      modifies this
      ensures var s := ScopeBarcodes(groups, selectedId, source);
        (s.Some? ==> entries == EntriesFor(s.value)) && (s.None? ==> entries == old(entries))
    {
      if groups.None? || |groups.value| == 0 {
        return;
      }
      if selectedId == Some(EmptyGuid) {
        entries := EntriesFor(AllBarcodes(Filter((g: Group) => g.source == source && |g.barcodes| > 0, groups.value)));
      } else if selectedId.Some? {
        var found := FindById(groups.value, selectedId.value);
        if found.Some? && |found.value.barcodes| > 0 {
          entries := EntriesFor(found.value.barcodes);
        }
      }
    }

    /**
      ItemUpdated, corrected: a null item is ignored. Otherwise the item's zone is updated, and an item in
      the list at another index than its drop index is moved there. A drop index outside the list after
      the removal makes Insert throw, with the item already removed.
     */
    method ItemUpdated(drop: DropInfo) returns (outcome: DropOutcome)
      modifies this
      ensures drop.item.None? ==> outcome == Handled && entries == old(entries)
      ensures drop.item.Some? ==> MovedAsDropped(old(entries), drop, outcome, entries)
    {
      if drop.item.None? {
        return Handled;
      }
      outcome := DropItem(drop);
    }

    /** ItemUpdated as written: the zone is assigned through the item before the null test, so a null item throws. */
    method ItemUpdatedAsWritten(drop: DropInfo) returns (outcome: DropOutcome)
      modifies this
      ensures drop.item.None? ==> outcome == Threw && entries == old(entries)
      ensures drop.item.Some? ==> MovedAsDropped(old(entries), drop, outcome, entries)
    {
      if drop.item.None? {
        return Threw;
      }
      outcome := DropItem(drop);
    }

    /** The part of ItemUpdated after the null test. */
    method DropItem(drop: DropInfo) returns (outcome: DropOutcome)
      requires drop.item.Some?
      modifies this
      ensures MovedAsDropped(old(entries), drop, outcome, entries)
    {
      var item := drop.item.value;
      var currentIndex := IndexOf(entries, item);
      if currentIndex < 0 {
        return Handled;
      }
      var zoned := entries[currentIndex := item.(selector := drop.zone)];
      entries := zoned;
      var newIndex := drop.indexInZone;
      if currentIndex != newIndex {
        var moved := zoned[currentIndex];
        var removed := RemoveAt(zoned, currentIndex);
        entries := removed;
        if newIndex < 0 || newIndex > |removed| {
          return Threw;
        }
        entries := InsertAt(removed, newIndex, moved);
        assert entries == Move(zoned, currentIndex, newIndex);
      }
      outcome := Handled;
    }
  }

  /** The list after a drop of a non-null item, in terms of Move. */
  predicate MovedAsDropped(before: seq<DropEntry>, drop: DropInfo, outcome: DropOutcome, after: seq<DropEntry>)
    requires drop.item.Some?
  {
    var item := drop.item.value;
    var i := IndexOf(before, item);
    var zoned := if i < 0 then before else before[i := item.(selector := drop.zone)];
    var j := drop.indexInZone;
    if i < 0 || i == j then outcome == Handled && after == zoned
    else if 0 <= j < |before| then outcome == Handled && after == Move(zoned, i, j)
    else outcome == Threw && after == RemoveAt(zoned, i)
  }

  /**
    What a handled move of a listed item promises: the length and the multiset of entries (with the
    moved one re-zoned) are kept, the moved entry sits at the drop index, and the others keep their order.
   */
  lemma DropIsMove(before: seq<DropEntry>, drop: DropInfo, after: seq<DropEntry>)
    requires drop.item.Some? && MovedAsDropped(before, drop, Handled, after)
    requires drop.item.value in before && 0 <= drop.indexInZone < |before|
    ensures var i := IndexOf(before, drop.item.value);
      var zoned := before[i := drop.item.value.(selector := drop.zone)];
      |after| == |before| && multiset(after) == multiset(zoned)
      && after[drop.indexInZone] == zoned[i]
      && RemoveAt(after, drop.indexInZone) == RemoveAt(before, i)
  {
    var i := IndexOf(before, drop.item.value);
    var zoned := before[i := drop.item.value.(selector := drop.zone)];
    if i != drop.indexInZone {
      MovePermutes(zoned, i, drop.indexInZone);
      MoveKeepsOthersInOrder(zoned, i, drop.indexInZone);
      assert RemoveAt(zoned, i) == RemoveAt(before, i);
    }
  }

  /** Dropping an item that is not in the list changes nothing. */
  lemma DropOfUnlistedItem(before: seq<DropEntry>, drop: DropInfo, outcome: DropOutcome, after: seq<DropEntry>)
    requires drop.item.Some? && drop.item.value !in before && MovedAsDropped(before, drop, outcome, after)
    ensures outcome == Handled && after == before
  {
  }

  /** A drop with a null item: the handler as written throws, the corrected one leaves the list alone. */
  method NullDropExample() returns (asWritten: DropOutcome, corrected: DropOutcome)
    ensures asWritten == Threw && corrected == Handled
  {
    var page := new ReorderPage();
    var drop := DropInfo(None, "1", 0);
    asWritten := page.ItemUpdatedAsWritten(drop);
    corrected := page.ItemUpdated(drop);
    assert page.entries == [];
  }
}
