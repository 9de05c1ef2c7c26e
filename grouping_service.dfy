/**
  GroupingService: the machine-scan session of the live scanner. The current group keeps one barcode
  per category; completed groups are kept in order. `notifications` records the PropertyChanged
  events raised, by property name, oldest first.
 */
module Grouping {
  import opened Domain
  import opened Lists

  /** The current group after a barcode is added or replaced under its category. */
  function WithBarcode(g: GroupedMachineScan, b: ScanItem): (r: GroupedMachineScan)
    ensures r.groupId == g.groupId && r.createdTime == g.createdTime
    ensures r.barcodesByCategory.Keys == g.barcodesByCategory.Keys + {b.category}
    ensures r.barcodesByCategory[b.category] == b
    ensures forall c :: c in g.barcodesByCategory && c != b.category ==> r.barcodesByCategory[c] == g.barcodesByCategory[c]
  {
    g.(barcodesByCategory := g.barcodesByCategory[b.category := b])
  }

  /** Of two barcodes of one category only the later one is kept. */
  lemma LaterBarcodeWins(g: GroupedMachineScan, b1: ScanItem, b2: ScanItem)
    requires b1.category == b2.category
    ensures WithBarcode(WithBarcode(g, b1), b2) == WithBarcode(g, b2)
  {
    assert WithBarcode(WithBarcode(g, b1), b2).barcodesByCategory == WithBarcode(g, b2).barcodesByCategory;
  }

  /** Barcodes of different categories do not disturb each other: the order they arrive in does not matter. */
  lemma DifferentCategoriesCommute(g: GroupedMachineScan, b1: ScanItem, b2: ScanItem)
    requires b1.category != b2.category
    ensures WithBarcode(WithBarcode(g, b1), b2) == WithBarcode(WithBarcode(g, b2), b1)
  {
    assert WithBarcode(WithBarcode(g, b1), b2).barcodesByCategory == WithBarcode(WithBarcode(g, b2), b1).barcodesByCategory;
  }

  class GroupingService {
    var completedGroups: seq<GroupedMachineScan>
    var currentGroup: GroupedMachineScan
    var notifications: seq<string>

    /** `new()`; `freshId` stands for the Guid.NewGuid() of the first group. */
    constructor (freshId: Guid, now: DateTime)
      ensures completedGroups == [] && notifications == []
      ensures currentGroup == GroupedMachineScan(freshId, map[], now)
    {
      completedGroups := [];
      currentGroup := GroupedMachineScan(freshId, map[], now);
      notifications := [];
    }

    /** The CurrentGroup setter: it always raises "CurrentGroup". */
    method SetCurrentGroup(g: GroupedMachineScan)
      modifies this
      ensures currentGroup == g
      ensures notifications == old(notifications) + ["CurrentGroup"]
      ensures completedGroups == old(completedGroups)
    {
      currentGroup := g;
      notifications := notifications + ["CurrentGroup"];
    }

    /** Adds or replaces the barcode under its category in the current group; no event is raised. */
    method AddBarcode(b: ScanItem)
      modifies this
      ensures currentGroup == WithBarcode(old(currentGroup), b)
      ensures completedGroups == old(completedGroups) && notifications == old(notifications)
    {
      currentGroup := currentGroup.(barcodesByCategory := currentGroup.barcodesByCategory[b.category := b]);
    }

    /** Removes the completed group at `index` when it is in range, and only then raises "CompletedGroups". */
    method RemoveCompletedGroupAt(index: int)
      modifies this
      ensures 0 <= index < |old(completedGroups)| ==>
        completedGroups == RemoveAt(old(completedGroups), index)
        && notifications == old(notifications) + ["CompletedGroups"]
      ensures !(0 <= index < |old(completedGroups)|) ==>
        completedGroups == old(completedGroups) && notifications == old(notifications)
      ensures currentGroup == old(currentGroup)
    {
      if index >= 0 && index < |completedGroups| {
        completedGroups := RemoveAt(completedGroups, index);
        notifications := notifications + ["CompletedGroups"];
      }
    }

    /** Appends the current group to the completed ones and starts an empty group through the setter. */
    method NextGroup(freshId: Guid, now: DateTime)
      modifies this
      ensures completedGroups == old(completedGroups) + [old(currentGroup)]
      ensures currentGroup == GroupedMachineScan(freshId, map[], now)
      ensures notifications == old(notifications) + ["CurrentGroup"]
    {
      completedGroups := completedGroups + [currentGroup];
      SetCurrentGroup(GroupedMachineScan(freshId, map[], now));
    }
  }
}
