/**
  BarcodeGroupList: the groups of one source, with copy, reorder, preview and delete actions. Dialog
  confirmations are boolean inputs; the clipboard text and the reorder selection are returned.
 */
module BarcodeGroupList {
  import opened Wrappers
  import opened Text
  import opened Lists
  import opened Domain
  import opened GroupLists
  import Reorder

  /** FilteredBarcodeGroups. */
  function FilteredGroups(groups: seq<Group>, source: BarcodeSource): (r: seq<Group>)
    ensures forall g :: g in r <==> g in groups && g.source == source
  {
    OfSource(groups, source)
  }

  /** The `object` CopyToClipboard receives: a string, a group, or anything else including null. */
  datatype CopyContent = TextContent(text: string) | GroupContent(group: Group) | OtherContent

  /** The text CopyToClipboard copies, or None for "Nothing to copy.". */
  function CopyText(content: CopyContent): (text: Option<string>)
    ensures content.TextContent? ==> text == Some(content.text)
    ensures content.GroupContent? ==> (text.Some? <==> |content.group.barcodes| > 0)
    ensures content.OtherContent? ==> text.None?
  {
    match content
    case TextContent(s) => Some(s)
    case GroupContent(g) => if |g.barcodes| > 0 then Some(JoinLines(Values(g.barcodes))) else None
    case OtherContent => None
  }

  /** A group's copy text splits back into its values, in order, when none holds a line feed. */
  lemma GroupCopyRoundTrip(g: Group)
    requires |g.barcodes| > 0 && forall k :: 0 <= k < |g.barcodes| ==> NoLineFeed(g.barcodes[k].value)
    ensures SplitLines(CopyText(GroupContent(g)).value) == Values(g.barcodes)
  {
    SplitJoinRoundTrip(Values(g.barcodes));
  }

  /** What EnableReorderMode hands the detector before navigating to the reorder page. */
  datatype ReorderSelection = ReorderSelection(source: BarcodeSource, groupId: Guid, groups: seq<Group>)

  /** EnableReorderMode(id): no id means Guid.Empty, "reorder all". */
  function EnableReorderMode(groups: seq<Group>, source: BarcodeSource, id: Option<Guid>): (r: ReorderSelection)
    ensures r.source == source && r.groups == groups
    ensures id.None? ==> r.groupId == EmptyGuid
    ensures id.Some? ==> r.groupId == id.value
  {
    ReorderSelection(source, id.GetOr(EmptyGuid), groups)
  }

  /**
    The reorder page then shows every barcode of this list's source when no group was picked, and the
    picked group's barcodes when one was.
   */
  lemma ReorderModeScope(groups: seq<Group>, source: BarcodeSource, id: Option<Guid>)
    requires |groups| > 0
    ensures var sel := EnableReorderMode(groups, source, id);
      var scope := Reorder.ScopeBarcodes(Some(sel.groups), Some(sel.groupId), sel.source);
      && (id.None? ==> scope == Some(AllBarcodes(FilteredGroups(groups, source))))
      && (id.Some? && id.value != EmptyGuid && FindById(groups, id.value).Some?
          && |FindById(groups, id.value).value.barcodes| > 0 ==>
          scope == Some(FindById(groups, id.value).value.barcodes))
  {
    var sel := EnableReorderMode(groups, source, id);
    Reorder.ScopeCharacterised(Some(sel.groups), Some(sel.groupId), sel.source);
  }

  /** Where the preview starts: None for "No images to preview.", else the group's filtered position or 0. */
  function PreviewStartIndex(groups: seq<Group>, source: BarcodeSource, id: Guid): (r: Option<int>)
    ensures var f := FilteredGroups(groups, source);
      && (r.None? <==> f == [])
      && (r.Some? ==> 0 <= r.value < |f|)
      && (r.Some? && (exists k :: 0 <= k < |f| && f[k].id == id) ==>
          f[r.value].id == id && forall k :: 0 <= k < r.value ==> f[k].id != id)
      && (r.Some? && (forall k :: 0 <= k < |f| ==> f[k].id != id) ==> r.value == 0)
  {
    var f := FilteredGroups(groups, source);
    if |f| == 0 then None
    else
      var index := IndexOfId(f, id);
      Some(if index < 0 then 0 else index)
  }

  /** The list with `item` removed from the first group equal to `g`; the other groups are untouched. */
  function WithoutBarcode(groups: seq<Group>, g: Group, item: ScanItem): (r: seq<Group>)
    ensures |r| == |groups|
    ensures g !in groups ==> r == groups
    ensures g in groups ==> r[IndexOf(groups, g)] == g.(barcodes := RemoveFirst(g.barcodes, item))
    ensures forall k :: 0 <= k < |groups| && k != IndexOf(groups, g) ==> r[k] == groups[k]
  {
    var i := IndexOf(groups, g);
    if i < 0 then groups else groups[i := g.(barcodes := RemoveFirst(g.barcodes, item))]
  }

  class BarcodeGroupList {
    var groups: seq<Group>
    var source: BarcodeSource
    var isBusy: bool
    var isUploadingImg: bool
    var isUploadingResults: bool

    constructor (groups: seq<Group>, source: BarcodeSource, isBusy: bool, isUploadingImg: bool, isUploadingResults: bool)
      ensures this.groups == groups && this.source == source
      ensures this.isBusy == isBusy && this.isUploadingImg == isUploadingImg && this.isUploadingResults == isUploadingResults
    {
      this.groups := groups;
      this.source := source;
      this.isBusy := isBusy;
      this.isUploadingImg := isUploadingImg;
      this.isUploadingResults := isUploadingResults;
    }

    predicate Blocked()
      reads this
    {
      isUploadingImg || isUploadingResults || isBusy
    }

    /** Deleting a group: refused while busy; once confirmed, the first group equal to it goes. */
    method DeleteGroup(group: Group, confirmed: bool) returns (asked: bool)
      modifies this`groups
      ensures asked == !old(Blocked())
      ensures groups == (if asked && confirmed then RemoveFirst(old(groups), group) else old(groups))
      ensures source == old(source)
      ensures isBusy == old(isBusy) && isUploadingImg == old(isUploadingImg) && isUploadingResults == old(isUploadingResults)
    {
      if isUploadingImg || isUploadingResults || isBusy {
        return false;
      }
      asked := true;
      if confirmed {
        groups := RemoveFirst(groups, group);
      }
    }

    /** Deleting a detected barcode: refused while busy; once confirmed, removed from its group only. */
    method DeleteDetectedBarcode(group: Group, item: ScanItem, confirmed: bool) returns (asked: bool)
      modifies this`groups
      ensures asked == !old(Blocked())
      ensures groups == (if asked && confirmed then WithoutBarcode(old(groups), group, item) else old(groups))
      ensures source == old(source)
      ensures isBusy == old(isBusy) && isUploadingImg == old(isUploadingImg) && isUploadingResults == old(isUploadingResults)
    {
      if isUploadingImg || isUploadingResults || isBusy {
        return false;
      }
      asked := true;
      if confirmed {
        groups := WithoutBarcode(groups, group, item);
      }
    }
  }
}
