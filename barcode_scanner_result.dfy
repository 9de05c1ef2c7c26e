/**
  The BarcodeScannerResult component of the live-scan page: it works on the MAUI detector's current
  group and completed groups. Dialog confirmations are boolean inputs; the clipboard text is returned.
 */
module ScannerResult {
  import opened Wrappers
  import opened Text
  import opened Lists
  import opened Domain
  import opened GroupLists
  import MauiBarcodeDetector

  /** CameraBarcodeGroups: the completed groups that came from the camera, in order. */
  function CameraGroups(groups: seq<Group>): (r: seq<Group>)
    ensures forall g :: g in r <==> g in groups && g.source == Camera
  {
    OfSource(groups, Camera)
  }

  /** The barcodes copy-all collects: the camera groups with the current group appended, flattened. */
  function CopyAllBarcodes(groups: seq<Group>, current: Group): seq<ScanItem>
  {
    AllBarcodes(CameraGroups(groups) + [current])
  }

  /** The copy-all clipboard text, or None when there are no results to copy. */
  function CopyAllText(groups: seq<Group>, current: Group): (text: Option<string>)
  {
    var all := CopyAllBarcodes(groups, current);
    if |all| == 0 then None else Some(JoinLines(Values(all)))
  }

  /** Copy-all collects the camera groups' barcodes in order, then the current group's. */
  lemma CopyAllOrder(groups: seq<Group>, current: Group)
    ensures CopyAllBarcodes(groups, current) == AllBarcodes(CameraGroups(groups)) + current.barcodes
    ensures CopyAllText(groups, current).None? <==> (AllBarcodes(CameraGroups(groups)) == [] && current.barcodes == [])
  {
    AllBarcodesConcat(CameraGroups(groups), [current]);
    assert [current][1..] == [];
  }

  /** The copied text splits back into those values when none holds a line feed. */
  lemma CopyAllRoundTrip(groups: seq<Group>, current: Group)
    requires CopyAllText(groups, current).Some?
    requires forall b :: b in CopyAllBarcodes(groups, current) ==> NoLineFeed(b.value)
    ensures SplitLines(CopyAllText(groups, current).value)
         == Values(AllBarcodes(CameraGroups(groups))) + Values(current.barcodes)
  {
    var all := CopyAllBarcodes(groups, current);
    CopyAllOrder(groups, current);
    ValuesConcat(AllBarcodes(CameraGroups(groups)), current.barcodes);
    forall k | 0 <= k < |Values(all)| ensures NoLineFeed(Values(all)[k]) {
      assert all[k] in all;
    }
    SplitJoinRoundTrip(Values(all));
  }

  /** `BarcodeGroups.RemoveAll(b => b.Source == Camera)`. */
  function WithoutCamera(groups: seq<Group>): seq<Group>
  {
    Filter((g: Group) => g.source != Camera, groups)
  }

  /** With only two sources, removing the camera groups keeps exactly the upload groups, in order. */
  lemma {:induction false} ClearKeepsUploads(groups: seq<Group>)
    ensures WithoutCamera(groups) == OfSource(groups, Upload)
    ensures CameraGroups(WithoutCamera(groups)) == []
  {
    var p := (g: Group) => g.source != Camera;
    var q := (g: Group) => g.source == Upload;
    assert OfSource(groups, Upload) == Filter(q, groups);
    if |groups| > 0 {
      ClearKeepsUploads(groups[1..]);
      assert OfSource(groups[1..], Upload) == Filter(q, groups[1..]);
      assert p(groups[0]) == q(groups[0]);
    }
    FilterMembershipAll(p, groups);
    forall g ensures g !in CameraGroups(WithoutCamera(groups)) {
    }
    NoMembersIsEmpty(CameraGroups(WithoutCamera(groups)));
  }

  /** The clear-all guard: not while saving, and only when there is something to clear. */
  predicate CanClearAll(isSaving: bool, groups: seq<Group>, current: Group)
  {
    !isSaving && (|current.barcodes| > 0 || |CameraGroups(groups)| > 0)
  }

  class BarcodeScannerResult {
    const detector: MauiBarcodeDetector.BarcodeDetectorService
    var isSaving: bool

    constructor (detector: MauiBarcodeDetector.BarcodeDetectorService)
      ensures this.detector == detector && !isSaving
    {
      this.detector := detector;
      isSaving := false;
    }

    /** Deleting a scanned item, once confirmed, removes it from the current group only. */
    method DeleteScannedResult(item: ScanItem, confirmed: bool)
      modifies detector
      ensures confirmed ==> detector.currentGroup == old(detector.currentGroup).(barcodes := RemoveFirst(old(detector.currentGroup.barcodes), item))
      ensures !confirmed ==> detector.currentGroup == old(detector.currentGroup)
      ensures detector.barcodeGroups == old(detector.barcodeGroups)
      ensures detector.selectedBarcodeGroupId == old(detector.selectedBarcodeGroupId)
      ensures detector.selectedBarcodeSource == old(detector.selectedBarcodeSource)
    {
      if confirmed {
        detector.currentGroup := detector.currentGroup.(barcodes := RemoveFirst(detector.currentGroup.barcodes, item));
      }
    }

    /** Discarding the current group replaces it with an empty one without completing it. */
    method DeleteCurrentGroup(confirmed: bool, now: DateTime)
      modifies detector
      ensures detector.currentGroup == (if confirmed then NewGroup(now) else old(detector.currentGroup))
      ensures detector.barcodeGroups == old(detector.barcodeGroups)
      ensures detector.selectedBarcodeGroupId == old(detector.selectedBarcodeGroupId)
      ensures detector.selectedBarcodeSource == old(detector.selectedBarcodeSource)
    {
      if confirmed {
        detector.currentGroup := NewGroup(now);
      }
    }

    /**
      Clear-all: nothing happens (and no dialog is shown) while saving or when there is nothing to clear;
      once confirmed, every camera group goes, the upload groups stay in order and the current group is reset.
     */
    method ClearAll(confirmed: bool, now: DateTime) returns (asked: bool)
      modifies detector
      ensures asked == CanClearAll(isSaving, old(detector.barcodeGroups), old(detector.currentGroup))
      ensures asked && confirmed ==>
        detector.barcodeGroups == WithoutCamera(old(detector.barcodeGroups)) && detector.currentGroup == NewGroup(now)
      ensures !(asked && confirmed) ==>
        detector.barcodeGroups == old(detector.barcodeGroups) && detector.currentGroup == old(detector.currentGroup)
      ensures detector.selectedBarcodeGroupId == old(detector.selectedBarcodeGroupId)
      ensures detector.selectedBarcodeSource == old(detector.selectedBarcodeSource)
    {
      if isSaving || !(|detector.currentGroup.barcodes| > 0 || |CameraGroups(detector.barcodeGroups)| > 0) {
        return false;
      }
      asked := true;
      if confirmed {
        detector.barcodeGroups := WithoutCamera(detector.barcodeGroups);
        detector.currentGroup := NewGroup(now);
      }
    }

    /** Copy-all, on the detector's current state. */
    method CopyAllGroupedResults() returns (text: Option<string>)
      ensures text == CopyAllText(detector.barcodeGroups, detector.currentGroup)
    {
      var all := AllBarcodes(CameraGroups(detector.barcodeGroups) + [detector.currentGroup]);
      if |all| == 0 {
        return None;
      }
      text := Some(JoinLines(Values(all)));
    }

    /** Completing the scanning group is CompleteCurrentGroup: append, then reset. */
    method CompleteCurrentScanningGroup(now: DateTime)
      modifies detector
      ensures detector.barcodeGroups == old(detector.barcodeGroups) + [old(detector.currentGroup)]
      ensures detector.currentGroup == NewGroup(now)
      ensures detector.selectedBarcodeGroupId == old(detector.selectedBarcodeGroupId)
      ensures detector.selectedBarcodeSource == old(detector.selectedBarcodeSource)
    {
      detector.CompleteCurrentGroup(now);
    }
  }
}
