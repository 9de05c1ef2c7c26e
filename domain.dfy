/**
  The records and enumerations the core passes around: scanned items, barcode groups, machine-scan
  groups, uploaded images and stored rows. C# reference objects become values here.
 */
module Domain {
  import opened Wrappers

  /** A Guid; Guid.Empty, the default of a Guid field, is 0. */
  type Guid = nat
  const EmptyGuid: Guid := 0

  /** A DateTime, as a tick count. */
  type DateTime = int

  newtype byte = x: int | 0 <= x < 256

  /** BarcodeMode; a C# enum variable can also hold a value with no name, which `UndeclaredMode` stands for. */
  datatype BarcodeMode = Standard | Unique | UndeclaredMode

  /** BarcodeSource; Camera is the default of a BarcodeSource field. */
  datatype BarcodeSource = Camera | Upload

  /** FileState, with `UndeclaredState` for a value with no name. */
  datatype FileState = Ready | Detecting | Done | Error | UndeclaredState

  /** ScanBarcodeItemViewModel. */
  datatype ScanItem = ScanItem(id: Guid, value: string, category: string, scannedTime: DateTime, barcodeType: string)

  /** BarcodeGroupItemViewModel; `name` is None until something sets it. */
  datatype Group = Group(
    id: Guid, name: Option<string>, source: BarcodeSource, timestamp: DateTime,
    errorMessage: Option<string>, barcodes: seq<ScanItem>)

  /** `new BarcodeGroupItemViewModel()`: every field at its default, the timestamp at the current time. */
  function NewGroup(now: DateTime): Group
  {
    Group(EmptyGuid, None, Camera, now, None, [])
  }

  /** GroupedMachineScanViewModel: at most one barcode per category. */
  datatype GroupedMachineScan = GroupedMachineScan(groupId: Guid, barcodesByCategory: map<string, ScanItem>, createdTime: DateTime)

  /** ImgItemViewModel; `detectResult` is the DetectResult's barcode list, None while there is no DetectResult. */
  datatype ImgItem = ImgItem(
    id: Guid, fileName: Option<string>, contentType: Option<string>, bytes: Option<seq<byte>>,
    state: FileState, detectResult: Option<seq<ScanItem>>, errorMessage: Option<string>)

  /** `f.DetectResult?.Barcodes?.Any()` is true. */
  predicate HasBarcodes(f: ImgItem)
  {
    f.detectResult.Some? && |f.detectResult.value| > 0
  }

  /** A row of the ScannedBarcodes table. */
  datatype ScannedBarcode = ScannedBarcode(id: int, value: string, format: string, category: string, scannedTime: DateTime)

  /** The values of a list of items, in order (`Select(b => b.Value)`). */
  function Values(items: seq<ScanItem>): (r: seq<string>)
    ensures |r| == |items| && forall i :: 0 <= i < |items| ==> r[i] == items[i].value
  {
    seq(|items|, i requires 0 <= i < |items| => items[i].value)
  }

  lemma {:induction false} ValuesConcat(a: seq<ScanItem>, b: seq<ScanItem>)
    ensures Values(a + b) == Values(a) + Values(b)
  {
  }
}
