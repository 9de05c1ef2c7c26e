/**
  The Home page: uploaded images, the decode pass over them, the expanded-results set and the upload
  of the detected barcodes. The detector and the barcode service are inputs: the decoder as a function,
  the service's answer as a value. Dialog confirmations are boolean inputs; snackbar texts are returned.
 */
module Home {
  import opened Wrappers
  import opened Text
  import opened Lists
  import opened Domain
  import opened ServiceResponses
  import WebBarcodeDetector

  /** What a call to the detector's DecodeFromImage gave: its items, or the exception it threw. */
  type DecodeCall = WebBarcodeDetector.DecodeCall

  /** Content types the uploader accepts besides anything starting with "image/". */
  const AllowedContentTypes: seq<string> := ["image/jpeg", "image/png", "image/heic", "image/heif"]

  /** A missing or blank content type is taken as JPEG; any other is lower-cased. */
  function NormalizeContentType(contentType: Option<string>): (r: string)
    ensures contentType.None? || IsBlank(contentType.value) ==> r == "image/jpeg"
    ensures contentType.Some? && !IsBlank(contentType.value) ==> r == ToLower(contentType.value)
  {
    if contentType.None? || IsBlank(contentType.value) then "image/jpeg" else ToLower(contentType.value)
  }

  /** The upload guard on a normalised content type. */
  predicate AcceptsContentType(contentType: string)
  {
    contentType in AllowedContentTypes || StartsWith(contentType, "image/")
  }

  /** Every whitelisted type starts with "image/", so the guard is exactly the prefix test; a blank type passes. */
  lemma AcceptsIffImagePrefix(contentType: Option<string>)
    ensures AcceptsContentType(NormalizeContentType(contentType)) <==> StartsWith(NormalizeContentType(contentType), "image/")
    ensures contentType.None? ==> AcceptsContentType(NormalizeContentType(contentType))
  {
    var ct := NormalizeContentType(contentType);
    if ct in AllowedContentTypes {
      assert StartsWith(ct, "image/");
    }
    assert StartsWith("image/jpeg", "image/");
  }

  /** What reading the file's stream gave: its bytes, or the exception (including the 20 MB cap). */
  datatype ReadResult = ReadBytes(bytes: seq<byte>) | ReadFailed(message: string)

  /** An IBrowserFile, with the outcome of reading it. */
  datatype BrowserFile = BrowserFile(name: Option<string>, contentType: Option<string>, read: ReadResult)

  /** The item AddImageFileAsync appends for an accepted file; `id` and `generatedName` are its fresh Guid and Guid-based name. */
  function ImageFor(file: BrowserFile, id: Guid, generatedName: string): (f: ImgItem)
    ensures f.id == id && f.contentType == Some(NormalizeContentType(file.contentType)) && f.detectResult.None?
    ensures file.read.ReadBytes? ==> f.state == Ready && f.bytes == Some(file.read.bytes) && f.errorMessage.None?
    ensures file.read.ReadFailed? ==> f.state == Error && f.bytes.None? && f.errorMessage == Some(file.read.message)
    ensures file.read.ReadBytes? ==>
      f.fileName == Some(if file.name.None? || IsBlank(file.name.value) then generatedName else file.name.value)
    ensures file.read.ReadFailed? ==> f.fileName == Some(if file.name.None? then "image" else file.name.value)
  {
    var ct := NormalizeContentType(file.contentType);
    match file.read
    case ReadBytes(bytes) =>
      var name := if file.name.None? || IsBlank(file.name.value) then generatedName else file.name.value;
      ImgItem(id, Some(name), Some(ct), Some(bytes), Ready, None, None)
    case ReadFailed(message) =>
      ImgItem(id, Some(file.name.GetOr("image")), Some(ct), None, Error, None, Some(message))
  }

  /** The items a batch of files adds, in order: one per file with an accepted content type. */
  function Uploaded(files: seq<BrowserFile>, ids: seq<Guid>, names: seq<string>): (r: seq<ImgItem>)
    requires |ids| == |files| && |names| == |files|
    ensures |r| <= |files|
  {
    if |files| == 0 then []
    else
      var n := |files| - 1;
      Uploaded(files[..n], ids[..n], names[..n])
        + (if AcceptsContentType(NormalizeContentType(files[n].contentType)) then [ImageFor(files[n], ids[n], names[n])] else [])
  }

  lemma UploadedSnoc(files: seq<BrowserFile>, ids: seq<Guid>, names: seq<string>, i: nat)
    requires |ids| == |files| && |names| == |files| && i < |files|
    ensures Uploaded(files[..i + 1], ids[..i + 1], names[..i + 1]) == Uploaded(files[..i], ids[..i], names[..i])
      + (if AcceptsContentType(NormalizeContentType(files[i].contentType)) then [ImageFor(files[i], ids[i], names[i])] else [])
  {
    assert files[..i + 1][..i] == files[..i] && ids[..i + 1][..i] == ids[..i] && names[..i + 1][..i] == names[..i];
  }

  /** Every uploaded item is Ready with its bytes or Error with a message, and carries an accepted content type. */
  lemma {:induction false} UploadedItemsAreWellFormed(files: seq<BrowserFile>, ids: seq<Guid>, names: seq<string>)
    requires |ids| == |files| && |names| == |files|
    ensures forall f :: f in Uploaded(files, ids, names) ==>
      && f.contentType.Some? && StartsWith(f.contentType.value, "image/") && f.detectResult.None?
      && (f.state == Ready <==> f.bytes.Some?) && (f.state == Error <==> f.errorMessage.Some?)
      && (f.state == Ready || f.state == Error)
  {
    if |files| > 0 {
      var n := |files| - 1;
      UploadedItemsAreWellFormed(files[..n], ids[..n], names[..n]);
      AcceptsIffImagePrefix(files[n].contentType);
    }
  }

  /** The images whose results OpenAllDetectedBarcodes expands. */
  function ExpandableIds(files: seq<ImgItem>): (r: set<Guid>)
    ensures forall id :: id in r <==> exists k :: 0 <= k < |files| && HasBarcodes(files[k]) && files[k].id == id
  {
    set k | 0 <= k < |files| && HasBarcodes(files[k]) :: files[k].id
  }

  /** The index of the first image with that id, or -1 (List.FindIndex). */
  function IndexOfImage(files: seq<ImgItem>, id: Guid): (r: int)
    ensures r == -1 <==> forall k :: 0 <= k < |files| ==> files[k].id != id
    ensures r != -1 ==> 0 <= r < |files| && files[r].id == id && forall k :: 0 <= k < r ==> files[k].id != id
  {
    if |files| == 0 then -1
    else if files[0].id == id then 0
    else
      var j := IndexOfImage(files[1..], id);
      if j == -1 then -1 else j + 1
  }

  /** Where the image preview starts: None for "No images to preview.", else the image's index or 0. */
  function PreviewStartIndex(files: seq<ImgItem>, id: Guid): (r: Option<int>)
    ensures r.None? <==> files == []
    ensures r.Some? ==> 0 <= r.value < |files|
    ensures r.Some? && (exists k :: 0 <= k < |files| && files[k].id == id) ==>
      files[r.value].id == id && forall k :: 0 <= k < r.value ==> files[k].id != id
    ensures r.Some? && (forall k :: 0 <= k < |files| ==> files[k].id != id) ==> r.value == 0
  {
    if |files| == 0 then None
    else
      var index := IndexOfImage(files, id);
      Some(if index < 0 then 0 else index)
  }

  /** ToggleDisplayDetectedBarcodes on the set: add when absent, remove when present. */
  function Toggle(s: set<Guid>, id: Guid): (r: set<Guid>)
    ensures id in r <==> id !in s
    ensures forall x :: x != id ==> (x in r <==> x in s)
  {
    if id in s then s - {id} else s + {id}
  }

  lemma ToggleTwice(s: set<Guid>, id: Guid)
    ensures Toggle(Toggle(s, id), id) == s
  {
  }

  /** The detected barcodes of the images that have some, image after image (what Save sends). */
  function DetectedBarcodes(files: seq<ImgItem>): seq<ScanItem>
  {
    if |files| == 0 then []
    else (if HasBarcodes(files[0]) then files[0].detectResult.value else []) + DetectedBarcodes(files[1..])
  }

  /** The total the confirmation counts: the sum of the non-empty results' sizes. */
  function TotalDetected(files: seq<ImgItem>): nat
  {
    if |files| == 0 then 0
    else (if HasBarcodes(files[0]) then |files[0].detectResult.value| else 0) + TotalDetected(files[1..])
  }

  /** The confirmation counts exactly the barcodes Save would send. */
  lemma {:induction false} TotalIsSentCount(files: seq<ImgItem>)
    ensures TotalDetected(files) == |DetectedBarcodes(files)|
    ensures TotalDetected(files) == 0 <==> forall k :: 0 <= k < |files| ==> !HasBarcodes(files[k])
  {
    if |files| > 0 {
      TotalIsSentCount(files[1..]);
      assert forall k :: 1 <= k < |files| ==> files[1..][k - 1] == files[k];
    }
  }

  const SingleConfirmation: string := "Are you sure you want to upload this detected barcode?"
  const ManyPrefix: string := "Are you sure you want to upload these "
  const ManySuffix: string := " detected barcodes?"

  /** The upload confirmation text for `total` barcodes. */
  function ConfirmationMessage(total: nat): (m: string)
    ensures total == 1 <==> m == SingleConfirmation
    ensures total != 1 ==> m == ManyPrefix + NatToString(total) + ManySuffix
  {
    if total == 1 then SingleConfirmation
    else
      var m := ManyPrefix + NatToString(total) + ManySuffix;
      assert m[|ManyPrefix| - 1] != SingleConfirmation[|ManyPrefix| - 1];
      m
  }

  /** The confirmation names the count: different totals give different texts. */
  lemma ConfirmationTellsTotals(a: nat, b: nat)
    requires ConfirmationMessage(a) == ConfirmationMessage(b)
    ensures a == b
  {
    if a != 1 && b != 1 {
      var ma := ConfirmationMessage(a);
      var p := |ManyPrefix|;
      assert NatToString(a) == ma[p..|ma| - |ManySuffix|];
      assert NatToString(b) == ma[p..|ma| - |ManySuffix|];
      NatToStringRoundTrip(a);
      NatToStringRoundTrip(b);
    }
  }

  /** The record a decode that threw `message` leaves: Error, keeping an earlier error message. */
  function ErrorAfterThrow(f: ImgItem, message: string): (r: ImgItem)
    ensures r.state == Error && r.errorMessage.Some?
    ensures f.errorMessage.Some? ==> r.errorMessage == f.errorMessage
    ensures f.errorMessage.None? ==> r.errorMessage == Some(message)
    ensures r.(state := f.state, errorMessage := f.errorMessage) == f
  {
    f.(state := Error, errorMessage := Some(f.errorMessage.GetOr(message)))
  }

  /** Whether decoding `f` throws. */
  predicate Throws(f: ImgItem, mode: BarcodeMode, decoder: (seq<byte>, BarcodeMode) -> DecodeCall)
  {
    f.bytes.Some? && decoder(f.bytes.value, mode).Threw?
  }

  /** The record after a decode step that did not throw: Error without bytes, else Done with the results. */
  function DecodedFile(f: ImgItem, mode: BarcodeMode, decoder: (seq<byte>, BarcodeMode) -> DecodeCall): (r: ImgItem)
    requires !Throws(f, mode, decoder)
    ensures r.id == f.id && r.bytes == f.bytes && r.errorMessage == f.errorMessage
    ensures f.bytes.None? ==> r == f.(state := Error)
    ensures f.bytes.Some? ==> r.state == Done && r.detectResult == Some(decoder(f.bytes.value, mode).items)
    ensures r.state == Error <==> f.bytes.None?
  {
    if f.bytes.None? then f.(state := Error)
    else f.(detectResult := Some(decoder(f.bytes.value, mode).items), state := Done)
  }

  /** Whether the decode step auto-expands `f`'s results. */
  predicate Expands(f: ImgItem, mode: BarcodeMode, decoder: (seq<byte>, BarcodeMode) -> DecodeCall)
  {
    f.bytes.Some? && decoder(f.bytes.value, mode).Returned? && |decoder(f.bytes.value, mode).items| > 0
  }

  /** The ids the first `n` decode steps expand. */
  function ExpandedIds(files: seq<ImgItem>, n: nat, mode: BarcodeMode, decoder: (seq<byte>, BarcodeMode) -> DecodeCall): set<Guid>
    requires n <= |files|
  {
    if n == 0 then {}
    else ExpandedIds(files, n - 1, mode, decoder) + (if Expands(files[n - 1], mode, decoder) then {files[n - 1].id} else {})
  }

  /** The number of images among the first `n` that had bytes. */
  function WithBytes(files: seq<ImgItem>, n: nat): (r: nat)
    requires n <= |files|
    ensures r <= n
  {
    if n == 0 then 0 else WithBytes(files, n - 1) + (if files[n - 1].bytes.Some? then 1 else 0)
  }

  /** The decode progress after `done` of `count` images, on integers. */
  function DecodeProgress(done: nat, count: nat): (p: int)
    requires done <= count && count > 0
    ensures 5 <= p <= 100
  {
    5 + done * 95 / count
  }

  /** After a decode pass that did not throw, each image is Done exactly when it had bytes, and Error otherwise. */
  lemma DecodedStates(f: ImgItem, mode: BarcodeMode, decoder: (seq<byte>, BarcodeMode) -> DecodeCall)
    requires !Throws(f, mode, decoder)
    ensures DecodedFile(f, mode, decoder).state == (if f.bytes.Some? then Done else Error)
  {
  }

  /** The outcome of the barcode service call SaveDetectedBarcodesAsync makes. */
  datatype SaveCall = Responded(response: DataResponse<int>) | CallCancelled | CallFailed(message: string)

  /** `$"{response.Data}"`: the number in decimal; data that was never set is `default(int)`, so "0". */
  function DataText(data: Option<int>): (text: string)
    ensures data.None? ==> text == "0"
    ensures data.Some? && data.value >= 0 ==> text == NatToString(data.value)
    ensures data.Some? && data.value < 0 ==> text == "-" + NatToString(-data.value)
  {
    if data.None? then "0" else if data.value >= 0 then NatToString(data.value) else "-" + NatToString(-data.value)
  }

  /** The snackbar text for each outcome of the call. */
  function SaveNotice(call: SaveCall): (text: string)
    ensures call.Responded? && call.response.message.Some? ==> text == call.response.message.value
    ensures call.Responded? && call.response.message.None? && !call.response.success ==> text == "Upload failed."
    ensures call.Responded? && call.response.message.None? && call.response.success ==>
      text == DataText(call.response.data) + " barcode(s) uploaded."
  {
    match call
    case Responded(r) =>
      if r.success then r.message.GetOr(DataText(r.data) + " barcode(s) uploaded.")
      else r.message.GetOr("Upload failed.")
    case CallCancelled => "Upload cancelled or timed out."
    case CallFailed(message) => "Upload error: " + message
  }

  /** A successful answer with neither message nor data reports the default count. */
  lemma NoDataNotice()
    ensures SaveNotice(Responded(DataResponse(true, None, None, None, None))) == "0 barcode(s) uploaded."
  {
  }

  class HomePage {
    var uploadedImgFiles: seq<ImgItem>
    var displayed: set<Guid>
    var barcodeMode: BarcodeMode
    var isBusy: bool
    var isUploadingImg: bool
    var isUploadingResults: bool
    var decodeProgress: int
    var uploadImgProgress: int
    var moreDrawerOpen: bool

    constructor ()
      ensures uploadedImgFiles == [] && displayed == {} && barcodeMode == Standard
      ensures !isBusy && !isUploadingImg && !isUploadingResults && !moreDrawerOpen
      ensures decodeProgress == 0 && uploadImgProgress == 0
    {
      uploadedImgFiles := [];
      displayed := {};
      barcodeMode := Standard;
      isBusy := false;
      isUploadingImg := false;
      isUploadingResults := false;
      decodeProgress := 0;
      uploadImgProgress := 0;
      moreDrawerOpen := false;
    }

    predicate Blocked()
      reads this
    {
      isUploadingImg || isUploadingResults || isBusy
    }

    method ToggleDisplayDetectedBarcodes(id: Guid)
      modifies this
      ensures displayed == Toggle(old(displayed), id)
      ensures uploadedImgFiles == old(uploadedImgFiles) && barcodeMode == old(barcodeMode)
      ensures isBusy == old(isBusy) && isUploadingImg == old(isUploadingImg) && isUploadingResults == old(isUploadingResults)
      ensures decodeProgress == old(decodeProgress) && uploadImgProgress == old(uploadImgProgress)
      ensures moreDrawerOpen == old(moreDrawerOpen)
    {
      if id in displayed {
        displayed := displayed - {id};
      } else {
        displayed := displayed + {id};
      }
    }

    method CloseAllDetectedBarcodes()
      modifies this
      ensures displayed == {}
      ensures uploadedImgFiles == old(uploadedImgFiles) && barcodeMode == old(barcodeMode)
      ensures isBusy == old(isBusy) && isUploadingImg == old(isUploadingImg) && isUploadingResults == old(isUploadingResults)
      ensures decodeProgress == old(decodeProgress) && uploadImgProgress == old(uploadImgProgress)
      ensures moreDrawerOpen == old(moreDrawerOpen)
    {
      displayed := {};
    }

    /** Expand-all: exactly the images with at least one detected barcode. */
    method OpenAllDetectedBarcodes()
      modifies this
      ensures displayed == ExpandableIds(uploadedImgFiles)
      ensures uploadedImgFiles == old(uploadedImgFiles) && barcodeMode == old(barcodeMode)
      ensures isBusy == old(isBusy) && isUploadingImg == old(isUploadingImg) && isUploadingResults == old(isUploadingResults)
      ensures decodeProgress == old(decodeProgress) && uploadImgProgress == old(uploadImgProgress)
      ensures moreDrawerOpen == old(moreDrawerOpen)
    {
      displayed := ExpandableIds(uploadedImgFiles);
    }

    method ToggleMoreDrawer()
      modifies this
      ensures moreDrawerOpen == !old(moreDrawerOpen)
      ensures uploadedImgFiles == old(uploadedImgFiles) && displayed == old(displayed) && barcodeMode == old(barcodeMode)
      ensures isBusy == old(isBusy) && isUploadingImg == old(isUploadingImg) && isUploadingResults == old(isUploadingResults)
      ensures decodeProgress == old(decodeProgress) && uploadImgProgress == old(uploadImgProgress)
    {
      moreDrawerOpen := !moreDrawerOpen;
    }

    /** AddImageFileAsync: an accepted file appends one item, a rejected one nothing. */
    method AddImageFile(file: BrowserFile, id: Guid, generatedName: string)
      modifies this
      ensures uploadedImgFiles == old(uploadedImgFiles)
        + (if AcceptsContentType(NormalizeContentType(file.contentType)) then [ImageFor(file, id, generatedName)] else [])
      ensures displayed == old(displayed) && isBusy == old(isBusy) && isUploadingImg == old(isUploadingImg)
      ensures isUploadingResults == old(isUploadingResults) && uploadImgProgress == old(uploadImgProgress)
      ensures barcodeMode == old(barcodeMode) && decodeProgress == old(decodeProgress) && moreDrawerOpen == old(moreDrawerOpen)
    {
      var contentType := NormalizeContentType(file.contentType);
      if !(contentType in AllowedContentTypes) && !StartsWith(contentType, "image/") {
        return;
      }
      uploadedImgFiles := uploadedImgFiles + [ImageFor(file, id, generatedName)];
    }

    /** UploadImageFilesAsync: every file in turn, then progress 100; the uploading flag ends false. */
    method UploadImageFiles(files: seq<BrowserFile>, ids: seq<Guid>, names: seq<string>)
      requires |ids| == |files| && |names| == |files|
      modifies this
      ensures uploadedImgFiles == old(uploadedImgFiles) + Uploaded(files, ids, names)
      ensures |files| > 0 ==> uploadImgProgress == 100 && !isUploadingImg
      ensures |files| == 0 ==> uploadImgProgress == old(uploadImgProgress) && isUploadingImg == old(isUploadingImg)
      ensures displayed == old(displayed) && isBusy == old(isBusy) && isUploadingResults == old(isUploadingResults)
      ensures barcodeMode == old(barcodeMode) && decodeProgress == old(decodeProgress) && moreDrawerOpen == old(moreDrawerOpen)
    {
      if |files| == 0 {
        return;
      }
      isUploadingImg := true;
      uploadImgProgress := 0;
      var i := 0;
      while i < |files|
        invariant 0 <= i <= |files|
        invariant uploadedImgFiles == old(uploadedImgFiles) + Uploaded(files[..i], ids[..i], names[..i])
        invariant displayed == old(displayed) && isBusy == old(isBusy) && isUploadingResults == old(isUploadingResults)
        invariant barcodeMode == old(barcodeMode) && decodeProgress == old(decodeProgress) && moreDrawerOpen == old(moreDrawerOpen)
      {
        AddImageFile(files[i], ids[i], names[i]);
        UploadedSnoc(files, ids, names, i);
        i := i + 1;
      }
      assert files[..i] == files && ids[..i] == ids && names[..i] == names;
      uploadImgProgress := 100;
      isUploadingImg := false;
    }

    /** Deleting an uploaded image: refused while busy; once confirmed, the first equal image goes. */
    method DeleteUploadedImg(img: ImgItem, confirmed: bool) returns (asked: bool)
      modifies this
      ensures asked == !old(Blocked())
      ensures uploadedImgFiles == (if asked && confirmed then RemoveFirst(old(uploadedImgFiles), img) else old(uploadedImgFiles))
      ensures displayed == old(displayed) && barcodeMode == old(barcodeMode)
      ensures isBusy == old(isBusy) && isUploadingImg == old(isUploadingImg) && isUploadingResults == old(isUploadingResults)
      ensures decodeProgress == old(decodeProgress) && uploadImgProgress == old(uploadImgProgress)
      ensures moreDrawerOpen == old(moreDrawerOpen)
    {
      if isUploadingImg || isUploadingResults || isBusy {
        return false;
      }
      asked := true;
      if confirmed {
        uploadedImgFiles := RemoveFirst(uploadedImgFiles, img);
      }
    }

    /**
      Deleting a detected barcode: refused while busy; once confirmed, removed from that image's results only.
      A confirmed delete on an image without results dereferences the missing DetectResult and throws.
     */
    method DeleteDetectedBarcode(img: ImgItem, item: ScanItem, confirmed: bool) returns (asked: bool, threw: bool)
      modifies this
      ensures asked == !old(Blocked())
      ensures threw <==> asked && confirmed && img.detectResult.None?
      ensures asked && confirmed && img.detectResult.Some? && img in old(uploadedImgFiles) ==>
        uploadedImgFiles == old(uploadedImgFiles)[IndexOf(old(uploadedImgFiles), img) :=
          img.(detectResult := Some(RemoveFirst(img.detectResult.value, item)))]
      ensures !(asked && confirmed && img.detectResult.Some? && img in old(uploadedImgFiles)) ==>
        uploadedImgFiles == old(uploadedImgFiles)
      ensures displayed == old(displayed) && barcodeMode == old(barcodeMode)
      ensures isBusy == old(isBusy) && isUploadingImg == old(isUploadingImg) && isUploadingResults == old(isUploadingResults)
      ensures decodeProgress == old(decodeProgress) && uploadImgProgress == old(uploadImgProgress)
      ensures moreDrawerOpen == old(moreDrawerOpen)
    {
      if isUploadingImg || isUploadingResults || isBusy {
        return false, false;
      }
      asked, threw := true, false;
      if !confirmed {
        return;
      }
      if img.detectResult.None? {
        return true, true;
      }
      var i := IndexOf(uploadedImgFiles, img);
      if i >= 0 {
        uploadedImgFiles := uploadedImgFiles[i := img.(detectResult := Some(RemoveFirst(img.detectResult.value, item)))];
      }
    }

    /** Clear-all, once confirmed: no images, not busy, progress 0. */
    method ClearAllUploadedImages(confirmed: bool)
      modifies this
      ensures confirmed ==> uploadedImgFiles == [] && !isBusy && decodeProgress == 0
      ensures !confirmed ==> uploadedImgFiles == old(uploadedImgFiles) && isBusy == old(isBusy) && decodeProgress == old(decodeProgress)
      ensures displayed == old(displayed) && barcodeMode == old(barcodeMode)
      ensures isUploadingImg == old(isUploadingImg) && isUploadingResults == old(isUploadingResults)
      ensures uploadImgProgress == old(uploadImgProgress) && moreDrawerOpen == old(moreDrawerOpen)
    {
      if confirmed {
        uploadedImgFiles := [];
        isBusy := false;
        decodeProgress := 0;
      }
    }

    /** The first decode step that throws, if any. */
    function FirstThrow(decoder: (seq<byte>, BarcodeMode) -> DecodeCall): (k: int)
      reads this
      ensures k == -1 <==> forall j :: 0 <= j < |uploadedImgFiles| ==> !Throws(uploadedImgFiles[j], barcodeMode, decoder)
      ensures k != -1 ==>
        0 <= k < |uploadedImgFiles| && Throws(uploadedImgFiles[k], barcodeMode, decoder)
        && forall j :: 0 <= j < k ==> !Throws(uploadedImgFiles[j], barcodeMode, decoder)
    {
      FirstThrowFrom(uploadedImgFiles, barcodeMode, decoder, 0)
    }

    /**
      DecodeBarcodes: nothing happens with no images or while busy. Otherwise each image in turn becomes
      Error without bytes, or Done with its results, which are expanded when non-empty; progress ends at 100.
      When a decode throws, every image becomes Error (keeping an earlier message), the images decoded
      before it keep their results, and progress stays where it was. isBusy ends false.
     */
    method DecodeBarcodes(decoder: (seq<byte>, BarcodeMode) -> DecodeCall)
      modifies this
      ensures old(|uploadedImgFiles| == 0 || isBusy) ==>
        uploadedImgFiles == old(uploadedImgFiles) && displayed == old(displayed)
        && isBusy == old(isBusy) && decodeProgress == old(decodeProgress)
      ensures old(|uploadedImgFiles| > 0 && !isBusy) && old(FirstThrow(decoder)) == -1 ==>
        && !isBusy && decodeProgress == 100
        && uploadedImgFiles == PartlyDecoded(old(uploadedImgFiles), old(|uploadedImgFiles|), old(barcodeMode), decoder)
        && displayed == old(displayed) + ExpandedIds(old(uploadedImgFiles), old(|uploadedImgFiles|), old(barcodeMode), decoder)
      ensures old(|uploadedImgFiles| > 0 && !isBusy) && old(FirstThrow(decoder)) != -1 ==>
        var k := old(FirstThrow(decoder));
        var message := decoder(old(uploadedImgFiles)[k].bytes.value, old(barcodeMode)).message;
        && !isBusy
        && decodeProgress == DecodeProgress(WithBytes(old(uploadedImgFiles), k), old(|uploadedImgFiles|))
        && uploadedImgFiles == AllFailed(PartlyDecoded(old(uploadedImgFiles), k, old(barcodeMode), decoder), message)
        && displayed == old(displayed) + ExpandedIds(old(uploadedImgFiles), k, old(barcodeMode), decoder)
      ensures barcodeMode == old(barcodeMode) && isUploadingImg == old(isUploadingImg)
      ensures isUploadingResults == old(isUploadingResults) && uploadImgProgress == old(uploadImgProgress)
      ensures moreDrawerOpen == old(moreDrawerOpen)
    {
      if |uploadedImgFiles| == 0 || isBusy {
        return;
      }
      isBusy := true;
      decodeProgress := 5;
      var thrown := DecodePass(decoder);
      if thrown.Some? {
        FailAll(thrown.value);
      } else {
        decodeProgress := 100;
      }
      isBusy := false;
    }

    /**
      The try block of DecodeBarcodes: each image in turn until the first decode that throws, whose
      message is returned. Progress counts the images with bytes decoded so far.
     */
    method DecodePass(decoder: (seq<byte>, BarcodeMode) -> DecodeCall) returns (thrown: Option<string>)
      requires |uploadedImgFiles| > 0 && decodeProgress == DecodeProgress(0, |uploadedImgFiles|)
      modifies this`uploadedImgFiles, this`displayed, this`decodeProgress
      ensures thrown.None? <==> old(FirstThrow(decoder)) == -1
      ensures thrown.None? ==>
        && uploadedImgFiles == PartlyDecoded(old(uploadedImgFiles), old(|uploadedImgFiles|), old(barcodeMode), decoder)
        && displayed == old(displayed) + ExpandedIds(old(uploadedImgFiles), old(|uploadedImgFiles|), old(barcodeMode), decoder)
      ensures thrown.Some? ==>
        var k := old(FirstThrow(decoder));
        && thrown.value == decoder(old(uploadedImgFiles)[k].bytes.value, old(barcodeMode)).message
        && decodeProgress == DecodeProgress(WithBytes(old(uploadedImgFiles), k), old(|uploadedImgFiles|))
        && uploadedImgFiles == PartlyDecoded(old(uploadedImgFiles), k, old(barcodeMode), decoder)
        && displayed == old(displayed) + ExpandedIds(old(uploadedImgFiles), k, old(barcodeMode), decoder)
      ensures barcodeMode == old(barcodeMode) && isBusy == old(isBusy) && isUploadingImg == old(isUploadingImg)
      ensures isUploadingResults == old(isUploadingResults) && uploadImgProgress == old(uploadImgProgress)
      ensures moreDrawerOpen == old(moreDrawerOpen)
    {
      ghost var files := uploadedImgFiles;
      var mode := barcodeMode;
      var i := 0;
      var index := 0;
      while i < |uploadedImgFiles|
        invariant 0 <= i <= |uploadedImgFiles| == |files|
        invariant NoThrowBefore(files, i, mode, decoder)
        invariant uploadedImgFiles == PartlyDecoded(files, i, mode, decoder)
        invariant displayed == old(displayed) + ExpandedIds(files, i, mode, decoder)
        invariant index == WithBytes(files, i)
        invariant decodeProgress == DecodeProgress(index, |files|)
        invariant barcodeMode == mode
      {
        var item := uploadedImgFiles[i];
        PartlyDecodedAt(files, i, mode, decoder);
        if item.bytes.None? {
          uploadedImgFiles := uploadedImgFiles[i := item.(state := Error)];
        } else {
          var call := decoder(item.bytes.value, mode);
          if call.Threw? {
            FirstThrowFromIs(files, mode, decoder, 0, i);
            return Some(call.message);
          }
          uploadedImgFiles := uploadedImgFiles[i := item.(detectResult := Some(call.items), state := Done)];
          if !(item.id in displayed) && |call.items| > 0 {
            displayed := displayed + {item.id};
          }
          index := index + 1;
          decodeProgress := DecodeProgress(index, |uploadedImgFiles|);
        }
        PartlyDecodedStep(files, i, mode, decoder);
        i := i + 1;
      }
      FirstThrowFromNone(files, mode, decoder, 0);
      return None;
    }

    /** The catch block of DecodeBarcodes: every image becomes Error, keeping an earlier message. */
    method FailAll(message: string)
      modifies this
      ensures uploadedImgFiles == AllFailed(old(uploadedImgFiles), message)
      ensures displayed == old(displayed) && decodeProgress == old(decodeProgress) && barcodeMode == old(barcodeMode)
      ensures isBusy == old(isBusy) && isUploadingImg == old(isUploadingImg) && isUploadingResults == old(isUploadingResults)
      ensures uploadImgProgress == old(uploadImgProgress) && moreDrawerOpen == old(moreDrawerOpen)
    {
      var i := 0;
      ghost var files := uploadedImgFiles;
      while i < |uploadedImgFiles|
        invariant 0 <= i <= |uploadedImgFiles| == |files|
        invariant forall j :: 0 <= j < i ==> uploadedImgFiles[j] == ErrorAfterThrow(files[j], message)
        invariant forall j :: i <= j < |files| ==> uploadedImgFiles[j] == files[j]
        invariant displayed == old(displayed) && decodeProgress == old(decodeProgress) && barcodeMode == old(barcodeMode)
        invariant isBusy == old(isBusy) && isUploadingImg == old(isUploadingImg) && isUploadingResults == old(isUploadingResults)
        invariant uploadImgProgress == old(uploadImgProgress) && moreDrawerOpen == old(moreDrawerOpen)
      {
        var item := uploadedImgFiles[i];
        uploadedImgFiles := uploadedImgFiles[i := item.(state := Error, errorMessage := Some(item.errorMessage.GetOr(message)))];
        i := i + 1;
      }
    }

    /** The upload confirmation: its text counts the pending barcodes; only a confirmed dialog saves. */
    method SaveDetectedBarcodesConfirmation(confirmed: bool, call: SaveCall)
      returns (message: string, sent: Option<seq<ScanItem>>, notice: Option<string>)
      modifies this
      ensures message == ConfirmationMessage(TotalDetected(old(uploadedImgFiles)))
      ensures !confirmed ==> sent.None? && notice.None? && uploadedImgFiles == old(uploadedImgFiles)
      ensures !confirmed ==> isUploadingResults == old(isUploadingResults)
      ensures confirmed && old(Blocked()) ==>
        sent.None? && notice.None? && uploadedImgFiles == old(uploadedImgFiles) && isUploadingResults == old(isUploadingResults)
      ensures confirmed && !old(Blocked()) && DetectedBarcodes(old(uploadedImgFiles)) == [] ==>
        sent.None? && notice == Some("No detected barcodes to upload.") && uploadedImgFiles == old(uploadedImgFiles)
      ensures confirmed && !old(Blocked()) && DetectedBarcodes(old(uploadedImgFiles)) != [] ==>
        && sent == Some(DetectedBarcodes(old(uploadedImgFiles))) && notice == Some(SaveNotice(call))
        && uploadedImgFiles == (if call.Responded? && call.response.success then [] else old(uploadedImgFiles))
      ensures confirmed && !old(Blocked()) ==> !isUploadingResults
      ensures displayed == old(displayed) && isBusy == old(isBusy) && isUploadingImg == old(isUploadingImg)
      ensures barcodeMode == old(barcodeMode) && decodeProgress == old(decodeProgress)
      ensures uploadImgProgress == old(uploadImgProgress) && moreDrawerOpen == old(moreDrawerOpen)
    {
      message := ConfirmationMessage(TotalDetected(uploadedImgFiles));
      sent, notice := None, None;
      if confirmed {
        sent, notice := SaveDetectedBarcodes(call);
      }
    }

    /**
      SaveDetectedBarcodesAsync: nothing while busy; no call when there is nothing to send. Otherwise the
      detected barcodes are sent, and the images are cleared only when the response reports success.
     */
    method SaveDetectedBarcodes(call: SaveCall) returns (sent: Option<seq<ScanItem>>, notice: Option<string>)
      modifies this
      ensures old(Blocked()) ==> sent.None? && notice.None? && uploadedImgFiles == old(uploadedImgFiles)
      ensures !old(Blocked()) && DetectedBarcodes(old(uploadedImgFiles)) == [] ==>
        sent.None? && notice == Some("No detected barcodes to upload.") && uploadedImgFiles == old(uploadedImgFiles)
      ensures !old(Blocked()) && DetectedBarcodes(old(uploadedImgFiles)) != [] ==>
        && sent == Some(DetectedBarcodes(old(uploadedImgFiles))) && notice == Some(SaveNotice(call))
        && uploadedImgFiles == (if call.Responded? && call.response.success then [] else old(uploadedImgFiles))
      ensures old(Blocked()) ==> isUploadingResults == old(isUploadingResults)
      ensures !old(Blocked()) ==> !isUploadingResults
      ensures isBusy == old(isBusy) && isUploadingImg == old(isUploadingImg) && displayed == old(displayed)
      ensures barcodeMode == old(barcodeMode) && decodeProgress == old(decodeProgress)
      ensures uploadImgProgress == old(uploadImgProgress) && moreDrawerOpen == old(moreDrawerOpen)
    {
      if isUploadingImg || isUploadingResults || isBusy {
        return None, None;
      }
      var barcodeItems := DetectedBarcodes(uploadedImgFiles);
      if |barcodeItems| == 0 {
        return None, Some("No detected barcodes to upload.");
      }
      isUploadingResults := true;
      sent := Some(barcodeItems);
      notice := Some(SaveNotice(call));
      if call.Responded? && call.response.success {
        uploadedImgFiles := [];
      }
      isUploadingResults := false;
    }
  }

  function FirstThrowFrom(files: seq<ImgItem>, mode: BarcodeMode, decoder: (seq<byte>, BarcodeMode) -> DecodeCall, from: nat): (k: int)
    requires from <= |files|
    decreases |files| - from
    ensures k == -1 <==> forall j :: from <= j < |files| ==> !Throws(files[j], mode, decoder)
    ensures k != -1 ==>
      from <= k < |files| && Throws(files[k], mode, decoder) && forall j :: from <= j < k ==> !Throws(files[j], mode, decoder)
  {
    if from == |files| then -1
    else if Throws(files[from], mode, decoder) then from
    else FirstThrowFrom(files, mode, decoder, from + 1)
  }

  lemma FirstThrowFromIs(files: seq<ImgItem>, mode: BarcodeMode, decoder: (seq<byte>, BarcodeMode) -> DecodeCall, from: nat, i: nat)
    requires from <= i < |files| && Throws(files[i], mode, decoder)
    requires forall j :: from <= j < i ==> !Throws(files[j], mode, decoder)
    ensures FirstThrowFrom(files, mode, decoder, from) == i
  {
    var k := FirstThrowFrom(files, mode, decoder, from);
    assert k != -1;
  }

  lemma FirstThrowFromNone(files: seq<ImgItem>, mode: BarcodeMode, decoder: (seq<byte>, BarcodeMode) -> DecodeCall, from: nat)
    requires from <= |files|
    requires forall j :: from <= j < |files| ==> !Throws(files[j], mode, decoder)
    ensures FirstThrowFrom(files, mode, decoder, from) == -1
  {
  }
  /** No decode step among the first `n` throws. */
  predicate NoThrowBefore(files: seq<ImgItem>, n: nat, mode: BarcodeMode, decoder: (seq<byte>, BarcodeMode) -> DecodeCall)
  {
    forall j :: 0 <= j < n && j < |files| ==> !Throws(files[j], mode, decoder)
  }

  /** The image list after the first `n` decode steps. */
  function PartlyDecoded(files: seq<ImgItem>, n: nat, mode: BarcodeMode, decoder: (seq<byte>, BarcodeMode) -> DecodeCall): (r: seq<ImgItem>)
    requires n <= |files| && NoThrowBefore(files, n, mode, decoder)
    ensures |r| == |files|
  {
    seq(|files|, j requires 0 <= j < |files| => if j < n then DecodedFile(files[j], mode, decoder) else files[j])
  }

  lemma PartlyDecodedAt(files: seq<ImgItem>, n: nat, mode: BarcodeMode, decoder: (seq<byte>, BarcodeMode) -> DecodeCall)
    requires n < |files| && NoThrowBefore(files, n, mode, decoder)
    ensures PartlyDecoded(files, n, mode, decoder)[n] == files[n]
  {
  }

  /** One more step decodes image `n` and leaves the rest alone. */
  lemma PartlyDecodedStep(files: seq<ImgItem>, n: nat, mode: BarcodeMode, decoder: (seq<byte>, BarcodeMode) -> DecodeCall)
    requires n < |files| && NoThrowBefore(files, n, mode, decoder) && !Throws(files[n], mode, decoder)
    ensures NoThrowBefore(files, n + 1, mode, decoder)
    ensures PartlyDecoded(files, n, mode, decoder)[n := DecodedFile(files[n], mode, decoder)] == PartlyDecoded(files, n + 1, mode, decoder)
  {
  }

  /** The image list after the catch block. */
  function AllFailed(files: seq<ImgItem>, message: string): (r: seq<ImgItem>)
    ensures |r| == |files| && forall j :: 0 <= j < |files| ==> r[j] == ErrorAfterThrow(files[j], message)
  {
    seq(|files|, j requires 0 <= j < |files| => ErrorAfterThrow(files[j], message))
  }

  /**
    A full decode pass leaves every image Done (with its results) or, without bytes, Error; a pass cut off
    by an exception leaves every image Error with a message, and the ones decoded before still hold their results.
   */
  lemma DecodeOutcomes(files: seq<ImgItem>, k: nat, mode: BarcodeMode, decoder: (seq<byte>, BarcodeMode) -> DecodeCall, message: string)
    requires k <= |files| && NoThrowBefore(files, k, mode, decoder)
    ensures k == |files| ==> forall j :: 0 <= j < |files| ==>
      (PartlyDecoded(files, k, mode, decoder)[j].state == Done <==> files[j].bytes.Some?)
      && (PartlyDecoded(files, k, mode, decoder)[j].state == Error <==> files[j].bytes.None?)
    ensures forall j :: 0 <= j < |files| ==>
      && AllFailed(PartlyDecoded(files, k, mode, decoder), message)[j].state == Error
      && AllFailed(PartlyDecoded(files, k, mode, decoder), message)[j].errorMessage.Some?
      && (j < k && files[j].bytes.Some? ==>
            AllFailed(PartlyDecoded(files, k, mode, decoder), message)[j].detectResult == Some(decoder(files[j].bytes.value, mode).items))
  {
  }
}
