/**
  The MAUI BarcodeDetectorService: the live-scan group being filled, the completed groups, the
  selection handed to the reorder page, and decoding an image into items.
 */
module MauiBarcodeDetector {
  import opened Wrappers
  import opened Domain
  import opened Decoding

  /**
    The symbols the MAUI decoder reads from `imageBytes`: none for null or empty bytes, an undecodable
    image, a failed resize or a null DecodeMultiple result.
   */
  function DecodedSymbols(codec: ImageCodec, imageBytes: Option<seq<byte>>): seq<DecodedSymbol>
  {
    if imageBytes.None? || |imageBytes.value| == 0 then []
    else match codec.decode(imageBytes.value)
      case None => []
      case Some(original) =>
        match codec.resize(original)
        case None => []
        case Some(resized) => codec.decodeMultiple(codec.grayscale(resized)).GetOr([])
  }

  class BarcodeDetectorService {
    var currentGroup: Group
    var barcodeGroups: seq<Group>
    var selectedBarcodeGroupId: Option<Guid>
    var selectedBarcodeSource: BarcodeSource

    /** Starts with an empty current group, no completed groups and nothing selected. */
    constructor (now: DateTime)
      ensures currentGroup == NewGroup(now) && barcodeGroups == []
      ensures selectedBarcodeGroupId == None && selectedBarcodeSource == Camera
    {
      currentGroup := NewGroup(now);
      barcodeGroups := [];
      selectedBarcodeGroupId := None;
      selectedBarcodeSource := Camera;
    }

    /** Appends the current group to BarcodeGroups and starts a new empty one. */
    method CompleteCurrentGroup(now: DateTime)
      modifies this
      ensures barcodeGroups == old(barcodeGroups) + [old(currentGroup)]
      ensures currentGroup == NewGroup(now) && currentGroup.barcodes == []
      ensures selectedBarcodeGroupId == old(selectedBarcodeGroupId) && selectedBarcodeSource == old(selectedBarcodeSource)
    {
      barcodeGroups := barcodeGroups + [currentGroup];
      currentGroup := NewGroup(now);
    }

    /**
      DecodeFromImage(imageBytes, mode): one item per decoded symbol, in order, with the text as value,
      the format as barcode type and the mode's classifier as category. Null or empty bytes and every
      failed step give an empty list rather than an exception.
     */
    method DecodeFromImage(imageBytes: Option<seq<byte>>, mode: BarcodeMode, codec: ImageCodec, now: DateTime)
      returns (results: seq<ScanItem>)
      ensures ItemsFor(results, DecodedSymbols(codec, imageBytes), mode, now)
      ensures imageBytes.None? || imageBytes == Some([]) ==> results == []
    {
      results := [];
      if imageBytes.None? || |imageBytes.value| == 0 {
        return;
      }
      var originalBitmap := codec.decode(imageBytes.value);
      if originalBitmap.None? {
        return;
      }
      var resizedBitmap := codec.resize(originalBitmap.value);
      if resizedBitmap.None? {
        return;
      }
      var processedBitmap := codec.grayscale(resizedBitmap.value);
      var decodedResults := codec.decodeMultiple(processedBitmap);
      if decodedResults.Some? {
        results := MapSymbols(decodedResults.value, mode, now);
      }
    }
  }
}
