/**
  The Web BarcodeDetectorService. Unlike the MAUI one it has no guard on the bytes and no null check
  after the resize, so those cases end in an exception; a call's outcome is therefore either the item
  list or the exception's message.
 */
module WebBarcodeDetector {
  import opened Wrappers
  import opened Domain
  import opened Decoding

  /** What a DecodeFromImage call does: returns the items, or throws. */
  datatype DecodeCall = Returned(items: seq<ScanItem>) | Threw(message: string)

  /** `new MemoryStream(null)` throws ArgumentNullException. */
  const NullBufferMessage: string := "Value cannot be null. (Parameter 'buffer')"

  /** Reading Width off the null a failed Resize returns throws NullReferenceException. */
  const NullReferenceMessage: string := "Object reference not set to an instance of an object."

  /** The symbols the Web decoder reads, or the message of the exception it runs into. */
  datatype Reading = Read(symbols: seq<DecodedSymbol>) | Failed(message: string)

  function ReadSymbols(codec: ImageCodec, imageBytes: Option<seq<byte>>): Reading
  {
    match imageBytes
    case None => Failed(NullBufferMessage)
    case Some(bytes) =>
      match codec.decode(bytes)
      case None => Read([])
      case Some(original) =>
        match codec.resize(original)
        case None => Failed(NullReferenceMessage)
        case Some(resized) => Read(codec.decodeMultiple(codec.grayscale(resized)).GetOr([]))
  }

  /** The call the reading leads to when each symbol becomes an item under `mode`. */
  predicate CallFor(call: DecodeCall, reading: Reading, mode: BarcodeMode, now: DateTime)
  {
    match reading
    case Failed(m) => call == Threw(m)
    case Read(symbols) => call.Returned? && ItemsFor(call.items, symbols, mode, now)
  }

  class BarcodeDetectorService {
    var barcodeGroups: seq<Group>
    var selectedBarcodeGroupId: Option<Guid>
    var selectedBarcodeSource: BarcodeSource

    constructor ()
      ensures barcodeGroups == [] && selectedBarcodeGroupId == None && selectedBarcodeSource == Camera
    {
      barcodeGroups := [];
      selectedBarcodeGroupId := None;
      selectedBarcodeSource := Camera;
    }

    /** NavigateToScannerAsync: there is no scanner page on the web, so nothing happens; it modifies nothing. */
    method NavigateToScanner(mode: BarcodeMode)
    {
    }

    /** DecodeFromImage(imageBytes): always classifies with the Standard table. */
    method DecodeFromImage(imageBytes: Option<seq<byte>>, codec: ImageCodec, now: DateTime) returns (call: DecodeCall)
      ensures CallFor(call, ReadSymbols(codec, imageBytes), Standard, now)
      ensures imageBytes.None? ==> call == Threw(NullBufferMessage)
    {
      if imageBytes.None? {
        return Threw(NullBufferMessage);
      }
      var originalBitmap := codec.decode(imageBytes.value);
      if originalBitmap.None? {
        return Returned([]);
      }
      var resizedBitmap := codec.resize(originalBitmap.value);
      if resizedBitmap.None? {
        return Threw(NullReferenceMessage);
      }
      var decodedResults := codec.decodeMultiple(codec.grayscale(resizedBitmap.value));
      var results := [];
      if decodedResults.Some? {
        results := MapSymbols(decodedResults.value, Standard, now);
      }
      return Returned(results);
    }

    /** DecodeFromImage(imageBytes, mode): classifies under `mode`. */
    method DecodeFromImageWithMode(imageBytes: Option<seq<byte>>, mode: BarcodeMode, codec: ImageCodec, now: DateTime)
      returns (call: DecodeCall)
      ensures CallFor(call, ReadSymbols(codec, imageBytes), mode, now)
      ensures imageBytes.None? ==> call == Threw(NullBufferMessage)
    {
      if imageBytes.None? {
        return Threw(NullBufferMessage);
      }
      var originalBitmap := codec.decode(imageBytes.value);
      if originalBitmap.None? {
        return Returned([]);
      }
      var resizedBitmap := codec.resize(originalBitmap.value);
      if resizedBitmap.None? {
        return Threw(NullReferenceMessage);
      }
      var decodedResults := codec.decodeMultiple(codec.grayscale(resizedBitmap.value));
      var results := [];
      if decodedResults.Some? {
        results := MapSymbols(decodedResults.value, mode, now);
      }
      return Returned(results);
    }
  }
}
