/**
  What the two BarcodeDetectorService classes share: the image library and the ZXing reader as
  uninterpreted functions, the mode-to-classifier switch, and the item built for each decoded symbol.
 */
module Decoding {
  import opened Wrappers
  import opened Domain
  import Standard = BarcodeClassifier
  import Unique = UniqueBarcodeClassifier

  datatype Bitmap = Bitmap(width: nat, height: nat, pixels: seq<byte>)

  /** A ZXing Result: the decoded text and the barcode format's name. */
  datatype DecodedSymbol = DecodedSymbol(text: string, format: string)

  /**
    SKBitmap.Decode, SKBitmap.Resize to 800x600, the grayscale redraw and BarcodeReader.DecodeMultiple.
    None is a null result.
   */
  datatype ImageCodec = ImageCodec(
    decode: seq<byte> -> Option<Bitmap>,
    resize: Bitmap -> Option<Bitmap>,
    grayscale: Bitmap -> Bitmap,
    decodeMultiple: Bitmap -> Option<seq<DecodedSymbol>>)

  /** The `mode switch`: Standard and Unique pick their classifier, any other value gives "Unknown". */
  function CategoryFor(mode: BarcodeMode, text: string): (category: string)
    ensures mode == Standard ==> category in Standard.Labels
    ensures mode == Unique ==> category in Unique.Labels
    ensures mode == UndeclaredMode ==> category == "Unknown"
  {
    match mode
    case Standard => Standard.Classify(text)
    case Unique => Unique.Classify(text)
    case UndeclaredMode => "Unknown"
  }

  /** The item a decoded symbol becomes: its text and format copied, the given category, the current time, an empty id. */
  function ItemFor(symbol: DecodedSymbol, category: string, now: DateTime): ScanItem
  {
    ScanItem(EmptyGuid, symbol.text, category, now, symbol.format)
  }

  /** `items` has exactly one item per symbol, in the same order, categorised under `mode`: nothing is filtered or merged. */
  predicate ItemsFor(items: seq<ScanItem>, symbols: seq<DecodedSymbol>, mode: BarcodeMode, now: DateTime)
  {
    |items| == |symbols|
    && forall i :: 0 <= i < |items| ==> items[i] == ItemFor(symbols[i], CategoryFor(mode, symbols[i].text), now)
  }

  /** The decoded texts, in order. */
  function Texts(symbols: seq<DecodedSymbol>): (r: seq<string>)
    ensures |r| == |symbols| && forall i :: 0 <= i < |symbols| ==> r[i] == symbols[i].text
  {
    seq(|symbols|, i requires 0 <= i < |symbols| => symbols[i].text)
  }

  /** The items' values are the decoded texts in order, and each item's category is its own value's classification. */
  lemma ItemsForValues(items: seq<ScanItem>, symbols: seq<DecodedSymbol>, mode: BarcodeMode, now: DateTime)
    requires ItemsFor(items, symbols, mode, now)
    ensures Values(items) == Texts(symbols)
    ensures forall i :: 0 <= i < |items| ==> items[i].category == CategoryFor(mode, items[i].value)
  {
  }

  /** The mapping is a function of the symbols: two item lists built from the same symbols are equal. */
  lemma ItemsForUnique(a: seq<ScanItem>, b: seq<ScanItem>, symbols: seq<DecodedSymbol>, mode: BarcodeMode, now: DateTime)
    requires ItemsFor(a, symbols, mode, now) && ItemsFor(b, symbols, mode, now)
    ensures a == b
  {
  }

  /** Appending one symbol's item extends the mapping by one symbol: the loop invariant of both decoders. */
  lemma ItemsForSnoc(items: seq<ScanItem>, symbols: seq<DecodedSymbol>, k: nat, mode: BarcodeMode, now: DateTime)
    requires k < |symbols| && ItemsFor(items, symbols[..k], mode, now)
    ensures ItemsFor(items + [ItemFor(symbols[k], CategoryFor(mode, symbols[k].text), now)], symbols[..k + 1], mode, now)
  {
  }

  /** The mapping loop both decoders run: one item per symbol, in order, categorised under `mode`. */
  method MapSymbols(symbols: seq<DecodedSymbol>, mode: BarcodeMode, now: DateTime) returns (results: seq<ScanItem>)
    ensures ItemsFor(results, symbols, mode, now)
  {
    results := [];
    for i := 0 to |symbols|
      invariant ItemsFor(results, symbols[..i], mode, now)
    {
      var category := CategoryFor(mode, symbols[i].text);
      ItemsForSnoc(results, symbols, i, mode, now);
      results := results + [ItemFor(symbols[i], category, now)];
    }
    assert symbols[..|symbols|] == symbols;
  }
}
