/**
  BarcodeClassifier.Classify: the Standard rule table. The rules are tried in order and the
  first whose pattern matches gives the category label.
 */
module BarcodeClassifier {
  import opened Text
  import opened Patterns

  /** The labels the Standard table can return. */
  const Labels: set<string> := {"Serial Number", "Deviation", "MAC Address", "ASY", "PCA", "Unknown"}

  function Classify(barcode: string): (category: string)
    ensures category in Labels && |category| > 0
  {
    if StandardSerial(barcode) then "Serial Number"
    else if Deviation(barcode) then "Deviation"
    else if MacAddress(barcode) then "MAC Address"
    else if ContainsAssembly(barcode) then "ASY"
    else if ContainsBoard(barcode) then "PCA"
    else "Unknown"
  }

  /**
    The rules' patterns barely overlap, so each label has a characterisation that does not depend on
    the order of the earlier rules: only an ASY match and a PCA match can occur together, and then ASY wins.
   */
  lemma ClassifyCharacterised(s: string)
    ensures Classify(s) == "Serial Number" <==> StandardSerial(s)
    ensures Classify(s) == "Deviation" <==> Deviation(s)
    ensures Classify(s) == "MAC Address" <==> MacAddress(s)
    ensures Classify(s) == "ASY" <==> ContainsAssembly(s)
    ensures Classify(s) == "PCA" <==> ContainsBoard(s) && !ContainsAssembly(s)
    ensures Classify(s) == "Unknown" <==>
      !StandardSerial(s) && !Deviation(s) && !MacAddress(s) && !ContainsAssembly(s) && !ContainsBoard(s)
  {
    if StandardSerial(s) {
      StandardSerialShape(s);
      assert !Deviation(s) && !MacAddress(s) by {
        if Deviation(s) { DeviationShape(s); }
        if MacAddress(s) { MacAddressShape(s); }
      }
    }
    if Deviation(s) {
      DeviationShape(s);
      assert !MacAddress(s) by {
        if MacAddress(s) { MacAddressShape(s); }
      }
    }
    if StandardSerial(s) || Deviation(s) || MacAddress(s) {
      AnchoredHaveNoTaggedCode(s);
    }
  }

  /** First match wins: a string with both an ASY and a PCA code is an ASY. */
  lemma AssemblyBeatsBoard(s: string)
    requires ContainsAssembly(s) && ContainsBoard(s)
    ensures Classify(s) == "ASY"
  {
    ClassifyCharacterised(s);
  }

  /** ASY and PCA are containment tests: surrounding text keeps an ASY an ASY. */
  lemma AssemblyInAnyContext(p: string, s: string, q: string)
    requires Classify(s) == "ASY"
    ensures Classify(p + s + q) == "ASY"
  {
    ClassifyCharacterised(s);
    AssemblyInContext(p, s, q);
    ClassifyCharacterised(p + s + q);
  }

  /** Surrounding text keeps a PCA match, which is then classified as PCA unless the text adds an ASY code. */
  lemma BoardInAnyContext(p: string, s: string, q: string)
    requires Classify(s) == "PCA"
    ensures Classify(p + s + q) in {"ASY", "PCA"}
  {
    ClassifyCharacterised(s);
    BoardInContext(p, s, q);
    ClassifyCharacterised(p + s + q);
  }

  /** Three letters, four digits, four alphanumerics: a serial number. */
  lemma SerialExample()
    ensures Classify("ABC1234WXYZ") == "Serial Number"
  {
    assert LetterDigitCode("ABC1234WXYZ");
  }

  /** "dev" in any case, an optional dash, five digits: a deviation. */
  lemma DeviationExamples()
    ensures Classify("dev-12345") == "Deviation"
    ensures Classify("DEV12345") == "Deviation"
  {
    assert !LetterDigitCode("dev-12345") && !LetterDigitCode("dev-12345"[..8]);
    assert DeviationCode("dev-12345");
    assert DeviationCode("DEV12345");
  }

  lemma MacExample()
    ensures Classify("AA:BB:CC:DD:EE:FF") == "MAC Address"
  {
    assert MacCode("AA:BB:CC:DD:EE:FF");
  }

  lemma AssemblyExample()
    ensures Classify("ASY-12345-67-A1") == "ASY"
  {
    AssemblyExampleMatches();
    ClassifyCharacterised("ASY-12345-67-A1");
  }

  /** The ASY pattern matches "ASY-12345-67-A1", one separator between groups. */
  lemma AssemblyExampleMatches()
    ensures ContainsAssembly("ASY-12345-67-A1")
  {
    var u := "ASY-12345-67-A1";
    assert UpperAscii(u[0]) == 'A' && UpperAscii(u[1]) == 'S' && UpperAscii(u[2]) == 'Y';
    assert IsSep(u[3]) && RunOf(u, 4, 5, IsDigit) && IsSep(u[9]) && RunOf(u, 10, 2, IsDigit);
    assert IsSep(u[12]) && IsAlnum(u[13]) && !IsSep(u[13]) && IsDigit(u[14]);
    SingleSeparatedCode(u, "ASY", true);
  }

  /**
    A tag, then five digits, two digits and the final pair, each group after exactly one separator:
    the tagged pattern matches at the start of such a 15-character string.
   */
  lemma SingleSeparatedCode(u: string, tag: string, optionalThird: bool)
    requires |tag| == 3 && |u| == 15
    requires UpperAscii(u[0]) == tag[0] && UpperAscii(u[1]) == tag[1] && UpperAscii(u[2]) == tag[2]
    requires IsSep(u[3]) && RunOf(u, 4, 5, IsDigit) && IsSep(u[9]) && RunOf(u, 10, 2, IsDigit)
    requires IsSep(u[12]) && IsAlnum(u[13]) && !IsSep(u[13]) && IsDigit(u[14])
    ensures TaggedCodeAt(u, tag, optionalThird)
  {
    PairExample(u[12..]);
    assert u[10..][2..] == u[12..];
    assert TwoDigitsAt(u[10..], optionalThird);
    GroupAfterSeparator(u[9..], optionalThird);
    var v := u[3..];
    assert v[6..] == u[9..];
    assert v[1..][0] == u[4];
    assert SepRun(v) == 1;
    assert FiveDigitsFrom(v, 1, optionalThird);
  }

  /** A single separator and then a letter or digit followed by a digit: the final pair group. */
  lemma PairExample(x: string)
    requires |x| == 3 && IsSep(x[0]) && IsAlnum(x[1]) && !IsSep(x[1]) && IsDigit(x[2])
    ensures PairAt(x)
  {
    assert x[1..][0] == x[1];
    assert SepRun(x[1..]) == 0;
  }

  /** A single separator followed by the two-digit group. */
  lemma GroupAfterSeparator(x: string, optionalThird: bool)
    requires |x| > 1 && IsSep(x[0]) && IsDigit(x[1]) && TwoDigitsAt(x[1..], optionalThird)
    ensures SepsThenTwoDigits(x, optionalThird)
  {
    assert x[1..][0] == x[1];
    assert SepRun(x[1..]) == 0;
    assert SepRun(x) == 1;
  }

  lemma BoardExample()
    ensures Classify("PCA 12345 67 89") == "PCA"
  {
    BoardExampleMatches();
    BoardExampleIsNotAnchored();
    BoardExampleHasNoAssembly();
  }

  /** The board example matches none of the anchored rules. */
  lemma BoardExampleIsNotAnchored()
    ensures !StandardSerial("PCA 12345 67 89") && !Deviation("PCA 12345 67 89") && !MacAddress("PCA 12345 67 89")
  {
  }

  /** The board example holds no 'S', so it holds no ASY code. */
  lemma BoardExampleHasNoAssembly()
    ensures !ContainsAssembly("PCA 12345 67 89")
  {
    var s := "PCA 12345 67 89";
    assert 'S' !in s && 's' !in s;
    MissingTagLetter(s, AssemblyAt, "ASY", true);
  }

  /** The PCA pattern matches "PCA 12345 67 89", one space between groups. */
  lemma BoardExampleMatches()
    ensures ContainsBoard("PCA 12345 67 89")
  {
    var u := "PCA 12345 67 89";
    assert UpperAscii(u[0]) == 'P' && UpperAscii(u[1]) == 'C' && UpperAscii(u[2]) == 'A';
    assert IsSep(u[3]) && RunOf(u, 4, 5, IsDigit) && IsSep(u[9]) && RunOf(u, 10, 2, IsDigit);
    assert IsSep(u[12]) && IsAlnum(u[13]) && !IsSep(u[13]) && IsDigit(u[14]);
    SingleSeparatedCode(u, "PCA", false);
  }

  /** Text matching no rule is Unknown. */
  lemma UnknownExample()
    ensures Classify("zzz") == "Unknown"
  {
    ShortHasNoTaggedCode("zzz", AssemblyAt, "ASY", true);
    ShortHasNoTaggedCode("zzz", BoardAt, "PCA", false);
  }

  /** "DEV--12345" allows at most one dash, so it is no Deviation; it matches no rule at all. */
  lemma DoubleDashIsUnknown()
    ensures Classify("DEV--12345") == "Unknown"
  {
    TenCharactersUnknown("DEV--12345");
  }

  /** Ten characters without a final line feed are too long for a deviation and too short for every other rule. */
  lemma TenCharactersUnknown(s: string)
    requires |s| == 10 && s[9] != '\n'
    ensures Classify(s) == "Unknown"
  {
    ShortHasNoTaggedCode(s, AssemblyAt, "ASY", true);
    ShortHasNoTaggedCode(s, BoardAt, "PCA", false);
  }
}
