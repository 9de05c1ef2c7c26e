/**
  UniqueBarcodeClassifier.Classify: the Unique rule table. It reuses the Deviation, MAC and ASY rules of
  the Standard table, recognises model serial numbers and Japan assembly numbers, and labels the
  Standard serial shape "PCA".
 */
module UniqueBarcodeClassifier {
  import opened Text
  import opened Patterns
  import Standard = BarcodeClassifier

  /** The labels the Unique table can return. */
  const Labels: set<string> := {"Serial Number", "Deviation", "MAC Address", "ASY", "ASY-OTL", "PCA", "Unknown"}

  function Classify(barcode: string): (category: string)
    ensures category in Labels && |category| > 0
  {
    if ModelSerial(barcode) then "Serial Number"
    else if Deviation(barcode) then "Deviation"
    else if MacAddress(barcode) then "MAC Address"
    else if ContainsAssembly(barcode) then "ASY"
    else if JapanAssembly(barcode) then "ASY-OTL"
    else if StandardSerial(barcode) then "PCA"
    else "Unknown"
  }

  /**
    Each label in terms of the patterns alone. Only one pair of rules overlaps: every Japan assembly
    number also has the shape of the PCA rule, and the earlier ASY-OTL rule takes it.
   */
  lemma ClassifyCharacterised(s: string)
    ensures Classify(s) == "Serial Number" <==> ModelSerial(s)
    ensures Classify(s) == "Deviation" <==> Deviation(s)
    ensures Classify(s) == "MAC Address" <==> MacAddress(s)
    ensures Classify(s) == "ASY" <==> ContainsAssembly(s)
    ensures Classify(s) == "ASY-OTL" <==> JapanAssembly(s)
    ensures Classify(s) == "PCA" <==> StandardSerial(s) && !JapanAssembly(s)
    ensures Classify(s) == "Unknown" <==>
      !ModelSerial(s) && !Deviation(s) && !MacAddress(s) && !ContainsAssembly(s) && !StandardSerial(s)
  {
    if ModelSerial(s) {
      ModelSerialShape(s);
      ModelSerialHasNoAssembly(s);
      assert !Deviation(s) && !MacAddress(s) && !JapanAssembly(s) && !StandardSerial(s) by {
        if Deviation(s) { DeviationShape(s); }
        if MacAddress(s) { MacAddressShape(s); }
        if JapanAssembly(s) { JapanAssemblyShape(s); }
        if StandardSerial(s) { StandardSerialShape(s); }
      }
    }
    if Deviation(s) {
      DeviationShape(s);
      assert !MacAddress(s) && !JapanAssembly(s) && !StandardSerial(s) by {
        if MacAddress(s) { MacAddressShape(s); }
        if JapanAssembly(s) { JapanAssemblyShape(s); }
        if StandardSerial(s) { StandardSerialShape(s); }
      }
    }
    if MacAddress(s) {
      MacAddressShape(s);
      assert !JapanAssembly(s) && !StandardSerial(s) by {
        if JapanAssembly(s) { JapanAssemblyShape(s); }
        if StandardSerial(s) { StandardSerialShape(s); }
      }
    }
    if Deviation(s) || MacAddress(s) || StandardSerial(s) {
      AnchoredHaveNoTaggedCode(s);
    }
    if JapanAssembly(s) {
      JapanAssemblyIsStandardSerial(s);
    }
  }

  /** The Deviation, MAC Address and ASY rules are shared with the Standard table and give the same answers. */
  lemma SharedRulesAgree(s: string)
    ensures Classify(s) == "Deviation" <==> Standard.Classify(s) == "Deviation"
    ensures Classify(s) == "MAC Address" <==> Standard.Classify(s) == "MAC Address"
    ensures Classify(s) == "ASY" <==> Standard.Classify(s) == "ASY"
  {
    ClassifyCharacterised(s);
    Standard.ClassifyCharacterised(s);
  }

  /** The Standard serial shape means "Serial Number" under Standard but "PCA" here, unless it is a Japan assembly number. */
  lemma StandardSerialIsBoard(s: string)
    requires StandardSerial(s)
    ensures Standard.Classify(s) == "Serial Number"
    ensures Classify(s) == (if JapanAssembly(s) then "ASY-OTL" else "PCA")
  {
    ClassifyCharacterised(s);
    Standard.ClassifyCharacterised(s);
  }

  /** A model serial number: prefix M48L, a B with two digits, five alphanumerics and one more. */
  lemma SerialExample()
    ensures Classify("M48L-B12-ABCDE-F") == "Serial Number"
  {
    var s := "M48L-B12-ABCDE-F";
    assert StartsWith(s, "M48L");
    assert s[4..] == "-B12-ABCDE-F";
    assert ModelSerialTail(s[4..], 2);
    assert "M48L" in ModelPrefixes;
    assert ModelSerialCode(s);
  }

  /** "JPN1234A567" also fits the PCA shape, but the ASY-OTL rule comes first. */
  lemma JapanExample()
    ensures StandardSerial("JPN1234A567")
    ensures Classify("JPN1234A567") == "ASY-OTL"
  {
    var s := "JPN1234A567";
    assert s[..3] == "JPN";
    assert JapanAssemblyCode(s);
    StandardSerialIsBoard(s);
  }

  /** ASY-OTL is case-sensitive: the lower-case "jpn" falls through to PCA. */
  lemma LowerCaseJapanExample()
    ensures Classify("jpn1234A567") == "PCA"
  {
    var s := "jpn1234A567";
    assert LetterDigitCode(s);
    assert s[..3] != "JPN" by { assert s[0] != "JPN"[0]; }
    StandardSerialIsBoard(s);
  }

  /** The Standard serial example is a PCA here. */
  lemma BoardExample()
    ensures Classify("ABC1234WXYZ") == "PCA"
    ensures Standard.Classify("ABC1234WXYZ") == "Serial Number"
  {
    var s := "ABC1234WXYZ";
    assert LetterDigitCode(s);
    assert s[..3] != "JPN" by { assert s[0] != "JPN"[0]; }
    StandardSerialIsBoard(s);
  }

  /** Text matching no rule is Unknown. */
  lemma UnknownExample()
    ensures Classify("zzz") == "Unknown"
  {
    ShortHasNoTaggedCode("zzz", AssemblyAt, "ASY", true);
  }
}
