/**
  The regular expressions of the two barcode classifiers, written out as predicates over strings.

  .NET semantics that matter here:
  - matching is case-sensitive unless the pattern lists both cases;
  - `^` matches only at the start of the string and `$` at its end or just before one final '\n';
  - a pattern without `^` matches when it matches starting at SOME position of the string;
  - `[0-9]` and `[a-zA-Z]` are ASCII classes. `\d` is the Unicode decimal-digit class; it is read
    here as the ASCII digits, an assumption of the model.
 */
module Patterns {
  import opened Text

  predicate IsLetter(c: char) { ('a' <= c <= 'z') || ('A' <= c <= 'Z') }
  predicate IsUpperLetter(c: char) { 'A' <= c <= 'Z' }
  predicate IsDigit(c: char) { '0' <= c <= '9' }
  predicate IsAlnum(c: char) { IsLetter(c) || IsDigit(c) }
  predicate IsHex(c: char) { IsDigit(c) || ('a' <= c <= 'f') || ('A' <= c <= 'F') }
  /** The class `[- ]`. */
  predicate IsSep(c: char) { c == '-' || c == ' ' }

  /** `n` characters of class `cls` starting at `from`. */
  predicate RunOf(s: string, from: nat, n: nat, cls: char -> bool)
  {
    from + n <= |s| && forall k :: from <= k < from + n ==> cls(s[k])
  }

  /** A pattern of the form `^body$`: `body` matches the whole string, or all of it but one final line feed. */
  predicate Anchored(s: string, body: string -> bool)
  {
    body(s) || (|s| > 0 && s[|s| - 1] == '\n' && body(s[..|s| - 1]))
  }

  // ---------------------------------------------------------------- anchored bodies

  /** `[a-zA-Z]{3}[0-9]{4}[0-9a-zA-Z]{4}` */
  predicate LetterDigitCode(s: string)
  {
    |s| == 11 && RunOf(s, 0, 3, IsLetter) && RunOf(s, 3, 4, IsDigit) && RunOf(s, 7, 4, IsAlnum)
  }

  /** `[dD][eE][vV]-?[0-9]{5}` */
  predicate DeviationCode(s: string)
  {
    |s| >= 8 && UpperAscii(s[0]) == 'D' && UpperAscii(s[1]) == 'E' && UpperAscii(s[2]) == 'V'
    && ((|s| == 8 && RunOf(s, 3, 5, IsDigit)) || (|s| == 9 && s[3] == '-' && RunOf(s, 4, 5, IsDigit)))
  }

  /** `[0-9A-Fa-f]{2}(:[0-9A-Fa-f]{2}){5}` */
  predicate MacCode(s: string)
  {
    |s| == 17 && forall k :: 0 <= k < 17 ==> if k % 3 == 2 then s[k] == ':' else IsHex(s[k])
  }

  /** `JPN[0-9]{4}[A-Z][0-9]{3}` */
  predicate JapanAssemblyCode(s: string)
  {
    |s| == 11 && s[..3] == "JPN" && RunOf(s, 3, 4, IsDigit) && IsUpperLetter(s[7]) && RunOf(s, 8, 3, IsDigit)
  }

  /** The alternatives of `(M48L(B)?|C96L(B)?|C48)`. */
  const ModelPrefixes: seq<string> := ["M48L", "M48LB", "C96L", "C96LB", "C48"]

  /** `-[BC]\d{d}-[A-Za-z0-9]{5}-[A-Za-z0-9]` for a digit count `d` of 1 or 2. */
  predicate ModelSerialTail(t: string, d: nat)
  {
    |t| == 10 + d && t[0] == '-' && (t[1] == 'B' || t[1] == 'C') && RunOf(t, 2, d, IsDigit)
    && t[2 + d] == '-' && RunOf(t, 3 + d, 5, IsAlnum) && t[8 + d] == '-' && IsAlnum(t[9 + d])
  }

  /** `(M48L(B)?|C96L(B)?|C48)-[BC]\d{1,2}-[A-Za-z0-9]{5}-[A-Za-z0-9]` */
  predicate ModelSerialCode(s: string)
  {
    exists p, d :: p in ModelPrefixes && 1 <= d <= 2 && StartsWith(s, p) && ModelSerialTail(s[|p|..], d)
  }

  predicate StandardSerial(s: string) { Anchored(s, LetterDigitCode) }
  predicate Deviation(s: string) { Anchored(s, DeviationCode) }
  predicate MacAddress(s: string) { Anchored(s, MacCode) }
  predicate JapanAssembly(s: string) { Anchored(s, JapanAssemblyCode) }
  predicate ModelSerial(s: string) { Anchored(s, ModelSerialCode) }

  // ---------------------------------------------------------------- unanchored tagged codes

  /** The length of the run of `[- ]` at the start of `u`. */
  function SepRun(u: string): (n: nat)
    ensures n <= |u|
    ensures forall k :: 0 <= k < n ==> IsSep(u[k])
    ensures n < |u| ==> !IsSep(u[n])
  {
    if |u| > 0 && IsSep(u[0]) then 1 + SepRun(u[1..]) else 0
  }

  /**
    `[- ]*([0-9a-zA-Z][0-9])` at the start of `x`. The class after the separators excludes them,
    so the separator run must be the whole leading run.
   */
  predicate PairAt(x: string)
  {
    var c := SepRun(x);
    c + 2 <= |x| && IsAlnum(x[c]) && IsDigit(x[c + 1])
  }

  /** `([0-9]{2}[0-9]?)[- ]*(...)` (ASY) or `([0-9]{2})[- ]*(...)` (PCA) at the start of `w`. */
  predicate TwoDigitsAt(w: string, optionalThird: bool)
  {
    RunOf(w, 0, 2, IsDigit)
    && (PairAt(w[2..]) || (optionalThird && |w| > 2 && IsDigit(w[2]) && PairAt(w[3..])))
  }

  /** `[- ]*` followed by the two-digit part, at the start of `x`. */
  predicate SepsThenTwoDigits(x: string, optionalThird: bool)
  {
    TwoDigitsAt(x[SepRun(x)..], optionalThird)
  }

  /** `[- ]*([0-9]{5})[- ]*` followed by the two-digit part, at the start of `v`. */
  predicate FiveDigitsAt(v: string, optionalThird: bool)
  {
    FiveDigitsFrom(v, SepRun(v), optionalThird)
  }

  /** FiveDigitsAt once the leading separator run is known to have length `a`. */
  predicate FiveDigitsFrom(v: string, a: nat, optionalThird: bool)
  {
    RunOf(v, a, 5, IsDigit) && SepsThenTwoDigits(v[a + 5..], optionalThird)
  }

  /** A three-letter tag in either case (`[aA][sS][yY]`) followed by the code, at the start of `u`. */
  predicate TaggedCodeAt(u: string, tag: string, optionalThird: bool)
    requires |tag| == 3
  {
    |u| >= 3 && UpperAscii(u[0]) == tag[0] && UpperAscii(u[1]) == tag[1] && UpperAscii(u[2]) == tag[2]
    && FiveDigitsAt(u[3..], optionalThird)
  }

  /** The ASY pattern matches at the start of `u`. */
  predicate AssemblyAt(u: string) { TaggedCodeAt(u, "ASY", true) }

  /** The PCA pattern matches at the start of `u`. */
  predicate BoardAt(u: string) { TaggedCodeAt(u, "PCA", false) }

  /** An unanchored pattern matches: it matches at the start of some suffix of `s`. */
  predicate SomeSuffix(s: string, at: string -> bool)
  {
    at(s) || (|s| > 0 && SomeSuffix(s[1..], at))
  }

  /** `[aA][sS][yY][- ]*([0-9]{5})[- ]*([0-9]{2}[0-9]?)[- ]*([0-9a-zA-Z][0-9])` occurs in `s`. */
  predicate ContainsAssembly(s: string) { SomeSuffix(s, AssemblyAt) }

  /** `[pP][cC][aA][- ]*([0-9]{5})[- ]*([0-9]{2})[- ]*([0-9a-zA-Z][0-9])` occurs in `s`. */
  predicate ContainsBoard(s: string) { SomeSuffix(s, BoardAt) }

  // ---------------------------------------------------------------- facts about the patterns

  /** A match starting at index `i` makes the unanchored pattern match. */
  lemma {:induction false} SomeSuffixAt(s: string, at: string -> bool, i: nat)
    requires i <= |s| && at(s[i..])
    ensures SomeSuffix(s, at)
  {
    if i > 0 {
      assert s[1..][i - 1..] == s[i..];
      SomeSuffixAt(s[1..], at, i - 1);
    }
  }

  /** An unanchored match always has a starting index. */
  lemma {:induction false} SomeSuffixWitness(s: string, at: string -> bool) returns (i: nat)
    requires SomeSuffix(s, at)
    ensures i <= |s| && at(s[i..])
  {
    if at(s) {
      i := 0;
    } else {
      var j := SomeSuffixWitness(s[1..], at);
      assert s[1..][j..] == s[j + 1..];
      i := j + 1;
    }
  }

  /** Text after a separator run that stops before the end of `u` does not change the run. */
  lemma {:induction false} SepRunAppend(u: string, q: string)
    requires SepRun(u) < |u|
    ensures SepRun(u + q) == SepRun(u)
  {
    if IsSep(u[0]) {
      assert (u + q)[1..] == u[1..] + q;
      SepRunAppend(u[1..], q);
    }
  }

  lemma PairAtAppend(x: string, q: string)
    requires PairAt(x)
    ensures PairAt(x + q)
  {
    SepRunAppend(x, q);
  }

  lemma TwoDigitsAtAppend(w: string, q: string, optionalThird: bool)
    requires TwoDigitsAt(w, optionalThird)
    ensures TwoDigitsAt(w + q, optionalThird)
  {
    assert (w + q)[0] == w[0] && (w + q)[1] == w[1];
    if PairAt(w[2..]) {
      PairAtAppend(w[2..], q);
      DropAppend(w, q, 2);
    } else {
      assert (w + q)[2] == w[2];
      PairAtAppend(w[3..], q);
      DropAppend(w, q, 3);
    }
  }

  lemma SepsThenTwoDigitsAppend(x: string, q: string, optionalThird: bool)
    requires SepsThenTwoDigits(x, optionalThird)
    ensures SepsThenTwoDigits(x + q, optionalThird)
  {
    var b := SepRun(x);
    SepRunAppend(x, q);
    DropAppend(x, q, b);
    TwoDigitsAtAppend(x[b..], q, optionalThird);
  }

  lemma FiveDigitsAtAppend(v: string, q: string, optionalThird: bool)
    requires FiveDigitsAt(v, optionalThird)
    ensures FiveDigitsAt(v + q, optionalThird)
  {
    var a := SepRun(v);
    SepRunAppend(v, q);
    FiveDigitsFromAppend(v, q, a, optionalThird);
  }

  lemma FiveDigitsFromAppend(v: string, q: string, a: nat, optionalThird: bool)
    requires FiveDigitsFrom(v, a, optionalThird)
    ensures FiveDigitsFrom(v + q, a, optionalThird)
  {
    DigitRunAppend(v, q, a);
    DropAppend(v, q, a + 5);
    SepsThenTwoDigitsAppend(v[a + 5..], q, optionalThird);
  }

  /** Text after a run does not change the run. */
  lemma DigitRunAppend(v: string, q: string, a: nat)
    requires RunOf(v, a, 5, IsDigit)
    ensures RunOf(v + q, a, 5, IsDigit)
  {
    forall k | a <= k < a + 5 ensures IsDigit((v + q)[k]) {
      assert (v + q)[k] == v[k];
    }
  }

  lemma DropAppend(v: string, q: string, i: nat)
    requires i <= |v|
    ensures (v + q)[i..] == v[i..] + q
  {
  }

  /** A match at the start of `u` is still a match when text follows it. */
  lemma TaggedCodeAtAppend(u: string, q: string, tag: string, optionalThird: bool)
    requires |tag| == 3 && TaggedCodeAt(u, tag, optionalThird)
    ensures TaggedCodeAt(u + q, tag, optionalThird)
  {
    assert (u + q)[0] == u[0] && (u + q)[1] == u[1] && (u + q)[2] == u[2];
    DropAppend(u, q, 3);
    FiveDigitsAtAppend(u[3..], q, optionalThird);
  }

  /** Text before a match does not prevent an unanchored pattern from matching. */
  lemma SomeSuffixAfterPrefix(p: string, s: string, at: string -> bool)
    requires SomeSuffix(s, at)
    ensures SomeSuffix(p + s, at)
  {
    var i := SomeSuffixWitness(s, at);
    assert (p + s)[|p| + i..] == s[i..];
    SomeSuffixAt(p + s, at, |p| + i);
  }

  /** A match at index `i` of `s` that still matches with `q` after it makes the pattern match `s + q`. */
  lemma SomeSuffixOfAppend(s: string, q: string, at: string -> bool, i: nat)
    requires i <= |s| && at(s[i..] + q)
    ensures SomeSuffix(s + q, at)
  {
    assert (s + q)[i..] == s[i..] + q;
    SomeSuffixAt(s + q, at, i);
  }

  lemma AssemblyBeforeSuffix(s: string, q: string)
    requires ContainsAssembly(s)
    ensures ContainsAssembly(s + q)
  {
    var i := SomeSuffixWitness(s, AssemblyAt);
    TaggedCodeAtAppend(s[i..], q, "ASY", true);
    SomeSuffixOfAppend(s, q, AssemblyAt, i);
  }

  lemma BoardBeforeSuffix(s: string, q: string)
    requires ContainsBoard(s)
    ensures ContainsBoard(s + q)
  {
    var i := SomeSuffixWitness(s, BoardAt);
    TaggedCodeAtAppend(s[i..], q, "PCA", false);
    SomeSuffixOfAppend(s, q, BoardAt, i);
  }

  /** SomeSuffixAfterPrefix for a match followed by more text. */
  lemma SomeSuffixInContext(p: string, s: string, q: string, at: string -> bool)
    requires SomeSuffix(s + q, at)
    ensures SomeSuffix(p + s + q, at)
  {
    SomeSuffixAfterPrefix(p, s + q, at);
    assert p + (s + q) == p + s + q;
  }

  /** The ASY pattern is a containment test: text before or after a match does not prevent it. */
  lemma AssemblyInContext(p: string, s: string, q: string)
    requires ContainsAssembly(s)
    ensures ContainsAssembly(p + s + q)
  {
    AssemblyBeforeSuffix(s, q);
    SomeSuffixInContext(p, s, q, AssemblyAt);
  }

  /** The PCA pattern is a containment test as well. */
  lemma BoardInContext(p: string, s: string, q: string)
    requires ContainsBoard(s)
    ensures ContainsBoard(p + s + q)
  {
    BoardBeforeSuffix(s, q);
    SomeSuffixInContext(p, s, q, BoardAt);
  }

  /** A code character: a letter, a digit or a separator. */
  predicate CodeChar(c: char) { IsAlnum(c) || IsSep(c) }

  lemma PairAtShape(x: string)
    requires PairAt(x)
    ensures RunOf(x, 0, 2, CodeChar)
  {
  }

  lemma TwoDigitsAtShape(w: string, optionalThird: bool)
    requires TwoDigitsAt(w, optionalThird)
    ensures RunOf(w, 0, 4, CodeChar)
  {
    if PairAt(w[2..]) {
      PairAtShape(w[2..]);
      assert forall k :: 2 <= k < 4 ==> w[k] == w[2..][k - 2];
    } else {
      PairAtShape(w[3..]);
      assert forall k :: 3 <= k < 5 ==> w[k] == w[3..][k - 3];
    }
  }

  lemma SepsThenTwoDigitsShape(x: string, optionalThird: bool)
    requires SepsThenTwoDigits(x, optionalThird)
    ensures RunOf(x, 0, 4, CodeChar)
  {
    var b := SepRun(x);
    TwoDigitsAtShape(x[b..], optionalThird);
    assert forall k :: b <= k < b + 4 ==> x[k] == x[b..][k - b];
  }

  lemma FiveDigitsAtShape(v: string, optionalThird: bool)
    requires FiveDigitsAt(v, optionalThird)
    ensures RunOf(v, 0, 9, CodeChar)
  {
    var a := SepRun(v);
    var w := v[a + 5..];
    SepsThenTwoDigitsShape(w, optionalThird);
    assert |v| == a + 5 + |w|;
    forall k | 0 <= k < 9 ensures CodeChar(v[k]) {
      if k < a {
        assert IsSep(v[k]);
      } else if k < a + 5 {
        assert IsDigit(v[k]);
      } else {
        assert v[k] == w[k - a - 5];
      }
    }
  }

  /** A character whose upper case is a letter is a letter. */
  lemma UpperOfLetter(c: char, t: char)
    requires IsLetter(t) && UpperAscii(c) == t
    ensures IsLetter(c)
  {
  }

  /** Every match of an unanchored pattern spans at least twelve code characters, so it holds no line feed. */
  lemma TaggedCodeAtShape(u: string, tag: string, optionalThird: bool)
    requires |tag| == 3 && TaggedCodeAt(u, tag, optionalThird)
    requires forall k :: 0 <= k < 3 ==> IsLetter(tag[k])
    ensures RunOf(u, 0, 12, CodeChar)
  {
    var v := u[3..];
    FiveDigitsAtShape(v, optionalThird);
    UpperOfLetter(u[0], tag[0]);
    UpperOfLetter(u[1], tag[1]);
    UpperOfLetter(u[2], tag[2]);
    forall k | 3 <= k < 12 ensures CodeChar(u[k]) {
      assert u[k] == v[k - 3];
    }
  }

  /** A string with fewer than twelve characters before its end or its final line feed contains no tagged code. */
  lemma ShortHasNoTaggedCode(s: string, at: string -> bool, tag: string, optionalThird: bool)
    requires |tag| == 3 && forall k :: 0 <= k < 3 ==> IsLetter(tag[k])
    requires forall u :: at(u) ==> TaggedCodeAt(u, tag, optionalThird)
    requires |s| < 12 || (|s| == 12 && !CodeChar(s[11]))
    ensures !SomeSuffix(s, at)
  {
    if SomeSuffix(s, at) {
      var i := SomeSuffixWitness(s, at);
      TaggedCodeAtShape(s[i..], tag, optionalThird);
    }
  }

  // ---------------------------------------------------------------- how the anchored patterns exclude each other

  lemma StandardSerialShape(s: string)
    requires StandardSerial(s)
    ensures |s| == 11 || (|s| == 12 && s[11] == '\n')
    ensures IsLetter(s[0]) && IsLetter(s[1]) && IsLetter(s[2])
  {
  }

  lemma DeviationShape(s: string)
    requires Deviation(s)
    ensures 8 <= |s| <= 10
  {
  }

  /** Every character of a MAC address is a hex digit, a ':' or the final line feed. */
  lemma MacAddressShape(s: string)
    requires MacAddress(s)
    ensures |s| == 17 || |s| == 18
    ensures forall k :: 0 <= k < |s| ==> IsHex(s[k]) || s[k] == ':' || s[k] == '\n'
    ensures s[2] == ':'
  {
    if !MacCode(s) {
      var b := s[..|s| - 1];
      assert forall k :: 0 <= k < 17 ==> s[k] == b[k];
    }
  }

  lemma JapanAssemblyShape(s: string)
    requires JapanAssembly(s)
    ensures |s| == 11 || (|s| == 12 && s[11] == '\n')
    ensures s[0] == 'J' && s[1] == 'P' && s[2] == 'N'
  {
    var b := if JapanAssemblyCode(s) then s else s[..|s| - 1];
    assert b[..3] == "JPN";
    assert b[0] == 'J' && b[1] == 'P' && b[2] == 'N';
  }

  /** A model serial starts with 'M' or 'C', has a digit at index 2 and is 14 to 17 characters long before any final line feed. */
  lemma ModelSerialShape(s: string)
    requires ModelSerial(s)
    ensures 14 <= |s| <= 18
    ensures (s[0] == 'M' || s[0] == 'C') && IsDigit(s[2])
  {
    var b := if ModelSerialCode(s) then s else s[..|s| - 1];
    assert ModelSerialCode(b);
    var p, d :| p in ModelPrefixes && 1 <= d <= 2 && StartsWith(b, p) && ModelSerialTail(b[|p|..], d);
    ModelSerialCodeShape(b, p, d);
    assert s[0] == b[0] && s[2] == b[2];
  }

  /** The shape of one alternative of the model serial body. */
  lemma ModelSerialCodeShape(b: string, p: string, d: nat)
    requires p in ModelPrefixes && 1 <= d <= 2 && StartsWith(b, p) && ModelSerialTail(b[|p|..], d)
    ensures 3 <= |p| <= 5 && |b| == |p| + 10 + d
    ensures (b[0] == 'M' || b[0] == 'C') && IsDigit(b[2])
  {
    assert |b[|p|..]| == 10 + d;
    assert p == "M48L" || p == "M48LB" || p == "C96L" || p == "C96LB" || p == "C48";
    assert b[0] == b[..|p|][0] == p[0];
    assert b[2] == b[..|p|][2] == p[2];
  }

  /** An unanchored pattern that matches at no index does not match. */
  lemma {:induction false} NoSuffixMatches(s: string, at: string -> bool)
    requires forall i :: 0 <= i <= |s| ==> !at(s[i..])
    ensures !SomeSuffix(s, at)
  {
    assert s[0..] == s;
    if |s| > 0 {
      forall i | 0 <= i <= |s[1..]| ensures !at(s[1..][i..]) {
        assert s[1..][i..] == s[i + 1..];
      }
      NoSuffixMatches(s[1..], at);
    }
  }

  /** A string in which the middle letter of the tag occurs in neither case contains no tagged code. */
  lemma MissingTagLetter(s: string, at: string -> bool, tag: string, optionalThird: bool)
    requires |tag| == 3 && forall u :: at(u) ==> TaggedCodeAt(u, tag, optionalThird)
    requires IsUpperLetter(tag[1]) && tag[1] !in s && LowerAscii(tag[1]) !in s
    ensures !SomeSuffix(s, at)
  {
    forall i | 0 <= i <= |s| ensures !at(s[i..]) {
      if i + 1 < |s| {
        assert s[i..][1] == s[i + 1];
        assert UpperAscii(s[i + 1]) != tag[1];
      }
    }
    NoSuffixMatches(s, at);
  }

  /** A MAC address contains no ASY code: 'S' is not a hex digit. */
  lemma MacHasNoAssembly(s: string)
    requires MacAddress(s)
    ensures !ContainsAssembly(s)
  {
    MacAddressShape(s);
    assert 'S' !in s && 's' !in s;
    MissingTagLetter(s, AssemblyAt, "ASY", true);
  }

  /** A string in which the first letter of the tag occurs in neither case contains no tagged code. */
  lemma MissingTagHead(s: string, at: string -> bool, tag: string, optionalThird: bool)
    requires |tag| == 3 && forall u :: at(u) ==> TaggedCodeAt(u, tag, optionalThird)
    requires IsUpperLetter(tag[0]) && tag[0] !in s && LowerAscii(tag[0]) !in s
    ensures !SomeSuffix(s, at)
  {
    forall i | 0 <= i <= |s| ensures !at(s[i..]) {
      if i < |s| {
        assert s[i..][0] == s[i];
        assert UpperAscii(s[i]) != tag[0];
      }
    }
    NoSuffixMatches(s, at);
  }

  /** A MAC address contains no PCA code: 'P' is not a hex digit. */
  lemma MacHasNoBoard(s: string)
    requires MacAddress(s)
    ensures !ContainsBoard(s)
  {
    MacAddressShape(s);
    assert 'P' !in s && 'p' !in s;
    MissingTagHead(s, BoardAt, "PCA", false);
  }

  /** The short anchored patterns leave no room for a tagged code, which needs twelve code characters. */
  lemma AnchoredHaveNoTaggedCode(s: string)
    requires StandardSerial(s) || Deviation(s) || MacAddress(s) || JapanAssembly(s)
    ensures !ContainsAssembly(s) && !ContainsBoard(s)
  {
    if MacAddress(s) {
      MacHasNoAssembly(s);
      MacHasNoBoard(s);
    } else {
      if StandardSerial(s) { StandardSerialShape(s); }
      if Deviation(s) { DeviationShape(s); }
      if JapanAssembly(s) { JapanAssemblyShape(s); }
      ShortHasNoTaggedCode(s, AssemblyAt, "ASY", true);
      ShortHasNoTaggedCode(s, BoardAt, "PCA", false);
    }
  }

  /** Every tagged code spans at least twelve characters. */
  lemma TaggedCodeLength(u: string, tag: string, optionalThird: bool)
    requires |tag| == 3 && forall k :: 0 <= k < 3 ==> IsLetter(tag[k])
    ensures TaggedCodeAt(u, tag, optionalThird) ==> |u| >= 12
  {
    if TaggedCodeAt(u, tag, optionalThird) {
      TaggedCodeAtShape(u, tag, optionalThird);
    }
  }

  /** A text too short for a tagged code, or whose second letter is not the tag's, does not start with one. */
  lemma NotTaggedAt(u: string, tag: string, optionalThird: bool)
    requires |tag| == 3 && forall k :: 0 <= k < 3 ==> IsLetter(tag[k])
    requires |u| < 12 || UpperAscii(u[1]) != tag[1]
    ensures !TaggedCodeAt(u, tag, optionalThird)
  {
    TaggedCodeLength(u, tag, optionalThird);
  }

  /** No 'S' in either case: none of the model prefixes holds one. */
  lemma ModelPrefixHead(b: string, p: string, d: nat)
    requires p in ModelPrefixes && 1 <= d <= 2 && StartsWith(b, p) && ModelSerialTail(b[|p|..], d)
    ensures forall k :: 0 <= k < |p| + 2 + d ==> UpperAscii(b[k]) != 'S'
  {
    var t := b[|p|..];
    forall k | 0 <= k < |p| + 2 + d ensures UpperAscii(b[k]) != 'S' {
      if k < |p| {
        assert b[k] == b[..|p|][k] == p[k];
        assert 'S' !in p && 's' !in p;
      } else {
        assert b[k] == t[k - |p|];
      }
    }
  }

  /**
    A model serial contains no ASY code: the earliest 'S' it can hold is in its five-character segment,
    too close to the end for the twelve characters an ASY code needs.
   */
  lemma ModelSerialHasNoAssembly(s: string)
    requires ModelSerial(s)
    ensures !ContainsAssembly(s)
  {
    var b := if ModelSerialCode(s) then s else s[..|s| - 1];
    assert ModelSerialCode(b);
    var p, d :| p in ModelPrefixes && 1 <= d <= 2 && StartsWith(b, p) && ModelSerialTail(b[|p|..], d);
    ModelPrefixHead(b, p, d);
    var m := |p| + 2 + d;
    assert |s| <= m + 10 by {
      assert |b[|p|..]| == 10 + d;
    }
    forall k | 0 <= k < m && k < |s| ensures UpperAscii(s[k]) != 'S' {
      assert s[k] == b[k];
    }
    EarlyTagLetterOnly(s, m);
  }

  /** A text whose 'S' letters all come later than index m, with at most ten characters after m, contains no ASY code. */
  lemma EarlyTagLetterOnly(s: string, m: nat)
    requires |s| <= m + 10
    requires forall k :: 0 <= k < m && k < |s| ==> UpperAscii(s[k]) != 'S'
    ensures !ContainsAssembly(s)
  {
    forall i | 0 <= i <= |s| ensures !AssemblyAt(s[i..]) {
      if i + 12 <= |s| {
        assert s[i..][1] == s[i + 1];
      }
      NotTaggedAt(s[i..], "ASY", true);
    }
    NoSuffixMatches(s, AssemblyAt);
  }

  /** Every Japan assembly number also fits the Standard serial shape (letters, digits, alphanumerics). */
  lemma JapanAssemblyIsStandardSerial(s: string)
    requires JapanAssembly(s)
    ensures StandardSerial(s)
  {
    var b := if JapanAssemblyCode(s) then s else s[..|s| - 1];
    assert b[..3] == "JPN";
    assert b[0] == 'J' && b[1] == 'P' && b[2] == 'N';
    assert LetterDigitCode(b);
  }
}
