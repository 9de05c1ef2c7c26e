/**
  ScanResultsService: the session's scanned values, newest first, with a case-insensitive seen-set so
  that each value (ignoring ASCII case) is kept once.
 */
module ScanResults {
  import opened Wrappers
  import opened Text
  import opened Domain

  /** The item Add inserts: the value and format as given, the category left unset (the empty string here). */
  function NewItem(value: string, format: string, now: DateTime): (item: ScanItem)
    ensures item.value == value && item.barcodeType == format && item.scannedTime == now
  {
    ScanItem(EmptyGuid, value, "", now, format)
  }

  /** The seen-set's keys for a list of results. */
  function Keys(results: seq<ScanItem>): set<string>
  {
    set i | 0 <= i < |results| :: FoldCase(results[i].value)
  }

  /** No two results are equal ignoring case. */
  predicate NoCaseDuplicates(results: seq<ScanItem>)
  {
    forall i, j :: 0 <= i < j < |results| ==> !EqualsIgnoreCase(results[i].value, results[j].value)
  }

  lemma KeysCons(x: ScanItem, rest: seq<ScanItem>)
    ensures Keys([x] + rest) == {FoldCase(x.value)} + Keys(rest)
  {
    var s := [x] + rest;
    forall k | k in Keys(rest) ensures k in Keys(s) {
      var i :| 0 <= i < |rest| && FoldCase(rest[i].value) == k;
      assert s[i + 1] == rest[i];
    }
    assert s[0] == x;
  }

  /** With no duplicates ignoring case, there are as many keys as results. */
  lemma {:induction false} KeysCount(results: seq<ScanItem>)
    requires NoCaseDuplicates(results)
    ensures |Keys(results)| == |results|
  {
    if |results| > 0 {
      var rest := results[1..];
      assert results == [results[0]] + rest;
      KeysCons(results[0], rest);
      KeysCount(rest);
      assert FoldCase(results[0].value) !in Keys(rest) by {
        forall i | 0 <= i < |rest| ensures FoldCase(rest[i].value) != FoldCase(results[0].value) {
          assert rest[i] == results[i + 1];
        }
      }
    }
  }

  class ScanResultsService {
    /** Results: newest first. */
    var results: seq<ScanItem>
    /** _seen, a HashSet under OrdinalIgnoreCase: the case-folded keys of the values added. */
    var seen: set<string>

    ghost predicate Valid()
      reads this
    {
      seen == Keys(results) && NoCaseDuplicates(results)
    }

    constructor()
      ensures Valid() && results == [] && seen == {}
    {
      results := [];
      seen := {};
    }

    /**
      Add(value, format): a null or blank value is ignored; a value equal, ignoring case, to one already
      seen is dropped; any other value is inserted at the front.
     */
    method Add(value: Option<string>, format: string, now: DateTime)
      requires Valid()
      modifies this
      ensures Valid()
      ensures value.None? || IsBlank(value.value) ==> results == old(results) && seen == old(seen)
      ensures value.Some? && !IsBlank(value.value) && FoldCase(value.value) in old(seen) ==>
        results == old(results) && seen == old(seen)
      ensures value.Some? && !IsBlank(value.value) && FoldCase(value.value) !in old(seen) ==>
        results == [NewItem(value.value, format, now)] + old(results) && seen == old(seen) + {FoldCase(value.value)}
    {
      if value.None? || IsBlank(value.value) {
        return;
      }
      var key := FoldCase(value.value);
      if key !in seen {
        var item := NewItem(value.value, format, now);
        KeysCons(item, results);
        forall j | 0 <= j < |results| ensures !EqualsIgnoreCase(item.value, results[j].value) {
          assert FoldCase(results[j].value) in Keys(results);
        }
        seen := seen + {key};
        results := [item] + results;
      }
    }

    /** Clear(): both the results and the seen-set become empty, so every value can be added again. */
    method Clear()
      modifies this
      ensures Valid() && results == [] && seen == {}
    {
      results := [];
      seen := {};
    }

    /** The seen-set holds a key exactly when some result has that value ignoring case, and it is as large as Results. */
    lemma SeenMatchesResults(v: string)
      requires Valid()
      ensures FoldCase(v) in seen <==> exists i :: 0 <= i < |results| && EqualsIgnoreCase(results[i].value, v)
      ensures |seen| == |results|
    {
      KeysCount(results);
    }
  }
}
