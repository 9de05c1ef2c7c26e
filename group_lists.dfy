/**
  The LINQ queries the pages and components run over the list of barcode groups: the groups of one
  source, a group by id, and the barcodes of several groups one after another.
 */
module GroupLists {
  import opened Wrappers
  import opened Lists
  import opened Domain

  /** `groups.Where(g => g.Source == source)`. */
  function OfSource(groups: seq<Group>, source: BarcodeSource): (r: seq<Group>)
    ensures forall g :: g in r <==> g in groups && g.source == source
  {
    var p := (g: Group) => g.source == source;
    FilterMembershipAll(p, groups);
    Filter(p, groups)
  }

  /** `groups.SelectMany(g => g.Barcodes)`: every group's barcodes, group after group. */
  function AllBarcodes(groups: seq<Group>): seq<ScanItem>
  {
    if |groups| == 0 then [] else groups[0].barcodes + AllBarcodes(groups[1..])
  }

  lemma {:induction false} AllBarcodesConcat(a: seq<Group>, b: seq<Group>)
    ensures AllBarcodes(a + b) == AllBarcodes(a) + AllBarcodes(b)
  {
    if |a| > 0 {
      assert (a + b)[1..] == a[1..] + b;
      AllBarcodesConcat(a[1..], b);
    } else {
      assert a + b == b;
    }
  }

  /** A barcode is in the flattened list exactly when some group holds it. */
  lemma {:induction false} AllBarcodesMembership(groups: seq<Group>, b: ScanItem)
    ensures b in AllBarcodes(groups) <==> exists k :: 0 <= k < |groups| && b in groups[k].barcodes
  {
    if |groups| > 0 {
      AllBarcodesMembership(groups[1..], b);
      if b in groups[0].barcodes {
        assert 0 < |groups| && b in groups[0].barcodes;
      }
      if exists k :: 0 <= k < |groups| && b in groups[k].barcodes {
        var k :| 0 <= k < |groups| && b in groups[k].barcodes;
        if k > 0 {
          assert groups[1..][k - 1] == groups[k];
        }
      }
    }
  }

  /** Groups without barcodes add nothing to the flattened list, so dropping them first changes nothing. */
  lemma {:induction false} EmptyGroupsAddNothing(groups: seq<Group>, source: BarcodeSource)
    ensures AllBarcodes(Filter((g: Group) => g.source == source && |g.barcodes| > 0, groups))
         == AllBarcodes(OfSource(groups, source))
  {
    var p := (g: Group) => g.source == source && |g.barcodes| > 0;
    var q := (g: Group) => g.source == source;
    assert OfSource(groups, source) == Filter(q, groups);
    if |groups| > 0 {
      var g := groups[0];
      EmptyGroupsAddNothing(groups[1..], source);
      assert OfSource(groups[1..], source) == Filter(q, groups[1..]);
      if p(g) {
        assert Filter(p, groups) == [g] + Filter(p, groups[1..]);
        assert Filter(q, groups) == [g] + Filter(q, groups[1..]);
        assert ([g] + Filter(p, groups[1..]))[1..] == Filter(p, groups[1..]);
        assert ([g] + Filter(q, groups[1..]))[1..] == Filter(q, groups[1..]);
      } else if q(g) {
        assert Filter(q, groups) == [g] + Filter(q, groups[1..]);
        assert ([g] + Filter(q, groups[1..]))[1..] == Filter(q, groups[1..]);
        assert g.barcodes == [];
      }
    }
  }

  /** The index of the first group with that id, or -1. */
  function IndexOfId(groups: seq<Group>, id: Guid): (r: int)
    ensures r == -1 <==> forall k :: 0 <= k < |groups| ==> groups[k].id != id
    ensures r != -1 ==> 0 <= r < |groups| && groups[r].id == id && forall k :: 0 <= k < r ==> groups[k].id != id
  {
    if |groups| == 0 then -1
    else if groups[0].id == id then 0
    else
      var j := IndexOfId(groups[1..], id);
      if j == -1 then -1 else j + 1
  }

  /** `groups.FirstOrDefault(g => g.Id == id)`: the first group with that id, if any. */
  function FindById(groups: seq<Group>, id: Guid): (r: Option<Group>)
    ensures r.None? <==> forall k :: 0 <= k < |groups| ==> groups[k].id != id
    ensures r.Some? ==> r.value == groups[IndexOfId(groups, id)]
  {
    var i := IndexOfId(groups, id);
    if i < 0 then None else Some(groups[i])
  }
}
