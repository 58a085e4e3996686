/** The compacted log a bootstrap serves: each row's latest change, in log order. */
module Compaction {
  import opened Prelude
  import opened Wire
  import opened Replay
  import opened ServerSpec

  predicate InSeqOrder(cs: seq<Change>) {
    forall i, j :: 0 <= i < j < |cs| ==> cs[i].seqNo < cs[j].seqNo
  }

  lemma {:induction false} LastToMeans(cs: seq<Change>, key: RowKey)
    ensures LastTo(cs, key).Some? <==> exists c :: c in cs && c.key == key
    ensures LastTo(cs, key).Some? ==> LastTo(cs, key).value in cs && LastTo(cs, key).value.key == key
    ensures InSeqOrder(cs) ==> forall c :: c in cs && c.key == key ==> c.seqNo <= LastTo(cs, key).value.seqNo
  {
    if cs != [] {
      var n := |cs| - 1;
      LastToMeans(cs[..n], key);
      assert cs == cs[..n] + [cs[n]];
      if InSeqOrder(cs) {
        forall c | c in cs && c.key == key ensures c.seqNo <= LastTo(cs, key).value.seqNo {
          var i :| 0 <= i < |cs| && cs[i] == c;
        }
      }
    }
  }

  /** Exactly the changes worth sending, in order. */
  lemma {:induction false} CompactedMembers(cs: seq<Change>, n: nat, after: nat)
    requires n <= |cs| && InSeqOrder(cs)
    ensures forall c :: c in Compacted(cs, n, after) <==> c in cs[..n] && Sends(cs, c, after)
    ensures InSeqOrder(Compacted(cs, n, after))
  {
    if n > 0 {
      CompactedMembers(cs, n - 1, after);
      assert cs[..n] == cs[..n - 1] + [cs[n - 1]];
      forall c | c in Compacted(cs, n - 1, after) ensures c.seqNo < cs[n - 1].seqNo {
        var i :| 0 <= i < n - 1 && cs[..n - 1][i] == c;
      }
    }
  }

  /** Two lists in strict order with the same members are the same list. */
  lemma {:induction false} OrderDecides(a: seq<Change>, b: seq<Change>)
    requires InSeqOrder(a) && InSeqOrder(b)
    requires forall c :: c in a <==> c in b
    ensures a == b
  {
    EmptyTogether(a, b);
    if a != [] {
      SameLast(a, b);
      var m, n := |a| - 1, |b| - 1;
      AllButLast(a);
      AllButLast(b);
      forall c ensures c in a[..m] <==> c in b[..n] {
        assert c in a[..m] <==> c in a && c != a[m];
        assert c in b[..n] <==> c in b && c != b[n];
      }
      OrderDecides(a[..m], b[..n]);
    }
  }

  lemma EmptyTogether(a: seq<Change>, b: seq<Change>)
    requires forall c :: c in a <==> c in b
    ensures a == [] <==> b == []
  {
    if a != [] {
      assert a[0] in a;
    }
    if b != [] {
      assert b[0] in b;
    }
  }

  lemma AllButLast(a: seq<Change>)
    requires InSeqOrder(a) && a != []
    ensures forall c :: c in a[..|a| - 1] <==> c in a && c != a[|a| - 1]
  {
    var m := |a| - 1;
    assert a == a[..m] + [a[m]];
    assert forall i :: 0 <= i < m ==> a[..m][i].seqNo < a[m].seqNo;
  }

  lemma SameLast(a: seq<Change>, b: seq<Change>)
    requires InSeqOrder(a) && InSeqOrder(b) && a != [] && b != []
    requires forall c :: c in a <==> c in b
    ensures a[|a| - 1] == b[|b| - 1]
  {
    var x, y := a[|a| - 1], b[|b| - 1];
    assert x in a && y in b;
    var i :| 0 <= i < |b| && b[i] == x;
    var j :| 0 <= j < |a| && a[j] == y;
  }

  // ----- how it is computed -----

  type Latest = map<RowKey, (nat, Change)>

  ghost predicate IsLatest(latest: Latest, cs: seq<Change>) {
    && (forall k :: k in latest <==> LastTo(cs, k).Some?)
    && (forall k :: k in latest ==> latest[k].1 == LastTo(cs, k).value && latest[k].0 == latest[k].1.seqNo)
  }

  /** Per row, the newest change seen. */
  method LatestOf(cs: seq<Change>) returns (latest: Latest)
    requires InSeqOrder(cs)
    ensures IsLatest(latest, cs)
  {
    latest := map[];
    for i := 0 to |cs|
      invariant IsLatest(latest, cs[..i])
    {
      var c := cs[i];
      assert cs[..i + 1][..i] == cs[..i];
      LastToMeans(cs[..i], c.key);
      if c.key !in latest || c.seqNo > latest[c.key].0 {
        latest := latest[c.key := (c.seqNo, c)];
      }
    }
    assert cs[..|cs|] == cs;
  }

  /** Puts one change where it belongs. */
  method InsertBySeq(sorted: seq<Change>, c: Change) returns (r: seq<Change>)
    requires InSeqOrder(sorted) && forall i :: 0 <= i < |sorted| ==> sorted[i].seqNo != c.seqNo
    ensures InSeqOrder(r)
    ensures forall x :: x in r <==> x in sorted || x == c
  {
    var k: nat := |sorted|;
    while k > 0 && sorted[k - 1].seqNo > c.seqNo
      invariant k <= |sorted|
      invariant forall j :: k <= j < |sorted| ==> sorted[j].seqNo > c.seqNo
    {
      k := k - 1;
    }
    r := sorted[..k] + [c] + sorted[k..];
    InsertedMembers(sorted, c, k);
    InsertedInOrder(sorted, c, k);
  }

  lemma InsertedMembers(sorted: seq<Change>, c: Change, k: nat)
    requires k <= |sorted|
    ensures forall x :: x in sorted[..k] + [c] + sorted[k..] <==> x in sorted || x == c
  {
    assert sorted == sorted[..k] + sorted[k..];
  }

  lemma InsertedInOrder(sorted: seq<Change>, c: Change, k: nat)
    requires InSeqOrder(sorted) && k <= |sorted|
    requires k > 0 ==> sorted[k - 1].seqNo < c.seqNo
    requires k < |sorted| ==> c.seqNo < sorted[k].seqNo
    ensures InSeqOrder(sorted[..k] + [c] + sorted[k..])
  {
    var r := sorted[..k] + [c] + sorted[k..];
    assert forall i :: 0 <= i < k ==> r[i] == sorted[i] && r[i].seqNo < c.seqNo;
    assert forall i :: k < i < |r| ==> r[i] == sorted[i - 1] && c.seqNo < r[i].seqNo;
  }

  /** Sorts by log position, one insertion at a time. */
  method SortBySeq(cs: seq<Change>) returns (sorted: seq<Change>)
    requires forall i, j :: 0 <= i < j < |cs| ==> cs[i].seqNo != cs[j].seqNo
    ensures InSeqOrder(sorted)
    ensures forall c :: c in sorted <==> c in cs
  {
    sorted := [];
    for i := 0 to |cs|
      invariant InSeqOrder(sorted)
      invariant forall c :: c in sorted <==> c in cs[..i]
    {
      forall j | 0 <= j < |sorted| ensures sorted[j].seqNo != cs[i].seqNo {
        assert sorted[j] in cs[..i];
      }
      sorted := InsertBySeq(sorted, cs[i]);
      assert cs[..i + 1] == cs[..i] + [cs[i]];
    }
    assert cs[..|cs|] == cs;
  }

  predicate Wanted(c: Change, after: nat) {
    after < c.seqNo && (c.op.Delete? ==> after > 0)
  }

  /** The rows' latest changes that a bootstrap from this cursor sends. */
  method Select(latest: Latest, cs: seq<Change>, after: nat) returns (picked: seq<Change>)
    requires IsLatest(latest, cs) && InSeqOrder(cs)
    ensures forall c :: c in picked <==> c in cs && Sends(cs, c, after)
    ensures forall i, j :: 0 <= i < j < |picked| ==> picked[i].seqNo != picked[j].seqNo
  {
    picked := [];
    var keys := latest.Keys;
    while keys != {}
      invariant keys <= latest.Keys
      invariant forall c :: c in picked <==>
        c.key in latest && c.key !in keys && latest[c.key].1 == c && Wanted(c, after)
      invariant forall i, j :: 0 <= i < j < |picked| ==> picked[i].seqNo != picked[j].seqNo
      decreases |keys|
    {
      var k :| k in keys;
      keys := keys - {k};
      var c := latest[k].1;
      LastToMeans(cs, k);
      if Wanted(c, after) {
        forall i | 0 <= i < |picked| ensures picked[i].seqNo != c.seqNo {
          LastToMeans(cs, picked[i].key);
          assert picked[i] in picked;
          var x, y :| 0 <= x < |cs| && 0 <= y < |cs| && cs[x] == picked[i] && cs[y] == c;
        }
        picked := picked + [c];
      }
    }
    forall c ensures c in picked <==> c in cs && Sends(cs, c, after) {
      LastToMeans(cs, c.key);
    }
  }

  /** Latest per row, filtered and sorted, is the compacted log. */
  method Compact(cs: seq<Change>, after: nat) returns (r: seq<Change>)
    requires InSeqOrder(cs)
    ensures r == Compacted(cs, |cs|, after)
  {
    var latest := LatestOf(cs);
    var picked := Select(latest, cs, after);
    r := SortBySeq(picked);
    CompactedMembers(cs, |cs|, after);
    assert cs[..|cs|] == cs;
    OrderDecides(r, Compacted(cs, |cs|, after));
  }
}
