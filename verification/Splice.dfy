/**
 Filling a batch by splicing each item's encoding into one buffer. The specification is the
 obvious form the splice replaces: re-encode the whole list for every candidate.
 */
module Splice {
  import opened Wire
  import Digest

  /** Each item encoded once. The encoder is a parameter: the splice is right for any. */
  function Encodings<T>(cs: seq<T>, encode: T -> string): (items: seq<string>)
    ensures |items| == |cs|
  {
    seq(|cs|, i requires 0 <= i < |cs| => encode(cs[i]))
  }

  /** How many items go, starting from k already chosen: the first always does, a later one only if it fits. */
  function Greedy(items: seq<string>, k: nat, cap: nat, fits: string -> bool): (n: nat)
    requires k <= |items|
    ensures k <= n <= |items|
    decreases |items| - k
  {
    if k >= |items| || k >= cap then k
    else if k > 0 && !fits(EncodeArray(items[..k + 1])) then k
    else Greedy(items, k + 1, cap, fits)
  }

  /** The declarative meaning: every longer prefix up to n fits, and the next one does not. */
  ghost predicate LongestFitting(items: seq<string>, n: nat, cap: nat, fits: string -> bool) {
    && n <= |items| && n <= cap
    && (items != [] && cap > 0 ==> n >= 1)
    && (forall j :: 2 <= j <= n ==> fits(EncodeArray(items[..j])))
    && (n < |items| && n < cap ==> !fits(EncodeArray(items[..n + 1])))
  }

  lemma {:induction false} GreedyFits(items: seq<string>, k: nat, cap: nat, fits: string -> bool)
    requires k <= |items| && k <= cap
    requires forall j :: 2 <= j <= k ==> fits(EncodeArray(items[..j]))
    ensures var n := Greedy(items, k, cap, fits);
      && n <= cap
      && (k >= 1 || (items != [] && cap > 0) ==> n >= 1)
      && (forall j :: 2 <= j <= n ==> fits(EncodeArray(items[..j])))
      && (n < |items| && n < cap ==> !fits(EncodeArray(items[..n + 1])))
    decreases |items| - k
  {
    if k < |items| && k < cap && (k == 0 || fits(EncodeArray(items[..k + 1]))) {
      GreedyFits(items, k + 1, cap, fits);
    }
  }

  /** The greedy count is the longest fitting prefix, and nothing else is. */
  lemma GreedyIsLongestFitting(items: seq<string>, cap: nat, fits: string -> bool, n: nat)
    ensures LongestFitting(items, n, cap, fits) <==> n == Greedy(items, 0, cap, fits)
  {
    GreedyFits(items, 0, cap, fits);
    var g := Greedy(items, 0, cap, fits);
    if LongestFitting(items, n, cap, fits) {
      if n < g {
        assert false;
      } else if g < n {
        assert false;
      }
    }
  }

  /** What one splice does to the buffer, and what rolling it back restores. */
  lemma SpliceStep(items: seq<string>, one: string)
    ensures var buf := EncodeArray(items);
      && buf[..|buf| - 1] + (if items != [] then "," else "") + one + "]" == EncodeArray(items + [one])
      && EncodeArray(items + [one])[..|buf| - 1] + "]" == buf
  {
    var more := items + [one];
    assert more[..|more| - 1] == items;
    if items != [] {
      assert Joined(more) == Joined(items) + "," + one;
    } else {
      assert Joined(more) == one;
      assert Joined(items) == "";
    }
  }

  function BudgetFits(compressedLen: string -> nat, budget: nat): string -> bool {
    (s: string) => compressedLen(s) <= budget
  }

  function BatchChecksum(encoded: string): string {
    Digest.ToHex(Digest.Xxh3(Digest.Bytes(encoded)) % Digest.MODULUS)
  }

  function Count(candidates: seq<Change>, encode: Change -> string, budget: nat, compressedLen: string -> nat): (n: nat)
    ensures n <= |candidates|
  {
    Greedy(Encodings(candidates, encode), 0, |candidates|, BudgetFits(compressedLen, budget))
  }

  /** The batch for the first n candidates. */
  function Cut(scope: ScopeId, cursor: nat, candidates: seq<Change>, n: nat, moreBeyond: bool,
               encode: Change -> string, digest: string): Batch
    requires n <= |candidates|
  {
    Batch(scope, candidates[..n], if n == 0 then cursor else candidates[n - 1].seqNo,
          n < |candidates| || moreBeyond, BatchChecksum(EncodeArray(Encodings(candidates[..n], encode))), digest)
  }

  /** The batch a pull is answered with, by the simple form. */
  function Filled(scope: ScopeId, cursor: nat, candidates: seq<Change>, moreBeyond: bool,
                  encode: Change -> string, budget: nat, compressedLen: string -> nat, digest: string): Batch
  {
    Cut(scope, cursor, candidates, Count(candidates, encode, budget, compressedLen), moreBeyond, encode, digest)
  }

  /** Splices one encoding in before the closing bracket; truncating there takes it out again. */
  method SpliceInto(buf: string, one: string, first: bool, ghost items: seq<string>) returns (longer: string)
    requires buf == EncodeArray(items) && (first <==> items == [])
    ensures longer == EncodeArray(items + [one])
    ensures 1 <= |buf| <= |longer| && longer[..|buf| - 1] + "]" == buf
  {
    SpliceStep(items, one);
    longer := buf[..|buf| - 1];
    if !first {
      longer := longer + ",";
    }
    longer := longer + one;
    longer := longer + "]";
  }

  /** The loop that picks the changes: one encoding each, and the buffer is cut back when it came out too large. */
  method Choose(candidates: seq<Change>, encode: Change -> string, budget: nat, compressedLen: string -> nat)
    returns (chosen: seq<Change>)
    ensures chosen == candidates[..Count(candidates, encode, budget, compressedLen)]
  {
    chosen := [];
    var buf := "[]";
    ghost var items := Encodings(candidates, encode);
    ghost var fits := BudgetFits(compressedLen, budget);
    ghost var n := Count(candidates, encode, budget, compressedLen);
    var i := 0;
    while i < |candidates|
      invariant i <= |candidates|
      invariant chosen == candidates[..i]
      invariant buf == EncodeArray(items[..i])
      invariant Greedy(items, i, |candidates|, fits) == n
    {
      assert items[..i] + [items[i]] == items[..i + 1];
      var rollback := |buf|;
      buf := SpliceInto(buf, encode(candidates[i]), chosen == [], items[..i]);
      if compressedLen(buf) > budget && chosen != [] {
        buf := buf[..rollback - 1];
        buf := buf + "]";
        break;
      }
      chosen := chosen + [candidates[i]];
      i := i + 1;
    }
    assert buf == EncodeArray(items[..i]);
    assert i == n;
  }

  /** The batch that goes out for these candidates: as many of the first as fit, with the cursor they reach. */
  method FillBatch(scope: ScopeId, cursor: nat, candidates: seq<Change>, moreBeyond: bool,
                   encode: Change -> string, budget: nat, compressedLen: string -> nat, digest: string)
    returns (batch: Batch)
    ensures batch == Filled(scope, cursor, candidates, moreBeyond, encode, budget, compressedLen, digest)
  {
    var chosen := Choose(candidates, encode, budget, compressedLen);
    var nextCursor := if chosen == [] then cursor else chosen[|chosen| - 1].seqNo;
    batch := Batch(scope, chosen, nextCursor, |chosen| < |candidates| || moreBeyond,
                   BatchChecksum(EncodeArray(Encodings(chosen, encode))), digest);
  }

  /**
   What every batch promises, whatever the encoder, the compressor and the budget: as many of the
   candidates as compress to the budget together, the first always, and a checksum over just those.
   */
  lemma FilledProperties(scope: ScopeId, cursor: nat, candidates: seq<Change>, moreBeyond: bool,
                         encode: Change -> string, budget: nat, compressedLen: string -> nat, digest: string)
    ensures var b := Filled(scope, cursor, candidates, moreBeyond, encode, budget, compressedLen, digest);
      && b.changes == candidates[..|b.changes|] && |b.changes| <= |candidates|
      && (candidates != [] ==> b.changes != [])
      && (!b.hasMore <==> b.changes == candidates && !moreBeyond)
      && (forall j :: 2 <= j <= |b.changes| ==>
           compressedLen(EncodeArray(Encodings(candidates, encode)[..j])) <= budget)
      && (|b.changes| < |candidates| ==>
           compressedLen(EncodeArray(Encodings(candidates, encode)[..|b.changes| + 1])) > budget)
      && b.checksum
        == Digest.ToHex(Digest.Xxh3(Digest.Bytes(EncodeArray(Encodings(b.changes, encode)))) % Digest.MODULUS)
      && b.scope == scope && b.digest == digest
  {
    GreedyIsLongestFitting(Encodings(candidates, encode), |candidates|, BudgetFits(compressedLen, budget),
                           Count(candidates, encode, budget, compressedLen));
  }

  /** The same without the maximality: a prefix, non-empty when anything is, that says whether it is all there is. */
  lemma FilledIsCut(scope: ScopeId, cursor: nat, candidates: seq<Change>, moreBeyond: bool,
                    encode: Change -> string, budget: nat, compressedLen: string -> nat, digest: string)
    ensures var b := Filled(scope, cursor, candidates, moreBeyond, encode, budget, compressedLen, digest);
      var n := |b.changes|;
      && n <= |candidates| && b.changes == candidates[..n] && (candidates != [] ==> n > 0)
      && b.scope == scope && b.digest == digest
      && b.nextCursor == (if n == 0 then cursor else candidates[n - 1].seqNo)
      && (b.hasMore <==> n < |candidates| || moreBeyond)
  {
    FilledProperties(scope, cursor, candidates, moreBeyond, encode, budget, compressedLen, digest);
  }
}
