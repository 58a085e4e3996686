/**
 Batch boundaries: what a device can tell of where a batch was cut in two. Rows and cursor never
 show it when both ways are accepted; acceptance shows it only through append-only rows left in
 quarantine, and the digest only through rows left in quarantine that the second part touches.
 */
module EngineCuts {
  import opened Prelude
  import opened Wire
  import opened Replay
  import opened Storage
  import opened EngineSpec
  import opened EngineDigest
  import opened EngineRuns
  import Digest

  /** The first i changes of a batch as a batch of their own, with more to come. */
  function FirstPart(batch: Batch, i: nat): Batch
    requires 0 < i < |batch.changes|
  {
    batch.(changes := batch.changes[..i], nextCursor := batch.changes[i - 1].seqNo, hasMore := true)
  }

  function SecondPart(batch: Batch, i: nat): Batch
    requires 0 < i < |batch.changes|
  {
    batch.(changes := batch.changes[i..])
  }

  lemma InOrderSplits(cs: seq<Change>, i: nat, cursor: nat)
    requires 0 < i < |cs|
    ensures InOrder(cs, cursor) <==> InOrder(cs[..i], cursor) && InOrder(cs[i..], cs[i - 1].seqNo)
  {
    if InOrder(cs[..i], cursor) && InOrder(cs[i..], cs[i - 1].seqNo) {
      assert forall j :: 0 <= j < i ==> cs[j] == cs[..i][j];
      assert forall j :: i <= j < |cs| ==> cs[j] == cs[i..][j - i];
      forall j, k | 0 <= j < k < |cs| ensures cs[j].seqNo < cs[k].seqNo {
        if j < i <= k {
          assert cs[..i][j].seqNo <= cs[..i][i - 1].seqNo;
        }
      }
    }
  }

  lemma PartsInOrder(batch: Batch, i: nat, cursor: nat)
    requires 0 < i < |batch.changes|
    ensures BatchFault(batch, cursor).None? <==>
      BatchFault(FirstPart(batch, i), cursor).None?
      && BatchFault(SecondPart(batch, i), batch.changes[i - 1].seqNo).None?
  {
    InOrderSplits(batch.changes, i, cursor);
    BatchFaultMeaning(batch, cursor);
    BatchFaultMeaning(FirstPart(batch, i), cursor);
    BatchFaultMeaning(SecondPart(batch, i), batch.changes[i - 1].seqNo);
  }

  /** Where a device that took the first part of a batch stands. */
  function Between(cfg: Config, a: Reference, batch: Batch, i: nat): Reference
    requires 0 < i < |batch.changes|
  {
    Reference(ReplayOnto(a.rows, Storable(cfg, batch.changes[..i])),
              a.cursors[batch.scope := batch.changes[i - 1].seqNo])
  }

  // ----- acceptance -----

  predicate AppendOnlyRow(cfg: Config, key: RowKey) {
    ClassOf(cfg.registry, key.entity) == Some(AppendOnly)
  }

  /** Two version maps no append-only row tells apart. */
  ghost predicate Alike(cfg: Config, u: map<RowKey, nat>, w: map<RowKey, nat>) {
    forall key :: AppendOnlyRow(cfg, key) ==> (key in u <==> key in w) && (key in u ==> u[key] == w[key])
  }

  lemma {:induction false} AlikeAfter(cfg: Config, u: map<RowKey, nat>, w: map<RowKey, nat>, cs: seq<Change>)
    requires Alike(cfg, u, w)
    ensures Alike(cfg, VersionsAfter(u, cs), VersionsAfter(w, cs))
    ensures NoOverwrite(cfg, u, cs) <==> NoOverwrite(cfg, w, cs)
  {
    if cs != [] {
      AlikeAfter(cfg, u, w, cs[..|cs| - 1]);
    }
  }

  /** No append-only row was left in quarantine at a version other than the one stored. */
  ghost predicate AppendOnlySettled(cfg: Config, rows: Rows, cs: seq<Change>) {
    forall key :: AppendOnlyRow(cfg, key) ==> !Drifts(cfg, rows, cs, key)
  }

  lemma SettledAlike(cfg: Config, rows: Rows, cs: seq<Change>)
    requires AppendOnlySettled(cfg, rows, cs) && forall c :: c in cs ==> c.Consistent()
    ensures Alike(cfg, VersionsAfter(Versions(rows), cs), Versions(ReplayOnto(rows, Storable(cfg, cs))))
  {
    var staged, stored := VersionsAfter(Versions(rows), cs), Versions(ReplayOnto(rows, Storable(cfg, cs)));
    forall key | AppendOnlyRow(cfg, key)
      ensures (key in staged <==> key in stored) && (key in staged ==> staged[key] == stored[key])
    {
      KeyVersions(cfg, rows, cs, key);
      assert !Drifts(cfg, rows, cs, key);
    }
  }

  /**
   The one change that tells: taken over the version staged and refused over the one stored, or the other way
   round.
   */
  lemma Telling(cfg: Config, rows: Rows, cs: seq<Change>, key: RowKey, seqNo: nat) returns (c: Change)
    requires AppendOnlyRow(cfg, key) && Drifts(cfg, rows, cs, key) && forall c :: c in cs ==> c.Consistent()
    ensures c.seqNo == seqNo && c.Consistent()
    ensures NoOverwrite(cfg, VersionsAfter(Versions(rows), cs), [c]) <==>
      !NoOverwrite(cfg, Versions(ReplayOnto(rows, Storable(cfg, cs))), [c])
  {
    var staged, stored := VersionsAfter(Versions(rows), cs), Versions(ReplayOnto(rows, Storable(cfg, cs)));
    KeyVersions(cfg, rows, cs, key);
    var version := if key in stored then staged[key] else staged[key] + 1;
    c := Change(seqNo, key, Upsert, Some(Document("")), version, cfg.registry.entities[key.entity].schema);
    OneOverwrites(cfg, staged, c);
    OneOverwrites(cfg, stored, c);
  }

  lemma OneOverwrites(cfg: Config, versions: map<RowKey, nat>, c: Change)
    ensures NoOverwrite(cfg, versions, [c]) <==> !Overwrites(cfg, versions, c)
  {
    assert [c][..0] == [];
    assert NoOverwrite(cfg, versions, []) && VersionsAfter(versions, []) == versions;
  }

  /** Accepted whole if and only if accepted in two. */
  predicate SameEitherWay(cfg: Config, a: Reference, batch: Batch, i: nat)
    requires 0 < i < |batch.changes|
  {
    Accepts(cfg, a, batch) <==>
      Accepts(cfg, a, FirstPart(batch, i)) && Accepts(cfg, Between(cfg, a, batch, i), SecondPart(batch, i))
  }

  predicate BothAccept(cfg: Config, a: Reference, batch: Batch, i: nat)
    requires 0 < i < |batch.changes|
  {
    && Accepts(cfg, a, batch)
    && Accepts(cfg, a, FirstPart(batch, i)) && Accepts(cfg, Between(cfg, a, batch, i), SecondPart(batch, i))
  }

  /** Both ways ask the same of the second part, once of the versions staged and once of the versions stored. */
  lemma BothWays(cfg: Config, a: Reference, batch: Batch, i: nat)
    requires 0 < i < |batch.changes|
    ensures var cs := batch.changes;
      var ordered := BatchFault(SecondPart(batch, i), cs[i - 1].seqNo).None?;
      && (Accepts(cfg, a, batch) <==>
           Accepts(cfg, a, FirstPart(batch, i)) && ordered
           && NoOverwrite(cfg, VersionsAfter(Versions(a.rows), cs[..i]), cs[i..]))
      && (Accepts(cfg, Between(cfg, a, batch, i), SecondPart(batch, i)) <==>
           ordered && NoOverwrite(cfg, Versions(ReplayOnto(a.rows, Storable(cfg, cs[..i]))), cs[i..]))
  {
    var cs := batch.changes;
    PartsInOrder(batch, i, ReferenceCursor(a, batch.scope));
    assert cs[..i] + cs[i..] == cs;
    NoOverwriteSplits(cfg, Versions(a.rows), cs[..i], cs[i..]);
  }

  lemma AcceptedConsistent(cfg: Config, a: Reference, batch: Batch)
    requires Accepts(cfg, a, batch)
    ensures forall c :: c in batch.changes ==> c.Consistent()
  {
    BatchFaultMeaning(batch, ReferenceCursor(a, batch.scope));
  }

  lemma PartsAccepted(cfg: Config, a: Reference, batch: Batch, i: nat)
    requires 0 < i < |batch.changes|
    requires Accepts(cfg, a, FirstPart(batch, i)) ==> AppendOnlySettled(cfg, a.rows, batch.changes[..i])
    ensures SameEitherWay(cfg, a, batch, i)
  {
    BothWays(cfg, a, batch, i);
    if Accepts(cfg, a, FirstPart(batch, i)) {
      var cs := batch.changes;
      AcceptedConsistent(cfg, a, FirstPart(batch, i));
      SettledAlike(cfg, a.rows, cs[..i]);
      AlikeAfter(cfg, VersionsAfter(Versions(a.rows), cs[..i]), Versions(ReplayOnto(a.rows, Storable(cfg, cs[..i]))),
                 cs[i..]);
    }
  }

  /** These changes on their own, with more to come. */
  function Opening(scope: ScopeId, first: seq<Change>): Batch
    requires first != []
  {
    Batch(scope, first, first[|first| - 1].seqNo, true, "", "")
  }

  /** However a batch that starts with these changes goes on, cutting it after them changes no acceptance. */
  ghost predicate CutNeverShows(cfg: Config, a: Reference, scope: ScopeId, first: seq<Change>)
    requires first != []
  {
    forall batch: Batch ::
      batch.scope == scope && |first| < |batch.changes| && batch.changes[..|first|] == first ==>
        SameEitherWay(cfg, a, batch, |first|)
  }

  lemma OpeningIsFirstPart(cfg: Config, a: Reference, batch: Batch, i: nat)
    requires 0 < i < |batch.changes|
    ensures Accepts(cfg, a, FirstPart(batch, i)) <==> Accepts(cfg, a, Opening(batch.scope, batch.changes[..i]))
  {
    BatchFaultMeaning(FirstPart(batch, i), ReferenceCursor(a, batch.scope));
    BatchFaultMeaning(Opening(batch.scope, batch.changes[..i]), ReferenceCursor(a, batch.scope));
  }

  /** The batch that shows the cut, when an append-only row was left in quarantine before it. */
  lemma CutShows(cfg: Config, a: Reference, scope: ScopeId, first: seq<Change>, key: RowKey) returns (batch: Batch)
    requires first != [] && Accepts(cfg, a, Opening(scope, first))
    requires AppendOnlyRow(cfg, key) && Drifts(cfg, a.rows, first, key)
    ensures batch.scope == scope && |first| < |batch.changes| && batch.changes[..|first|] == first
    ensures !SameEitherWay(cfg, a, batch, |first|)
  {
    AcceptedConsistent(cfg, a, Opening(scope, first));
    var last := first[|first| - 1].seqNo;
    var c := Telling(cfg, a.rows, first, key, last + 1);
    batch := Batch(scope, first + [c], c.seqNo, true, "", "");
    var i := |first|;
    assert batch.changes[..i] == first && batch.changes[i..] == [c];
    OpeningIsFirstPart(cfg, a, batch, i);
    BothWays(cfg, a, batch, i);
    BatchFaultMeaning(SecondPart(batch, i), last);
  }

  /**
   When a cut can show in what is accepted, exactly: it never does, however the batch goes on, if and
   only if the changes before it leave no append-only row in quarantine, or are refused themselves.
   */
  lemma CutNeverShowsIff(cfg: Config, a: Reference, scope: ScopeId, first: seq<Change>)
    requires first != []
    ensures CutNeverShows(cfg, a, scope, first) <==>
      (Accepts(cfg, a, Opening(scope, first)) ==> AppendOnlySettled(cfg, a.rows, first))
  {
    if Accepts(cfg, a, Opening(scope, first)) && !AppendOnlySettled(cfg, a.rows, first) {
      var key :| AppendOnlyRow(cfg, key) && Drifts(cfg, a.rows, first, key);
      var batch := CutShows(cfg, a, scope, first, key);
      assert !SameEitherWay(cfg, a, batch, |first|);
    } else {
      forall batch: Batch | batch.scope == scope && |first| < |batch.changes| && batch.changes[..|first|] == first
        ensures SameEitherWay(cfg, a, batch, |first|)
      {
        OpeningIsFirstPart(cfg, a, batch, |first|);
        PartsAccepted(cfg, a, batch, |first|);
      }
    }
  }

  // ----- rows and cursor -----

  lemma {:induction false} StorableSplits(cfg: Config, a: seq<Change>, b: seq<Change>)
    ensures Storable(cfg, a + b) == Storable(cfg, a) + Storable(cfg, b)
  {
    if b == [] {
      assert a + b == a;
    } else {
      assert (a + b)[..|a + b| - 1] == a + b[..|b| - 1];
      StorableSplits(cfg, a, b[..|b| - 1]);
    }
  }

  lemma AcceptedStep(cfg: Config, a: Reference, batch: Batch, rebuilding: bool, verdict: Verdict)
    requires Accepts(cfg, a, batch) && !verdict.FailBeforeCommit?
    ensures RefStep(cfg, a, ApplyBatch(batch, rebuilding, verdict))
      == Reference(ReplayOnto(a.rows, Storable(cfg, batch.changes)), a.cursors[batch.scope := batch.nextCursor])
  {
  }

  lemma PartsReplay(cfg: Config, rows: Rows, cs: seq<Change>, i: nat)
    requires i <= |cs|
    ensures ReplayOnto(ReplayOnto(rows, Storable(cfg, cs[..i])), Storable(cfg, cs[i..]))
      == ReplayOnto(rows, Storable(cfg, cs))
  {
    assert cs[..i] + cs[i..] == cs;
    StorableSplits(cfg, cs[..i], cs[i..]);
    ReplaySplits(rows, Storable(cfg, cs[..i]), Storable(cfg, cs[i..]));
  }

  /**
   Accepted both ways, a batch leaves the same rows and cursor behind, quarantine or not, however the landed
   transactions were reported.
   */
  lemma PartsLeaveTheSame(cfg: Config, a: Reference, batch: Batch, i: nat, rebuilding: bool, v: Verdict, v1: Verdict,
                          v2: Verdict)
    requires 0 < i < |batch.changes| && !v.FailBeforeCommit? && !v1.FailBeforeCommit? && !v2.FailBeforeCommit?
    requires BothAccept(cfg, a, batch, i)
    ensures var first := ApplyBatch(FirstPart(batch, i), rebuilding, v1);
      var second := ApplyBatch(SecondPart(batch, i), rebuilding, v2);
      RefStep(cfg, RefStep(cfg, a, first), second) == RefStep(cfg, a, ApplyBatch(batch, rebuilding, v))
  {
    var between := Between(cfg, a, batch, i);
    AcceptedStep(cfg, a, batch, rebuilding, v);
    AcceptedStep(cfg, a, FirstPart(batch, i), rebuilding, v1);
    AcceptedStep(cfg, between, SecondPart(batch, i), rebuilding, v2);
    PartsReplay(cfg, a.rows, batch.changes, i);
    assert between.cursors[batch.scope := batch.nextCursor] == a.cursors[batch.scope := batch.nextCursor];
  }

  /**
   Where a batch is cut in two makes no difference as long as no append-only row is left in
   quarantine before the cut: the whole is accepted if and only if both parts are, one after the
   other, and then the same rows and cursor are left behind.
   */
  lemma BoundariesIrrelevant(cfg: Config, a: Reference, batch: Batch, i: nat, rebuilding: bool, v: Verdict, v1: Verdict,
                             v2: Verdict)
    requires 0 < i < |batch.changes|
    requires Accepts(cfg, a, FirstPart(batch, i)) ==> AppendOnlySettled(cfg, a.rows, batch.changes[..i])
    requires !v.FailBeforeCommit? && !v1.FailBeforeCommit? && !v2.FailBeforeCommit?
    ensures SameEitherWay(cfg, a, batch, i)
    ensures Accepts(cfg, a, batch) ==>
      var first := ApplyBatch(FirstPart(batch, i), rebuilding, v1);
      var second := ApplyBatch(SecondPart(batch, i), rebuilding, v2);
      RefStep(cfg, RefStep(cfg, a, first), second) == RefStep(cfg, a, ApplyBatch(batch, rebuilding, v))
  {
    PartsAccepted(cfg, a, batch, i);
    if Accepts(cfg, a, batch) {
      PartsLeaveTheSame(cfg, a, batch, i, rebuilding, v, v1, v2);
    }
  }

  /**
   An append-only row that shows the cut: refused whole, for the version set aside; accepted in two, for
   storage never held it.
   */
  lemma QuarantineSeesTheCut(cfg: Config, scope: ScopeId, early: Change, late: Change)
    requires SetAsideThenWritten(cfg, early, late) && AppendOnlyRow(cfg, late.key) && early.version != late.version
    ensures var batch := Batch(scope, [early, late], 2, false, "", "");
      var a := Reference(map[], map[]);
      && Drifts(cfg, a.rows, batch.changes[..1], early.key)
      && !Accepts(cfg, a, batch)
      && Accepts(cfg, a, FirstPart(batch, 1)) && Accepts(cfg, Between(cfg, a, batch, 1), SecondPart(batch, 1))
  {
    SetAsideFirst(cfg, scope, early, late);
    OneOverwrites(cfg, VersionsAfter(map[], [early]), late);
  }

  /** A row whose first version cannot be brought to this app's schema and whose second one can. */
  predicate SetAsideThenWritten(cfg: Config, early: Change, late: Change) {
    && early.seqNo == 1 && late.seqNo == 2 && early.key == late.key
    && early.Consistent() && late.Consistent() && late.snapshot.Some?
    && !Reachable(cfg, early) && Reachable(cfg, late)
  }

  /** What the two ways ask of such a pair on a device that holds nothing. */
  lemma SetAsideFirst(cfg: Config, scope: ScopeId, early: Change, late: Change)
    requires SetAsideThenWritten(cfg, early, late)
    ensures var batch := Batch(scope, [early, late], 2, false, "", "");
      var a := Reference(map[], map[]);
      && batch.changes[..1] == [early] && batch.changes[1..] == [late]
      && Storable(cfg, [early]) == [] && VersionsAfter(map[], [early]) == map[early.key := early.version]
      && Drifts(cfg, map[], [early], early.key)
      && Accepts(cfg, a, FirstPart(batch, 1)) && Accepts(cfg, Between(cfg, a, batch, 1), SecondPart(batch, 1))
      && (Accepts(cfg, a, batch) <==> NoOverwrite(cfg, VersionsAfter(map[], [early]), [late]))
  {
    var batch := Batch(scope, [early, late], 2, false, "", "");
    var a := Reference(map[], map[]);
    var cs := batch.changes;
    assert cs[..1] == [early] && cs[1..] == [late] && [early][..0] == [];
    BatchFaultMeaning(FirstPart(batch, 1), 0);
    BatchFaultMeaning(SecondPart(batch, 1), 1);
    var none := Storable(cfg, [early]);
    assert none == Storable(cfg, [early][..0]) == [];
    assert ReplayOnto(a.rows, none) == a.rows;
    assert LastTo([early], early.key) == Some(early);
    assert Versions(a.rows) == map[];
    OneOverwrites(cfg, map[], early);
    OneOverwrites(cfg, map[], late);
    BothWays(cfg, a, batch, 1);
  }

  // ----- the digest -----

  /** The rows some changes name. */
  function Touched(cs: seq<Change>): RowKey -> bool {
    key => LastTo(cs, key).Some?
  }

  /** The sum over those rows alone. */
  ghost function TouchedSum(versions: map<RowKey, nat>, cs: seq<Change>): (sum: nat)
    ensures sum < Digest.MODULUS
  {
    Digest.DigestOf(Kept(versions, Touched(cs)))
  }

  function Share(versions: map<RowKey, nat>, key: RowKey): nat {
    if key in versions then Digest.RowHash(key, versions[key]) else 0
  }

  function Brings(c: Change): nat {
    if c.snapshot.Some? then Digest.RowHash(c.key, c.version) else 0
  }

  lemma TouchedSumStep(versions: map<RowKey, nat>, init: seq<Change>, c: Change)
    ensures TouchedSum(versions, init + [c]) ==
      if Touched(init)(c.key) then TouchedSum(versions, init)
      else Digest.Plus(TouchedSum(versions, init), Share(versions, c.key))
  {
    assert (init + [c])[..|init|] == init;
    var before, after := Kept(versions, Touched(init)), Kept(versions, Touched(init + [c]));
    if Touched(init)(c.key) || c.key !in versions {
      assert after == before;
    } else {
      assert after == before[c.key := versions[c.key]];
      Digest.DigestTracks(before, c.key, versions[c.key]);
    }
  }

  /** One staged change takes the row's share out of the digest and puts in what the change brings. */
  lemma ChangeMoves(cfg: Config, s: Staging, c: Change)
    requires StagedChange(cfg, s, c).Ok? && c.Consistent()
    ensures Digest.Plus(StagedChange(cfg, s, c).value.digest, Share(s.versions, c.key))
      == Digest.Plus(s.digest, Brings(c))
  {
    LocalKeeps(cfg, c);
    if c.key in s.versions {
      Digest.RemovedPutsBack(s.digest, c.key, s.versions[c.key]);
      Digest.ReplacedPutsBack(s.digest, c.key, s.versions[c.key], c.version);
    }
  }

  /** A row some changes name comes out of them alike wherever they start; any other stays as it was. */
  lemma {:induction false} KeyAfter(u: map<RowKey, nat>, w: map<RowKey, nat>, cs: seq<Change>, key: RowKey)
    ensures var u', w' := VersionsAfter(u, cs), VersionsAfter(w, cs);
      if Touched(cs)(key) then Share(u', key) == Share(w', key)
      else Share(u', key) == Share(u, key) && Share(w', key) == Share(w, key)
  {
    if cs != [] {
      KeyAfter(u, w, cs[..|cs| - 1], key);
    }
  }

  lemma {:induction false} StagedVersions(cfg: Config, s: Staging, cs: seq<Change>)
    requires StagedAll(cfg, s, cs).Ok? && forall c :: c in cs ==> c.Consistent()
    ensures StagedAll(cfg, s, cs).value.versions == VersionsAfter(s.versions, cs)
  {
    if cs != [] {
      var n := |cs| - 1;
      StagedVersions(cfg, s, cs[..n]);
      assert cs[n] in cs;
      LocalKeeps(cfg, cs[n]);
    }
  }

  /**
   Two devices with one digest and different versions, given the same changes: their digests come to differ by
   what those changes took out.
   */
  lemma {:induction false} Tandem(cfg: Config, s: Staging, t: Staging, cs: seq<Change>)
    requires StagedAll(cfg, s, cs).Ok? && StagedAll(cfg, t, cs).Ok? && s.digest == t.digest
    requires forall c :: c in cs ==> c.Consistent()
    ensures Digest.Plus(StagedAll(cfg, s, cs).value.digest, TouchedSum(s.versions, cs))
      == Digest.Plus(StagedAll(cfg, t, cs).value.digest, TouchedSum(t.versions, cs))
  {
    if cs == [] {
      NothingTouched(s.versions, t.versions, cs);
    } else {
      var init, c := cs[..|cs| - 1], cs[|cs| - 1];
      Tandem(cfg, s, t, init);
      StagedVersions(cfg, s, init);
      StagedVersions(cfg, t, init);
      TandemStep(cfg, s.versions, t.versions, StagedAll(cfg, s, init).value, StagedAll(cfg, t, init).value, cs);
    }
  }

  lemma NothingTouched(u: map<RowKey, nat>, w: map<RowKey, nat>, cs: seq<Change>)
    requires cs == []
    ensures TouchedSum(u, cs) == TouchedSum(w, cs)
  {
    assert Kept(u, Touched(cs)) == Kept(w, Touched(cs));
  }

  lemma TandemStep(cfg: Config, u: map<RowKey, nat>, w: map<RowKey, nat>, a: Staging, b: Staging, cs: seq<Change>)
    requires cs != [] && cs[|cs| - 1].Consistent()
    requires a.versions == VersionsAfter(u, cs[..|cs| - 1]) && b.versions == VersionsAfter(w, cs[..|cs| - 1])
    requires StagedChange(cfg, a, cs[|cs| - 1]).Ok? && StagedChange(cfg, b, cs[|cs| - 1]).Ok?
    requires Digest.Plus(a.digest, TouchedSum(u, cs[..|cs| - 1]))
      == Digest.Plus(b.digest, TouchedSum(w, cs[..|cs| - 1]))
    ensures Digest.Plus(StagedChange(cfg, a, cs[|cs| - 1]).value.digest, TouchedSum(u, cs))
      == Digest.Plus(StagedChange(cfg, b, cs[|cs| - 1]).value.digest, TouchedSum(w, cs))
  {
    var init, c := cs[..|cs| - 1], cs[|cs| - 1];
    assert cs == init + [c];
    ChangeMoves(cfg, a, c);
    ChangeMoves(cfg, b, c);
    SharesMove(u, w, init, c);
    Digest.SumsMove(a.digest, b.digest, StagedChange(cfg, a, c).value.digest, StagedChange(cfg, b, c).value.digest,
                    TouchedSum(u, init), TouchedSum(w, init), TouchedSum(u, cs), TouchedSum(w, cs),
                    Share(a.versions, c.key), Share(b.versions, c.key), Brings(c));
  }

  /** Either the change's row was touched before and its share is the same on both, or both shares join the sums. */
  lemma SharesMove(u: map<RowKey, nat>, w: map<RowKey, nat>, init: seq<Change>, c: Change)
    ensures var hx, hy := Share(VersionsAfter(u, init), c.key), Share(VersionsAfter(w, init), c.key);
      var x, y, x', y' :=
        TouchedSum(u, init), TouchedSum(w, init), TouchedSum(u, init + [c]), TouchedSum(w, init + [c]);
      (x' == x && y' == y && hx == hy) || (x' == Digest.Plus(x, hx) && y' == Digest.Plus(y, hy))
  {
    KeyAfter(u, w, init, c.key);
    TouchedSumStep(u, init, c);
    TouchedSumStep(w, init, c);
  }

  lemma {:induction false} StagedAllSplits(cfg: Config, s: Staging, a: seq<Change>, b: seq<Change>)
    ensures StagedAll(cfg, s, a + b) ==
      match StagedAll(cfg, s, a)
      case Err(e) => Err(e)
      case Ok(t) => StagedAll(cfg, t, b)
  {
    if b == [] {
      assert a + b == a;
    } else {
      assert (a + b)[..|a + b| - 1] == a + b[..|b| - 1];
      StagedAllSplits(cfg, s, a, b[..|b| - 1]);
    }
  }

  /** The versions staged and the versions stored after some changes, summed over the rows later ones touch. */
  ghost predicate SumAlike(cfg: Config, rows: Rows, first: seq<Change>, second: seq<Change>) {
    TouchedSum(VersionsAfter(Versions(rows), first), second)
    == TouchedSum(Versions(ReplayOnto(rows, Storable(cfg, first))), second)
  }

  /** Staging the second part over what was staged, and over what was stored, from the same digest. */
  lemma SecondStagings(cfg: Config, staged: Staging, again: Staging, second: seq<Change>)
    requires StagedAll(cfg, staged, second).Ok? && StagedAll(cfg, again, second).Ok? && staged.digest == again.digest
    requires forall c :: c in second ==> c.Consistent()
    ensures StagedAll(cfg, staged, second).value.digest == StagedAll(cfg, again, second).value.digest <==>
      TouchedSum(staged.versions, second) == TouchedSum(again.versions, second)
  {
    Tandem(cfg, staged, again, second);
    Digest.SameSums(StagedAll(cfg, staged, second).value.digest, StagedAll(cfg, again, second).value.digest,
                    TouchedSum(staged.versions, second), TouchedSum(again.versions, second));
  }

  lemma {:induction false} SetAsideSplits(cfg: Config, a: seq<Change>, b: seq<Change>)
    ensures SetAside(cfg, a + b) == SetAside(cfg, a) + SetAside(cfg, b)
  {
    if b == [] {
      assert a + b == a;
    } else {
      assert (a + b)[..|a + b| - 1] == a + b[..|b| - 1];
      SetAsideSplits(cfg, a, b[..|b| - 1]);
    }
  }

  /** What a landed call stores: its writes, and the digest its staging ended with. */
  ghost predicate Stored(cfg: Config, db: DbState, d: DbState, batch: Batch) {
    var staged := StagedAll(cfg, StartStaging(db, StoredState(db, batch.scope).digest), batch.changes);
    && Wrote(cfg, db, d, batch) && staged.Ok?
    && StoredState(d, batch.scope) == ScopeState(batch.nextCursor, staged.value.digest)
  }

  lemma LandedCall(cfg: Config, mem: Memory, db: DbState, batch: Batch, rebuilding: bool, v: Verdict)
    requires MemoryAgrees(mem, db, batch.scope) && !v.FailBeforeCommit?
    requires Accepts(cfg, Reference(db.rows, db.cursors), batch)
    ensures var (m, d) := Stepped(cfg, mem, db, ApplyBatch(batch, rebuilding, v));
      MemoryAgrees(m, d, batch.scope) && Stored(cfg, db, d, batch)
  {
    LandedMeansAccepted(cfg, db, batch, v);
    ApplyRefines(cfg, mem, db, v, batch, !batch.hasMore, rebuilding);
    LandedDigest(cfg, mem, db, v, batch, !batch.hasMore, rebuilding);
  }

  /** What the two ways store, given what each landed call stored. */
  lemma CutStores(cfg: Config, db: DbState, d: DbState, d1: DbState, d2: DbState, batch: Batch, i: nat)
    requires 0 < i < |batch.changes|
    requires Wrote(cfg, db, d, batch) && Wrote(cfg, db, d1, FirstPart(batch, i))
      && Wrote(cfg, d1, d2, SecondPart(batch, i))
    ensures d2.rows == d.rows && d2.cursors == d.cursors && d2.quarantine == d.quarantine
    ensures forall t :: t != batch.scope ==> StoredState(d2, t) == StoredState(d, t)
  {
    var cs := batch.changes;
    assert cs[..i] + cs[i..] == cs;
    PartsReplay(cfg, db.rows, cs, i);
    SetAsideSplits(cfg, cs[..i], cs[i..]);
    assert d1.cursors[batch.scope := batch.nextCursor] == db.cursors[batch.scope := batch.nextCursor];
    forall t | t != batch.scope ensures StoredState(d2, t) == StoredState(d, t) {
      WroteKeepsOthers(cfg, db, d, batch, t);
      WroteKeepsOthers(cfg, db, d1, FirstPart(batch, i), t);
      WroteKeepsOthers(cfg, d1, d2, SecondPart(batch, i), t);
    }
  }

  lemma CutDigests(cfg: Config, db: DbState, d: DbState, d1: DbState, d2: DbState, batch: Batch, i: nat)
    requires 0 < i < |batch.changes| && forall c :: c in batch.changes ==> c.Consistent()
    requires Stored(cfg, db, d, batch) && Stored(cfg, db, d1, FirstPart(batch, i))
    requires Stored(cfg, d1, d2, SecondPart(batch, i))
    ensures StoredState(d2, batch.scope) == StoredState(d, batch.scope) <==>
      SumAlike(cfg, db.rows, batch.changes[..i], batch.changes[i..])
  {
    var first, second := batch.changes[..i], batch.changes[i..];
    var start := StartStaging(db, StoredState(db, batch.scope).digest);
    assert first + second == batch.changes;
    StagedAllSplits(cfg, start, first, second);
    StagedVersions(cfg, start, first);
    SecondStagings(cfg, StagedAll(cfg, start, first).value, StartStaging(d1, StoredState(d1, batch.scope).digest),
                   second);
  }

  /**
   What a cut changes in what is stored, exactly. Accepted both ways, a batch leaves the same rows,
   cursors, quarantine and other scopes, on any device and with any digest to start from; its
   scope's digest comes out the same if and only if the versions staged and the versions stored
   before the cut sum alike over the rows the second part touches.
   */
  lemma CutDigestIff(cfg: Config, mem: Memory, db: DbState, batch: Batch, i: nat, rebuilding: bool, v: Verdict,
                     v1: Verdict, v2: Verdict)
    requires 0 < i < |batch.changes| && MemoryAgrees(mem, db, batch.scope)
    requires BothAccept(cfg, Reference(db.rows, db.cursors), batch, i)
    requires !v.FailBeforeCommit? && !v1.FailBeforeCommit? && !v2.FailBeforeCommit?
    ensures var (m1, d1) := Stepped(cfg, mem, db, ApplyBatch(FirstPart(batch, i), rebuilding, v1));
      var d2 := Stepped(cfg, m1, d1, ApplyBatch(SecondPart(batch, i), rebuilding, v2)).1;
      var d := Stepped(cfg, mem, db, ApplyBatch(batch, rebuilding, v)).1;
      && d2.rows == d.rows && d2.cursors == d.cursors && d2.quarantine == d.quarantine
      && (forall t :: t != batch.scope ==> StoredState(d2, t) == StoredState(d, t))
      && (StoredState(d2, batch.scope) == StoredState(d, batch.scope) <==>
           SumAlike(cfg, db.rows, batch.changes[..i], batch.changes[i..]))
  {
    AcceptedConsistent(cfg, Reference(db.rows, db.cursors), batch);
    LandedCall(cfg, mem, db, batch, rebuilding, v);
    var between := BothLand(cfg, mem, db, batch, i, rebuilding, v1, v2);
    var (m1, d1) := between;
    var d2 := Stepped(cfg, m1, d1, ApplyBatch(SecondPart(batch, i), rebuilding, v2)).1;
    var d := Stepped(cfg, mem, db, ApplyBatch(batch, rebuilding, v)).1;
    CutStores(cfg, db, d, d1, d2, batch, i);
    CutDigests(cfg, db, d, d1, d2, batch, i);
  }

  /** Both parts land, one after the other. */
  lemma BothLand(cfg: Config, mem: Memory, db: DbState, batch: Batch, i: nat, rebuilding: bool, v1: Verdict,
                 v2: Verdict)
    returns (between: (Memory, DbState))
    requires 0 < i < |batch.changes| && MemoryAgrees(mem, db, batch.scope)
    requires var a := Reference(db.rows, db.cursors);
      Accepts(cfg, a, FirstPart(batch, i)) && Accepts(cfg, Between(cfg, a, batch, i), SecondPart(batch, i))
    requires !v1.FailBeforeCommit? && !v2.FailBeforeCommit?
    ensures between == Stepped(cfg, mem, db, ApplyBatch(FirstPart(batch, i), rebuilding, v1))
    ensures var (m1, d1) := between;
      && Stored(cfg, db, d1, FirstPart(batch, i))
      && Stored(cfg, d1, Stepped(cfg, m1, d1, ApplyBatch(SecondPart(batch, i), rebuilding, v2)).1, SecondPart(batch, i))
  {
    between := Stepped(cfg, mem, db, ApplyBatch(FirstPart(batch, i), rebuilding, v1));
    LandedCall(cfg, mem, db, FirstPart(batch, i), rebuilding, v1);
    assert Reference(between.1.rows, between.1.cursors) == Between(cfg, Reference(db.rows, db.cursors), batch, i);
    LandedCall(cfg, between.0, between.1, SecondPart(batch, i), rebuilding, v2);
  }

  /** So where the second part touches no row left in quarantine before the cut, nothing stored shows it at all. */
  lemma NoDriftSumsAlike(cfg: Config, rows: Rows, first: seq<Change>, second: seq<Change>)
    requires forall c :: c in first ==> c.Consistent()
    requires forall key :: Touched(second)(key) ==> !Drifts(cfg, rows, first, key)
    ensures SumAlike(cfg, rows, first, second)
  {
    var staged, stored := VersionsAfter(Versions(rows), first), Versions(ReplayOnto(rows, Storable(cfg, first)));
    forall key | Touched(second)(key)
      ensures (key in staged <==> key in stored) && (key in staged ==> staged[key] == stored[key])
    {
      KeyVersions(cfg, rows, first, key);
    }
    assert Kept(staged, Touched(second)) == Kept(stored, Touched(second));
  }

  lemma {:induction false} SharesDecide(u: map<RowKey, nat>, w: map<RowKey, nat>, cs: seq<Change>)
    requires forall key :: Share(u, key) == Share(w, key)
    ensures TouchedSum(u, cs) == TouchedSum(w, cs)
  {
    if cs == [] {
      NothingTouched(u, w, cs);
    } else {
      var init, c := cs[..|cs| - 1], cs[|cs| - 1];
      SharesDecide(u, w, init);
      assert cs == init + [c];
      TouchedSumStep(u, init, c);
      TouchedSumStep(w, init, c);
    }
  }

  lemma OneTouched(versions: map<RowKey, nat>, c: Change)
    ensures TouchedSum(versions, [c]) == Share(versions, c.key)
  {
    assert [] + [c] == [c];
    TouchedSumStep(versions, [], c);
    assert Kept(versions, Touched([])) == map[];
    Digest.EmptyDigest();
  }

  /** Every row counts the same in the digest as staged and as stored. */
  ghost predicate CountAlike(u: map<RowKey, nat>, w: map<RowKey, nat>) {
    forall key :: Share(u, key) == Share(w, key)
  }

  /** However a batch that starts with these changes goes on, accepted both ways, cutting it changes no digest. */
  ghost predicate DigestNeverShows(cfg: Config, a: Reference, scope: ScopeId, first: seq<Change>)
    requires first != []
  {
    forall batch: Batch ::
      batch.scope == scope && |first| < |batch.changes| && batch.changes[..|first|] == first
      && BothAccept(cfg, a, batch, |first|) ==>
        SumAlike(cfg, a.rows, first, batch.changes[|first|..])
  }

  /** A delete of this row, which both ways accept. */
  lemma DeleteFollows(cfg: Config, a: Reference, scope: ScopeId, first: seq<Change>, key: RowKey)
    returns (batch: Batch)
    requires first != [] && Accepts(cfg, a, Opening(scope, first))
    ensures batch.scope == scope && |batch.changes| == |first| + 1 && batch.changes[..|first|] == first
    ensures batch.changes[|first|].key == key && BothAccept(cfg, a, batch, |first|)
  {
    var last := first[|first| - 1].seqNo;
    var c := Change(last + 1, key, Delete, None, 0, 0);
    batch := Batch(scope, first + [c], last + 1, true, "", "");
    var i := |first|;
    assert batch.changes[..i] == first && batch.changes[i..] == [c];
    OpeningIsFirstPart(cfg, a, batch, i);
    BothWays(cfg, a, batch, i);
    BatchFaultMeaning(SecondPart(batch, i), last);
    OneOverwrites(cfg, VersionsAfter(Versions(a.rows), first), c);
    OneOverwrites(cfg, Versions(ReplayOnto(a.rows, Storable(cfg, first))), c);
  }

  /**
   When a cut can show in the digest, exactly: it never does, however the batch goes on, if and only if
   every row counts the same as staged and as stored by the changes before it, or those are refused.
   */
  lemma DigestNeverShowsIff(cfg: Config, a: Reference, scope: ScopeId, first: seq<Change>)
    requires first != []
    ensures DigestNeverShows(cfg, a, scope, first) <==>
      (Accepts(cfg, a, Opening(scope, first)) ==>
         CountAlike(VersionsAfter(Versions(a.rows), first), Versions(ReplayOnto(a.rows, Storable(cfg, first)))))
  {
    var staged, stored := VersionsAfter(Versions(a.rows), first), Versions(ReplayOnto(a.rows, Storable(cfg, first)));
    if Accepts(cfg, a, Opening(scope, first)) && !CountAlike(staged, stored) {
      var key :| Share(staged, key) != Share(stored, key);
      var batch := DeleteFollows(cfg, a, scope, first, key);
      var second := batch.changes[|first|..];
      assert second == [second[0]];
      OneTouched(staged, second[0]);
      OneTouched(stored, second[0]);
      assert !SumAlike(cfg, a.rows, first, second);
    } else {
      forall batch: Batch | batch.scope == scope && |first| < |batch.changes| && batch.changes[..|first|] == first
          && BothAccept(cfg, a, batch, |first|)
        ensures SumAlike(cfg, a.rows, first, batch.changes[|first|..])
      {
        OpeningIsFirstPart(cfg, a, batch, |first|);
        SharesDecide(staged, stored, batch.changes[|first|..]);
      }
    }
  }

  /**
   A row that is not append-only shows the cut in the digest: accepted both ways by a device that
   holds nothing, it comes out the same only if the version set aside hashes to zero.
   */
  lemma DigestSeesTheCut(cfg: Config, scope: ScopeId, early: Change, late: Change)
    requires SetAsideThenWritten(cfg, early, late) && !AppendOnlyRow(cfg, late.key)
    ensures BothAccept(cfg, Reference(map[], map[]), Batch(scope, [early, late], 2, false, "", ""), 1)
    ensures var batch := Batch(scope, [early, late], 2, false, "", "");
      var (m1, d1) := Stepped(cfg, FRESH_MEMORY, EMPTY_DB, ApplyBatch(FirstPart(batch, 1), false, Commit));
      var d2 := Stepped(cfg, m1, d1, ApplyBatch(SecondPart(batch, 1), false, Commit)).1;
      var d := Stepped(cfg, FRESH_MEMORY, EMPTY_DB, ApplyBatch(batch, false, Commit)).1;
      StoredState(d2, scope) == StoredState(d, scope) <==> Digest.RowHash(early.key, early.version) == Digest.EMPTY
  {
    SetAsideFirst(cfg, scope, early, late);
    OneOverwrites(cfg, VersionsAfter(map[], [early]), late);
    PairSums(cfg, early, late);
    CutDigestIff(cfg, FRESH_MEMORY, EMPTY_DB, Batch(scope, [early, late], 2, false, "", ""), 1, false, Commit, Commit,
                 Commit);
  }

  lemma PairSums(cfg: Config, early: Change, late: Change)
    requires SetAsideThenWritten(cfg, early, late) && Storable(cfg, [early]) == []
    requires VersionsAfter(map[], [early]) == map[early.key := early.version]
    ensures SumAlike(cfg, map[], [early], [late]) <==> Digest.RowHash(early.key, early.version) == Digest.EMPTY
  {
    var none: Rows := map[];
    assert Versions(none) == map[] && ReplayOnto(none, []) == none;
    OneTouched(map[early.key := early.version], late);
    OneTouched(map[], late);
  }
}
