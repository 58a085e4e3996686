/**
 What happens when things go right: a pull walk delivers exactly the rest of the log, each
 fault-free round moves a device on, and a quiet system ends with every device holding what the
 server holds.
 */
module Convergence {
  import opened Prelude
  import opened Wire
  import opened Replay
  import opened Storage
  import opened EngineSpec
  import opened EngineDigest
  import opened EngineRuns
  import opened ServerSpec
  import opened PullChannel
  import Digest

  // ----- the walk, from the server's side -----

  ghost function PullFrom(s: Setup, es: seq<Entry>, cursor: nat, limit: nat, budget: nat): Batch {
    PullAnswer(es, s.scope, cursor, limit, true, s.encode, budget, s.compressedLen)
  }

  /** The limits one round of a walk is served under. */
  datatype Limits = Limits(rows: nat, budget: nat)

  /** Where a walk gets to, and everything it was given on the way. */
  ghost function Walk(s: Setup, es: seq<Entry>, cursor: nat, rounds: seq<Limits>): (nat, seq<Change>) {
    if rounds == [] then (cursor, [])
    else
      var (c, got) := Walk(s, es, cursor, rounds[..|rounds| - 1]);
      var batch := PullFrom(s, es, c, rounds[|rounds| - 1].rows, rounds[|rounds| - 1].budget);
      (batch.nextCursor, got + batch.changes)
  }

  /** One answer along a walk: it starts where the last one ended, and is empty only at the end. */
  lemma PullMovesOn(s: Setup, es: seq<Entry>, cursor: nat, limit: nat, budget: nat)
    requires Ordered(es) && Stands(es, cursor) && limit > 0
    ensures var batch := PullFrom(s, es, cursor, limit, budget);
      && Honest(es, s.scope, cursor, batch, |es|) && Stands(es, batch.nextCursor)
      && UpTo(es, batch.nextCursor) == UpTo(es, cursor) + |batch.changes|
      && (UpTo(es, cursor) < Committed(es) ==> batch.changes != [])
      && (batch.changes == [] ==> batch.nextCursor == cursor)
      && (!batch.hasMore <==> UpTo(es, batch.nextCursor) == |es|)
  {
    PullIsHonest(es, s.scope, cursor, limit, s.encode, budget, s.compressedLen);
    StretchMovesOn(es, s.scope, cursor, PullFrom(s, es, cursor, limit, budget));
  }

  lemma StretchMovesOn(es: seq<Entry>, scope: ScopeId, cursor: nat, batch: Batch)
    requires Ordered(es) && Stands(es, cursor) && Stretch(es, scope, cursor, batch)
    ensures Stands(es, batch.nextCursor) && UpTo(es, batch.nextCursor) == UpTo(es, cursor) + |batch.changes|
    ensures batch.changes == [] ==> batch.nextCursor == cursor
  {
    StretchReaches(es, scope, cursor, cursor, batch);
    if batch.changes != [] {
      StandsAt(es, UpTo(es, cursor) + |batch.changes|, batch.nextCursor);
    }
  }

  predicate Positive(rounds: seq<Limits>) {
    forall r :: r in rounds ==> r.rows > 0
  }

  /** Everything between two places in the log, in order, with no gap and no repeat. */
  predicate Covers(es: seq<Entry>, start: nat, end: nat, got: seq<Change>) {
    Stands(es, end) && UpTo(es, start) <= UpTo(es, end) && got == Changes(es)[UpTo(es, start)..UpTo(es, end)]
  }

  lemma CoversNext(es: seq<Entry>, scope: ScopeId, start: nat, end: nat, got: seq<Change>, batch: Batch)
    requires Covers(es, start, end, got) && Stretch(es, scope, end, batch) && Stands(es, batch.nextCursor)
    requires UpTo(es, batch.nextCursor) == UpTo(es, end) + |batch.changes|
    ensures Covers(es, start, batch.nextCursor, got + batch.changes)
  {
  }

  /**
   Under any positive row limits, any budgets and any compressor, what a walk has been given is
   exactly the stretch of the scope's log it has moved over, in order, with no gap and no repeat.
   */
  lemma {:induction false} WalkDelivers(s: Setup, es: seq<Entry>, cursor: nat, rounds: seq<Limits>)
    requires Ordered(es) && Stands(es, cursor) && Positive(rounds)
    ensures var (c, got) := Walk(s, es, cursor, rounds);
      Covers(es, cursor, c, got) && (UpTo(es, c) >= Committed(es) || UpTo(es, c) >= UpTo(es, cursor) + |rounds|)
  {
    if rounds != [] {
      var n := |rounds| - 1;
      WalkDelivers(s, es, cursor, rounds[..n]);
      var (c, got) := Walk(s, es, cursor, rounds[..n]);
      assert rounds[n] in rounds;
      PullMovesOn(s, es, c, rounds[n].rows, rounds[n].budget);
      CoversNext(es, s.scope, cursor, c, got, PullFrom(s, es, c, rounds[n].rows, rounds[n].budget));
    }
  }

  /** As many rounds as there are entries left are enough for everything that has committed. */
  lemma WalkCompletes(s: Setup, es: seq<Entry>, cursor: nat, rounds: seq<Limits>)
    requires Ordered(es) && Stands(es, cursor) && Positive(rounds) && |rounds| >= Committed(es) - UpTo(es, cursor)
    ensures var (c, got) := Walk(s, es, cursor, rounds);
      UpTo(es, c) == Committed(es) && got == Changes(es)[UpTo(es, cursor)..Committed(es)]
  {
    WalkDelivers(s, es, cursor, rounds);
  }

  // ----- the device -----

  /** One round with nothing going wrong: ask from the stored cursor, be answered, apply, commit. */
  ghost function Round(s: Setup, es: seq<Entry>, v: Device, r: Limits): Device {
    var w := Sending(s, v);
    Delivered(s, w, PullFrom(s, es, CursorOf(s, v), r.rows, r.budget), Commit)
  }

  ghost function Rounds(s: Setup, es: seq<Entry>, v: Device, rounds: seq<Limits>): Device {
    if rounds == [] then v else Round(s, es, Rounds(s, es, v, rounds[..|rounds| - 1]), rounds[|rounds| - 1])
  }

  /** From here on the log gives no append-only row a version other than the one the log has given it by then. */
  predicate CleanPast(s: Setup, es: seq<Entry>, u: nat)
    requires u <= |es|
  {
    NoOverwrite(s.cfg, VersionsAfter(map[], Changes(es)[..u]), Changes(es)[u..])
  }

  predicate CleanStretch(s: Setup, es: seq<Entry>, u: nat, n: nat)
    requires u <= n <= |es|
  {
    NoOverwrite(s.cfg, VersionsAfter(map[], Changes(es)[..u]), Changes(es)[u..n])
  }

  predicate CleanFrom(s: Setup, es: seq<Entry>, cursor: nat) {
    CleanPast(s, es, UpTo(es, cursor))
  }

  /** Where k entries from u leave a device: past them if they are clean, and otherwise where it was. */
  function Past(s: Setup, es: seq<Entry>, u: nat, k: nat): (r: nat)
    requires u + k <= |es|
    ensures u <= r <= u + k
  {
    if CleanStretch(s, es, u, u + k) then u + k else u
  }

  /** Any stretch cut off the front of what is left. */
  lemma CleanSplits(s: Setup, es: seq<Entry>, u: nat, n: nat)
    requires u <= n <= |es|
    ensures CleanPast(s, es, u) <==> CleanStretch(s, es, u, n) && CleanPast(s, es, n)
  {
    var cs := Changes(es);
    assert cs[u..] == cs[u..n] + cs[n..] && cs[..n] == cs[..u] + cs[u..n];
    NoOverwriteSplits(s.cfg, VersionsAfter(map[], cs[..u]), cs[u..n], cs[n..]);
    VersionsSplit(map[], cs[..u], cs[u..n]);
  }

  lemma StretchInOrder(s: Setup, es: seq<Entry>, cursor: nat, batch: Batch)
    requires LogSound(s, es) && Stands(es, cursor) && Stretch(es, s.scope, cursor, batch)
    ensures BatchFault(batch, cursor).None?
    ensures forall c :: c in batch.changes ==> Reachable(s.cfg, c) && c.Consistent()
  {
    var a := UpTo(es, cursor);
    UpToSplits(es, cursor);
    forall i | 0 <= i < |batch.changes|
      ensures batch.changes[i] == es[a + i].change && cursor < es[a + i].change.seqNo && EntrySound(s, es[a + i])
    {
      assert es[a + i] in es;
    }
    BatchFaultMeaning(batch, cursor);
  }

  lemma HeldVersions(s: Setup, es: seq<Entry>, db: DbState)
    requires HoldsReplay(s, es, db)
    ensures Versions(db.rows) == VersionsAfter(map[], Changes(es)[..UpTo(es, StoredState(db, s.scope).cursor)])
  {
    CleanVersions(s.cfg, map[], Changes(es)[..UpTo(es, StoredState(db, s.scope).cursor)]);
    assert Versions(map[]) == map[];
  }

  /** A sound device accepts the honest answer to its own cursor if and only if it overwrites no append-only row. */
  lemma RoundLandsIff(s: Setup, es: seq<Entry>, db: DbState, batch: Batch)
    requires LogSound(s, es) && Stands(es, StoredState(db, s.scope).cursor) && HoldsReplay(s, es, db)
    requires Stretch(es, s.scope, StoredState(db, s.scope).cursor, batch)
    ensures var u := UpTo(es, StoredState(db, s.scope).cursor);
      Landed(s.cfg, db, Commit, batch) <==> CleanStretch(s, es, u, u + |batch.changes|)
  {
    StretchInOrder(s, es, StoredState(db, s.scope).cursor, batch);
    HeldVersions(s, es, db);
    LandedMeansAccepted(s.cfg, db, batch, Commit);
  }

  lemma LandedPast(s: Setup, es: seq<Entry>, db: DbState, batch: Batch)
    requires LogSound(s, es) && Stands(es, StoredState(db, s.scope).cursor) && HoldsReplay(s, es, db)
    requires Stretch(es, s.scope, StoredState(db, s.scope).cursor, batch)
    ensures var u := UpTo(es, StoredState(db, s.scope).cursor);
      Past(s, es, u, |batch.changes|) == if Landed(s.cfg, db, Commit, batch) then u + |batch.changes| else u
  {
    RoundLandsIff(s, es, db, batch);
  }

  lemma LandedCursor(s: Setup, v: Device, batch: Batch)
    requires batch.scope == s.scope && MemoryAgrees(v.mem, v.db, s.scope)
    ensures CursorOf(s, Delivered(s, v, batch, Commit)) ==
      if Landed(s.cfg, v.db, Commit, batch) then batch.nextCursor else CursorOf(s, v)
  {
    ApplyRefines(s.cfg, v.mem, v.db, Commit, batch, !batch.hasMore, false);
  }

  /** The answer to a device's own cursor, applied and committed. */
  lemma AnswerMoves(s: Setup, es: seq<Entry>, v: Device, batch: Batch)
    requires LogSound(s, es) && StoreSound(s, es, v) && Honest(es, s.scope, CursorOf(s, v), batch, |es|)
    requires UpTo(es, batch.nextCursor) == UpTo(es, CursorOf(s, v)) + |batch.changes|
    ensures var u := UpTo(es, CursorOf(s, v));
      u + |batch.changes| <= |es|
        && UpTo(es, CursorOf(s, Delivered(s, v, batch, Commit))) == Past(s, es, u, |batch.changes|)
  {
    LandedPast(s, es, v.db, batch);
    LandedCursor(s, v, batch);
  }

  lemma AnswerKeepsStore(s: Setup, es: seq<Entry>, v: Device, batch: Batch)
    requires LogSound(s, es) && StoreSound(s, es, v) && Honest(es, s.scope, CursorOf(s, v), batch, |es|)
    ensures StoreSound(s, es, Delivered(s, v, batch, Commit))
  {
    DeliveryKeepsStore(s, es, v, Letter(CursorOf(s, v), batch, false, |es|), Commit);
  }

  lemma SendingStore(s: Setup, es: seq<Entry>, v: Device)
    requires StoreSound(s, es, v)
    ensures StoreSound(s, es, Sending(s, v)) && Sending(s, v).db == v.db
  {
    RefreshedAgrees(v.mem, v.db, s.scope);
  }

  /**
   A fault-free round is given k entries, none only if nothing is left. It moves on past them if
   they overwrite no append-only row, and stays where it is otherwise.
   */
  lemma RoundMoves(s: Setup, es: seq<Entry>, v: Device, r: Limits) returns (k: nat)
    requires LogSound(s, es) && StoreSound(s, es, v) && r.rows > 0
    ensures StoreSound(s, es, Round(s, es, v, r))
    ensures var u := UpTo(es, CursorOf(s, v));
      && u + k <= |es| && (u < Committed(es) ==> k > 0)
      && UpTo(es, CursorOf(s, Round(s, es, v, r))) == Past(s, es, u, k)
  {
    var w := Sending(s, v);
    var batch := PullFrom(s, es, CursorOf(s, v), r.rows, r.budget);
    k := |batch.changes|;
    SendingStore(s, es, v);
    PullMovesOn(s, es, CursorOf(s, v), r.rows, r.budget);
    AnswerKeepsStore(s, es, w, batch);
    AnswerMoves(s, es, w, batch);
  }

  lemma CleanMoves(s: Setup, es: seq<Entry>, u: nat, k: nat)
    requires u + k <= |es|
    ensures CleanPast(s, es, Past(s, es, u, k)) <==> CleanPast(s, es, u)
    ensures CleanPast(s, es, u) && k > 0 ==> u < Past(s, es, u, k)
  {
    CleanSplits(s, es, u, u + k);
  }

  /**
   So whether the rest of the log is clean never changes, and while it is, each round with anything
   left moves strictly on.
   */
  lemma RoundProgress(s: Setup, es: seq<Entry>, v: Device, r: Limits)
    requires LogSound(s, es) && StoreSound(s, es, v) && r.rows > 0
    ensures StoreSound(s, es, Round(s, es, v, r))
    ensures var c, c' := CursorOf(s, v), CursorOf(s, Round(s, es, v, r));
      && UpTo(es, c) <= UpTo(es, c') && (CleanFrom(s, es, c') <==> CleanFrom(s, es, c))
      && (CleanFrom(s, es, c) && UpTo(es, c) < Committed(es) ==> UpTo(es, c) < UpTo(es, c'))
  {
    var k := RoundMoves(s, es, v, r);
    CleanMoves(s, es, UpTo(es, CursorOf(s, v)), k);
  }

  lemma {:induction false} RoundsProgress(s: Setup, es: seq<Entry>, v: Device, rounds: seq<Limits>)
    requires LogSound(s, es) && StoreSound(s, es, v) && Positive(rounds)
    ensures var v' := Rounds(s, es, v, rounds);
      && StoreSound(s, es, v') && (CleanFrom(s, es, CursorOf(s, v')) <==> CleanFrom(s, es, CursorOf(s, v)))
      && (CleanFrom(s, es, CursorOf(s, v)) ==>
           UpTo(es, CursorOf(s, v')) == Committed(es)
           || UpTo(es, CursorOf(s, v')) >= UpTo(es, CursorOf(s, v)) + |rounds|)
  {
    if rounds != [] {
      var n := |rounds| - 1;
      RoundsProgress(s, es, v, rounds[..n]);
      assert rounds[n] in rounds;
      RoundProgress(s, es, Rounds(s, es, v, rounds[..n]), rounds[n]);
    }
  }

  /**
   When a quiet system converges, exactly. Once everything has committed, as many fault-free rounds
   as there are entries left bring a sound device to the end of the log if and only if what was left
   gives no append-only row another version, which a device refuses for good.
   */
  lemma QuietSystemReachesEnd(s: Setup, es: seq<Entry>, v: Device, rounds: seq<Limits>)
    requires LogSound(s, es) && StoreSound(s, es, v) && Positive(rounds)
    requires Committed(es) == |es| && |rounds| >= |es| - UpTo(es, CursorOf(s, v))
    ensures UpTo(es, CursorOf(s, Rounds(s, es, v, rounds))) == |es| <==> CleanFrom(s, es, CursorOf(s, v))
  {
    RoundsProgress(s, es, v, rounds);
    var u := UpTo(es, CursorOf(s, Rounds(s, es, v, rounds)));
    if u == |es| {
      assert Changes(es)[u..] == [];
    }
  }

  /**
   And there it holds exactly the server's rows, and has the server's digest whenever no row's latest change is
   a delete.
   */
  lemma QuietSystemConverges(s: Setup, es: seq<Entry>, v: Device, rounds: seq<Limits>)
    requires LogSound(s, es) && StoreSound(s, es, v) && Positive(rounds)
    requires Committed(es) == |es| && |rounds| >= |es| - UpTo(es, CursorOf(s, v))
    ensures var v' := Rounds(s, es, v, rounds);
      CleanFrom(s, es, CursorOf(s, v)) ==>
        && v'.db.rows == Replayed(LocalAll(s.cfg, Changes(es)))
        && Versions(v'.db.rows) == Versions(Replayed(Changes(es)))
        && (NoTombstoneLast(Changes(es)) ==> StoredState(v'.db, s.scope).digest == DigestAt(es, VisibleHead(es)))
  {
    if CleanFrom(s, es, CursorOf(s, v)) {
      RoundsProgress(s, es, v, rounds);
      QuietSystemReachesEnd(s, es, v, rounds);
      AtTheEnd(s, es, Rounds(s, es, v, rounds).db);
    }
  }

  /** What one more fault-free round is given and answers. */
  ghost function RoundResult(s: Setup, es: seq<Entry>, v: Device, r: Limits): Result<BatchReport, ApplyError> {
    var w, batch := Sending(s, v), PullFrom(s, es, CursorOf(s, v), r.rows, r.budget);
    AppliedBatch(s.cfg, w.mem, w.db, Commit, batch, !batch.hasMore, false).result
  }

  /** The digests of the rows a client makes of these changes and of the server's history of them differ. */
  ghost predicate SumsDiffer(cs: seq<Change>) {
    Digest.DigestOf(Versions(Replayed(cs))) != Digest.DigestOf(HeldIn(cs))
  }

  lemma AcceptedIffLanded(s: Setup, v: Device, batch: Batch)
    requires batch.scope == s.scope && MemoryAgrees(v.mem, v.db, s.scope)
    ensures AppliedBatch(s.cfg, v.mem, v.db, Commit, batch, !batch.hasMore, false).result.Ok? <==>
      Landed(s.cfg, v.db, Commit, batch)
  {
    ApplyRefines(s.cfg, v.mem, v.db, Commit, batch, !batch.hasMore, false);
  }

  lemma NothingLands(s: Setup, db: DbState, batch: Batch)
    requires batch.changes == []
    ensures Landed(s.cfg, db, Commit, batch)
  {
    BatchFaultMeaning(batch, StoredState(db, batch.scope).cursor);
  }

  /** An answer that moves a device on, or has nothing to move it by, is accepted. */
  lemma AnswerAccepted(s: Setup, es: seq<Entry>, v: Device, batch: Batch)
    requires LogSound(s, es) && MemoryAgrees(v.mem, v.db, s.scope) && HoldsReplay(s, es, v.db)
    requires Stands(es, CursorOf(s, v)) && Stretch(es, s.scope, CursorOf(s, v), batch)
    requires batch.changes == [] || UpTo(es, CursorOf(s, v)) < Past(s, es, UpTo(es, CursorOf(s, v)), |batch.changes|)
    ensures AppliedBatch(s.cfg, v.mem, v.db, Commit, batch, !batch.hasMore, false).result.Ok?
  {
    AcceptedIffLanded(s, v, batch);
    if batch.changes == [] {
      NothingLands(s, v.db, batch);
    } else {
      LandedPast(s, es, v.db, batch);
    }
  }

  lemma AnswerCompared(s: Setup, es: seq<Entry>, v: Device, batch: Batch)
    requires LogSound(s, es) && StoreSound(s, es, v) && Honest(es, s.scope, CursorOf(s, v), batch, |es|)
    requires UpTo(es, batch.nextCursor) == |es|
    requires AppliedBatch(s.cfg, v.mem, v.db, Commit, batch, !batch.hasMore, false).result.Ok?
    ensures AppliedBatch(s.cfg, v.mem, v.db, Commit, batch, !batch.hasMore, false).result.value.diverged <==>
      SumsDiffer(Changes(es))
  {
    DivergenceMeans(s, es, v, Letter(CursorOf(s, v), batch, false, |es|), Commit);
    assert Changes(es)[..|es|] == Changes(es);
  }

  lemma RoundCompares(s: Setup, es: seq<Entry>, v: Device, r: Limits)
    requires LogSound(s, es) && StoreSound(s, es, v) && r.rows > 0 && Committed(es) == |es|
    requires CleanFrom(s, es, CursorOf(s, v)) && UpTo(es, CursorOf(s, v)) + 1 >= |es|
    ensures !PullFrom(s, es, CursorOf(s, v), r.rows, r.budget).hasMore
    ensures RoundResult(s, es, v, r).Ok?
    ensures RoundResult(s, es, v, r).value.diverged <==> SumsDiffer(Changes(es))
  {
    SendingStore(s, es, v);
    PullMovesOn(s, es, CursorOf(s, v), r.rows, r.budget);
    var batch := PullFrom(s, es, CursorOf(s, v), r.rows, r.budget);
    var u := UpTo(es, CursorOf(s, v));
    CleanMoves(s, es, u, |batch.changes|);
    AnswerAccepted(s, es, Sending(s, v), batch);
    AnswerCompared(s, es, Sending(s, v), batch);
  }

  /**
   And it has been told so: the last answer of such rounds says nothing is left, and its digest was
   compared, to be reported if and only if the live rows and the history of the whole log do not sum
   alike.
   */
  lemma QuietSystemCompares(s: Setup, es: seq<Entry>, v: Device, rounds: seq<Limits>)
    requires LogSound(s, es) && StoreSound(s, es, v) && Positive(rounds) && rounds != []
    requires Committed(es) == |es| && |rounds| >= |es| - UpTo(es, CursorOf(s, v))
    requires CleanFrom(s, es, CursorOf(s, v))
    ensures var before, last := Rounds(s, es, v, rounds[..|rounds| - 1]), rounds[|rounds| - 1];
      && !PullFrom(s, es, CursorOf(s, before), last.rows, last.budget).hasMore
      && RoundResult(s, es, before, last).Ok?
      && (RoundResult(s, es, before, last).value.diverged <==> SumsDiffer(Changes(es)))
  {
    var n := |rounds| - 1;
    RoundsProgress(s, es, v, rounds[..n]);
    assert rounds[n] in rounds;
    RoundCompares(s, es, Rounds(s, es, v, rounds[..n]), rounds[n]);
  }

  lemma AtTheEnd(s: Setup, es: seq<Entry>, db: DbState)
    requires LogSound(s, es) && Committed(es) == |es| && UpTo(es, StoredState(db, s.scope).cursor) == |es|
    requires DigestExact(db, s.scope, All()) && HoldsReplay(s, es, db)
    ensures db.rows == Replayed(LocalAll(s.cfg, Changes(es))) && Versions(db.rows) == Versions(Replayed(Changes(es)))
    ensures NoTombstoneLast(Changes(es)) ==> StoredState(db, s.scope).digest == DigestAt(es, VisibleHead(es))
  {
    assert Changes(es)[..|es|] == Changes(es);
    ReplayVersionsLocal(s.cfg, Changes(es));
    ClientDigest(s, es, db);
    WholeLog(es);
    HistoryMatchesReplay(Changes(es));
  }
}
