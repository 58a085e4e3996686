/**
 One device's pull traffic with the server: requests may be lost, repeated, delayed and answered in
 any order; answers queue in order but may be lost or delivered again; some arrive corrupted.
 What holds of a device whatever happens, and what each event does to it.
 */
module PullChannel {
  import opened Prelude
  import opened Wire
  import opened Replay
  import opened Storage
  import opened EngineSpec
  import opened EngineDigest
  import opened ServerSpec
  import Digest
  import EngineRuns
  import Splice

  /** Fixed for a run: every device's registry and migrations, their one scope, the server's encoder and compressor. */
  datatype Setup = Setup(cfg: Config, scope: ScopeId, encode: Change -> string, compressedLen: string -> nat)

  /**
   An answer in flight; `asked` is the cursor it was pulled from, and `whole` how many entries the
   scope's log had when it was cut from it.
   */
  datatype Letter = Letter(asked: nat, batch: Batch, corrupt: bool, whole: nat)

  datatype Device = Device(mem: Memory, db: DbState, sent: set<nat>, inbox: seq<Letter>)

  function CursorOf(s: Setup, v: Device): nat {
    StoredState(v.db, s.scope).cursor
  }

  function All(): RowKey -> bool {
    k => true
  }

  lemma AllKept(versions: map<RowKey, nat>)
    ensures Kept(versions, All()) == versions
  {
  }

  /** A protocol violation: the last change repeated, number and all. */
  function RepeatLast(batch: Batch): Batch {
    if batch.changes == [] then batch else batch.(changes := batch.changes + [batch.changes[|batch.changes| - 1]])
  }

  // ----- the invariant -----

  /** The scope's log as any run leaves it. */
  ghost predicate LogSound(s: Setup, es: seq<Entry>) {
    Ordered(es) && forall e :: e in es ==> EntrySound(s, e)
  }

  predicate EntrySound(s: Setup, e: Entry) {
    e.change.Consistent() && Reachable(s.cfg, e.change)
  }

  predicate Ordered(es: seq<Entry>) {
    Ascending(es) && forall i :: 0 <= i < |es| ==> es[i].change.seqNo >= 1
  }

  /** A cursor that stands on a committed entry with everything before it committed, or at the start. */
  predicate Stands(es: seq<Entry>, cursor: nat) {
    var n := UpTo(es, cursor);
    n <= Committed(es) && cursor == if n == 0 then 0 else es[n - 1].change.seqNo
  }

  /** The rows a device at a cursor must hold: the replay of the log up to it. */
  ghost predicate HoldsReplay(s: Setup, es: seq<Entry>, db: DbState) {
    db.rows == Replayed(LocalAll(s.cfg, Changes(es)[..UpTo(es, StoredState(db, s.scope).cursor)]))
  }

  ghost predicate LetterSound(s: Setup, es: seq<Entry>, cursor: nat, l: Letter) {
    if l.corrupt then Repeats(l.batch) else l.asked <= cursor && Honest(es, s.scope, l.asked, l.batch, l.whole)
  }

  predicate Repeats(batch: Batch) {
    var n := |batch.changes|;
    n >= 2 && batch.changes[n - 1].seqNo == batch.changes[n - 2].seqNo
  }

  /** An empty answer in the queue never lies behind the device, nor behind an answer ahead of it. */
  predicate EmptiesFresh(cursor: nat, inbox: seq<Letter>) {
    forall i :: 0 <= i < |inbox| && Quiet(inbox[i]) ==> cursor <= inbox[i].asked && AheadOf(inbox, i)
  }

  predicate Quiet(l: Letter) {
    !l.corrupt && l.batch.changes == []
  }

  predicate AheadOf(inbox: seq<Letter>, i: nat)
    requires i < |inbox|
  {
    forall j :: 0 <= j < i && !inbox[j].corrupt ==> inbox[j].batch.nextCursor <= inbox[i].asked
  }

  /** A scope with a cursor has a digest, written as a digest is, and a scope without has none. */
  predicate TextKept(db: DbState, scope: ScopeId) {
    && (scope in db.digests <==> scope in db.cursors)
    && (scope in db.digests ==> db.digests[scope] == Digest.ToHex(StoredState(db, scope).digest))
  }

  ghost predicate StoreSound(s: Setup, es: seq<Entry>, v: Device) {
    && MemoryAgrees(v.mem, v.db, s.scope) && DigestExact(v.db, s.scope, All())
    && Stands(es, CursorOf(s, v)) && HoldsReplay(s, es, v.db) && TextKept(v.db, s.scope)
  }

  ghost predicate TrafficSound(s: Setup, es: seq<Entry>, v: Device) {
    && (forall c :: c in v.sent ==> c <= CursorOf(s, v))
    && (forall l :: l in v.inbox ==> LetterSound(s, es, CursorOf(s, v), l))
    && EmptiesFresh(CursorOf(s, v), v.inbox)
  }

  ghost predicate DeviceSound(s: Setup, es: seq<Entry>, v: Device) {
    StoreSound(s, es, v) && TrafficSound(s, es, v)
  }

  /** A device that has never synced. */
  lemma FreshDevice(s: Setup, es: seq<Entry>)
    requires Ordered(es)
    ensures DeviceSound(s, es, Device(FRESH_MEMORY, EMPTY_DB, {}, []))
  {
    Digest.EmptyDigest();
    UpToIs(es, 0, 0);
    assert Versions(EMPTY_DB.rows) == map[];
    AllKept(map[]);
  }

  // ----- the log grows -----

  lemma UpToGrows(es: seq<Entry>, es': seq<Entry>, c: nat, cursor: nat)
    requires Grows(es, es') && Ordered(es) && Ordered(es') && c <= cursor && Stands(es, cursor)
    ensures UpTo(es', c) == UpTo(es, c)
  {
    UpToSplits(es, c);
    UpToSplits(es, cursor);
    forall i | UpTo(es, c) <= i < |es'| ensures c < es'[i].change.seqNo {
      if i >= |es| && es != [] {
        assert es'[|es| - 1].change.seqNo < es'[i].change.seqNo;
        assert cursor <= es[|es| - 1].change.seqNo;
      }
    }
    UpToIs(es', c, UpTo(es, c));
  }

  lemma StandsGrows(es: seq<Entry>, es': seq<Entry>, cursor: nat)
    requires Grows(es, es') && Ordered(es) && Ordered(es') && Stands(es, cursor)
    ensures Stands(es', cursor)
  {
    UpToGrows(es, es', cursor, cursor);
    CommittedGrows(es, es');
  }

  /** A slice of the log's changes is the same slice later. */
  lemma SlicesGrow(es: seq<Entry>, es': seq<Entry>, a: nat, n: nat)
    requires Grows(es, es') && a <= n <= |es|
    ensures Changes(es')[a..n] == Changes(es)[a..n]
  {
    assert forall i :: 0 <= i < |es| ==> Changes(es')[i] == Changes(es)[i];
  }

  lemma StretchGrows(es: seq<Entry>, es': seq<Entry>, scope: ScopeId, after: nat, batch: Batch)
    requires Grows(es, es') && UpTo(es', after) == UpTo(es, after) && Stretch(es, scope, after, batch)
    ensures Stretch(es', scope, after, batch)
  {
    var a, n := UpTo(es, after), UpTo(es, after) + |batch.changes|;
    SlicesGrow(es, es', a, n);
    assert forall i :: a <= i < n ==> es'[i].visible;
    if n > a {
      assert es'[n - 1].change == es[n - 1].change;
    }
  }

  lemma ConcludesGrows(es: seq<Entry>, es': seq<Entry>, after: nat, batch: Batch, whole: nat)
    requires Grows(es, es') && UpTo(es', after) == UpTo(es, after) && Concludes(es, after, batch, whole)
    ensures Concludes(es', after, batch, whole)
  {
    var n := UpTo(es, after) + |batch.changes|;
    SlicesGrow(es, es', 0, n);
    assert Changes(es')[0..n] == Changes(es')[..n] && Changes(es)[0..n] == Changes(es)[..n];
  }

  lemma LetterGrows(s: Setup, es: seq<Entry>, es': seq<Entry>, cursor: nat, l: Letter)
    requires Grows(es, es') && Ordered(es) && Ordered(es') && Stands(es, cursor)
    requires LetterSound(s, es, cursor, l)
    ensures LetterSound(s, es', cursor, l)
  {
    if !l.corrupt {
      UpToGrows(es, es', l.asked, cursor);
      StretchGrows(es, es', s.scope, l.asked, l.batch);
      ConcludesGrows(es, es', l.asked, l.batch, l.whole);
    }
  }

  lemma ReplayGrows(s: Setup, es: seq<Entry>, es': seq<Entry>, db: DbState)
    requires Grows(es, es') && Ordered(es) && Ordered(es') && Stands(es, StoredState(db, s.scope).cursor)
    requires HoldsReplay(s, es, db)
    ensures HoldsReplay(s, es', db)
  {
    var cursor := StoredState(db, s.scope).cursor;
    UpToGrows(es, es', cursor, cursor);
    SlicesGrow(es, es', 0, UpTo(es, cursor));
    assert Changes(es')[0..UpTo(es, cursor)] == Changes(es')[..UpTo(es, cursor)];
    assert Changes(es)[0..UpTo(es, cursor)] == Changes(es)[..UpTo(es, cursor)];
  }

  /** Appends and commits on the server disturb no device. */
  lemma GrowthKeepsDevice(s: Setup, es: seq<Entry>, es': seq<Entry>, v: Device)
    requires Grows(es, es') && Ordered(es) && Ordered(es') && DeviceSound(s, es, v)
    ensures DeviceSound(s, es', v)
  {
    var cursor := CursorOf(s, v);
    StandsGrows(es, es', cursor);
    ReplayGrows(s, es, es', v.db);
    forall l | l in v.inbox ensures LetterSound(s, es', cursor, l) {
      LetterGrows(s, es, es', cursor, l);
    }
  }

  // ----- a request and its answer -----

  function Sending(s: Setup, v: Device): Device {
    var m := if s.scope in v.mem.suspect then RefreshedOutbox(Refreshed(v.mem, v.db, s.scope), v.db) else v.mem;
    v.(mem := m, sent := v.sent + {StateOf(m, s.scope).cursor})
  }

  lemma HeadDigest(es: seq<Entry>)
    requires Ordered(es)
    ensures DigestAt(es, VisibleHead(es)) == Digest.DigestOf(HeldIn(Changes(es)[..Committed(es)]))
  {
    UpToIs(es, VisibleHead(es), Committed(es));
  }

  /**
   What every answer carries, wherever it stops: the digest of the history of all that has
   committed, and a checksum over its own changes.
   */
  lemma AnswerCarries(s: Setup, es: seq<Entry>, asked: nat, limit: nat, guarded: bool, budget: nat)
    requires Ordered(es)
    ensures var batch := PullAnswer(es, s.scope, asked, limit, guarded, s.encode, budget, s.compressedLen);
      && batch.digest == Digest.ToHex(Digest.DigestOf(HeldIn(Changes(es)[..Committed(es)])))
      && batch.checksum == Digest.ToHex(
           Digest.Xxh3(Digest.Bytes(EncodeArray(Splice.Encodings(batch.changes, s.encode)))) % Digest.MODULUS)
  {
    HeadDigest(es);
    var start := UpTo(es, asked);
    var candidates := Candidates(es, start, guarded, limit);
    Splice.FilledProperties(s.scope, asked, candidates, |es| - start > |candidates|, s.encode, budget,
                            s.compressedLen, Digest.ToHex(DigestAt(es, VisibleHead(es))));
  }

  lemma SendingSound(s: Setup, es: seq<Entry>, v: Device)
    requires DeviceSound(s, es, v)
    ensures DeviceSound(s, es, Sending(s, v)) && CursorOf(s, v) in Sending(s, v).sent
  {
    RefreshedAgrees(v.mem, v.db, s.scope);
  }

  /** A restart reads back exactly what storage holds. */
  lemma RestartKeepsDevice(s: Setup, es: seq<Entry>, v: Device)
    requires DeviceSound(s, es, v)
    ensures DeviceSound(s, es, v.(mem := Restarted(v.db, false)))
  {
    RestartAgrees(v.db, s.scope);
  }

  lemma RestartAgrees(db: DbState, scope: ScopeId)
    ensures MemoryAgrees(Restarted(db, false), db, scope)
  {
  }

  lemma UpToMonotone(es: seq<Entry>, a: nat, b: nat)
    requires Ascending(es) && a <= b
    ensures UpTo(es, a) <= UpTo(es, b)
  {
    UpToSplits(es, a);
    UpToSplits(es, b);
    var m := UpTo(es, b);
    if m < |es| {
      assert a < es[m].change.seqNo;
    }
  }

  /** An answer pulled from a cursor the device has sent, whenever the server gets to it. */
  lemma AnswerKeepsDevice(s: Setup, es: seq<Entry>, v: Device, asked: nat, batch: Batch, corrupt: bool)
    requires Ordered(es) && DeviceSound(s, es, v) && asked in v.sent
    requires Honest(es, s.scope, asked, batch, |es|)
    requires batch.changes == [] ==> Committed(es) == UpTo(es, asked)
    requires corrupt ==> batch.changes != []
    ensures DeviceSound(s, es,
                        v.(inbox :=
                          v.inbox + [Letter(asked, if corrupt then RepeatLast(batch) else batch, corrupt, |es|)]))
  {
    var l := Letter(asked, if corrupt then RepeatLast(batch) else batch, corrupt, |es|);
    assert LetterSound(s, es, CursorOf(s, v), l);
    if Quiet(l) {
      QuietIsCaughtUp(s, es, v, asked);
    }
    EmptiesPush(CursorOf(s, v), v.inbox, l);
  }

  lemma EmptiesPush(cursor: nat, inbox: seq<Letter>, l: Letter)
    requires EmptiesFresh(cursor, inbox)
    requires Quiet(l) ==> cursor <= l.asked && forall m :: m in inbox && !m.corrupt ==> m.batch.nextCursor <= l.asked
    ensures EmptiesFresh(cursor, inbox + [l])
  {
    var more := inbox + [l];
    forall i | 0 <= i < |more| && Quiet(more[i]) ensures cursor <= more[i].asked && AheadOf(more, i) {
      if i < |inbox| {
        assert AheadOf(inbox, i);
      }
    }
  }

  /** Nothing more to give means the device, and every answer on its way, is no further than the request. */
  lemma QuietIsCaughtUp(s: Setup, es: seq<Entry>, v: Device, asked: nat)
    requires Ordered(es) && DeviceSound(s, es, v) && asked <= CursorOf(s, v)
    requires Committed(es) == UpTo(es, asked)
    ensures CursorOf(s, v) <= asked
    ensures forall l :: l in v.inbox && !l.corrupt ==> l.batch.nextCursor <= asked
  {
    var cursor := CursorOf(s, v);
    UpToMonotone(es, asked, cursor);
    UpToSplits(es, asked);
    forall l | l in v.inbox && !l.corrupt ensures l.batch.nextCursor <= asked {
      assert LetterSound(s, es, cursor, l);
      StretchReaches(es, s.scope, cursor, l.asked, l.batch);
    }
  }

  /** A stretch from at or below where a device stands reaches no further than what has committed. */
  lemma StretchReaches(es: seq<Entry>, scope: ScopeId, cursor: nat, asked: nat, batch: Batch)
    requires Ordered(es) && Stands(es, cursor) && asked <= cursor && Stretch(es, scope, asked, batch)
    ensures var n := UpTo(es, asked) + |batch.changes|;
      && n <= Committed(es)
      && (batch.changes == [] ==> batch.nextCursor == asked)
      && (batch.changes != [] ==> batch.nextCursor == es[n - 1].change.seqNo && UpTo(es, batch.nextCursor) == n)
  {
    UpToMonotone(es, asked, cursor);
    var n := UpTo(es, asked) + |batch.changes|;
    if Committed(es) < |es| {
      assert !es[Committed(es)].visible;
    }
    if batch.changes != [] {
      UpToIs(es, batch.nextCursor, n);
    }
  }

  /** A cursor that stands in the log covers only committed entries and is within the visible head. */
  lemma StandsBelowHead(es: seq<Entry>, cursor: nat)
    requires Ordered(es) && Stands(es, cursor)
    ensures forall k :: 0 <= k < |es| && es[k].change.seqNo <= cursor ==> es[k].visible
    ensures cursor <= VisibleHead(es)
  {
    UpToSplits(es, cursor);
    assert forall k :: 0 <= k < Committed(es) ==> es[k].visible;
  }

  // ----- delivery -----

  /** The device after its engine applies a batch. */
  function Delivered(s: Setup, v: Device, batch: Batch, verdict: Verdict): Device {
    var o := AppliedBatch(s.cfg, v.mem, v.db, verdict, batch, !batch.hasMore, false);
    v.(mem := o.mem, db := o.db)
  }

  /** A corrupted batch is refused before anything is staged. */
  lemma CorruptRefused(s: Setup, v: Device, batch: Batch, verdict: Verdict)
    requires Repeats(batch)
    ensures AppliedBatch(s.cfg, v.mem, v.db, verdict, batch, !batch.hasMore, false).result.Err?
    ensures Delivered(s, v, batch, verdict) == v.(mem := Refreshed(v.mem, v.db, batch.scope))
  {
    BatchFaultMeaning(batch, StateOf(Refreshed(v.mem, v.db, batch.scope), batch.scope).cursor);
    var n := |batch.changes|;
    assert batch.changes[n - 2].seqNo >= batch.changes[n - 1].seqNo;
  }

  /** An accepted non-empty stretch starts exactly where the device stands. */
  lemma AcceptedStartsHere(es: seq<Entry>, scope: ScopeId, cursor: nat, asked: nat, batch: Batch)
    requires Ordered(es) && Stands(es, cursor) && asked <= cursor && Stretch(es, scope, asked, batch)
    requires batch.changes != [] && cursor < batch.changes[0].seqNo
    ensures UpTo(es, asked) == UpTo(es, cursor)
  {
    UpToMonotone(es, asked, cursor);
    UpToSplits(es, cursor);
    var a := UpTo(es, asked);
    assert batch.changes[0] == es[a].change;
  }

  /** Where an accepted stretch takes a device: on along the log, never back. */
  ghost predicate Advances(es: seq<Entry>, cursor: nat, batch: Batch) {
    var a, n := UpTo(es, cursor), UpTo(es, cursor) + |batch.changes|;
    && n <= |es| && batch.changes == Changes(es)[a..n]
    && Stands(es, batch.nextCursor) && UpTo(es, batch.nextCursor) == n
    && cursor <= batch.nextCursor && (cursor == batch.nextCursor <==> batch.changes == [])
  }

  lemma AcceptedAdvances(es: seq<Entry>, scope: ScopeId, cursor: nat, asked: nat, batch: Batch)
    requires Ordered(es) && Stands(es, cursor) && asked <= cursor && Stretch(es, scope, asked, batch)
    requires batch.changes == [] ==> cursor <= asked
    requires batch.changes != [] ==> cursor < batch.changes[0].seqNo <= batch.nextCursor
    ensures Advances(es, cursor, batch) && UpTo(es, asked) == UpTo(es, cursor)
  {
    StretchReaches(es, scope, cursor, asked, batch);
    if batch.changes != [] {
      AcceptedStartsHere(es, scope, cursor, asked, batch);
      StandsAt(es, UpTo(es, cursor) + |batch.changes|, batch.nextCursor);
      AdvancesTo(es, cursor, batch);
    } else {
      StaysPut(es, cursor, batch);
    }
  }

  lemma StaysPut(es: seq<Entry>, cursor: nat, batch: Batch)
    requires Stands(es, cursor) && batch.changes == [] && batch.nextCursor == cursor
    ensures Advances(es, cursor, batch)
  {
  }

  lemma AdvancesTo(es: seq<Entry>, cursor: nat, batch: Batch)
    requires UpTo(es, cursor) + |batch.changes| <= |es| && cursor < batch.nextCursor && batch.changes != []
    requires batch.changes == Changes(es)[UpTo(es, cursor)..UpTo(es, cursor) + |batch.changes|]
    requires Stands(es, batch.nextCursor) && UpTo(es, batch.nextCursor) == UpTo(es, cursor) + |batch.changes|
    ensures Advances(es, cursor, batch)
  {
  }

  lemma StandsAt(es: seq<Entry>, n: nat, cursor: nat)
    requires 0 < n <= Committed(es) && UpTo(es, cursor) == n && cursor == es[n - 1].change.seqNo
    ensures Stands(es, cursor)
  {
  }

  lemma ReplayContinues(cfg: Config, cs: seq<Change>, a: nat, n: nat)
    requires a <= n <= |cs|
    ensures ReplayOnto(Replayed(LocalAll(cfg, cs[..a])), LocalAll(cfg, cs[a..n])) == Replayed(LocalAll(cfg, cs[..n]))
  {
    assert LocalAll(cfg, cs[..n]) == LocalAll(cfg, cs[..a]) + LocalAll(cfg, cs[a..n]);
    ReplaySplits(map[], LocalAll(cfg, cs[..a]), LocalAll(cfg, cs[a..n]));
  }

  lemma LetterReachable(s: Setup, es: seq<Entry>, cursor: nat, l: Letter)
    requires LogSound(s, es) && !l.corrupt && LetterSound(s, es, cursor, l)
    ensures forall c :: c in l.batch.changes ==> Reachable(s.cfg, c)
  {
    var a := UpTo(es, l.asked);
    forall c | c in l.batch.changes ensures Reachable(s.cfg, c) {
      var i :| 0 <= i < |l.batch.changes| && l.batch.changes[i] == c;
      assert c == es[a + i].change && EntrySound(s, es[a + i]);
    }
  }

  lemma AcceptedLetter(s: Setup, es: seq<Entry>, cursor: nat, l: Letter)
    requires Ordered(es) && Stands(es, cursor) && !l.corrupt && LetterSound(s, es, cursor, l)
    requires Quiet(l) ==> cursor <= l.asked
    requires BatchFault(l.batch, cursor).None?
    ensures Advances(es, cursor, l.batch) && UpTo(es, l.asked) == UpTo(es, cursor)
  {
    BatchFaultMeaning(l.batch, cursor);
    AcceptedAdvances(es, s.scope, cursor, l.asked, l.batch);
  }

  /** What a landed delivery leaves: the whole batch replayed and the cursor it brings. */
  predicate TookIn(s: Setup, db: DbState, db': DbState, batch: Batch) {
    && db'.rows == ReplayOnto(db.rows, LocalAll(s.cfg, batch.changes))
    && StoredState(db', s.scope).cursor == batch.nextCursor && TextKept(db', s.scope)
  }

  lemma LandedWrites(s: Setup, v: Device, batch: Batch, verdict: Verdict)
    requires batch.scope == s.scope && Landed(s.cfg, v.db, verdict, batch)
    requires MemoryAgrees(v.mem, v.db, s.scope) && DigestExact(v.db, s.scope, All())
    requires forall c :: c in batch.changes ==> Reachable(s.cfg, c)
    ensures TookIn(s, v.db, Delivered(s, v, batch, verdict).db, batch)
  {
    CleanApplyRefines(s.cfg, v.mem, v.db, verdict, batch, !batch.hasMore, false, All());
  }

  /** A landed answer leaves the replay of the log up to the cursor it brings. */
  lemma LandingReplays(s: Setup, es: seq<Entry>, db: DbState, db': DbState, batch: Batch)
    requires HoldsReplay(s, es, db) && Advances(es, StoredState(db, s.scope).cursor, batch) && TookIn(s, db, db', batch)
    ensures HoldsReplay(s, es, db')
  {
    var a, n := UpTo(es, StoredState(db, s.scope).cursor), UpTo(es, batch.nextCursor);
    assert batch.changes == Changes(es)[a..n] && a <= n <= |Changes(es)|;
    ReplayContinues(s.cfg, Changes(es), a, n);
    assert db'.rows == Replayed(LocalAll(s.cfg, Changes(es)[..n]));
  }

  /**
   Delivering any sound answer, late, repeated or corrupted, under any storage behaviour: the rows
   are still the replay of the log up to the stored cursor, and the cursor has not gone back.
   */
  lemma DeliveryKeepsStore(s: Setup, es: seq<Entry>, v: Device, l: Letter, verdict: Verdict)
    requires LogSound(s, es) && StoreSound(s, es, v) && LetterSound(s, es, CursorOf(s, v), l)
    requires Quiet(l) ==> CursorOf(s, v) <= l.asked
    ensures var v' := Delivered(s, v, l.batch, verdict);
      && StoreSound(s, es, v') && (s.scope in v.db.cursors ==> s.scope in v'.db.cursors)
      && (CursorOf(s, v') == CursorOf(s, v) || (!l.corrupt && CursorOf(s, v') == l.batch.nextCursor > CursorOf(s, v)))
  {
    if l.corrupt {
      CorruptRefused(s, v, l.batch, verdict);
      RefreshedAgreesAnywhere(v.mem, v.db, l.batch.scope, s.scope);
    } else {
      LetterReachable(s, es, CursorOf(s, v), l);
      CleanApplyRefines(s.cfg, v.mem, v.db, verdict, l.batch, !l.batch.hasMore, false, All());
      if Landed(s.cfg, v.db, verdict, l.batch) {
        LandedWrites(s, v, l.batch, verdict);
        AcceptedLetter(s, es, CursorOf(s, v), l);
        LandingReplays(s, es, v.db, Delivered(s, v, l.batch, verdict).db, l.batch);
      }
    }
  }

  lemma RefreshedAgreesAnywhere(mem: Memory, db: DbState, scope: ScopeId, t: ScopeId)
    requires MemoryAgrees(mem, db, t)
    ensures MemoryAgrees(Refreshed(mem, db, scope), db, t)
  {
  }

  /** Taking the letter at the head, once or to be delivered again. */
  function Taken(v: Device, keep: bool): Device
    requires v.inbox != []
  {
    if keep then v else v.(inbox := v.inbox[1..])
  }

  lemma DeliveryKeepsTraffic(s: Setup, es: seq<Entry>, v: Device, cursor': nat)
    requires v.inbox != [] && TrafficSound(s, es, v)
    requires cursor' == CursorOf(s, v)
      || (!v.inbox[0].corrupt && cursor' == v.inbox[0].batch.nextCursor > CursorOf(s, v))
    ensures forall c :: c in v.sent ==> c <= cursor'
    ensures forall l :: l in v.inbox ==> LetterSound(s, es, cursor', l)
    ensures EmptiesFresh(cursor', v.inbox)
  {
    forall l | l in v.inbox ensures LetterSound(s, es, cursor', l) {
      assert LetterSound(s, es, CursorOf(s, v), l);
    }
    forall i | 0 <= i < |v.inbox| && Quiet(v.inbox[i]) ensures cursor' <= v.inbox[i].asked && AheadOf(v.inbox, i) {
      assert AheadOf(v.inbox, i);
      if i == 0 {
        assert LetterSound(s, es, CursorOf(s, v), v.inbox[0]);
      }
    }
  }

  /** A queue with any one letter gone keeps what it had. */
  lemma LossKeepsTraffic(s: Setup, es: seq<Entry>, v: Device, i: nat)
    requires i < |v.inbox| && TrafficSound(s, es, v)
    ensures TrafficSound(s, es, v.(inbox := v.inbox[..i] + v.inbox[i + 1..]))
  {
    var rest := v.inbox[..i] + v.inbox[i + 1..];
    forall k | 0 <= k < |rest| && Quiet(rest[k]) ensures CursorOf(s, v) <= rest[k].asked && AheadOf(rest, k) {
      var old_k := if k < i then k else k + 1;
      assert rest[k] == v.inbox[old_k] && AheadOf(v.inbox, old_k);
      assert forall j :: 0 <= j < k ==> rest[j] == v.inbox[if j < i then j else j + 1];
    }
    forall l | l in rest ensures l in v.inbox {
    }
  }

  lemma DeliveryKeepsDevice(s: Setup, es: seq<Entry>, v: Device, verdict: Verdict, keep: bool)
    requires LogSound(s, es) && DeviceSound(s, es, v) && v.inbox != []
    ensures var v' := Taken(Delivered(s, v, v.inbox[0].batch, verdict), keep);
      && DeviceSound(s, es, v') && CursorOf(s, v) <= CursorOf(s, v')
      && (s.scope in v.db.cursors ==> s.scope in v'.db.cursors)
  {
    var l := v.inbox[0];
    assert l in v.inbox && LetterSound(s, es, CursorOf(s, v), l);
    DeliveryKeepsStore(s, es, v, l, verdict);
    var w := Delivered(s, v, l.batch, verdict);
    DeliveryKeepsTraffic(s, es, v, CursorOf(s, w));
    if !keep {
      LossKeepsTraffic(s, es, w, 0);
      assert w.inbox[..0] + w.inbox[1..] == w.inbox[1..];
    }
  }

  // ----- divergence -----

  /** What the client's digest is over, once it has applied the log up to its cursor. */
  lemma ClientDigest(s: Setup, es: seq<Entry>, db: DbState)
    requires DigestExact(db, s.scope, All()) && HoldsReplay(s, es, db)
    ensures StoredState(db, s.scope).digest
      == Digest.DigestOf(Versions(Replayed(Changes(es)[..UpTo(es, StoredState(db, s.scope).cursor)])))
  {
    AllKept(Versions(db.rows));
    ReplayVersionsLocal(s.cfg, Changes(es)[..UpTo(es, StoredState(db, s.scope).cursor)]);
  }

  /**
   What a report of divergence means: a committed delivery compares digests if and only if its
   answer reached the end of the log it was cut from. It compares the digest of the rows held with
   that of the server's history of exactly that log, and reports when those two sums differ.
   */
  lemma DivergenceMeans(s: Setup, es: seq<Entry>, v: Device, l: Letter, verdict: Verdict)
    requires LogSound(s, es) && StoreSound(s, es, v) && !l.corrupt && LetterSound(s, es, CursorOf(s, v), l)
    requires Quiet(l) ==> CursorOf(s, v) <= l.asked
    requires AppliedBatch(s.cfg, v.mem, v.db, verdict, l.batch, !l.batch.hasMore, false).result.Ok?
    ensures var prefix := Changes(es)[..UpTo(es, l.batch.nextCursor)];
      AppliedBatch(s.cfg, v.mem, v.db, verdict, l.batch, !l.batch.hasMore, false).result.value.diverged <==>
        && UpTo(es, l.batch.nextCursor) == l.whole
        && Digest.DigestOf(Versions(Replayed(prefix))) != Digest.DigestOf(HeldIn(prefix))
  {
    LetterReachable(s, es, CursorOf(s, v), l);
    CleanApplyRefines(s.cfg, v.mem, v.db, verdict, l.batch, !l.batch.hasMore, false, All());
    LandedWrites(s, v, l.batch, verdict);
    var db' := Delivered(s, v, l.batch, verdict).db;
    AcceptedLetter(s, es, CursorOf(s, v), l);
    LandingReplays(s, es, v.db, db', l.batch);
    DigestsCompared(s, es, db', l);
  }

  /** The two digests a concluding answer compares, and what each is over. */
  lemma DigestsCompared(s: Setup, es: seq<Entry>, db': DbState, l: Letter)
    requires DigestExact(db', s.scope, All()) && HoldsReplay(s, es, db')
      && StoredState(db', s.scope).cursor == l.batch.nextCursor
    requires !l.corrupt && Concludes(es, l.asked, l.batch, l.whole)
      && UpTo(es, l.batch.nextCursor) == UpTo(es, l.asked) + |l.batch.changes|
    ensures var prefix := Changes(es)[..UpTo(es, l.batch.nextCursor)];
      !l.batch.hasMore ==> (Digest.ToHex(StoredState(db', s.scope).digest) != l.batch.digest <==>
        Digest.DigestOf(Versions(Replayed(prefix))) != Digest.DigestOf(HeldIn(prefix)))
  {
    ClientDigest(s, es, db');
    var prefix := Changes(es)[..UpTo(es, l.batch.nextCursor)];
    Digest.HexInjective(Digest.DigestOf(Versions(Replayed(prefix))), Digest.DigestOf(HeldIn(prefix)));
  }

  /**
   So while no row's latest change at or below the cursor it brings is a delete, no delivery, however late or
   repeated, reports divergence.
   */
  lemma NoFalseDivergence(s: Setup, es: seq<Entry>, v: Device, l: Letter, verdict: Verdict)
    requires LogSound(s, es) && StoreSound(s, es, v) && LetterSound(s, es, CursorOf(s, v), l)
    requires Quiet(l) ==> CursorOf(s, v) <= l.asked
    requires NoTombstoneLast(Changes(es)[..UpTo(es, l.batch.nextCursor)])
    ensures var r := AppliedBatch(s.cfg, v.mem, v.db, verdict, l.batch, !l.batch.hasMore, false).result;
      r.Ok? ==> !r.value.diverged
  {
    var o := AppliedBatch(s.cfg, v.mem, v.db, verdict, l.batch, !l.batch.hasMore, false);
    if l.corrupt {
      CorruptRefused(s, v, l.batch, verdict);
    } else if o.result.Ok? {
      DivergenceMeans(s, es, v, l, verdict);
      HistoryMatchesReplay(Changes(es)[..UpTo(es, l.batch.nextCursor)]);
    }
  }

  // ----- how a cursor can go back -----

  /** An empty answer takes a landed device to wherever it was asked from, behind it or not. */
  lemma EmptyAnswerMoves(s: Setup, v: Device, batch: Batch, verdict: Verdict)
    requires batch.scope == s.scope && batch.changes == [] && !verdict.FailBeforeCommit?
    requires MemoryAgrees(v.mem, v.db, s.scope)
    ensures CursorOf(s, Delivered(s, v, batch, verdict)) == batch.nextCursor
    ensures Delivered(s, v, batch, verdict).db.rows == v.db.rows
  {
    ApplyRefines(s.cfg, v.mem, v.db, verdict, batch, !batch.hasMore, false);
    EngineRuns.LandedMeansAccepted(s.cfg, v.db, batch, verdict);
    BatchFaultMeaning(batch, CursorOf(s, v));
  }

  /** The pull answer under a row limit of zero: nothing, however much there is to give. */
  lemma NoRowsAllowed(s: Setup, es: seq<Entry>, asked: nat, guarded: bool, budget: nat)
    ensures var batch := PullAnswer(es, s.scope, asked, 0, guarded, s.encode, budget, s.compressedLen);
      batch.changes == [] && batch.nextCursor == asked && batch.scope == s.scope
  {
    var digest := Digest.ToHex(DigestAt(es, VisibleHead(es)));
    var start := UpTo(es, asked);
    assert Candidates(es, start, guarded, 0) == [];
    Splice.FilledIsCut(s.scope, asked, [], |es| - start > 0, s.encode, budget, s.compressedLen, digest);
  }

  /**
   So under that limit an answer takes back every device standing past the cursor it was asked from, rows and
   all it holds staying.
   */
  lemma NoRowsGoesBack(s: Setup, es: seq<Entry>, v: Device, asked: nat, guarded: bool, budget: nat, verdict: Verdict)
    requires MemoryAgrees(v.mem, v.db, s.scope) && asked < CursorOf(s, v) && !verdict.FailBeforeCommit?
    ensures var batch := PullAnswer(es, s.scope, asked, 0, guarded, s.encode, budget, s.compressedLen);
      var w := Delivered(s, v, batch, verdict);
      CursorOf(s, w) == asked < CursorOf(s, v) && w.db.rows == v.db.rows
  {
    NoRowsAllowed(s, es, asked, guarded, budget);
    EmptyAnswerMoves(s, v, PullAnswer(es, s.scope, asked, 0, guarded, s.encode, budget, s.compressedLen), verdict);
  }

  /** The answers to two pulls from the start, one before the first entry was written and one after. */
  ghost function Before(s: Setup, budget: nat): Batch {
    PullAnswer([], s.scope, 0, 4, true, s.encode, budget, s.compressedLen)
  }

  ghost function After(s: Setup, e: Entry, budget: nat): Batch {
    PullAnswer([e], s.scope, 0, 4, true, s.encode, budget, s.compressedLen)
  }

  lemma BothHonest(s: Setup, e: Entry, budget: nat)
    requires e.visible && e.change.seqNo == 1
    ensures Before(s, budget).changes == [] && Before(s, budget).nextCursor == 0
      && Honest([], s.scope, 0, Before(s, budget), 0)
    ensures After(s, e, budget).changes == [e.change] && After(s, e, budget).nextCursor == 1
    ensures Honest([e], s.scope, 0, After(s, e, budget), 1)
  {
    PullIsHonest([], s.scope, 0, 4, s.encode, budget, s.compressedLen);
    UpToIs([e], 0, 0);
    assert Committed([e]) == 1;
    PullIsHonest([e], s.scope, 0, 4, s.encode, budget, s.compressedLen);
    assert Changes([e])[0..1] == [e.change];
  }

  /** A fresh device takes the entry in. */
  lemma FirstEntryLands(s: Setup, e: Entry, v: Device, batch: Batch)
    requires EntrySound(s, e) && e.change.seqNo == 1 && batch.changes == [e.change] && batch.nextCursor == 1
    requires batch.scope == s.scope && MemoryAgrees(v.mem, v.db, s.scope) && v.db.rows == map[] && CursorOf(s, v) == 0
    ensures CursorOf(s, Delivered(s, v, batch, Commit)) == 1
      && MemoryAgrees(Delivered(s, v, batch, Commit).mem, Delivered(s, v, batch, Commit).db, s.scope)
  {
    EngineRuns.OneAccepted(s.cfg, EngineRuns.Reference(v.db.rows, v.db.cursors), batch, e.change);
    EngineRuns.LandedMeansAccepted(s.cfg, v.db, batch, Commit);
    ApplyRefines(s.cfg, v.mem, v.db, Commit, batch, !batch.hasMore, false);
  }

  /**
   Two honest answers to one device, delivered in the order they were given, leave its cursor at
   the entry; swapped, they leave it at the start, past which the device already holds a row.
   */
  lemma SwappedAnswersGoBack(s: Setup, e: Entry, budget: nat)
    requires EntrySound(s, e) && e.visible && e.change.seqNo == 1
    ensures var v := Device(FRESH_MEMORY, EMPTY_DB, {}, []);
      var inOrder := Delivered(s, Delivered(s, v, Before(s, budget), Commit), After(s, e, budget), Commit);
      var once := Delivered(s, v, After(s, e, budget), Commit);
      var swapped := Delivered(s, once, Before(s, budget), Commit);
      && CursorOf(s, inOrder) == 1 && CursorOf(s, once) == 1
      && CursorOf(s, swapped) == 0 && swapped.db.rows == once.db.rows
  {
    var v := Device(FRESH_MEMORY, EMPTY_DB, {}, []);
    BothHonest(s, e, budget);
    EmptyAnswerMoves(s, v, Before(s, budget), Commit);
    ApplyRefines(s.cfg, v.mem, v.db, Commit, Before(s, budget), !Before(s, budget).hasMore, false);
    FirstEntryLands(s, e, Delivered(s, v, Before(s, budget), Commit), After(s, e, budget));
    FirstEntryLands(s, e, v, After(s, e, budget));
    EmptyAnswerMoves(s, Delivered(s, v, After(s, e, budget), Commit), Before(s, budget), Commit);
  }
}
