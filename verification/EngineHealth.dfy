/**
 Health escalation: a scope that keeps diverging is reported at most three times and given up on
 at most once, over any run of pulls, bootstrap pages and rebuilds, under any storage behaviour,
 and again for each restart that loses the record; what storage records restores to what memory holds.
 */
module EngineHealth {
  import opened Prelude
  import opened Wire
  import opened Migrate
  import opened Storage
  import opened EngineSpec
  import EngineDigest
  import EngineRuns
  import Digest

  // ----- what a run reports -----

  function Divergences(effects: seq<Telemetry>, s: ScopeId): nat {
    if effects == [] then 0
    else
      var last := effects[|effects| - 1];
      Divergences(effects[..|effects| - 1], s) + if last.ScopeDiverged? && last.scope == s then 1 else 0
  }

  function Surrenders(effects: seq<Telemetry>, s: ScopeId): nat {
    if effects == [] then 0
    else
      var last := effects[|effects| - 1];
      Surrenders(effects[..|effects| - 1], s) + if last.ScopeUnhealable? && last.scope == s then 1 else 0
  }

  lemma {:induction false} CountsAdd(a: seq<Telemetry>, b: seq<Telemetry>, s: ScopeId)
    ensures Divergences(a + b, s) == Divergences(a, s) + Divergences(b, s)
    ensures Surrenders(a + b, s) == Surrenders(a, s) + Surrenders(b, s)
  {
    if b == [] {
      assert a + b == a;
    } else {
      assert (a + b)[..|a + b| - 1] == a + b[..|b| - 1];
      CountsAdd(a, b[..|b| - 1], s);
    }
  }

  predicate AboutHealth(t: Telemetry) {
    t.ScopeDiverged? || t.ScopeUnhealable?
  }

  lemma {:induction false} NoneCounted(effects: seq<Telemetry>, s: ScopeId)
    requires forall t :: t in effects ==> !AboutHealth(t)
    ensures Divergences(effects, s) == 0 && Surrenders(effects, s) == 0
  {
    if effects != [] {
      NoneCounted(effects[..|effects| - 1], s);
      assert effects[|effects| - 1] in effects;
    }
  }

  lemma AtMostOneCounted(effects: seq<Telemetry>, s: ScopeId)
    requires |effects| <= 1
    ensures Divergences(effects, s) == if effects != [] && effects[0].ScopeDiverged? && effects[0].scope == s then 1
      else 0
    ensures Surrenders(effects, s) == if effects != [] && effects[0].ScopeUnhealable? && effects[0].scope == s then 1
      else 0
  {
    if effects != [] {
      assert effects[..0] == [];
    }
  }

  /** What one call emitted; a restart's engine starts with nothing emitted. */
  function Emitted(cfg: Config, mem: Memory, db: DbState, e: Event): seq<Telemetry> {
    var (m, _) := Stepped(cfg, mem, db, e);
    if e.Restart? || |m.effects| < |mem.effects| then [] else m.effects[|mem.effects|..]
  }

  function Reported(cfg: Config, mem: Memory, db: DbState, events: seq<Event>): seq<Telemetry> {
    if events == [] then []
    else
      var init := events[..|events| - 1];
      var (m, d) := Ran(cfg, mem, db, init);
      Reported(cfg, mem, db, init) + Emitted(cfg, m, d, events[|events| - 1])
  }

  // ----- the invariant -----

  /** What storage records of a scope's health. */
  function Record(db: DbState, s: ScopeId): (nat, bool) {
    if s in db.divergences then db.divergences[s] else (0, false)
  }

  predicate WellShaped(h: ScopeHealth) {
    match h
    case Healthy => true
    case Tainted(n) => 1 <= n < MAX_HEAL_ATTEMPTS
    case Healed(n) => 1 <= n < MAX_HEAL_ATTEMPTS
    case Unhealable(n) => n == MAX_HEAL_ATTEMPTS
  }

  /** Memory never runs ahead of the record, and giving up is always on record. */
  predicate Escalates(h: ScopeHealth, record: (nat, bool)) {
    && WellShaped(h) && WellShaped(RestoredHealth(record.0, record.1))
    && h.Attempts() <= record.0 && (record.0 == 0 ==> !record.1)
    && (h.Unhealable? ==> record == (MAX_HEAL_ATTEMPTS, false))
  }

  /** What may have been reported by now, given how often the record was not handed back. */
  predicate Bounded(h: ScopeHealth, reported: seq<Telemetry>, s: ScopeId, lost: nat) {
    && Divergences(reported, s) <= h.Attempts() + MAX_HEAL_ATTEMPTS * lost
    && Surrenders(reported, s) <= lost + if h.Unhealable? then 1 else 0
  }

  // ----- one call -----

  lemma {:induction false} RowOpsKeepRecords(db: DbState, ops: seq<StorageOp>)
    requires forall op :: op in ops ==> op.UpsertRow? || op.DeleteRow? || op.QuarantineRow?
    ensures ApplyOps(db, ops).divergences == db.divergences
  {
    if ops != [] {
      RowOpsKeepRecords(db, ops[..|ops| - 1]);
      assert ops[|ops| - 1] in ops;
    }
  }

  /** What an acknowledged commit makes of a scope's health. */
  function Moved(h: ScopeHealth, j: Judgement): ScopeHealth {
    if j.counts then
      var n := NextAttempt(h);
      if n >= MAX_HEAL_ATTEMPTS then Unhealable(n) else Tainted(n)
    else if j.heals then Healed(h.Attempts())
    else h
  }

  function MovedRecord(record: (nat, bool), h: ScopeHealth, j: Judgement): (nat, bool) {
    if j.heals then (h.Attempts(), true) else if j.counts then (NextAttempt(h), false) else record
  }

  lemma TailRecords(db: DbState, batch: Batch, digest: Digest.U128, h: ScopeHealth, j: Judgement, s: ScopeId)
    ensures Record(ApplyOps(db, EngineDigest.TailOps(batch, digest, h, j)), s) ==
      if s == batch.scope then MovedRecord(Record(db, s), h, j) else Record(db, s)
  {
    EngineDigest.TailWrites(db, batch, digest, h, j);
  }

  lemma BatchRecords(db: DbState, sg: Staging, batch: Batch, h: ScopeHealth, j: Judgement, s: ScopeId)
    requires forall op :: op in sg.ops ==> op.UpsertRow? || op.DeleteRow? || op.QuarantineRow?
    ensures Record(ApplyOps(db, BatchOps(sg, batch, h, j)), s) ==
      if s == batch.scope then MovedRecord(Record(db, s), h, j) else Record(db, s)
  {
    EngineDigest.BatchSplits(db, sg, batch, h, j);
    RowOpsKeepRecords(db, sg.ops);
    TailRecords(ApplyOps(db, sg.ops), batch, sg.digest, h, j, s);
  }

  /** The state machine behind the escalation: a judgement moves health and record together. */
  lemma MoveEscalates(h: ScopeHealth, record: (nat, bool), clientHex: string, serverHex: string, compare: bool,
                      rebuilding: bool)
    requires Escalates(h, record)
    ensures var j := Judged(h, clientHex, serverHex, compare, rebuilding);
      && Escalates(Moved(h, j), MovedRecord(record, h, j))
      && Escalates(h, MovedRecord(record, h, j))
      && (h.Unhealable? ==> !j.counts && !j.heals)
      && (j.counts ==> Moved(h, j).Attempts() == h.Attempts() + 1)
      && (!j.counts ==> Moved(h, j).Attempts() == h.Attempts())
      && (RestoredHealth(record.0, record.1) == h ==>
           var r := MovedRecord(record, h, j); RestoredHealth(r.0, r.1) == Moved(h, j))
      && (h.Healthy? ==>
           var r := MovedRecord(record, h, j); RestoredHealth(r.0, r.1) == Moved(h, j) || Moved(h, j).Healthy?)
  {
  }

  /** What an acknowledged commit tells of the scope's health. */
  function HealthReports(sg: Staging, batch: Batch, h: ScopeHealth, j: Judgement): seq<Telemetry> {
    if !j.counts then []
    else
      [ScopeDiverged(batch.scope, Digest.ToHex(sg.digest), batch.digest)]
      + (if NextAttempt(h) >= MAX_HEAL_ATTEMPTS then [ScopeUnhealable(batch.scope, NextAttempt(h))] else [])
  }

  lemma CommittedEffects(mem: Memory, sg: Staging, batch: Batch, h: ScopeHealth, j: Judgement)
    ensures CommittedMemory(mem, sg, batch, h, j).effects
      == mem.effects + (QuarantineReports(sg.quarantined) + HealthReports(sg, batch, h, j))
  {
  }

  lemma HealthReportsCounted(sg: Staging, batch: Batch, h: ScopeHealth, j: Judgement, s: ScopeId)
    ensures var told := HealthReports(sg, batch, h, j);
      && Divergences(told, s) == (if j.counts && batch.scope == s then 1 else 0)
      && Surrenders(told, s) ==
        (if j.counts && batch.scope == s && NextAttempt(h) >= MAX_HEAL_ATTEMPTS then 1 else 0)
  {
    if j.counts {
      var told := [ScopeDiverged(batch.scope, Digest.ToHex(sg.digest), batch.digest)];
      var gave := if NextAttempt(h) >= MAX_HEAL_ATTEMPTS then [ScopeUnhealable(batch.scope, NextAttempt(h))] else [];
      CountsAdd(told, gave, s);
      AtMostOneCounted(told, s);
      AtMostOneCounted(gave, s);
    }
  }

  lemma Suffix(a: seq<Telemetry>, b: seq<Telemetry>)
    ensures a <= a + b && (a + b)[|a|..] == b
  {
  }

  lemma ReportsOf(mem: Memory, sg: Staging, batch: Batch, h: ScopeHealth, j: Judgement, s: ScopeId)
    ensures var m := CommittedMemory(mem, sg, batch, h, j);
      && mem.effects <= m.effects
      && Divergences(m.effects[|mem.effects|..], s) == (if j.counts && batch.scope == s then 1 else 0)
      && Surrenders(m.effects[|mem.effects|..], s) ==
        (if j.counts && batch.scope == s && NextAttempt(h) >= MAX_HEAL_ATTEMPTS then 1 else 0)
  {
    var quarantined, told := QuarantineReports(sg.quarantined), HealthReports(sg, batch, h, j);
    CommittedEffects(mem, sg, batch, h, j);
    Suffix(mem.effects, quarantined + told);
    NoneCounted(quarantined, s);
    CountsAdd(quarantined, told, s);
    HealthReportsCounted(sg, batch, h, j, s);
  }

  lemma CommittedHealth(mem: Memory, sg: Staging, batch: Batch, h: ScopeHealth, j: Judgement, s: ScopeId)
    requires h == HealthOf(mem, batch.scope)
    ensures HealthOf(CommittedMemory(mem, sg, batch, h, j), s) == if s == batch.scope then Moved(h, j)
      else HealthOf(mem, s)
  {
  }

  /** Restoring the record would give what memory holds. */
  predicate Restores(mem: Memory, db: DbState, s: ScopeId) {
    Agree(HealthOf(mem, s), Record(db, s))
  }

  predicate Agree(h: ScopeHealth, record: (nat, bool)) {
    RestoredHealth(record.0, record.1) == h
  }

  predicate Lies(e: Event) {
    && (e.ApplyBatch? || e.ClearScopeHealth?)
    && e.verdict.CommitThenLoseAck?
  }

  /** What one apply may do to a scope's health and record, and what it may report. */
  predicate MovedBy(h: ScopeHealth, r: (nat, bool), h': ScopeHealth, r': (nat, bool), told: seq<Telemetry>, s: ScopeId,
                    honest: bool) {
    && Escalates(h', r')
    && h.Attempts() + Divergences(told, s) <= h'.Attempts()
    && Surrenders(told, s) <= (if h'.Unhealable? && !h.Unhealable? then 1 else 0)
    && (h.Unhealable? ==> h' == h)
    && (honest && Agree(h, r) ==> Agree(h', r'))
    && (honest && h.Healthy? ==> Agree(h', r') || h'.Healthy?)
  }

  lemma NothingMoved(h: ScopeHealth, r: (nat, bool), s: ScopeId, honest: bool)
    requires Escalates(h, r)
    ensures MovedBy(h, r, h, r, [], s, honest)
  {
  }

  /** A transaction the engine was told had failed: memory stands still; the record may have moved. */
  lemma UnacknowledgedHealth(m: Memory, db: DbState, verdict: Verdict, sg: Staging, batch: Batch, compare: bool,
                             rebuilding: bool, s: ScopeId)
    requires Escalates(HealthOf(m, s), Record(db, s)) && !verdict.Commit?
    requires forall op :: op in sg.ops ==> op.UpsertRow? || op.DeleteRow? || op.QuarantineRow?
    ensures var o := CommittedBatch(m, db, verdict, sg, batch, compare, rebuilding);
      && o.mem.effects == m.effects
      && MovedBy(HealthOf(m, s), Record(db, s), HealthOf(o.mem, s), Record(o.db, s), [], s, !verdict.CommitThenLoseAck?)
  {
    var h := HealthOf(m, batch.scope);
    var j := Judged(h, Digest.ToHex(sg.digest), batch.digest, compare, rebuilding);
    BatchRecords(db, sg, batch, h, j, s);
    var o := CommittedBatch(m, db, verdict, sg, batch, compare, rebuilding);
    assert HealthOf(o.mem, s) == HealthOf(m, s);
    if s == batch.scope && !verdict.FailBeforeCommit? {
      MoveEscalates(h, Record(db, s), Digest.ToHex(sg.digest), batch.digest, compare, rebuilding);
      assert Record(o.db, s) == MovedRecord(Record(db, s), h, j);
    } else {
      assert Record(o.db, s) == Record(db, s);
      NothingMoved(HealthOf(m, s), Record(db, s), s, !verdict.CommitThenLoseAck?);
    }
  }

  lemma AcknowledgedHealth(m: Memory, db: DbState, sg: Staging, batch: Batch, compare: bool, rebuilding: bool,
                           s: ScopeId)
    requires Escalates(HealthOf(m, s), Record(db, s))
    requires forall op :: op in sg.ops ==> op.UpsertRow? || op.DeleteRow? || op.QuarantineRow?
    ensures var o := CommittedBatch(m, db, Commit, sg, batch, compare, rebuilding);
      && m.effects <= o.mem.effects
      && MovedBy(HealthOf(m, s), Record(db, s), HealthOf(o.mem, s), Record(o.db, s), o.mem.effects[|m.effects|..], s,
                 true)
  {
    var h := HealthOf(m, batch.scope);
    var j := Judged(h, Digest.ToHex(sg.digest), batch.digest, compare, rebuilding);
    BatchRecords(db, sg, batch, h, j, s);
    ReportsOf(m, sg, batch, h, j, s);
    CommittedHealth(m, sg, batch, h, j, s);
    var told := CommittedMemory(m, sg, batch, h, j).effects[|m.effects|..];
    if s == batch.scope {
      JudgementMoves(h, Record(db, s), Digest.ToHex(sg.digest), batch.digest, compare, rebuilding, told, s);
    } else {
      OnlyTold(HealthOf(m, s), Record(db, s), told, s);
    }
  }

  /** A judgement that was stored and told of. */
  lemma JudgementMoves(h: ScopeHealth, r: (nat, bool), clientHex: string, serverHex: string, compare: bool,
                       rebuilding: bool, told: seq<Telemetry>, s: ScopeId)
    requires Escalates(h, r)
    requires var j := Judged(h, clientHex, serverHex, compare, rebuilding);
      && Divergences(told, s) == (if j.counts then 1 else 0)
      && Surrenders(told, s) == (if j.counts && NextAttempt(h) >= MAX_HEAL_ATTEMPTS then 1 else 0)
    ensures var j := Judged(h, clientHex, serverHex, compare, rebuilding);
      MovedBy(h, r, Moved(h, j), MovedRecord(r, h, j), told, s, true)
  {
    MoveEscalates(h, r, clientHex, serverHex, compare, rebuilding);
  }

  lemma OnlyTold(h: ScopeHealth, r: (nat, bool), told: seq<Telemetry>, s: ScopeId)
    requires Escalates(h, r) && Divergences(told, s) == 0 && Surrenders(told, s) == 0
    ensures MovedBy(h, r, h, r, told, s, true)
  {
  }

  lemma StagedHealth(m: Memory, db: DbState, verdict: Verdict, sg: Staging, batch: Batch, compare: bool,
                     rebuilding: bool, s: ScopeId)
    requires Escalates(HealthOf(m, s), Record(db, s))
    requires forall op :: op in sg.ops ==> op.UpsertRow? || op.DeleteRow? || op.QuarantineRow?
    ensures var o := CommittedBatch(m, db, verdict, sg, batch, compare, rebuilding);
      && m.effects <= o.mem.effects
      && MovedBy(HealthOf(m, s), Record(db, s), HealthOf(o.mem, s), Record(o.db, s), o.mem.effects[|m.effects|..], s,
                 !verdict.CommitThenLoseAck?)
  {
    if verdict.Commit? {
      AcknowledgedHealth(m, db, sg, batch, compare, rebuilding, s);
    } else {
      UnacknowledgedHealth(m, db, verdict, sg, batch, compare, rebuilding, s);
      assert m.effects[|m.effects|..] == [];
    }
  }

  lemma ApplyHealth(cfg: Config, mem: Memory, db: DbState, batch: Batch, rebuilding: bool, verdict: Verdict, s: ScopeId)
    requires Escalates(HealthOf(mem, s), Record(db, s))
    ensures var o := AppliedBatch(cfg, mem, db, verdict, batch, !batch.hasMore, rebuilding);
      && mem.effects <= o.mem.effects
      && MovedBy(HealthOf(mem, s), Record(db, s), HealthOf(o.mem, s), Record(o.db, s), o.mem.effects[|mem.effects|..],
                 s, !verdict.CommitThenLoseAck?)
  {
    var m := Refreshed(mem, db, batch.scope);
    EngineDigest.RefreshKeepsDb(mem, db, batch.scope, s);
    var state := StateOf(m, batch.scope);
    var staged := StagedAll(cfg, StartStaging(db, state.digest), batch.changes);
    if BatchFault(batch, state.cursor).None? && staged.Ok? {
      EngineDigest.StagedOpsAreRowOps(cfg, StartStaging(db, state.digest), batch.changes);
      StagedHealth(m, db, verdict, staged.value, batch, !batch.hasMore, rebuilding, s);
    } else {
      assert m.effects[|m.effects|..] == [];
      NothingMoved(HealthOf(mem, s), Record(db, s), s, !verdict.CommitThenLoseAck?);
    }
  }

  // ----- what an acknowledged apply makes of health -----

  /** Whether a divergence counts against a scope: not while it waits for a rebuild, nor once given up. */
  predicate Fair(h: ScopeHealth, rebuilding: bool) {
    h.Healthy? || h.Healed? || (h.Tainted? && rebuilding)
  }

  /** One more attempt, in the 32 bits it is counted in. */
  function OneMore(h: ScopeHealth): nat {
    if h.Attempts() < 0xffff_ffff then h.Attempts() + 1 else 0xffff_ffff
  }

  /** Where health and its record go, given whether the digests were compared and whether they differed. */
  predicate Judges(h: ScopeHealth, r: (nat, bool), h': ScopeHealth, r': (nat, bool), compared: bool, differ: bool,
                   rebuilding: bool)
  {
    var n := OneMore(h);
    if compared && differ && Fair(h, rebuilding) then
      h' == (if n < 3 then Tainted(n) else Unhealable(n)) && r' == (n, false)
    else if compared && !differ && h.Tainted? then
      h' == Healed(h.count) && r' == (h.count, true)
    else
      h' == h && r' == r
  }

  /** What is told of it: each change set aside, in order, then the divergence, then the surrender. */
  predicate Tells(told: seq<Telemetry>, aside: seq<(Change, MigrationError)>, scope: ScopeId, client: string,
                  server: string, h: ScopeHealth, counted: bool)
  {
    var n, k := OneMore(h), |aside|;
    && |told| == k + (if !counted then 0 else if n < 3 then 1 else 2)
    && (forall i :: 0 <= i < k ==> told[i] == RowQuarantined(aside[i].0, aside[i].1))
    && (counted ==> told[k] == ScopeDiverged(scope, client, server))
    && (counted && n >= 3 ==> told[k + 1] == ScopeUnhealable(scope, n))
  }

  lemma JudgementJudges(h: ScopeHealth, r: (nat, bool), client: string, server: string, compare: bool,
                        rebuilding: bool)
    ensures var j := Judged(h, client, server, compare, rebuilding);
      && Judges(h, r, Moved(h, j), MovedRecord(r, h, j), compare, client != server, rebuilding)
      && (j.counts <==> compare && client != server && Fair(h, rebuilding))
  {
  }

  lemma CommittedTells(m: Memory, sg: Staging, batch: Batch, h: ScopeHealth, j: Judgement)
    ensures var o := CommittedMemory(m, sg, batch, h, j);
      && m.effects <= o.effects
      && Tells(o.effects[|m.effects|..], sg.quarantined, batch.scope, Digest.ToHex(sg.digest), batch.digest, h,
               j.counts)
  {
    CommittedEffects(m, sg, batch, h, j);
    Suffix(m.effects, QuarantineReports(sg.quarantined) + HealthReports(sg, batch, h, j));
  }

  lemma CommittedJudges(m: Memory, db: DbState, sg: Staging, batch: Batch, compare: bool, rebuilding: bool)
    requires forall op :: op in sg.ops ==> op.UpsertRow? || op.DeleteRow? || op.QuarantineRow?
    ensures var o := CommittedBatch(m, db, Commit, sg, batch, compare, rebuilding);
      var scope, h := batch.scope, HealthOf(m, batch.scope);
      && Judges(h, Record(db, scope), HealthOf(o.mem, scope), Record(o.db, scope), compare,
                Digest.ToHex(sg.digest) != batch.digest, rebuilding)
      && m.effects <= o.mem.effects
      && Tells(o.mem.effects[|m.effects|..], sg.quarantined, scope, Digest.ToHex(sg.digest), batch.digest, h,
               compare && Digest.ToHex(sg.digest) != batch.digest && Fair(h, rebuilding))
  {
    var h := HealthOf(m, batch.scope);
    var j := Judged(h, Digest.ToHex(sg.digest), batch.digest, compare, rebuilding);
    JudgementJudges(h, Record(db, batch.scope), Digest.ToHex(sg.digest), batch.digest, compare, rebuilding);
    BatchRecords(db, sg, batch, h, j, batch.scope);
    CommittedHealth(m, sg, batch, h, j, batch.scope);
    CommittedTells(m, sg, batch, h, j);
  }

  /**
   What an acknowledged apply makes of its scope's health, exactly. A digest that was compared and
   differs counts, unless the scope waits for a rebuild or was given up: the third time gives it up.
   One that was compared and agrees heals a scope that waited. Nothing else moves health or its
   record. The changes set aside are told in order, then a divergence that counted, with the
   client's digest and the server's, then a surrender.
   */
  lemma AppliedJudges(cfg: Config, mem: Memory, db: DbState, batch: Batch, compare: bool, rebuilding: bool)
    requires EngineDigest.MemoryAgrees(mem, db, batch.scope)
    requires AppliedBatch(cfg, mem, db, Commit, batch, compare, rebuilding).result.Ok?
    ensures var o := AppliedBatch(cfg, mem, db, Commit, batch, compare, rebuilding);
      var scope, h := batch.scope, HealthOf(mem, batch.scope);
      var client := Digest.ToHex(StoredState(o.db, scope).digest);
      && Judges(h, Record(db, scope), HealthOf(o.mem, scope), Record(o.db, scope), compare, client != batch.digest,
                rebuilding)
      && mem.effects <= o.mem.effects
      && Tells(o.mem.effects[|mem.effects|..], EngineDigest.SetAside(cfg, batch.changes), scope, client, batch.digest,
               h, compare && client != batch.digest && Fair(h, rebuilding))
  {
    var m := Refreshed(mem, db, batch.scope);
    var state := StateOf(m, batch.scope);
    var sg := StagedAll(cfg, StartStaging(db, state.digest), batch.changes).value;
    EngineDigest.RefreshKeepsDb(mem, db, batch.scope, batch.scope);
    EngineDigest.StagedOpsAreRowOps(cfg, StartStaging(db, state.digest), batch.changes);
    BatchFaultMeaning(batch, state.cursor);
    EngineDigest.StagedOpsReplay(cfg, db, state.digest, batch.changes);
    var j := Judged(HealthOf(m, batch.scope), Digest.ToHex(sg.digest), batch.digest, compare, rebuilding);
    EngineDigest.BatchWrites(cfg, db, state.digest, batch, HealthOf(m, batch.scope), j);
    CommittedJudges(m, db, sg, batch, compare, rebuilding);
  }

  /** Health, record and reports all as they were, but for what was told. */
  predicate Quiet(mem: Memory, db: DbState, mem': Memory, db': DbState, told: seq<Telemetry>) {
    mem'.effects == mem.effects + told && mem'.health == mem.health && db'.divergences == db.divergences
  }

  function Told(mem: Memory, e: Event): seq<Telemetry> {
    match e
    case BuildPush(reported) => reported
    case OnUpgradeRequired => [UpgradeRequired(|mem.outbox|)]
    case _ => []
  }

  lemma QueueQuiet(mem: Memory, db: DbState, mem': Memory, db': DbState)
    requires EngineRuns.OnlyOutbox(mem, mem', db, db')
    ensures Quiet(mem, db, mem', db', [])
  {
  }

  lemma RebuildQuiet(cfg: Config, mem: Memory, db: DbState, verdict: Verdict, scope: ScopeId)
    ensures var o := Rebootstrapped(cfg, mem, db, verdict, scope); Quiet(mem, db, o.mem, o.db, [])
  {
    EngineRuns.RebuildWrites(cfg, db, scope);
  }

  /** No call but an apply, a clear or a restart touches health. */
  lemma OtherHealth(cfg: Config, mem: Memory, db: DbState, e: Event)
    requires !e.ApplyBatch? && !e.ClearScopeHealth? && !e.Restart?
    ensures var (m, d) := Stepped(cfg, mem, db, e); Quiet(mem, db, m, d, Told(mem, e))
  {
    var (m, d) := Stepped(cfg, mem, db, e);
    if e.ApplyResults? {
      EngineRuns.ResultsKeep(cfg, mem, db, e.verdict, e.results);
      QueueQuiet(mem, db, m, d);
    } else if e.Enqueue? {
      EngineRuns.EnqueueKeeps(cfg, mem, db, e.verdict, e.entry);
      QueueQuiet(mem, db, m, d);
    } else if e.BeginRebootstrap? {
      RebuildQuiet(cfg, mem, db, e.verdict, e.scope);
    }
  }

  lemma ClearHealth(mem: Memory, db: DbState, scope: ScopeId, verdict: Verdict, s: ScopeId)
    requires Escalates(HealthOf(mem, s), Record(db, s))
    ensures var o := ClearedHealth(mem, db, verdict, scope);
      && o.mem.effects == mem.effects
      && (s != scope ==> Record(o.db, s) == Record(db, s) && HealthOf(o.mem, s) == HealthOf(mem, s))
      && (s == scope && verdict.Commit? ==> Record(o.db, s) == (0, false) && HealthOf(o.mem, s) == Healthy)
      && (verdict.FailBeforeCommit? ==> o.db == db && o.mem == mem)
  {
    EngineDigest.One(db, [RecordDivergence(scope, 0, false)]);
  }

  // ----- restarts -----

  /** A restart whose host does not hand the health record back. */
  predicate Loses(e: Event) {
    e.Restart? && !e.restoreHealth
  }

  function Losses(events: seq<Event>): nat {
    if events == [] then 0 else Losses(events[..|events| - 1]) + if Loses(events[|events| - 1]) then 1 else 0
  }

  /** A restart gives back the health on record if and only if the host hands it back or there was nothing on record. */
  lemma RestartRestores(db: DbState, restoreHealth: bool, s: ScopeId)
    ensures HealthOf(Restarted(db, restoreHealth), s) == RestoredHealth(Record(db, s).0, Record(db, s).1) <==>
      restoreHealth || Record(db, s).0 == 0
    ensures !restoreHealth ==> HealthOf(Restarted(db, restoreHealth), s) == Healthy
  {
  }

  /** What the bound is counted over: no clear of this scope, and the host reporting no health of its own. */
  predicate Counts(e: Event, s: ScopeId) {
    && (e.ClearScopeHealth? ==> e.scope != s)
    && (e.BuildPush? ==> forall t :: t in e.reported ==> !AboutHealth(t))
  }

  lemma HealthStep(cfg: Config, mem: Memory, db: DbState, e: Event, s: ScopeId, reported: seq<Telemetry>, lost: nat)
    requires Escalates(HealthOf(mem, s), Record(db, s)) && Bounded(HealthOf(mem, s), reported, s, lost) && Counts(e, s)
    ensures var (m, d) := Stepped(cfg, mem, db, e);
      && Escalates(HealthOf(m, s), Record(d, s))
      && Bounded(HealthOf(m, s), reported + Emitted(cfg, mem, db, e), s, lost + if Loses(e) then 1 else 0)
      && (HealthOf(mem, s).Unhealable? && !Loses(e) ==> HealthOf(m, s).Unhealable?)
  {
    var out := Emitted(cfg, mem, db, e);
    CountsAdd(reported, out, s);
    if e.ApplyBatch? {
      ApplyHealth(cfg, mem, db, e.batch, e.rebuilding, e.verdict, s);
    } else if e.Restart? {
      RestartRestores(db, e.restoreHealth, s);
    } else if e.ClearScopeHealth? {
      ClearHealth(mem, db, e.scope, e.verdict, s);
      assert out == [];
    } else {
      OtherHealth(cfg, mem, db, e);
      assert out == Told(mem, e);
      NoneCounted(out, s);
    }
  }

  // ----- whole runs -----

  lemma {:induction false} EscalatesAlong(cfg: Config, mem: Memory, db: DbState, events: seq<Event>, s: ScopeId)
    requires HealthOf(mem, s) == Healthy && Record(db, s) == (0, false)
    requires forall e :: e in events ==> Counts(e, s)
    ensures var (m, d) := Ran(cfg, mem, db, events); Escalates(HealthOf(m, s), Record(d, s))
  {
    if events != [] {
      var k := |events| - 1;
      EscalatesAlong(cfg, mem, db, events[..k], s);
      var (m, d) := Ran(cfg, mem, db, events[..k]);
      assert events[k] in events;
      EscalatesStep(cfg, m, d, events[k], s);
    }
  }

  lemma EscalatesStep(cfg: Config, mem: Memory, db: DbState, e: Event, s: ScopeId)
    requires Escalates(HealthOf(mem, s), Record(db, s)) && Counts(e, s)
    ensures var (m, d) := Stepped(cfg, mem, db, e);
      Escalates(HealthOf(m, s), Record(d, s))
        && (HealthOf(mem, s).Unhealable? && !Loses(e) ==> HealthOf(m, s).Unhealable?)
  {
    HealthStep(cfg, mem, db, e, s, [], 1);
  }

  lemma {:induction false} EscalationHolds(cfg: Config, mem: Memory, db: DbState, events: seq<Event>, s: ScopeId)
    requires HealthOf(mem, s) == Healthy && Record(db, s) == (0, false)
    requires forall e :: e in events ==> Counts(e, s)
    ensures var (m, d) := Ran(cfg, mem, db, events);
      && Escalates(HealthOf(m, s), Record(d, s))
      && Bounded(HealthOf(m, s), Reported(cfg, mem, db, events), s, Losses(events))
  {
    if events != [] {
      var k := |events| - 1;
      EscalationHolds(cfg, mem, db, events[..k], s);
      var (m, d) := Ran(cfg, mem, db, events[..k]);
      assert events[k] in events;
      HealthStep(cfg, m, d, events[k], s, Reported(cfg, mem, db, events[..k]), Losses(events[..k]));
    }
  }

  /**
   From a scope that is healthy in memory and on record until it is next cleared, any run reports
   at most three divergences of it and gives it up at most once, and that much again for each
   restart that loses the record.
   */
  lemma EscalationIsBounded(cfg: Config, mem: Memory, db: DbState, events: seq<Event>, s: ScopeId)
    requires HealthOf(mem, s) == Healthy && Record(db, s) == (0, false)
    requires forall e :: e in events ==> Counts(e, s)
    ensures Divergences(Reported(cfg, mem, db, events), s) <= MAX_HEAL_ATTEMPTS * (1 + Losses(events))
    ensures Surrenders(Reported(cfg, mem, db, events), s) <= 1 + Losses(events)
  {
    EscalationHolds(cfg, mem, db, events, s);
  }

  /** Given up in memory once the first i calls are made. */
  predicate GivenUpAfter(cfg: Config, mem: Memory, db: DbState, events: seq<Event>, s: ScopeId, i: nat) {
    i <= |events| && HealthOf(Ran(cfg, mem, db, events[..i]).0, s).Unhealable?
  }

  lemma GivenUpNext(cfg: Config, mem: Memory, db: DbState, events: seq<Event>, s: ScopeId, i: nat)
    requires HealthOf(mem, s) == Healthy && Record(db, s) == (0, false)
    requires forall e :: e in events ==> Counts(e, s)
    requires i < |events| && GivenUpAfter(cfg, mem, db, events, s, i) && !Loses(events[i])
    ensures GivenUpAfter(cfg, mem, db, events, s, i + 1)
  {
    assert events[..i + 1][..i] == events[..i];
    EscalatesAlong(cfg, mem, db, events[..i], s);
    var (m, d) := Ran(cfg, mem, db, events[..i]);
    EscalatesStep(cfg, m, d, events[i], s);
  }

  /** Once given up, a scope stays given up for as long as no restart loses the record. */
  lemma {:induction false} GivenUpStays(cfg: Config, mem: Memory, db: DbState, events: seq<Event>, s: ScopeId, i: nat,
                                        j: nat)
    requires HealthOf(mem, s) == Healthy && Record(db, s) == (0, false)
    requires forall e :: e in events ==> Counts(e, s)
    requires i <= j <= |events| && GivenUpAfter(cfg, mem, db, events, s, i)
    requires forall k :: i <= k < j ==> !Loses(events[k])
    ensures GivenUpAfter(cfg, mem, db, events, s, j)
    decreases j - i
  {
    if i < j {
      GivenUpNext(cfg, mem, db, events, s, i);
      GivenUpStays(cfg, mem, db, events, s, i + 1, j);
    }
  }

  // ----- the bound is reached -----

  /** The last page of a bootstrap that brought nothing, with a digest no device can have. */
  function Mismatch(s: ScopeId): Event {
    ApplyBatch(Batch(s, [], 0, false, "", "no digest"), true, Commit)
  }

  /** How often a run from a new device reports the scope diverged. */
  function DivergencesIn(cfg: Config, events: seq<Event>, s: ScopeId): nat {
    Divergences(Reported(cfg, FRESH_MEMORY, EMPTY_DB, events), s)
  }

  function Attempted(n: nat): ScopeHealth {
    if n == 0 then Healthy else if n < MAX_HEAL_ATTEMPTS then Tainted(n) else Unhealable(n)
  }

  /** A new device after a counted run: attempts in memory, divergences reported and records lost so far. */
  ghost predicate Stage(cfg: Config, s: ScopeId, events: seq<Event>, attempts: nat, reported: nat, lost: nat) {
    var m := Ran(cfg, FRESH_MEMORY, EMPTY_DB, events).0;
    && s !in m.suspect && HealthOf(m, s) == Attempted(attempts) && DivergencesIn(cfg, events, s) == reported
    && Losses(events) == lost && forall e :: e in events ==> Counts(e, s)
  }

  lemma OneMoreEvent(cfg: Config, events: seq<Event>, e: Event, s: ScopeId)
    ensures var (m, d) := Ran(cfg, FRESH_MEMORY, EMPTY_DB, events);
      && Ran(cfg, FRESH_MEMORY, EMPTY_DB, events + [e]) == Stepped(cfg, m, d, e)
      && DivergencesIn(cfg, events + [e], s) == DivergencesIn(cfg, events, s) + Divergences(Emitted(cfg, m, d, e), s)
  {
    assert (events + [e])[..|events|] == events;
    var (m, d) := Ran(cfg, FRESH_MEMORY, EMPTY_DB, events);
    CountsAdd(Reported(cfg, FRESH_MEMORY, EMPTY_DB, events), Emitted(cfg, m, d, e), s);
  }

  lemma OneMismatch(cfg: Config, mem: Memory, db: DbState, s: ScopeId, n: nat)
    requires s !in mem.suspect && n < MAX_HEAL_ATTEMPTS && HealthOf(mem, s) == Attempted(n)
    ensures var m := Stepped(cfg, mem, db, Mismatch(s)).0;
      && s !in m.suspect && HealthOf(m, s) == Attempted(n + 1)
      && Divergences(Emitted(cfg, mem, db, Mismatch(s)), s) == 1
  {
    var batch := Mismatch(s).batch;
    var sg := StartStaging(db, StateOf(mem, s).digest);
    var j := Judged(Attempted(n), Digest.ToHex(sg.digest), batch.digest, true, true);
    MismatchCounts(n, sg.digest);
    ReportsOf(mem, sg, batch, Attempted(n), j, s);
    CommittedHealth(mem, sg, batch, Attempted(n), j, s);
    MismatchCommits(cfg, mem, db, s);
  }

  lemma MismatchCounts(n: nat, digest: Digest.U128)
    requires n < MAX_HEAL_ATTEMPTS
    ensures var j := Judged(Attempted(n), Digest.ToHex(digest), "no digest", true, true);
      j.counts && Moved(Attempted(n), j) == Attempted(n + 1)
  {
  }

  lemma MismatchCommits(cfg: Config, mem: Memory, db: DbState, s: ScopeId)
    requires s !in mem.suspect
    ensures var batch, sg, h := Mismatch(s).batch, StartStaging(db, StateOf(mem, s).digest), HealthOf(mem, s);
      Stepped(cfg, mem, db, Mismatch(s)).0
      == CommittedMemory(mem, sg, batch, h, Judged(h, Digest.ToHex(sg.digest), batch.digest, true, true))
  {
    assert BatchFault(Mismatch(s).batch, StateOf(mem, s).cursor).None?;
  }

  lemma OneMoreLoss(events: seq<Event>, e: Event)
    ensures Losses(events + [e]) == Losses(events) + if Loses(e) then 1 else 0
  {
    assert (events + [e])[..|events|] == events;
  }

  lemma MismatchNext(cfg: Config, s: ScopeId, events: seq<Event>, n: nat, reported: nat, lost: nat)
    requires Stage(cfg, s, events, n, reported, lost) && n < MAX_HEAL_ATTEMPTS
    ensures Stage(cfg, s, events + [Mismatch(s)], n + 1, reported + 1, lost)
  {
    var (m, d) := Ran(cfg, FRESH_MEMORY, EMPTY_DB, events);
    OneMoreEvent(cfg, events, Mismatch(s), s);
    OneMoreLoss(events, Mismatch(s));
    OneMismatch(cfg, m, d, s, n);
  }

  lemma RestartForgets(cfg: Config, mem: Memory, db: DbState, s: ScopeId)
    ensures var m := Stepped(cfg, mem, db, Restart(false)).0;
      s !in m.suspect && HealthOf(m, s) == Attempted(0) && Emitted(cfg, mem, db, Restart(false)) == []
  {
    RestartRestores(db, false, s);
  }

  lemma LossNext(cfg: Config, s: ScopeId, events: seq<Event>, n: nat, reported: nat, lost: nat)
    requires Stage(cfg, s, events, n, reported, lost)
    ensures Stage(cfg, s, events + [Restart(false)], 0, reported, lost + 1)
  {
    var (m, d) := Ran(cfg, FRESH_MEMORY, EMPTY_DB, events);
    OneMoreEvent(cfg, events, Restart(false), s);
    OneMoreLoss(events, Restart(false));
    RestartForgets(cfg, m, d, s);
  }

  /** Three mismatches, and three again after each loss, reach three times as many reports. */
  lemma {:induction false} Relapsing(stage: (seq<Event>, nat, nat, nat) -> bool, mismatch: Event, loss: Event, n: nat)
    returns (events: seq<Event>)
    requires stage([], 0, 0, 0)
    requires forall es, k: nat, c: nat, l: nat :: stage(es, k, c, l) && k < 3 ==>
      stage(es + [mismatch], k + 1, c + 1, l)
    requires forall es, k: nat, c: nat, l: nat :: stage(es, k, c, l) ==> stage(es + [loss], 0, c, l + 1)
    ensures stage(events, 3, 3 * (1 + n), n)
  {
    events := [];
    if n > 0 {
      events := Relapsing(stage, mismatch, loss, n - 1);
      events := events + [loss];
    }
    assert stage(events, 0, 3 * n, n);
    assert stage(events + [mismatch], 1, 3 * n + 1, n);
    assert stage(events + [mismatch] + [mismatch], 2, 3 * n + 2, n);
    events := events + [mismatch] + [mismatch] + [mismatch];
  }

  /** So the bound cannot be lowered: for every number of lost records some run reports exactly that much. */
  lemma BoundIsReached(cfg: Config, s: ScopeId, n: nat)
    ensures exists events ::
      Losses(events) == n && (forall e :: e in events ==> Counts(e, s))
      && DivergencesIn(cfg, events, s) == MAX_HEAL_ATTEMPTS * (1 + n)
  {
    var stage := (es: seq<Event>, k: nat, c: nat, l: nat) => Stage(cfg, s, es, k, c, l);
    forall es, k: nat, c: nat, l: nat | stage(es, k, c, l)
      ensures k < 3 ==> stage(es + [Mismatch(s)], k + 1, c + 1, l)
      ensures stage(es + [Restart(false)], 0, c, l + 1)
    {
      if k < 3 {
        MismatchNext(cfg, s, es, k, c, l);
      }
      LossNext(cfg, s, es, k, c, l);
    }
    var events := Relapsing(stage, Mismatch(s), Restart(false), n);
    assert Stage(cfg, s, events, 3, 3 * (1 + n), n);
  }

  // ----- the record -----

  /** Memory has what the record restores to, or has nothing. */
  predicate RestoresOrHealthy(mem: Memory, db: DbState, s: ScopeId) {
    Restores(mem, db, s) || HealthOf(mem, s) == Healthy
  }

  lemma RestoreStep(cfg: Config, mem: Memory, db: DbState, e: Event, s: ScopeId)
    requires Escalates(HealthOf(mem, s), Record(db, s)) && RestoresOrHealthy(mem, db, s) && !Lies(e)
    ensures var (m, d) := Stepped(cfg, mem, db, e);
      && Escalates(HealthOf(m, s), Record(d, s)) && RestoresOrHealthy(m, d, s)
      && (Restores(mem, db, s) && !Loses(e) ==> Restores(m, d, s))
  {
    if e.ApplyBatch? {
      ApplyHealth(cfg, mem, db, e.batch, e.rebuilding, e.verdict, s);
    } else if e.ClearScopeHealth? {
      ClearHealth(mem, db, e.scope, e.verdict, s);
    } else if e.Restart? {
      RestartRestores(db, e.restoreHealth, s);
    } else {
      OtherHealth(cfg, mem, db, e);
    }
  }

  lemma {:induction false} RestoresAlong(cfg: Config, events: seq<Event>, s: ScopeId)
    requires forall e :: e in events ==> !Lies(e)
    ensures var (mem, db) := Ran(cfg, FRESH_MEMORY, EMPTY_DB, events);
      && Escalates(HealthOf(mem, s), Record(db, s)) && RestoresOrHealthy(mem, db, s)
      && ((forall e :: e in events ==> !Loses(e)) ==> Restores(mem, db, s))
  {
    if events != [] {
      var k := |events| - 1;
      RestoresAlong(cfg, events[..k], s);
      var (m, d) := Ran(cfg, FRESH_MEMORY, EMPTY_DB, events[..k]);
      assert events[k] in events && forall e :: e in events[..k] ==> e in events;
      RestoreStep(cfg, m, d, events[k], s);
    }
  }

  /**
   Over any run in which storage never lies about a commit, reading the record back gives the health
   memory holds, except exactly when memory holds the scope healthy and the record does not; that
   takes a restart that lost the record.
   */
  lemma RecordRestoresMemory(cfg: Config, events: seq<Event>, s: ScopeId)
    requires forall e :: e in events ==> !Lies(e)
    ensures var (mem, db) := Ran(cfg, FRESH_MEMORY, EMPTY_DB, events);
      && (Restores(mem, db, s) <==> (HealthOf(mem, s) == Healthy ==> Record(db, s).0 == 0))
      && ((forall e :: e in events ==> !Loses(e)) ==> Restores(mem, db, s))
  {
    RestoresAlong(cfg, events, s);
  }

  /**
   So a restart then gives a scope the health it had, exactly: with the record handed back, unless that is so;
   without, if it was healthy.
   */
  lemma RestartGivesBack(cfg: Config, events: seq<Event>, s: ScopeId, restoreHealth: bool)
    requires forall e :: e in events ==> !Lies(e)
    ensures var (mem, db) := Ran(cfg, FRESH_MEMORY, EMPTY_DB, events);
      HealthOf(Restarted(db, restoreHealth), s) == HealthOf(mem, s) <==>
        if restoreHealth then (HealthOf(mem, s) == Healthy ==> Record(db, s).0 == 0) else HealthOf(mem, s) == Healthy
  {
    RecordRestoresMemory(cfg, events, s);
    var (mem, db) := Ran(cfg, FRESH_MEMORY, EMPTY_DB, events);
    RestartRestores(db, restoreHealth, s);
  }
}
