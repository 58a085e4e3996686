/**
 Whole runs of one device: any calls, any storage behaviour. What is stored refines a reference
 machine that holds rows and cursors only and knows nothing of staging, overlays, incremental
 digests, memory or suspicion.
 */
module EngineRuns {
  import opened Prelude
  import opened Wire
  import opened Replay
  import opened Storage
  import opened EngineSpec
  import opened EngineDigest
  import Digest

  // ----- the reference machine -----

  datatype Reference = Reference(rows: Rows, cursors: map<ScopeId, nat>)

  function ReferenceCursor(a: Reference, scope: ScopeId): nat {
    if scope in a.cursors then a.cursors[scope] else 0
  }

  /** An append-only row given another version than the one it has. */
  predicate Overwrites(cfg: Config, versions: map<RowKey, nat>, c: Change) {
    && Reachable(cfg, c) && c.snapshot.Some? && ClassOf(cfg.registry, c.key.entity) == Some(AppendOnly)
    && c.key in versions && versions[c.key] != c.version
  }

  /** No change of a batch overwrites what the rows and the batch's earlier changes have made of its row. */
  predicate NoOverwrite(cfg: Config, versions: map<RowKey, nat>, cs: seq<Change>) {
    cs == [] ||
    (var init := cs[..|cs| - 1];
     NoOverwrite(cfg, versions, init) && !Overwrites(cfg, VersionsAfter(versions, init), cs[|cs| - 1]))
  }

  predicate Accepts(cfg: Config, a: Reference, batch: Batch) {
    && BatchFault(batch, ReferenceCursor(a, batch.scope)).None?
    && NoOverwrite(cfg, Versions(a.rows), batch.changes)
  }

  function RefStep(cfg: Config, a: Reference, e: Event): Reference {
    match e
    case ApplyBatch(batch, _, verdict) =>
      if verdict.FailBeforeCommit? || !Accepts(cfg, a, batch) then a
      else Reference(ReplayOnto(a.rows, Storable(cfg, batch.changes)), a.cursors[batch.scope := batch.nextCursor])
    case BeginRebootstrap(scope, verdict) =>
      if verdict.FailBeforeCommit? then a
      else Reference(Unregistered(cfg, a.rows, scope), a.cursors[scope := 0])
    case _ => a
  }

  predicate RegisteredUnder(cfg: Config, entity: EntityName, scope: ScopeId) {
    entity in cfg.registry.entities && cfg.registry.entities[entity].scope == scope
  }

  /** What a rebuild's clear leaves: the rows whose entity is not registered under the scope. */
  function Unregistered(cfg: Config, rows: Rows, scope: ScopeId): Rows {
    map k | k in rows && !RegisteredUnder(cfg, k.entity, scope) :: rows[k]
  }

  function RefRan(cfg: Config, a: Reference, events: seq<Event>): Reference {
    if events == [] then a else RefStep(cfg, RefRan(cfg, a, events[..|events| - 1]), events[|events| - 1])
  }

  // ----- when staging accepts -----

  lemma StagedChangeAccepts(cfg: Config, s: Staging, c: Change)
    requires c.Consistent()
    ensures StagedChange(cfg, s, c).Ok? <==> !Overwrites(cfg, s.versions, c)
  {
    LocalKeeps(cfg, c);
  }

  /** Staging refuses a batch exactly when it would overwrite an append-only row. */
  lemma {:induction false} StagedAllAccepts(cfg: Config, db: DbState, digest: Digest.U128, cs: seq<Change>)
    requires forall c :: c in cs ==> c.Consistent()
    ensures StagedAll(cfg, StartStaging(db, digest), cs).Ok? <==> NoOverwrite(cfg, Versions(db.rows), cs)
  {
    if cs != [] {
      var n := |cs| - 1;
      StagedAllAccepts(cfg, db, digest, cs[..n]);
      var before := StagedAll(cfg, StartStaging(db, digest), cs[..n]);
      if before.Ok? {
        StagedOpsReplay(cfg, db, digest, cs[..n]);
        assert cs[n] in cs;
        StagedChangeAccepts(cfg, before.value, cs[n]);
      }
    }
  }

  /** The first change that overwrites an append-only row, and the versions that clash, stored and brought. */
  ghost predicate RefusedAt(cfg: Config, versions: map<RowKey, nat>, cs: seq<Change>, i: nat, e: ApplyError)
    requires i < |cs|
  {
    var before := VersionsAfter(versions, cs[..i]);
    && NoOverwrite(cfg, versions, cs[..i]) && Overwrites(cfg, before, cs[i])
    && e == AppendOnlyOverwrite(cs[i].key, before[cs[i].key], cs[i].version)
  }

  /** What staging refuses a consistent batch for. */
  lemma {:induction false} StagedAllRefuses(cfg: Config, db: DbState, digest: Digest.U128, cs: seq<Change>)
    requires forall c :: c in cs ==> c.Consistent()
    requires StagedAll(cfg, StartStaging(db, digest), cs).Err?
    ensures var e := StagedAll(cfg, StartStaging(db, digest), cs).error;
      exists i :: 0 <= i < |cs| && RefusedAt(cfg, Versions(db.rows), cs, i, e)
  {
    var n := |cs| - 1;
    var before := StagedAll(cfg, StartStaging(db, digest), cs[..n]);
    if before.Err? {
      StagedAllRefuses(cfg, db, digest, cs[..n]);
      var i :| 0 <= i < n && RefusedAt(cfg, Versions(db.rows), cs[..n], i, before.error);
      assert cs[..n][..i] == cs[..i];
      assert RefusedAt(cfg, Versions(db.rows), cs, i, before.error);
    } else {
      StagedOpsReplay(cfg, db, digest, cs[..n]);
      StagedAllAccepts(cfg, db, digest, cs[..n]);
      assert cs[n] in cs;
      RefusedChange(cfg, before.value, cs[n]);
      assert RefusedAt(cfg, Versions(db.rows), cs, n, StagedAll(cfg, StartStaging(db, digest), cs).error);
    }
  }

  lemma RefusedChange(cfg: Config, s: Staging, c: Change)
    requires c.Consistent() && StagedChange(cfg, s, c).Err?
    ensures Overwrites(cfg, s.versions, c)
    ensures StagedChange(cfg, s, c).error == AppendOnlyOverwrite(c.key, s.versions[c.key], c.version)
  {
    StagedChangeAccepts(cfg, s, c);
    LocalKeeps(cfg, c);
  }

  /** A batch lands if and only if the reference accepts it and the transaction does not fail outright. */
  lemma LandedMeansAccepted(cfg: Config, db: DbState, batch: Batch, verdict: Verdict)
    ensures Landed(cfg, db, verdict, batch) <==>
      Accepts(cfg, Reference(db.rows, db.cursors), batch) && !verdict.FailBeforeCommit?
  {
    var state := StoredState(db, batch.scope);
    BatchFaultMeaning(batch, state.cursor);
    if BatchFault(batch, state.cursor).None? {
      StagedAllAccepts(cfg, db, state.digest, batch.changes);
    }
  }

  // ----- rows, cursors and memory over runs -----

  ghost predicate Refines(mem: Memory, db: DbState, a: Reference) {
    db.rows == a.rows && db.cursors == a.cursors && forall t :: MemoryAgrees(mem, db, t)
  }

  /** A landed write touches one scope's cursor and digest and no other's. */
  lemma WroteKeepsOthers(cfg: Config, db: DbState, db': DbState, batch: Batch, t: ScopeId)
    requires Wrote(cfg, db, db', batch) && t != batch.scope
    ensures StoredState(db', t) == StoredState(db, t)
  {
  }

  lemma CommittedKeepsMemory(m: Memory, sg: Staging, batch: Batch, h: ScopeHealth, j: Judgement, t: ScopeId)
    requires t != batch.scope
    ensures var m' := CommittedMemory(m, sg, batch, h, j);
      StateOf(m', t) == StateOf(m, t) && m'.suspect == m.suspect
  {
  }

  lemma CommitKeepsMemory(m: Memory, db: DbState, verdict: Verdict, sg: Staging, batch: Batch, compare: bool,
                          rebuilding: bool, t: ScopeId)
    requires t != batch.scope
    ensures var o := CommittedBatch(m, db, verdict, sg, batch, compare, rebuilding);
      StateOf(o.mem, t) == StateOf(m, t) && (t in o.mem.suspect <==> t in m.suspect)
  {
    var h := HealthOf(m, batch.scope);
    CommittedKeepsMemory(m, sg, batch, h, Judged(h, Digest.ToHex(sg.digest), batch.digest, compare, rebuilding), t);
  }

  /** What an apply remembers of the other scopes is what was remembered before. */
  lemma ApplyKeepsMemory(cfg: Config, mem: Memory, db: DbState, verdict: Verdict, batch: Batch, compare: bool,
                         rebuilding: bool, t: ScopeId)
    requires t != batch.scope
    ensures var o := AppliedBatch(cfg, mem, db, verdict, batch, compare, rebuilding);
      StateOf(o.mem, t) == StateOf(mem, t) && (t in o.mem.suspect <==> t in mem.suspect)
  {
    var m := Refreshed(mem, db, batch.scope);
    RefreshKeepsOthers(mem, db, batch.scope, t);
    var state := StateOf(m, batch.scope);
    if BatchFault(batch, state.cursor).None? {
      var staged := StagedAll(cfg, StartStaging(db, state.digest), batch.changes);
      if staged.Ok? {
        CommitKeepsMemory(m, db, verdict, staged.value, batch, compare, rebuilding, t);
      }
    }
  }

  lemma RefreshKeepsOthers(mem: Memory, db: DbState, scope: ScopeId, t: ScopeId)
    requires t != scope
    ensures var m := Refreshed(mem, db, scope);
      StateOf(m, t) == StateOf(mem, t) && (t in m.suspect <==> t in mem.suspect)
  {
  }

  lemma ApplyStep(cfg: Config, mem: Memory, db: DbState, a: Reference, batch: Batch, rebuilding: bool, verdict: Verdict)
    requires Refines(mem, db, a)
    ensures var o := AppliedBatch(cfg, mem, db, verdict, batch, !batch.hasMore, rebuilding);
      Refines(o.mem, o.db, RefStep(cfg, a, ApplyBatch(batch, rebuilding, verdict)))
  {
    LandedMeansAccepted(cfg, db, batch, verdict);
    ApplyRefines(cfg, mem, db, verdict, batch, !batch.hasMore, rebuilding);
    var o := AppliedBatch(cfg, mem, db, verdict, batch, !batch.hasMore, rebuilding);
    forall t ensures MemoryAgrees(o.mem, o.db, t) {
      assert MemoryAgrees(mem, db, t);
      if t != batch.scope {
        ApplyKeepsMemory(cfg, mem, db, verdict, batch, !batch.hasMore, rebuilding, t);
        if Landed(cfg, db, verdict, batch) {
          WroteKeepsOthers(cfg, db, o.db, batch, t);
        }
      }
    }
  }

  /** Operations on the outbox touch nothing a scope's state is made of. */
  predicate OutboxOp(op: StorageOp) {
    op.EnqueueCommand? || op.ResolveCommand? || op.SaveRecoveredDraft?
  }

  lemma {:induction false} OutboxOpsKeepScopes(db: DbState, ops: seq<StorageOp>)
    requires forall op :: op in ops ==> OutboxOp(op)
    ensures var d := ApplyOps(db, ops);
      d.rows == db.rows && d.cursors == db.cursors && d.digests == db.digests && d.divergences == db.divergences
      && d.quarantine == db.quarantine
  {
    if ops != [] {
      OutboxOpsKeepScopes(db, ops[..|ops| - 1]);
      assert ops[|ops| - 1] in ops;
    }
  }

  lemma {:induction false} AnswerOpsAreOutboxOps(cfg: Config, outbox: seq<OutboxEntry>, rs: seq<CommandResult>)
    ensures forall op :: op in AnswerAll(cfg, outbox, rs).ops ==> OutboxOp(op)
  {
    if rs != [] {
      AnswerOpsAreOutboxOps(cfg, outbox, rs[..|rs| - 1]);
    }
  }

  lemma UnrollThree(db: DbState, a: StorageOp, b: StorageOp, c: StorageOp)
    ensures ApplyOps(db, [a, b, c]) == ApplyOp(ApplyOp(ApplyOp(db, a), b), c)
  {
    var ab, abc := [a, b], [a, b, c];
    assert abc[..2] == ab && ab[..1] == [a];
    assert ApplyOps(db, abc) == ApplyOp(ApplyOps(db, ab), c);
    assert ApplyOps(db, ab) == ApplyOp(ApplyOps(db, [a]), b);
    One(db, [a]);
  }

  lemma ClearThenSet(db: DbState, scope: ScopeId, entities: set<EntityName>, digest: string)
    ensures ApplyOp(ApplyOp(ApplyOp(db, ClearScope(scope, entities)), SetCursor(scope, 0)),
                    SetScopeDigest(scope, digest)) == db.(
      rows := map k | k in db.rows && k.entity !in entities :: db.rows[k],
      cursors := db.cursors[scope := 0], digests := db.digests[scope := digest])
  {
    assert (db.cursors - {scope})[scope := 0] == db.cursors[scope := 0];
    assert (db.digests - {scope})[scope := digest] == db.digests[scope := digest];
  }

  /** What a landed rebuild writes. */
  lemma RebuildWrites(cfg: Config, db: DbState, scope: ScopeId)
    ensures ApplyOps(db, RebootstrapOps(cfg.registry, scope)) == db.(
      rows := Unregistered(cfg, db.rows, scope),
      cursors := db.cursors[scope := 0], digests := db.digests[scope := Digest.ToHex(Digest.EMPTY)])
  {
    var entities := ScopeEntities(cfg.registry, scope);
    var digest := Digest.ToHex(Digest.EMPTY);
    UnrollThree(db, ClearScope(scope, entities), SetCursor(scope, 0), SetScopeDigest(scope, digest));
    ClearThenSet(db, scope, entities, digest);
  }

  lemma RebuildStep(cfg: Config, mem: Memory, db: DbState, a: Reference, scope: ScopeId, verdict: Verdict)
    requires Refines(mem, db, a)
    ensures var o := Rebootstrapped(cfg, mem, db, verdict, scope);
      Refines(o.mem, o.db, RefStep(cfg, a, BeginRebootstrap(scope, verdict)))
  {
    RebuildWrites(cfg, db, scope);
    Digest.EmptyDigest();
    var o := Rebootstrapped(cfg, mem, db, verdict, scope);
    forall t ensures MemoryAgrees(o.mem, o.db, t) {
      assert MemoryAgrees(mem, db, t);
    }
  }

  // ----- what a reported failure leaves -----

  /** Memory may no longer be what storage holds, and says so. */
  predicate Doubts(mem: Memory, scope: ScopeId) {
    scope in mem.suspect && mem.outboxSuspect
  }

  /** A batch that is refused is not refused for storage's sake. */
  lemma RefusedForItself(cfg: Config, db: DbState, state: ScopeState, batch: Batch)
    ensures BatchFault(batch, state.cursor) != Some(StorageFailed)
    ensures BatchFault(batch, state.cursor).None? ==>
      StagedAll(cfg, StartStaging(db, state.digest), batch.changes) != Err(StorageFailed)
  {
    BatchFaultMeaning(batch, state.cursor);
    if BatchFault(batch, state.cursor).Some? {
      BatchFaultNames(batch, state.cursor);
    } else if StagedAll(cfg, StartStaging(db, state.digest), batch.changes).Err? {
      StagedAllRefuses(cfg, db, state.digest, batch.changes);
    }
  }

  /**
   Whatever its transaction really did, an apply that was told it failed trusts neither the scope
   nor the queue any more, and one that was told it landed trusts the scope it wrote.
   */
  lemma FailuresAreDoubted(cfg: Config, mem: Memory, db: DbState, verdict: Verdict, batch: Batch, compare: bool,
                           rebuilding: bool)
    ensures var o := AppliedBatch(cfg, mem, db, verdict, batch, compare, rebuilding);
      && (o.result == Err(StorageFailed) ==> verdict != Commit && Doubts(o.mem, batch.scope))
      && (o.result.Ok? ==>
           verdict == Commit && batch.scope !in o.mem.suspect && o.result.value.changes == |batch.changes|)
  {
    RefusedForItself(cfg, db, StateOf(Refreshed(mem, db, batch.scope), batch.scope), batch);
  }

  /** The same of a rebuild, which starts the scope over, and of clearing a scope's health. */
  lemma RebuildFailuresAreDoubted(cfg: Config, mem: Memory, db: DbState, verdict: Verdict, scope: ScopeId)
    ensures var o := Rebootstrapped(cfg, mem, db, verdict, scope);
      && (o.result <==> verdict == Commit) && (!o.result ==> Doubts(o.mem, scope))
      && (o.result ==> StateOf(o.mem, scope) == ScopeState(0, 0) && o.mem.suspect == mem.suspect)
    ensures ClearedHealth(mem, db, verdict, scope).result <==> verdict == Commit
  {
  }

  /** Two states that differ in nothing but the queue of commands. */
  predicate OnlyOutbox(mem: Memory, mem': Memory, db: DbState, db': DbState) {
    && mem' == mem.(outbox := mem'.outbox, outboxSuspect := mem'.outboxSuspect)
    && db' == db.(outbox := db'.outbox, resolved := db'.resolved, recovered := db'.recovered, commits := db'.commits,
                  enqueued := db'.enqueued)
  }

  lemma ResultsKeep(cfg: Config, mem: Memory, db: DbState, verdict: Verdict, results: seq<CommandResult>)
    ensures var o := ResultsApplied(cfg, mem, db, verdict, results); OnlyOutbox(mem, o.mem, db, o.db)
  {
    var outbox := RefreshedOutbox(mem, db).outbox;
    AnswerOpsAreOutboxOps(cfg, outbox, results);
    OutboxOpsKeepScopes(db, AnswerAll(cfg, outbox, results).ops);
  }

  lemma EnqueueKeeps(cfg: Config, mem: Memory, db: DbState, verdict: Verdict, entry: OutboxEntry)
    ensures var o := Enqueued(cfg, mem, db, verdict, entry); OnlyOutbox(mem, o.mem, db, o.db)
  {
    One(db, [EnqueueCommand(entry)]);
  }

  lemma ClearKeeps(mem: Memory, db: DbState, verdict: Verdict, scope: ScopeId)
    ensures var o := ClearedHealth(mem, db, verdict, scope);
      && o.db.rows == db.rows && o.db.cursors == db.cursors && o.db.digests == db.digests
      && o.mem.scopes == mem.scopes && o.mem.suspect == mem.suspect
  {
    One(db, [RecordDivergence(scope, 0, false)]);
  }

  /** Calls that are about the outbox, health or telemetry leave every scope's state alone. */
  lemma OtherKeeps(cfg: Config, mem: Memory, db: DbState, e: Event)
    requires !e.ApplyBatch? && !e.BeginRebootstrap?
    ensures var (m, d) := Stepped(cfg, mem, db, e);
      && d.rows == db.rows && d.cursors == db.cursors && d.digests == db.digests
      && (!e.Restart? && !e.ReloadScope? ==> m.scopes == mem.scopes && m.suspect == mem.suspect)
  {
    match e {
      case ApplyResults(results, verdict) => ResultsKeep(cfg, mem, db, verdict, results);
      case Enqueue(entry, verdict) => EnqueueKeeps(cfg, mem, db, verdict, entry);
      case ClearScopeHealth(scope, verdict) => ClearKeeps(mem, db, verdict, scope);
      case _ =>
    }
  }

  lemma OtherStep(cfg: Config, mem: Memory, db: DbState, a: Reference, e: Event)
    requires Refines(mem, db, a) && !e.ApplyBatch? && !e.BeginRebootstrap?
    ensures var (m, d) := Stepped(cfg, mem, db, e); Refines(m, d, a)
  {
    OtherKeeps(cfg, mem, db, e);
    var (m, d) := Stepped(cfg, mem, db, e);
    forall t ensures MemoryAgrees(m, d, t) {
      assert MemoryAgrees(mem, db, t);
      if e.ReloadScope? {
        assert MemoryAgrees(mem, db, e.scope);
        RefreshedAgrees(mem, db, e.scope);
      }
    }
  }

  /**
   Over any run from an empty device — any batches in any order, quarantined changes included,
   rebuilds, restarts, queued commands and answers, under any mix of clean commits, failures and
   lying commits — the stored rows and cursors are the reference machine's, and memory describes
   storage for every scope not marked suspect.
   */
  lemma {:induction false} RunRefinesReference(cfg: Config, events: seq<Event>)
    ensures var (mem, db) := Ran(cfg, FRESH_MEMORY, EMPTY_DB, events);
      Refines(mem, db, RefRan(cfg, Reference(map[], map[]), events))
  {
    if events != [] {
      var n := |events| - 1;
      RunRefinesReference(cfg, events[..n]);
      var (mem, db) := Ran(cfg, FRESH_MEMORY, EMPTY_DB, events[..n]);
      var a := RefRan(cfg, Reference(map[], map[]), events[..n]);
      match events[n] {
        case ApplyBatch(batch, rebuilding, verdict) => ApplyStep(cfg, mem, db, a, batch, rebuilding, verdict);
        case BeginRebootstrap(scope, verdict) => RebuildStep(cfg, mem, db, a, scope, verdict);
        case _ => OtherStep(cfg, mem, db, a, events[n]);
      }
    }
  }

  // ----- digests over runs -----

  /** The rows one scope's digest covers, given which scope owns each row. */
  function Mine(owner: RowKey -> ScopeId, scope: ScopeId): RowKey -> bool {
    k => owner(k) == scope
  }

  /** What a conforming server and host give the engine: rows of the batch's scope, none needing quarantine. */
  ghost predicate Licensed(cfg: Config, owner: RowKey -> ScopeId, e: Event) {
    match e
    case ApplyBatch(batch, _, _) => forall c :: c in batch.changes ==> Reachable(cfg, c) && owner(c.key) == batch.scope
    case BeginRebootstrap(scope, _) =>
      forall k: RowKey :: owner(k) == scope <==> RegisteredUnder(cfg, k.entity, scope)
    case _ => true
  }

  ghost predicate DigestsExact(db: DbState, owner: RowKey -> ScopeId) {
    forall t :: DigestExact(db, t, Mine(owner, t))
  }

  lemma {:induction false} ReplayKeepsOthers(rows: Rows, cs: seq<Change>, mine: RowKey -> bool)
    requires forall c :: c in cs ==> !mine(c.key)
    ensures Kept(Versions(ReplayOnto(rows, cs)), mine) == Kept(Versions(rows), mine)
  {
    if cs != [] {
      ReplayKeepsOthers(rows, cs[..|cs| - 1], mine);
      var c := cs[|cs| - 1];
      VersionsStep(ReplayOnto(rows, cs[..|cs| - 1]), c);
      KeptStep(Versions(ReplayOnto(rows, cs[..|cs| - 1])), mine, c.key, c.version);
    }
  }

  /** Applying one scope's batch, quarantine included, leaves every other scope's digest exact. */
  lemma ApplyKeepsOthers(cfg: Config, mem: Memory, db: DbState, batch: Batch, rebuilding: bool, verdict: Verdict,
                         owner: RowKey -> ScopeId, t: ScopeId)
    requires MemoryAgrees(mem, db, batch.scope) && DigestExact(db, t, Mine(owner, t)) && t != batch.scope
    requires forall c :: c in batch.changes ==> owner(c.key) == batch.scope
    ensures DigestExact(AppliedBatch(cfg, mem, db, verdict, batch, !batch.hasMore, rebuilding).db, t, Mine(owner, t))
  {
    ApplyRefines(cfg, mem, db, verdict, batch, !batch.hasMore, rebuilding);
    if Landed(cfg, db, verdict, batch) {
      StorableKeys(cfg, batch.changes);
      ReplayKeepsOthers(db.rows, Storable(cfg, batch.changes), Mine(owner, t));
      WroteKeepsOthers(cfg, db, AppliedBatch(cfg, mem, db, verdict, batch, !batch.hasMore, rebuilding).db, batch, t);
    }
  }

  lemma {:induction false} StorableKeys(cfg: Config, cs: seq<Change>)
    ensures forall m :: m in Storable(cfg, cs) ==> exists c :: c in cs && c.key == m.key
  {
    if cs != [] {
      var n := |cs| - 1;
      StorableKeys(cfg, cs[..n]);
      LocalKeeps(cfg, cs[n]);
      assert cs == cs[..n] + [cs[n]];
    }
  }

  lemma ApplyDigests(cfg: Config, mem: Memory, db: DbState, owner: RowKey -> ScopeId, batch: Batch, rebuilding: bool,
                     verdict: Verdict)
    requires MemoryAgrees(mem, db, batch.scope) && DigestsExact(db, owner)
    requires Licensed(cfg, owner, ApplyBatch(batch, rebuilding, verdict))
    ensures DigestsExact(AppliedBatch(cfg, mem, db, verdict, batch, !batch.hasMore, rebuilding).db, owner)
  {
    var o := AppliedBatch(cfg, mem, db, verdict, batch, !batch.hasMore, rebuilding);
    forall t ensures DigestExact(o.db, t, Mine(owner, t)) {
      if t == batch.scope {
        CleanApplyRefines(cfg, mem, db, verdict, batch, !batch.hasMore, rebuilding, Mine(owner, t));
      } else {
        ApplyKeepsOthers(cfg, mem, db, batch, rebuilding, verdict, owner, t);
      }
    }
  }

  /** Only rows of registered entities are cleared: nothing of the scope is left exactly when that is all of them. */
  lemma RebuildClears(cfg: Config, db: DbState, scope: ScopeId, mine: RowKey -> bool)
    ensures var d := ApplyOps(db, RebootstrapOps(cfg.registry, scope));
      Kept(Versions(d.rows), mine) == map[] <==>
        forall k :: k in db.rows && mine(k) ==> RegisteredUnder(cfg, k.entity, scope)
  {
    RebuildWrites(cfg, db, scope);
    var d := ApplyOps(db, RebootstrapOps(cfg.registry, scope));
    if k :| k in db.rows && mine(k) && !RegisteredUnder(cfg, k.entity, scope) {
      assert k in Kept(Versions(d.rows), mine);
    } else {
      assert Kept(Versions(d.rows), mine).Keys == {};
    }
  }

  /** The digest restarts at zero, so it is exact if and only if what is left of the scope sums to zero. */
  lemma RebuildDigest(cfg: Config, db: DbState, scope: ScopeId, mine: RowKey -> bool)
    ensures var d := ApplyOps(db, RebootstrapOps(cfg.registry, scope));
      && StoredState(d, scope) == NEW_SCOPE
      && (DigestExact(d, scope, mine) <==>
           Digest.DigestOf(Kept(Versions(Unregistered(cfg, db.rows, scope)), mine)) == Digest.EMPTY)
  {
    RebuildWrites(cfg, db, scope);
    Digest.EmptyDigest();
  }

  /** Where rows are cleared by the scope that owns them, no other scope loses one. */
  lemma RebuildKeepsOthers(cfg: Config, rows: Rows, owner: RowKey -> ScopeId, scope: ScopeId, t: ScopeId)
    requires t != scope
    requires forall k: RowKey :: owner(k) == scope <==> RegisteredUnder(cfg, k.entity, scope)
    ensures Kept(Versions(Unregistered(cfg, rows, scope)), Mine(owner, t)) == Kept(Versions(rows), Mine(owner, t))
  {
  }

  lemma RebuildDigests(cfg: Config, mem: Memory, db: DbState, owner: RowKey -> ScopeId, scope: ScopeId,
                       verdict: Verdict)
    requires DigestsExact(db, owner) && Licensed(cfg, owner, BeginRebootstrap(scope, verdict))
    ensures DigestsExact(Rebootstrapped(cfg, mem, db, verdict, scope).db, owner)
  {
    if !verdict.FailBeforeCommit? {
      LandedRebuildDigests(cfg, db, owner, scope);
      CountedDigests(ApplyOps(db, RebootstrapOps(cfg.registry, scope)), db.commits + 1, owner);
      LandedRebuild(cfg, mem, db, scope, verdict);
    }
  }

  lemma LandedRebuild(cfg: Config, mem: Memory, db: DbState, scope: ScopeId, verdict: Verdict)
    requires !verdict.FailBeforeCommit?
    ensures Rebootstrapped(cfg, mem, db, verdict, scope).db
      == ApplyOps(db, RebootstrapOps(cfg.registry, scope)).(commits := db.commits + 1)
  {
  }

  lemma CountedDigests(db: DbState, commits: nat, owner: RowKey -> ScopeId)
    requires DigestsExact(db, owner)
    ensures DigestsExact(db.(commits := commits), owner)
  {
    forall t ensures DigestExact(db.(commits := commits), t, Mine(owner, t)) {
      assert DigestExact(db, t, Mine(owner, t));
    }
  }

  lemma LandedRebuildDigests(cfg: Config, db: DbState, owner: RowKey -> ScopeId, scope: ScopeId)
    requires DigestsExact(db, owner)
    requires forall k: RowKey :: owner(k) == scope <==> RegisteredUnder(cfg, k.entity, scope)
    ensures DigestsExact(ApplyOps(db, RebootstrapOps(cfg.registry, scope)), owner)
  {
    var d := ApplyOps(db, RebootstrapOps(cfg.registry, scope));
    RebuildWrites(cfg, db, scope);
    RebuildClears(cfg, db, scope, Mine(owner, scope));
    RebuildDigest(cfg, db, scope, Mine(owner, scope));
    Digest.EmptyDigest();
    forall t ensures DigestExact(d, t, Mine(owner, t)) {
      assert DigestExact(db, t, Mine(owner, t));
      if t != scope {
        RebuildKeepsOthers(cfg, db.rows, owner, scope, t);
        assert StoredState(d, t) == StoredState(db, t);
      }
    }
  }

  /**
   And over any such run whose batches keep to their scope and need no quarantine, every stored digest is the
   exact sum.
   */
  lemma {:induction false} RunDigestsExact(cfg: Config, owner: RowKey -> ScopeId, events: seq<Event>)
    requires forall e :: e in events ==> Licensed(cfg, owner, e)
    ensures DigestsExact(Ran(cfg, FRESH_MEMORY, EMPTY_DB, events).1, owner)
  {
    if events == [] {
      Digest.EmptyDigest();
      forall t ensures DigestExact(EMPTY_DB, t, Mine(owner, t)) {
        assert Kept(Versions(map[]), Mine(owner, t)) == map[];
      }
    } else {
      var n := |events| - 1;
      RunDigestsExact(cfg, owner, events[..n]);
      RunRefinesReference(cfg, events[..n]);
      var (mem, db) := Ran(cfg, FRESH_MEMORY, EMPTY_DB, events[..n]);
      assert Licensed(cfg, owner, events[n]);
      match events[n] {
        case ApplyBatch(batch, rebuilding, verdict) => ApplyDigests(cfg, mem, db, owner, batch, rebuilding, verdict);
        case BeginRebootstrap(scope, verdict) => RebuildDigests(cfg, mem, db, owner, scope, verdict);
        case _ => OtherDigests(cfg, mem, db, owner, events[n]);
      }
    }
  }

  lemma OtherDigests(cfg: Config, mem: Memory, db: DbState, owner: RowKey -> ScopeId, e: Event)
    requires DigestsExact(db, owner) && !e.ApplyBatch? && !e.BeginRebootstrap?
    ensures DigestsExact(Stepped(cfg, mem, db, e).1, owner)
  {
    OtherKeeps(cfg, mem, db, e);
    var d := Stepped(cfg, mem, db, e).1;
    forall t ensures DigestExact(d, t, Mine(owner, t)) {
      assert DigestExact(db, t, Mine(owner, t));
    }
  }

  // ----- a row that outlives a rebuild -----

  /** A pull that brings one row of an entity nobody registered, and then a rebuild. */
  function Outliving(scope: ScopeId, c: Change): seq<Event> {
    [ApplyBatch(Batch(scope, [c], c.seqNo, true, "", ""), false, Commit), BeginRebootstrap(scope, Commit)]
  }

  lemma UnrollTwo(cfg: Config, a: Event, b: Event)
    ensures var (m, d) := Stepped(cfg, FRESH_MEMORY, EMPTY_DB, a);
      Ran(cfg, FRESH_MEMORY, EMPTY_DB, [a]) == (m, d)
      && Ran(cfg, FRESH_MEMORY, EMPTY_DB, [a, b]) == Stepped(cfg, m, d, b)
  {
    assert [a][..0] == [] && [a, b][..1] == [a];
  }

  /** What the device holds once the row has come. */
  lemma FirstArrival(cfg: Config, scope: ScopeId, c: Change)
    requires c.seqNo == 1 && c.Consistent() && c.snapshot.Some? && Localized(cfg, c) == Ok(c)
    ensures var e := Outliving(scope, c)[0];
      Stepped(cfg, FRESH_MEMORY, EMPTY_DB, e).1.rows == map[c.key := RowOf(c)]
  {
    var e := Outliving(scope, c)[0];
    OneAccepted(cfg, Reference(map[], map[]), e.batch, c);
    OneReplayed(cfg, c);
    LandedMeansAccepted(cfg, EMPTY_DB, e.batch, Commit);
    ApplyRefines(cfg, FRESH_MEMORY, EMPTY_DB, Commit, e.batch, false, false);
  }

  /** A rebuild over one row of an unregistered entity. */
  lemma LoneRowStays(cfg: Config, mem: Memory, db: DbState, scope: ScopeId, c: Change)
    requires c.key.entity !in cfg.registry.entities && c.snapshot.Some? && db.rows == map[c.key := RowOf(c)]
    ensures var d := Rebootstrapped(cfg, mem, db, Commit, scope).db;
      && d.rows == db.rows && StoredState(d, scope) == NEW_SCOPE
      && (DigestExact(d, scope, k => true) <==> Digest.RowHash(c.key, c.version) == 0)
  {
    RebuildWrites(cfg, db, scope);
    RebuildDigest(cfg, db, scope, k => true);
    LoneRowKept(cfg, db.rows, scope, c);
    LoneDigest(c.key, c.version);
    var d := Rebootstrapped(cfg, mem, db, Commit, scope).db;
    assert StoredState(d, scope) == StoredState(ApplyOps(db, RebootstrapOps(cfg.registry, scope)), scope);
  }

  lemma LoneRowKept(cfg: Config, rows: Rows, scope: ScopeId, c: Change)
    requires c.key.entity !in cfg.registry.entities && c.snapshot.Some? && rows == map[c.key := RowOf(c)]
    ensures Unregistered(cfg, rows, scope) == rows && Kept(Versions(rows), k => true) == map[c.key := c.version]
  {
  }

  /**
   The row is still stored although cursor and digest start over; the digest is right only if that row hashes
   to zero.
   */
  lemma RowOutlivesRebuild(cfg: Config, scope: ScopeId, key: RowKey, doc: Document)
    requires key.entity !in cfg.registry.entities
    ensures var c := Change(1, key, Upsert, Some(doc), 1, 1);
      var db := Ran(cfg, FRESH_MEMORY, EMPTY_DB, Outliving(scope, c)).1;
      && db.rows == map[key := RowOf(c)] && StoredState(db, scope) == NEW_SCOPE
      && (DigestExact(db, scope, k => true) <==> Digest.RowHash(key, 1) == 0)
  {
    var c := Change(1, key, Upsert, Some(doc), 1, 1);
    var events := Outliving(scope, c);
    UnrollTwo(cfg, events[0], events[1]);
    FirstArrival(cfg, scope, c);
    var (m, d) := Stepped(cfg, FRESH_MEMORY, EMPTY_DB, events[0]);
    LoneRowStays(cfg, m, d, scope, c);
  }

  /** A lone change past the cursor is accepted by a device that holds nothing. */
  lemma OneAccepted(cfg: Config, a: Reference, batch: Batch, c: Change)
    requires batch.changes == [c] && ReferenceCursor(a, batch.scope) < c.seqNo == batch.nextCursor && c.Consistent()
    requires a.rows == map[]
    ensures Accepts(cfg, a, batch)
  {
    var one := [c];
    BatchFaultMeaning(batch, ReferenceCursor(a, batch.scope));
    assert one[..0] == [];
    var empty: map<RowKey, nat> := Versions(map[]);
    assert VersionsAfter(empty, []) == empty && NoOverwrite(cfg, empty, []);
    assert !Overwrites(cfg, empty, c);
  }

  lemma OneReplayed(cfg: Config, c: Change)
    requires Localized(cfg, c) == Ok(c) && c.snapshot.Some?
    ensures ReplayOnto(map[], Storable(cfg, [c])) == map[c.key := RowOf(c)]
  {
    var one := [c];
    assert one[..0] == [];
    assert Storable(cfg, one) == one;
    assert ReplayOnto(map[], one) == ReplayOne(ReplayOnto(map[], []), c);
  }

  lemma LoneDigest(key: RowKey, version: nat)
    ensures Digest.DigestOf(map[key := version]) == Digest.RowHash(key, version)
  {
    var nothing: map<RowKey, nat> := map[];
    Digest.EmptyDigest();
    Digest.DigestTracks(nothing, key, version);
    assert nothing[key := version] == map[key := version];
  }

  // ----- two lists of changes, one after the other -----

  lemma {:induction false} VersionsSplit(versions: map<RowKey, nat>, a: seq<Change>, b: seq<Change>)
    ensures VersionsAfter(versions, a + b) == VersionsAfter(VersionsAfter(versions, a), b)
  {
    if b == [] {
      assert a + b == a;
    } else {
      assert (a + b)[..|a + b| - 1] == a + b[..|b| - 1];
      VersionsSplit(versions, a, b[..|b| - 1]);
    }
  }

  lemma {:induction false} NoOverwriteSplits(cfg: Config, versions: map<RowKey, nat>, a: seq<Change>, b: seq<Change>)
    ensures NoOverwrite(cfg, versions, a + b) <==>
      NoOverwrite(cfg, versions, a) && NoOverwrite(cfg, VersionsAfter(versions, a), b)
  {
    if b == [] {
      assert a + b == a;
    } else {
      var init := b[..|b| - 1];
      assert (a + b)[..|a + b| - 1] == a + init;
      NoOverwriteSplits(cfg, versions, a, init);
      VersionsSplit(versions, a, init);
    }
  }

  // ----- cursors -----

  /**
   When an apply takes a stored cursor back, exactly: a landed empty batch from behind it. No
   other batch can, because every change must lie past the cursor and be covered by the next one.
   */
  lemma CursorGoesBack(cfg: Config, mem: Memory, db: DbState, verdict: Verdict, batch: Batch, compare: bool,
                       rebuilding: bool)
    requires MemoryAgrees(mem, db, batch.scope)
    ensures StoredState(AppliedBatch(cfg, mem, db, verdict, batch, compare, rebuilding).db, batch.scope).cursor
        < StoredState(db, batch.scope).cursor
      <==> !verdict.FailBeforeCommit? && batch.changes == [] && batch.nextCursor < StoredState(db, batch.scope).cursor
  {
    ApplyRefines(cfg, mem, db, verdict, batch, compare, rebuilding);
    BatchFaultMeaning(batch, StoredState(db, batch.scope).cursor);
  }
}
