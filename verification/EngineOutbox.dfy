/**
 The outbox loses nothing: over any run, the ids ever committed by an enqueue are exactly the
 ids still queued plus the ids resolved, each resolved once, whatever storage does or reports.
 */
module EngineOutbox {
  import opened Prelude
  import opened Wire
  import opened Ids
  import opened Storage
  import opened EngineSpec
  import EngineDigest
  import Migrate
  import EngineRuns
  import Digest
  import Splice

  function IdsOf(outbox: seq<OutboxEntry>): set<CommandId> {
    set e | e in outbox :: e.command.id
  }

  function RecordedIds(records: seq<(CommandId, Resolution)>): set<CommandId> {
    set r | r in records :: r.0
  }

  predicate DistinctQueue(outbox: seq<OutboxEntry>) {
    forall i, j :: 0 <= i < j < |outbox| ==> outbox[i].command.id != outbox[j].command.id
  }

  predicate DistinctRecords(records: seq<(CommandId, Resolution)>) {
    forall i, j :: 0 <= i < j < |records| ==> records[i].0 != records[j].0
  }

  /** Every id ever committed is queued or resolved, never both, and appears once. */
  predicate Accounted(db: DbState) {
    && DistinctQueue(db.outbox) && DistinctRecords(db.resolved)
    && IdsOf(db.outbox) !! RecordedIds(db.resolved)
    && IdsOf(db.outbox) + RecordedIds(db.resolved) == db.enqueued
  }

  /** The queue in memory is the stored one, unless marked suspect. */
  predicate QueueAgrees(mem: Memory, db: DbState) {
    !mem.outboxSuspect ==> mem.outbox == db.outbox
  }

  // ----- one operation -----

  lemma {:induction false} WithoutMembers(outbox: seq<OutboxEntry>, id: CommandId)
    ensures forall e :: e in Without(outbox, id) <==> e in outbox && e.command.id != id
    ensures DistinctQueue(outbox) ==> DistinctQueue(Without(outbox, id))
    ensures IdsOf(Without(outbox, id)) == IdsOf(outbox) - {id}
  {
    if outbox != [] {
      var init := outbox[..|outbox| - 1];
      WithoutMembers(init, id);
      assert outbox == init + [outbox[|outbox| - 1]];
    }
  }

  lemma {:induction false} FindMeans(outbox: seq<OutboxEntry>, id: CommandId)
    ensures Find(outbox, id).Some? <==> id in IdsOf(outbox)
    ensures Find(outbox, id).Some? ==> Find(outbox, id).value in outbox && Find(outbox, id).value.command.id == id
  {
    if outbox != [] {
      FindMeans(outbox[1..], id);
      assert outbox == [outbox[0]] + outbox[1..];
    }
  }

  lemma ResolveKeepsAccounts(db: DbState, id: CommandId, resolution: Resolution)
    requires Accounted(db) && id in IdsOf(db.outbox)
    ensures Accounted(ApplyOp(db, ResolveCommand(id, resolution)))
    ensures IdsOf(ApplyOp(db, ResolveCommand(id, resolution)).outbox) == IdsOf(db.outbox) - {id}
  {
    WithoutMembers(db.outbox, id);
    assert RecordedIds(db.resolved + [(id, resolution)]) == RecordedIds(db.resolved) + {id};
  }

  /** Queueing keeps the accounts exactly when the id is new. */
  lemma EnqueueKeepsAccounts(db: DbState, entry: OutboxEntry)
    requires Accounted(db)
    ensures Accounted(ApplyOp(db, EnqueueCommand(entry))) <==> entry.command.id !in db.enqueued
  {
    var d := ApplyOp(db, EnqueueCommand(entry));
    assert IdsOf(d.outbox) == IdsOf(db.outbox) + {entry.command.id};
    if entry.command.id in IdsOf(db.outbox) {
      var i :| 0 <= i < |db.outbox| && db.outbox[i].command.id == entry.command.id;
      assert d.outbox[i].command.id == d.outbox[|db.outbox|].command.id;
    }
  }

  // ----- the command as it is pushed -----

  /** The entity a command writes to, when its name is registered for a known one. */
  function Target(cfg: Config, c: Command): Option<EntityName> {
    if c.name in cfg.registry.commands && cfg.registry.commands[c.name] in cfg.registry.entities
    then Some(cfg.registry.commands[c.name]) else None
  }

  /** Whether a command was authored under another schema than its entity is registered with now. */
  predicate Outdated(cfg: Config, entry: OutboxEntry) {
    var entity := Target(cfg, entry.command);
    entity.Some? && entry.schema != cfg.registry.entities[entity.value].schema
  }

  /**
   What is pushed for a queued command: the command itself, but for an outdated one the payload the
   host's steps take its own to, if that is well shaped and within the size limit.
   */
  lemma OutgoingMeans(cfg: Config, entry: OutboxEntry, c: Command)
    ensures Outgoing(cfg, entry) == Ok(c) <==>
      if !Outdated(cfg, entry) then c == entry.command
      else
        var entity := Target(cfg, entry.command).value;
        && c == entry.command.(payload := c.payload)
        && Migrate.Takes(cfg.steps, entity, entry.command.payload, entry.schema,
                         cfg.registry.entities[entity].schema, c.payload)
        && WellShaped(c.payload.canonical) && |c.payload.canonical| <= 0x1_0000
  {
    if Outdated(cfg, entry) {
      var entity := Target(cfg, entry.command).value;
      var schema := cfg.registry.entities[entity].schema;
      forall doc ensures Migrate.Migrated(cfg.steps, entity, entry.command.payload, entry.schema, schema) == Ok(doc)
          <==> Migrate.Takes(cfg.steps, entity, entry.command.payload, entry.schema, schema, doc)
      {
        Migrate.MigratedMeans(cfg.steps, entity, entry.command.payload, entry.schema, schema, doc);
      }
    }
  }

  // ----- applying the server's answers -----

  /** The first answer to a command in a response. */
  function FirstFor(rs: seq<CommandResult>, id: CommandId): Option<CommandResult> {
    if rs == [] then None
    else
      var earlier := FirstFor(rs[..|rs| - 1], id);
      if earlier.Some? then earlier else if rs[|rs| - 1].id == id then Some(rs[|rs| - 1]) else None
  }

  lemma {:induction false} FirstForMeans(rs: seq<CommandResult>, id: CommandId)
    ensures FirstFor(rs, id).Some? <==> exists r :: r in rs && r.id == id
    ensures FirstFor(rs, id).Some? ==> FirstFor(rs, id).value in rs && FirstFor(rs, id).value.id == id
  {
    if rs != [] {
      FirstForMeans(rs[..|rs| - 1], id);
      assert rs == rs[..|rs| - 1] + [rs[|rs| - 1]];
    }
  }

  /** The ids a response settles: those it answers that are queued. */
  function Settled(outbox: seq<OutboxEntry>, rs: seq<CommandResult>): set<CommandId> {
    set id | id in IdsOf(outbox) && FirstFor(rs, id).Some?
  }

  /** What the staged operations do to the database. */
  ghost predicate Tracked(db: DbState, a: Answers) {
    var d := ApplyOps(db, a.ops);
    && Accounted(d) && d.enqueued == db.enqueued
    && IdsOf(d.outbox) == IdsOf(db.outbox) - a.answered
    && d.outbox == Pruned(db.outbox, a.resolved.resolutions)
    && d.resolved == db.resolved + a.resolved.resolutions
    && (a.ops == [] <==> a.resolved.resolutions == [])
  }

  ghost predicate Tracks(cfg: Config, db: DbState, rs: seq<CommandResult>) {
    Tracked(db, AnswerAll(cfg, db.outbox, rs))
  }

  const UNSTATED := "Rejected by the server without a stated reason."

  /** A resolution that says what the server's result says: its status, its number, its reason. */
  predicate SaysAs(res: Resolution, r: CommandResult) {
    && (res.ResApplied? <==> r.status.Applied?) && (res.ResApplied? ==> res.serverSeq == r.serverSeq)
    && (res.ResSuperseded? <==> r.status.Superseded?)
    && (res.DeadLettered? <==> r.status.Rejected?)
    && (res.DeadLettered? ==> res.reason == if r.reason.Some? then r.reason.value else UNSTATED)
  }

  /** Which commands are settled, and with what. */
  ghost predicate Faithful(cfg: Config, db: DbState, rs: seq<CommandResult>) {
    var a := AnswerAll(cfg, db.outbox, rs);
    && a.answered == Settled(db.outbox, rs) == RecordedIds(a.resolved.resolutions)
    && (forall r :: r in a.resolved.resolutions ==>
         FirstFor(rs, r.0).Some? && SaysAs(r.1, FirstFor(rs, r.0).value))
    && |a.resolved.resolutions| + a.resolved.unknown == |rs|
  }

  lemma AnswerStepSettled(cfg: Config, db: DbState, rs: seq<CommandResult>)
    requires rs != [] && Faithful(cfg, db, rs[..|rs| - 1])
    ensures Faithful(cfg, db, rs)
  {
    var init, r := rs[..|rs| - 1], rs[|rs| - 1];
    var b := AnswerAll(cfg, db.outbox, init);
    FindMeans(db.outbox, r.id);
    forall id | id in IdsOf(db.outbox)
      ensures id in Settled(db.outbox, rs) <==> id in Settled(db.outbox, init) || id == r.id {
    }
    assert RecordedIds(b.resolved.resolutions + [(r.id, ResolutionOf(r))])
      == RecordedIds(b.resolved.resolutions) + {r.id};
  }

  lemma DraftOpsKeep(cfg: Config, db: DbState, entry: OutboxEntry, status: Status)
    ensures ApplyOps(db, DraftOps(cfg, entry, status)) == db.(recovered := db.recovered + Drafts(cfg, entry, status))
  {
    EngineDigest.One(db, DraftOps(cfg, entry, status));
    assert db.recovered + [] == db.recovered;
  }

  /** The drafts one answer must not lose. */
  function Drafts(cfg: Config, entry: OutboxEntry, status: Status): seq<(CommandId, EntityName, Document)> {
    if status.Superseded? && WritesDraft(cfg, entry) then [DraftFor(cfg, entry)] else []
  }

  lemma LastApart(db: DbState, a: seq<StorageOp>, b: seq<StorageOp>, last: StorageOp)
    ensures ApplyOps(db, a + b + [last]) == ApplyOp(ApplyOps(ApplyOps(db, a), b), last)
  {
    ApplyOpsSplits(db, a, b);
    assert (a + b + [last])[..|a + b|] == a + b;
  }

  /** What one freshly answered command adds to the staged writes. */
  lemma OneAnswerWrites(cfg: Config, db: DbState, a: Answers, entry: OutboxEntry, r: CommandResult)
    ensures var before := ApplyOps(db, a.ops);
      var d := ApplyOps(db, a.ops + DraftOps(cfg, entry, r.status) + [ResolveCommand(r.id, ResolutionOf(r))]);
      && d.outbox == Without(before.outbox, r.id) && d.resolved == before.resolved + [(r.id, ResolutionOf(r))]
      && d.enqueued == before.enqueued && d.recovered == before.recovered + Drafts(cfg, entry, r.status)
  {
    DraftOpsKeep(cfg, ApplyOps(db, a.ops), entry, r.status);
    LastApart(db, a.ops, DraftOps(cfg, entry, r.status), ResolveCommand(r.id, ResolutionOf(r)));
  }

  lemma AccountedSame(d: DbState, e: DbState)
    requires Accounted(d) && e.outbox == d.outbox && e.resolved == d.resolved && e.enqueued == d.enqueued
    ensures Accounted(e)
  {
  }

  lemma OneAnswerAccounts(cfg: Config, db: DbState, a: Answers, entry: OutboxEntry, r: CommandResult)
    requires Accounted(ApplyOps(db, a.ops)) && r.id in IdsOf(ApplyOps(db, a.ops).outbox)
    ensures var before := ApplyOps(db, a.ops);
      var d := ApplyOps(db, a.ops + DraftOps(cfg, entry, r.status) + [ResolveCommand(r.id, ResolutionOf(r))]);
      && Accounted(d) && d.enqueued == before.enqueued && IdsOf(d.outbox) == IdsOf(before.outbox) - {r.id}
      && d.outbox == Without(before.outbox, r.id) && d.resolved == before.resolved + [(r.id, ResolutionOf(r))]
  {
    var before := ApplyOps(db, a.ops);
    OneAnswerWrites(cfg, db, a, entry, r);
    ResolveKeepsAccounts(before, r.id, ResolutionOf(r));
  }

  lemma PrunedPush(outbox: seq<OutboxEntry>, resolutions: seq<(CommandId, Resolution)>, r: (CommandId, Resolution))
    ensures Pruned(outbox, resolutions + [r]) == Without(Pruned(outbox, resolutions), r.0)
  {
    assert (resolutions + [r])[..|resolutions|] == resolutions;
  }

  lemma FreshAnswerTracks(cfg: Config, db: DbState, a: Answers, entry: OutboxEntry, r: CommandResult)
    requires Tracked(db, a) && r.id in IdsOf(db.outbox) && r.id !in a.answered
    ensures Tracked(db, Answers(a.ops + DraftOps(cfg, entry, r.status) + [ResolveCommand(r.id, ResolutionOf(r))],
                                a.resolved.(resolutions := a.resolved.resolutions + [(r.id, ResolutionOf(r))]),
                                a.answered + {r.id}))
  {
    var res := a.resolved.resolutions;
    var one := (r.id, ResolutionOf(r));
    OneAnswerAccounts(cfg, db, a, entry, r);
    PrunedPush(db.outbox, res, one);
    assert db.resolved + (res + [one]) == (db.resolved + res) + [one];
  }

  lemma AnswerOneTracks(cfg: Config, db: DbState, a: Answers, r: CommandResult)
    requires Tracked(db, a)
    ensures Tracked(db, AnswerOne(cfg, db.outbox, a, r))
  {
    var entry := Find(db.outbox, r.id);
    FindMeans(db.outbox, r.id);
    if entry.Some? && r.id !in a.answered {
      FreshAnswerTracks(cfg, db, a, entry.value, r);
    }
  }

  lemma {:induction false} AnswersSettle(cfg: Config, db: DbState, rs: seq<CommandResult>)
    requires Accounted(db)
    ensures Tracks(cfg, db, rs) && Faithful(cfg, db, rs)
  {
    if rs == [] {
      assert Settled(db.outbox, rs) == {};
    } else {
      AnswersSettle(cfg, db, rs[..|rs| - 1]);
      AnswerOneTracks(cfg, db, AnswerAll(cfg, db.outbox, rs[..|rs| - 1]), rs[|rs| - 1]);
      AnswerStepSettled(cfg, db, rs);
    }
  }

  /** The draft a refused owner write must not lose. */
  predicate DraftKept(cfg: Config, entry: OutboxEntry, rs: seq<CommandResult>, d: DbState) {
    var first := FirstFor(rs, entry.command.id);
    first.Some? && first.value.status.Superseded? && WritesDraft(cfg, entry) ==> DraftFor(cfg, entry) in d.recovered
  }

  /** A command for an entity whose drafts belong to their author. */
  predicate WritesDraft(cfg: Config, entry: OutboxEntry) {
    && Target(cfg, entry.command).Some?
    && cfg.registry.entities[Target(cfg, entry.command).value].conflictClass == OwnerDraft
  }

  /** Its draft: the payload as it was authored. */
  function DraftFor(cfg: Config, entry: OutboxEntry): (CommandId, EntityName, Document)
    requires Target(cfg, entry.command).Some?
  {
    (entry.command.id, Target(cfg, entry.command).value, entry.command.payload)
  }

  /** Recovered drafts are only ever added to. */
  lemma {:induction false} RecoveredGrows(cfg: Config, db: DbState, rs: seq<CommandResult>)
    ensures db.recovered <= ApplyOps(db, AnswerAll(cfg, db.outbox, rs).ops).recovered
  {
    if rs != [] {
      var init, r := rs[..|rs| - 1], rs[|rs| - 1];
      RecoveredGrows(cfg, db, init);
      var a := AnswerAll(cfg, db.outbox, init);
      var found := Find(db.outbox, r.id);
      if found.Some? && r.id !in a.answered {
        OneAnswerWrites(cfg, db, a, found.value, r);
      }
    }
  }

  lemma {:induction false} DraftsSurvive(cfg: Config, db: DbState, rs: seq<CommandResult>, entry: OutboxEntry)
    requires Accounted(db) && entry in db.outbox
    ensures DraftKept(cfg, entry, rs, ApplyOps(db, AnswerAll(cfg, db.outbox, rs).ops))
  {
    if rs != [] {
      var init, r := rs[..|rs| - 1], rs[|rs| - 1];
      DraftsSurvive(cfg, db, init, entry);
      AnswersSettle(cfg, db, init);
      var a := AnswerAll(cfg, db.outbox, init);
      var found := Find(db.outbox, r.id);
      FindMeans(db.outbox, r.id);
      if found.Some? && r.id !in a.answered {
        OneAnswerWrites(cfg, db, a, found.value, r);
        if found.value.command.id == entry.command.id {
          SameEntry(db.outbox, entry, found.value);
        }
      }
    }
  }

  /** A draft this response recovers: a queued owner draft's, first answered as superseded. */
  ghost predicate Rescued(cfg: Config, outbox: seq<OutboxEntry>, rs: seq<CommandResult>,
                          draft: (CommandId, EntityName, Document))
  {
    exists entry :: entry in outbox && WritesDraft(cfg, entry) && draft == DraftFor(cfg, entry)
      && FirstFor(rs, entry.command.id).Some? && FirstFor(rs, entry.command.id).value.status.Superseded?
  }

  lemma RescuedLater(cfg: Config, outbox: seq<OutboxEntry>, rs: seq<CommandResult>, r: CommandResult,
                     draft: (CommandId, EntityName, Document))
    requires Rescued(cfg, outbox, rs, draft)
    ensures Rescued(cfg, outbox, rs + [r], draft)
  {
    var entry :| entry in outbox && WritesDraft(cfg, entry) && draft == DraftFor(cfg, entry)
      && FirstFor(rs, entry.command.id).Some? && FirstFor(rs, entry.command.id).value.status.Superseded?;
    assert (rs + [r])[..|rs|] == rs;
    assert FirstFor(rs + [r], entry.command.id) == FirstFor(rs, entry.command.id);
  }

  /** And no other draft is recovered. */
  lemma {:induction false} OnlyRescued(cfg: Config, db: DbState, rs: seq<CommandResult>,
                                       draft: (CommandId, EntityName, Document))
    requires Accounted(db) && draft in ApplyOps(db, AnswerAll(cfg, db.outbox, rs).ops).recovered
    ensures draft in db.recovered || Rescued(cfg, db.outbox, rs, draft)
  {
    if rs != [] {
      var init, r := rs[..|rs| - 1], rs[|rs| - 1];
      assert rs == init + [r];
      var a := AnswerAll(cfg, db.outbox, init);
      var found := Find(db.outbox, r.id);
      FindMeans(db.outbox, r.id);
      if draft in ApplyOps(db, a.ops).recovered {
        OnlyRescued(cfg, db, init, draft);
        if draft !in db.recovered {
          RescuedLater(cfg, db.outbox, init, r, draft);
        }
      } else {
        OneAnswerWrites(cfg, db, a, found.value, r);
        AnswersSettle(cfg, db, init);
        RescuedNow(cfg, db.outbox, init, r, found.value);
      }
    }
  }

  lemma RescuedNow(cfg: Config, outbox: seq<OutboxEntry>, rs: seq<CommandResult>, r: CommandResult, entry: OutboxEntry)
    requires entry in outbox && entry.command.id == r.id && FirstFor(rs, r.id).None?
    ensures forall draft :: draft in Drafts(cfg, entry, r.status) ==> Rescued(cfg, outbox, rs + [r], draft)
  {
    assert (rs + [r])[..|rs|] == rs && FirstFor(rs + [r], r.id) == Some(r);
  }

  lemma SameEntry(outbox: seq<OutboxEntry>, a: OutboxEntry, b: OutboxEntry)
    requires DistinctQueue(outbox) && a in outbox && b in outbox && a.command.id == b.command.id
    ensures a == b
  {
    var i, j :| 0 <= i < |outbox| && 0 <= j < |outbox| && outbox[i] == a && outbox[j] == b;
  }

  /**
   One response, whatever it repeats, omits or invents: a landed write settles exactly the queued
   commands it answers, by its first answer to each, in one transaction; otherwise nothing moves.
   */
  lemma ResultsSettle(cfg: Config, mem: Memory, db: DbState, verdict: Verdict, rs: seq<CommandResult>)
    requires Accounted(db) && QueueAgrees(mem, db)
    ensures var o := ResultsApplied(cfg, mem, db, verdict, rs);
      && Accounted(o.db) && QueueAgrees(o.mem, o.db) && o.db.enqueued == db.enqueued
      && (verdict.FailBeforeCommit? ==> o.db == db)
      && (!verdict.FailBeforeCommit? ==>
        && IdsOf(o.db.outbox) == IdsOf(db.outbox) - Settled(db.outbox, rs)
        && db.resolved <= o.db.resolved
        && RecordedIds(o.db.resolved) == RecordedIds(db.resolved) + Settled(db.outbox, rs)
        && forall i :: |db.resolved| <= i < |o.db.resolved| ==>
             var (id, res) := o.db.resolved[i]; FirstFor(rs, id).Some? && SaysAs(res, FirstFor(rs, id).value))
  {
    AnswersSettle(cfg, db, rs);
    var m := RefreshedOutbox(mem, db);
    assert m.outbox == db.outbox;
    var a := AnswerAll(cfg, db.outbox, rs);
    var d := ApplyOps(db, a.ops);
    var o := ResultsApplied(cfg, mem, db, verdict, rs);
    if a.ops == [] {
      assert a.resolved.resolutions == [] && Settled(db.outbox, rs) == {};
    } else if !verdict.FailBeforeCommit? {
      AccountedSame(d, o.db);
      assert forall i :: |db.resolved| <= i < |d.resolved| ==> d.resolved[i] in a.resolved.resolutions;
    }
  }

  /**
   And it is told what became of it: success unless something was to be settled and the write was
   not acknowledged, with exactly what was recorded, every answer recorded or counted as unknown.
   The queue in memory is not trusted any more if and only if it was not.
   */
  lemma ResultsTold(cfg: Config, mem: Memory, db: DbState, verdict: Verdict, rs: seq<CommandResult>)
    requires Accounted(db) && QueueAgrees(mem, db)
    ensures var o := ResultsApplied(cfg, mem, db, verdict, rs);
      && (o.result.Ok? <==> verdict.Commit? || Settled(db.outbox, rs) == {})
      && (o.result.Ok? ==>
        && o.db.resolved == db.resolved + o.result.value.resolutions
        && |o.result.value.resolutions| + o.result.value.unknown == |rs|)
      && (o.result.Err? ==> o.result.error == OutboxStorage)
      && (o.mem.outboxSuspect <==> o.result.Err?)
  {
    AnswersSettle(cfg, db, rs);
    assert RefreshedOutbox(mem, db).outbox == db.outbox;
    var a := AnswerAll(cfg, db.outbox, rs);
    if a.resolved.resolutions != [] {
      assert a.resolved.resolutions[0].0 in RecordedIds(a.resolved.resolutions);
    }
  }

  // ----- whole runs -----

  predicate ScopeOp(op: StorageOp) {
    !EngineRuns.OutboxOp(op)
  }

  predicate SameOutbox(db: DbState, d: DbState) {
    d.outbox == db.outbox && d.resolved == db.resolved && d.enqueued == db.enqueued && d.recovered == db.recovered
  }

  lemma ScopeOpKeepsOutbox(db: DbState, op: StorageOp)
    requires ScopeOp(op)
    ensures SameOutbox(db, ApplyOp(db, op))
  {
  }

  lemma {:induction false} ScopeOpsKeepOutbox(db: DbState, ops: seq<StorageOp>)
    requires forall op :: op in ops ==> ScopeOp(op)
    ensures SameOutbox(db, ApplyOps(db, ops))
  {
    if ops != [] {
      ScopeOpsKeepOutbox(db, ops[..|ops| - 1]);
      ScopeOpKeepsOutbox(ApplyOps(db, ops[..|ops| - 1]), ops[|ops| - 1]);
    }
  }

  /** Applying a batch, quarantine included, leaves the stored outbox alone and at most marks the queue suspect. */
  lemma ApplyKeepsOutbox(cfg: Config, mem: Memory, db: DbState, verdict: Verdict, batch: Batch, compare: bool,
                         rebuilding: bool)
    ensures var o := AppliedBatch(cfg, mem, db, verdict, batch, compare, rebuilding);
      && SameOutbox(db, o.db) && o.mem.outbox == mem.outbox
      && (QueueAgrees(mem, db) ==> QueueAgrees(o.mem, o.db))
  {
    var m := Refreshed(mem, db, batch.scope);
    var state := StateOf(m, batch.scope);
    var staged := StagedAll(cfg, StartStaging(db, state.digest), batch.changes);
    if BatchFault(batch, state.cursor).None? && staged.Ok? {
      EngineDigest.StagedOpsAreRowOps(cfg, StartStaging(db, state.digest), batch.changes);
      CommitKeepsOutbox(m, db, verdict, staged.value, batch, compare, rebuilding);
    }
  }

  lemma CommitKeepsOutbox(m: Memory, db: DbState, verdict: Verdict, sg: Staging, batch: Batch, compare: bool,
                          rebuilding: bool)
    requires forall op :: op in sg.ops ==> op.UpsertRow? || op.DeleteRow? || op.QuarantineRow?
    ensures var o := CommittedBatch(m, db, verdict, sg, batch, compare, rebuilding);
      && SameOutbox(db, o.db) && o.mem.outbox == m.outbox
      && (QueueAgrees(m, db) ==> QueueAgrees(o.mem, o.db))
  {
    var h := HealthOf(m, batch.scope);
    var j := Judged(h, Digest.ToHex(sg.digest), batch.digest, compare, rebuilding);
    ScopeOpsKeepOutbox(db, BatchOps(sg, batch, h, j));
  }

  lemma RebuildKeepsOutbox(cfg: Config, mem: Memory, db: DbState, verdict: Verdict, scope: ScopeId)
    ensures var o := Rebootstrapped(cfg, mem, db, verdict, scope);
      && SameOutbox(db, o.db) && o.mem.outbox == mem.outbox
      && (QueueAgrees(mem, db) ==> QueueAgrees(o.mem, o.db))
  {
    ScopeOpsKeepOutbox(db, RebootstrapOps(cfg.registry, scope));
  }

  lemma ClearKeepsOutbox(mem: Memory, db: DbState, verdict: Verdict, scope: ScopeId)
    ensures var o := ClearedHealth(mem, db, verdict, scope);
      && SameOutbox(db, o.db) && o.mem.outbox == mem.outbox
      && (QueueAgrees(mem, db) ==> QueueAgrees(o.mem, o.db))
  {
    ScopeOpsKeepOutbox(db, [RecordDivergence(scope, 0, false)]);
  }

  lemma EnqueueAccounts(cfg: Config, mem: Memory, db: DbState, verdict: Verdict, entry: OutboxEntry)
    requires Accounted(db) && QueueAgrees(mem, db) && entry.command.id !in db.enqueued
    ensures var o := Enqueued(cfg, mem, db, verdict, entry);
      && Accounted(o.db) && QueueAgrees(o.mem, o.db) && o.db.resolved == db.resolved && o.db.recovered == db.recovered
      && (o.db.enqueued == db.enqueued || o.db.enqueued == db.enqueued + {entry.command.id})
      && (o.result.Ok? ==> entry.command.id in IdsOf(o.db.outbox))
  {
    EnqueueKeepsAccounts(db, entry);
    EngineDigest.One(db, [EnqueueCommand(entry)]);
    var o := Enqueued(cfg, mem, db, verdict, entry);
    if o.db != db {
      AccountedSame(ApplyOp(db, EnqueueCommand(entry)), o.db);
      assert entry in o.db.outbox;
    }
  }

  /** The ids a run tries to queue. */
  function Submitted(events: seq<Event>): set<CommandId> {
    set e | e in events && e.Enqueue? :: e.entry.command.id
  }

  /** No id is submitted twice. */
  predicate SubmitsOnce(events: seq<Event>) {
    forall i, j :: 0 <= i < j < |events| && events[i].Enqueue? && events[j].Enqueue? ==>
      events[i].entry.command.id != events[j].entry.command.id
  }

  /** Nothing recorded is ever rewritten or forgotten. */
  predicate OnlyGrows(db: DbState, db': DbState) {
    db.resolved <= db'.resolved && db.enqueued <= db'.enqueued
  }

  lemma NoLossStep(cfg: Config, mem: Memory, db: DbState, e: Event)
    requires Accounted(db) && QueueAgrees(mem, db)
    requires e.Enqueue? ==> e.entry.command.id !in db.enqueued
    ensures var (m, d) := Stepped(cfg, mem, db, e);
      && Accounted(d) && QueueAgrees(m, d) && OnlyGrows(db, d)
      && d.enqueued <= db.enqueued + (if e.Enqueue? then {e.entry.command.id} else {})
  {
    match e
    case ApplyBatch(batch, rebuilding, verdict) =>
      ApplyKeepsOutbox(cfg, mem, db, verdict, batch, !batch.hasMore, rebuilding);
    case BeginRebootstrap(scope, verdict) => RebuildKeepsOutbox(cfg, mem, db, verdict, scope);
    case ClearScopeHealth(scope, verdict) => ClearKeepsOutbox(mem, db, verdict, scope);
    case Enqueue(entry, verdict) => EnqueueAccounts(cfg, mem, db, verdict, entry);
    case ApplyResults(results, verdict) => ResultsSettle(cfg, mem, db, verdict, results);
    case _ =>
  }

  lemma SubmitsNew(events: seq<Event>)
    requires SubmitsOnce(events) && events != []
    ensures var init, e := events[..|events| - 1], events[|events| - 1];
      && SubmitsOnce(init)
      && Submitted(events) == Submitted(init) + (if e.Enqueue? then {e.entry.command.id} else {})
      && (e.Enqueue? ==> e.entry.command.id !in Submitted(init))
  {
    assert events == events[..|events| - 1] + [events[|events| - 1]];
  }

  lemma {:induction false} NoLossRun(cfg: Config, events: seq<Event>)
    requires SubmitsOnce(events)
    ensures var (mem, db) := Ran(cfg, FRESH_MEMORY, EMPTY_DB, events);
      Accounted(db) && QueueAgrees(mem, db) && db.enqueued <= Submitted(events)
  {
    if events != [] {
      var init := events[..|events| - 1];
      SubmitsNew(events);
      NoLossRun(cfg, init);
      var (mem, db) := Ran(cfg, FRESH_MEMORY, EMPTY_DB, init);
      NoLossStep(cfg, mem, db, events[|events| - 1]);
    }
  }

  lemma LastStepGrows(cfg: Config, events: seq<Event>)
    requires SubmitsOnce(events) && events != []
    ensures var (_, before) := Ran(cfg, FRESH_MEMORY, EMPTY_DB, events[..|events| - 1]);
      var (_, db) := Ran(cfg, FRESH_MEMORY, EMPTY_DB, events);
      OnlyGrows(before, db)
  {
    var init := events[..|events| - 1];
    SubmitsNew(events);
    NoLossRun(cfg, init);
    var (mem, db) := Ran(cfg, FRESH_MEMORY, EMPTY_DB, init);
    NoLossStep(cfg, mem, db, events[|events| - 1]);
  }

  /**
   No loss and at most one resolution: after any part of any run the committed ids are the
   disjoint union of the queued and the resolved, and whatever that part resolved is still
   recorded, unchanged and in place, after the whole.
   */
  lemma {:induction false} NothingIsLost(cfg: Config, events: seq<Event>, n: nat)
    requires SubmitsOnce(events) && n <= |events|
    ensures var (_, before) := Ran(cfg, FRESH_MEMORY, EMPTY_DB, events[..n]);
      var (_, db) := Ran(cfg, FRESH_MEMORY, EMPTY_DB, events);
      Accounted(before) && Accounted(db) && OnlyGrows(before, db)
    decreases |events|
  {
    NoLossRun(cfg, events);
    if n == |events| {
      assert events[..n] == events;
    } else {
      var init := events[..|events| - 1];
      assert init[..n] == events[..n];
      SubmitsNew(events);
      NothingIsLost(cfg, init, n);
      LastStepGrows(cfg, events);
    }
  }

  // ----- what may be queued at all -----

  /** A command registered for nothing, for an entity nobody registered, or for one only the server writes. */
  predicate NotForClients(registry: Registry, c: Command) {
    || c.name !in registry.commands || registry.commands[c.name] !in registry.entities
    || registry.entities[registry.commands[c.name]].conflictClass == ServerAuthoritative
  }

  /** What queueing does, exactly: it refuses just those commands, before anything is written, and names why. */
  lemma EnqueueRefuses(cfg: Config, mem: Memory, db: DbState, verdict: Verdict, entry: OutboxEntry)
    ensures var o, reg, name := Enqueued(cfg, mem, db, verdict, entry), cfg.registry, entry.command.name;
      && (NotForClients(reg, entry.command) <==> o.result.Err? && o.result.error.Refused?)
      && (NotForClients(reg, entry.command) ==>
        && o.mem == mem && o.db == db
        && (o.result.error.error == UnknownCommand <==> name !in reg.commands)
        && (o.result.error.error == UnknownEntity <==> name in reg.commands && reg.commands[name] !in reg.entities))
      && (!NotForClients(reg, entry.command) ==>
        && (o.result.Ok? <==> verdict.Commit?)
        && o.mem == (if verdict.Commit? then mem.(outbox := mem.outbox + [entry]) else mem.(outboxSuspect := true))
        && o.db == (if verdict.FailBeforeCommit? then db
                    else db.(outbox := db.outbox + [entry], enqueued := db.enqueued + {entry.command.id},
                             commits := db.commits + 1)))
  {
    EngineDigest.One(db, [EnqueueCommand(entry)]);
  }

  predicate ForClients(registry: Registry, outbox: seq<OutboxEntry>) {
    forall e :: e in outbox ==> !NotForClients(registry, e.command)
  }

  lemma {:induction false} RemainingQueued(outbox: seq<OutboxEntry>, resolutions: seq<(CommandId, Resolution)>)
    ensures forall e :: e in Pruned(outbox, resolutions) ==> e in outbox
  {
    if resolutions != [] {
      RemainingQueued(outbox, resolutions[..|resolutions| - 1]);
      WithoutMembers(Pruned(outbox, resolutions[..|resolutions| - 1]), resolutions[|resolutions| - 1].0);
    }
  }

  /** The server's answers only ever take commands out of the stored queue. */
  lemma {:induction false} AnswersRemove(cfg: Config, outbox: seq<OutboxEntry>, db: DbState, rs: seq<CommandResult>)
    ensures forall e :: e in ApplyOps(db, AnswerAll(cfg, outbox, rs).ops).outbox ==> e in db.outbox
  {
    if rs != [] {
      var init, r := rs[..|rs| - 1], rs[|rs| - 1];
      AnswersRemove(cfg, outbox, db, init);
      var a := AnswerAll(cfg, outbox, init);
      var found := Find(outbox, r.id);
      if found.Some? && r.id !in a.answered {
        OneAnswerWrites(cfg, db, a, found.value, r);
        WithoutMembers(ApplyOps(db, a.ops).outbox, r.id);
      }
    }
  }

  lemma ResultsForClients(cfg: Config, mem: Memory, db: DbState, verdict: Verdict, rs: seq<CommandResult>)
    requires ForClients(cfg.registry, mem.outbox) && ForClients(cfg.registry, db.outbox)
    ensures var o := ResultsApplied(cfg, mem, db, verdict, rs);
      ForClients(cfg.registry, o.mem.outbox) && ForClients(cfg.registry, o.db.outbox)
  {
    var m := RefreshedOutbox(mem, db);
    AnswersRemove(cfg, m.outbox, db, rs);
    RemainingQueued(m.outbox, AnswerAll(cfg, m.outbox, rs).resolved.resolutions);
  }

  lemma ForClientsStep(cfg: Config, mem: Memory, db: DbState, e: Event)
    requires ForClients(cfg.registry, mem.outbox) && ForClients(cfg.registry, db.outbox)
    ensures var (m, d) := Stepped(cfg, mem, db, e);
      ForClients(cfg.registry, m.outbox) && ForClients(cfg.registry, d.outbox)
  {
    match e
    case ApplyBatch(batch, rebuilding, verdict) =>
      ApplyKeepsOutbox(cfg, mem, db, verdict, batch, !batch.hasMore, rebuilding);
    case BeginRebootstrap(scope, verdict) => RebuildKeepsOutbox(cfg, mem, db, verdict, scope);
    case ClearScopeHealth(scope, verdict) => ClearKeepsOutbox(mem, db, verdict, scope);
    case Enqueue(entry, verdict) => EnqueueRefuses(cfg, mem, db, verdict, entry);
    case ApplyResults(results, verdict) => ResultsForClients(cfg, mem, db, verdict, results);
    case _ =>
  }

  lemma {:induction false} QueuedForClients(cfg: Config, events: seq<Event>)
    ensures var (mem, db) := Ran(cfg, FRESH_MEMORY, EMPTY_DB, events);
      ForClients(cfg.registry, mem.outbox) && ForClients(cfg.registry, db.outbox)
  {
    if events != [] {
      QueuedForClients(cfg, events[..|events| - 1]);
      var (mem, db) := Ran(cfg, FRESH_MEMORY, EMPTY_DB, events[..|events| - 1]);
      ForClientsStep(cfg, mem, db, events[|events| - 1]);
    }
  }

  lemma {:induction false} SentForClients(cfg: Config, outbox: seq<OutboxEntry>)
    requires ForClients(cfg.registry, outbox)
    ensures forall c :: c in Sendable(cfg, outbox) ==> !NotForClients(cfg.registry, c)
  {
    if outbox != [] {
      var init, last := outbox[..|outbox| - 1], outbox[|outbox| - 1];
      assert last in outbox && forall e :: e in init ==> e in outbox;
      SentForClients(cfg, init);
      if Outgoing(cfg, last).Ok? {
        OutgoingMeans(cfg, last, Outgoing(cfg, last).value);
      }
    }
  }

  /**
   Over any run of a new device, whatever was submitted and whatever storage did: no command for a
   server-owned entity is ever queued, in memory or in storage, or sent.
   */
  lemma ServerOwnedNeverQueued(cfg: Config, events: seq<Event>)
    ensures var (mem, db) := Ran(cfg, FRESH_MEMORY, EMPTY_DB, events);
      && (forall e :: e in mem.outbox || e in db.outbox ==>
           var entity := Target(cfg, e.command);
           entity.Some? && cfg.registry.entities[entity.value].conflictClass != ServerAuthoritative)
      && (forall c :: c in Sendable(cfg, mem.outbox) || c in Sendable(cfg, db.outbox) ==>
           var entity := Target(cfg, c);
           entity.Some? && cfg.registry.entities[entity.value].conflictClass != ServerAuthoritative)
  {
    QueuedForClients(cfg, events);
    var (mem, db) := Ran(cfg, FRESH_MEMORY, EMPTY_DB, events);
    SentForClients(cfg, mem.outbox);
    SentForClients(cfg, db.outbox);
  }

  // ----- what a push may carry -----

  lemma OutgoingWellFormed(cfg: Config, entry: OutboxEntry)
    requires WellFormed(entry.command) && Outgoing(cfg, entry).Ok?
    ensures WellFormed(Outgoing(cfg, entry).value) && Outgoing(cfg, entry).value.id == entry.command.id
  {
  }

  lemma {:induction false} SendableWellFormed(cfg: Config, outbox: seq<OutboxEntry>)
    requires forall e :: e in outbox ==> WellFormed(e.command)
    ensures forall c :: c in Sendable(cfg, outbox) ==> WellFormed(c) && c.id in IdsOf(outbox)
  {
    if outbox != [] {
      var init, last := outbox[..|outbox| - 1], outbox[|outbox| - 1];
      SendableWellFormed(cfg, init);
      assert outbox == init + [last] && last in outbox;
      if Outgoing(cfg, last).Ok? {
        OutgoingWellFormed(cfg, last);
      }
    }
  }

  /** Within the limits a push request must meet, and the budget a client gives it. */
  predicate Fits(commands: seq<Command>, budget: nat, compressedLen: string -> nat) {
    |EncodeCommands(commands)| <= 0x10_0000 && compressedLen(EncodeCommands(commands)) <= budget
  }

  /** How many commands go: as many as fit together up to 256, the first always and one more never. */
  lemma PushCountMeans(commands: seq<Command>, budget: nat, compressedLen: string -> nat)
    ensures Goes(commands, PushCount(commands, EncodeCommand, budget, compressedLen), budget, compressedLen)
  {
    var items, fits := Splice.Encodings(commands, EncodeCommand), PushFits(budget, compressedLen);
    var n := PushCount(commands, EncodeCommand, budget, compressedLen);
    Splice.GreedyIsLongestFitting(items, COMMANDS_MAX_COUNT, fits, n);
    LongestGoes(commands, n, budget, compressedLen);
  }

  predicate Goes(commands: seq<Command>, n: nat, budget: nat, compressedLen: string -> nat) {
    && n <= 256 && n <= |commands| && (commands != [] ==> n >= 1)
    && (n >= 2 ==> Fits(commands[..n], budget, compressedLen))
    && (n < |commands| && n < 256 ==> !Fits(commands[..n + 1], budget, compressedLen))
  }

  ghost predicate Longest(commands: seq<Command>, n: nat, budget: nat, compressedLen: string -> nat) {
    Splice.LongestFitting(Splice.Encodings(commands, EncodeCommand), n, COMMANDS_MAX_COUNT,
                          PushFits(budget, compressedLen))
  }

  lemma LongestFits(commands: seq<Command>, n: nat, budget: nat, compressedLen: string -> nat)
    requires Longest(commands, n, budget, compressedLen) && n >= 2
    ensures Fits(commands[..n], budget, compressedLen)
  {
    assert PushFits(budget, compressedLen)(EncodeArray(Splice.Encodings(commands, EncodeCommand)[..n]));
    PrefixFits(commands, n, budget, compressedLen);
  }

  lemma OneMoreDoesNot(commands: seq<Command>, n: nat, budget: nat, compressedLen: string -> nat)
    requires Longest(commands, n, budget, compressedLen) && n < |commands| && n < 256
    ensures !Fits(commands[..n + 1], budget, compressedLen)
  {
    assert !PushFits(budget, compressedLen)(EncodeArray(Splice.Encodings(commands, EncodeCommand)[..n + 1]));
    PrefixFits(commands, n + 1, budget, compressedLen);
  }

  lemma LongestGoes(commands: seq<Command>, n: nat, budget: nat, compressedLen: string -> nat)
    requires Longest(commands, n, budget, compressedLen)
    ensures Goes(commands, n, budget, compressedLen)
  {
    if n >= 2 {
      LongestFits(commands, n, budget, compressedLen);
    }
    if n < |commands| && n < 256 {
      OneMoreDoesNot(commands, n, budget, compressedLen);
    }
  }

  lemma PrefixFits(commands: seq<Command>, n: nat, budget: nat, compressedLen: string -> nat)
    requires n <= |commands|
    ensures PushFits(budget, compressedLen)(EncodeArray(Splice.Encodings(commands, EncodeCommand)[..n]))
      <==> Fits(commands[..n], budget, compressedLen)
  {
    EncodedPrefix(commands, n);
  }

  /**
   Every request built from well-formed commands meets the server's limits, although the first
   command always goes.
   */
  lemma PushIsValid(cfg: Config, outbox: seq<OutboxEntry>, protocol: nat, budget: nat, compressedLen: string -> nat)
    requires forall e :: e in outbox ==> WellFormed(e.command)
    ensures var sendable := Sendable(cfg, outbox);
      var n := PushCount(sendable, EncodeCommand, budget, compressedLen);
      && n <= 256 && |EncodeCommands(sendable[..n])| <= 0x10_0000
      && ValidatePush(PushRequest(protocol, sendable[..n])).Ok?
  {
    SendableWellFormed(cfg, outbox);
    var sendable := Sendable(cfg, outbox);
    var n := PushCount(sendable, EncodeCommand, budget, compressedLen);
    PushCountMeans(sendable, budget, compressedLen);
    EncodedPrefix(sendable, n);
    GreedyIsValid(sendable, n, protocol);
  }

  lemma EncodedPrefix(cs: seq<Command>, n: nat)
    requires n <= |cs|
    ensures EncodeCommands(cs[..n]) == EncodeArray(Splice.Encodings(cs, EncodeCommand)[..n])
  {
    var chosen := cs[..n];
    assert seq(|chosen|, i requires 0 <= i < |chosen| => EncodeCommand(chosen[i]))
      == Splice.Encodings(cs, EncodeCommand)[..n];
  }

  /**
   Every queued command is sent or held back, and each one held back is reported with its schema and
   the reason it cannot be brought to this app's.
   */
  lemma {:induction false} SentOrHeld(cfg: Config, outbox: seq<OutboxEntry>)
    ensures |Sendable(cfg, outbox)| + |HeldReports(cfg, outbox)| == |outbox|
    ensures forall t :: t in HeldReports(cfg, outbox) <==>
      exists e :: e in outbox && Outgoing(cfg, e).Err?
        && t == CommandHeld(e.command.id, e.schema, Outgoing(cfg, e).error)
    ensures forall c :: c in Sendable(cfg, outbox) <==> exists e :: e in outbox && Outgoing(cfg, e) == Ok(c)
  {
    if outbox != [] {
      var init, last := outbox[..|outbox| - 1], outbox[|outbox| - 1];
      SentOrHeld(cfg, init);
      assert outbox == init + [last] && last in outbox;
    }
  }

  /** A request is refused if and only if it holds too many commands or they come out too long. */
  lemma ValidatePushMeans(r: PushRequest)
    ensures ValidatePush(r).Ok? <==> |r.commands| <= 256 && |EncodeCommands(r.commands)| <= 0x10_0000
    ensures ValidatePush(r).Err? ==>
      ValidatePush(r).error
        == if |r.commands| > 256 then TooManyItems(256, |r.commands|)
           else TooLong(0x10_0000, |EncodeCommands(r.commands)|)
  {
  }

  lemma GreedyIsValid(sendable: seq<Command>, n: nat, protocol: nat)
    requires n <= |sendable| && n <= COMMANDS_MAX_COUNT && forall c :: c in sendable ==> WellFormed(c)
    requires n >= 2 ==> |EncodeArray(Splice.Encodings(sendable, EncodeCommand)[..n])| <= COMMANDS_MAX_TOTAL_BYTES
    ensures ValidatePush(PushRequest(protocol, sendable[..n])).Ok?
  {
    var chosen := sendable[..n];
    EncodedPrefix(sendable, n);
    if n == 1 {
      assert chosen[0] in sendable;
      OneCommandFits(chosen[0]);
    }
  }
}
