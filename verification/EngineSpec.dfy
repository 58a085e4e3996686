/**
 The client engine's transitions as functions of its memory, the database and what storage will
 do. They read each row's current version from the rows with the batch's earlier changes already
 applied; the engine class reads it from storage plus an overlay, and is proved to agree.
 */
module EngineSpec {
  import opened Prelude
  import opened Wire
  import opened Ids
  import opened Replay
  import opened Migrate
  import opened Storage
  import Digest
  import Splice

  // ----- configuration -----

  datatype EntityRegistration = EntityRegistration(scope: ScopeId, conflictClass: ConflictClass, schema: nat)

  datatype Registry = Registry(entities: map<EntityName, EntityRegistration>, commands: map<string, EntityName>)

  datatype Config = Config(registry: Registry, steps: Steps)

  function ClassOf(registry: Registry, entity: EntityName): Option<ConflictClass> {
    if entity in registry.entities then Some(registry.entities[entity].conflictClass) else None
  }

  datatype RegistryError = UnknownCommand | UnknownEntity | RefusesCommands

  function CheckCommand(registry: Registry, command: Command): Result<EntityName, RegistryError> {
    if command.name !in registry.commands then Err(UnknownCommand)
    else
      var entity := registry.commands[command.name];
      if entity !in registry.entities then Err(UnknownEntity)
      else if registry.entities[entity].conflictClass.ServerAuthoritative? then Err(RefusesCommands)
      else Ok(entity)
  }

  /** Whether a host document is an object without floating-point numbers, left uninterpreted. */
  const WellShaped: string -> bool

  predicate FitsAs(doc: Document, max: nat) {
    WellShaped(doc.canonical) && |doc.canonical| <= max
  }

  // ----- memory -----

  datatype ScopeState = ScopeState(cursor: nat, digest: Digest.U128)

  const NEW_SCOPE := ScopeState(0, 0)

  datatype ScopeHealth = Healthy | Tainted(count: nat) | Healed(count: nat) | Unhealable(count: nat)
  {
    predicate IsHealthy() { Healthy? || Healed? }

    predicate NeedsRebootstrap() { Tainted? }

    function Attempts(): nat { if Healthy? then 0 else count }
  }

  datatype Telemetry =
    | RowQuarantined(change: Change, error: MigrationError)
    | ScopeUnhealable(scope: ScopeId, attempts: nat)
    | UpgradeRequired(queued: nat)
    | CommandHeld(id: CommandId, authoredUnder: nat, error: MigrationError)
    | ScopeDiverged(scope: ScopeId, client: string, server: string)

  datatype Memory = Memory(
    scopes: map<ScopeId, ScopeState>,
    outbox: seq<OutboxEntry>,
    suspect: set<ScopeId>,
    outboxSuspect: bool,
    health: map<ScopeId, ScopeHealth>,
    upgradeRequired: bool,
    effects: seq<Telemetry>)

  const FRESH_MEMORY := Memory(map[], [], {}, false, map[], false, [])

  datatype ApplyError =
    | OutOfOrder(previous: nat, found: nat)
    | AlreadyApplied(cursor: nat, found: nat)
    | CursorWouldRegress(nextCursor: nat, lastSeq: nat)
    | Inconsistent
    | AppendOnlyOverwrite(key: RowKey, stored: nat, incoming: nat)
    | StorageFailed

  datatype BatchReport = BatchReport(changes: nat, diverged: bool)

  /** Where a call leaves the engine and the database, and what it returns. */
  datatype Outcome<T> = Outcome(mem: Memory, db: DbState, result: T)

  function StateOf(mem: Memory, scope: ScopeId): ScopeState {
    if scope in mem.scopes then mem.scopes[scope] else NEW_SCOPE
  }

  function HealthOf(mem: Memory, scope: ScopeId): ScopeHealth {
    if scope in mem.health then mem.health[scope] else Healthy
  }

  /** A scope's state as the database has it. */
  function StoredState(db: DbState, scope: ScopeId): ScopeState {
    match StoredScope(db, scope)
    case None => NEW_SCOPE
    case Some(s) => ScopeState(s.0, Digest.FromHex(s.1))
  }

  function Refreshed(mem: Memory, db: DbState, scope: ScopeId): Memory {
    if scope !in mem.suspect then mem
    else mem.(
      scopes := if StoredScope(db, scope).Some? then mem.scopes[scope := StoredState(db, scope)]
        else mem.scopes - {scope},
      suspect := mem.suspect - {scope})
  }

  function RefreshedOutbox(mem: Memory, db: DbState): Memory {
    if mem.outboxSuspect then mem.(outbox := db.outbox, outboxSuspect := false) else mem
  }

  // ----- ordering -----

  /** The first ordering fault among the first n changes. */
  function OrderFault(changes: seq<Change>, n: nat, cursor: nat): Option<ApplyError>
    requires n <= |changes|
  {
    if n == 0 then None
    else
      match OrderFault(changes, n - 1, cursor)
      case Some(e) => Some(e)
      case None =>
        var c := changes[n - 1];
        if c.seqNo <= cursor then Some(AlreadyApplied(cursor, c.seqNo))
        else if n >= 2 && c.seqNo <= changes[n - 2].seqNo then Some(OutOfOrder(changes[n - 2].seqNo, c.seqNo))
        else if !c.Consistent() then Some(Inconsistent)
        else None
  }

  function BatchFault(batch: Batch, cursor: nat): Option<ApplyError> {
    var cs := batch.changes;
    match OrderFault(cs, |cs|, cursor)
    case Some(e) => Some(e)
    case None =>
      if cs != [] && batch.nextCursor < cs[|cs| - 1].seqNo
        then Some(CursorWouldRegress(batch.nextCursor, cs[|cs| - 1].seqNo))
      else None
  }

  /** What an accepted batch's changes satisfy. */
  ghost predicate InOrder(changes: seq<Change>, cursor: nat) {
    && (forall i :: 0 <= i < |changes| ==> cursor < changes[i].seqNo && changes[i].Consistent())
    && (forall i, j :: 0 <= i < j < |changes| ==> changes[i].seqNo < changes[j].seqNo)
  }

  lemma {:induction false} OrderFaultMeaning(changes: seq<Change>, n: nat, cursor: nat)
    requires n <= |changes|
    ensures OrderFault(changes, n, cursor).None? <==> InOrder(changes[..n], cursor)
  {
    if n > 0 {
      OrderFaultMeaning(changes, n - 1, cursor);
      assert changes[..n][..n - 1] == changes[..n - 1];
      if InOrder(changes[..n], cursor) {
        assert forall i :: 0 <= i < n - 1 ==> changes[..n - 1][i] == changes[..n][i];
        assert changes[..n][n - 1] == changes[n - 1];
        assert n >= 2 ==> changes[..n][n - 2] == changes[n - 2];
      } else if InOrder(changes[..n - 1], cursor) && OrderFault(changes, n, cursor).None? {
        forall i, j | 0 <= i < j < n ensures changes[i].seqNo < changes[j].seqNo {
          if j == n - 1 && i < n - 2 {
            assert changes[..n - 1][i].seqNo < changes[..n - 1][n - 2].seqNo;
          } else if j < n - 1 {
            assert changes[..n - 1][i].seqNo < changes[..n - 1][j].seqNo;
          }
        }
      }
    }
  }

  /** A batch passes exactly when it is strictly ascending past the cursor, consistent, and covered. */
  lemma BatchFaultMeaning(batch: Batch, cursor: nat)
    ensures BatchFault(batch, cursor).None? <==>
      && InOrder(batch.changes, cursor)
      && (batch.changes != [] ==> batch.changes[|batch.changes| - 1].seqNo <= batch.nextCursor)
  {
    OrderFaultMeaning(batch.changes, |batch.changes|, cursor);
    assert batch.changes[..|batch.changes|] == batch.changes;
  }

  /** A fault at one change, the first after changes in order, named with the numbers that clash. */
  ghost predicate FaultAt(changes: seq<Change>, i: nat, cursor: nat, e: ApplyError)
    requires i < |changes|
  {
    && InOrder(changes[..i], cursor)
    && match e
       case AlreadyApplied(c, found) => c == cursor && found == changes[i].seqNo && found <= cursor
       case OutOfOrder(previous, found) =>
         i > 0 && previous == changes[i - 1].seqNo && found == changes[i].seqNo && cursor < found <= previous
       case Inconsistent =>
         && !changes[i].Consistent() && cursor < changes[i].seqNo
         && (i > 0 ==> changes[i - 1].seqNo < changes[i].seqNo)
       case _ => false
  }

  lemma {:induction false} OrderFaultNames(changes: seq<Change>, n: nat, cursor: nat)
    requires n <= |changes| && OrderFault(changes, n, cursor).Some?
    ensures exists i :: 0 <= i < n && FaultAt(changes, i, cursor, OrderFault(changes, n, cursor).value)
  {
    if OrderFault(changes, n - 1, cursor).Some? {
      OrderFaultNames(changes, n - 1, cursor);
    } else {
      OrderFaultMeaning(changes, n - 1, cursor);
      assert FaultAt(changes, n - 1, cursor, OrderFault(changes, n, cursor).value);
    }
  }

  /** What a refused batch is refused for: its first fault, or a cursor that does not cover its last change. */
  lemma BatchFaultNames(batch: Batch, cursor: nat)
    requires BatchFault(batch, cursor).Some?
    ensures var cs, e := batch.changes, BatchFault(batch, cursor).value;
      if InOrder(cs, cursor)
      then cs != [] && e == CursorWouldRegress(batch.nextCursor, cs[|cs| - 1].seqNo)
        && batch.nextCursor < cs[|cs| - 1].seqNo
      else exists i :: 0 <= i < |cs| && FaultAt(cs, i, cursor, e)
  {
    var cs := batch.changes;
    OrderFaultMeaning(cs, |cs|, cursor);
    assert cs[..|cs|] == cs;
    if OrderFault(cs, |cs|, cursor).Some? {
      OrderFaultNames(cs, |cs|, cursor);
    }
  }

  // ----- staging -----

  /** The change under this app's schema, when it can be reached. */
  function Localized(cfg: Config, c: Change): Result<Change, MigrationError> {
    var entity := c.key.entity;
    if entity !in cfg.registry.entities then Ok(c)
    else
      var target := cfg.registry.entities[entity].schema;
      if c.schema == target || c.snapshot.None? then Ok(c)
      else
        match Migrated(cfg.steps, entity, c.snapshot.value, c.schema, target)
        case Err(e) => Err(e)
        case Ok(doc) =>
          if FitsAs(doc, SNAPSHOT_MAX_BYTES) then Ok(c.(snapshot := Some(doc), schema := target))
            else Err(Invalid(entity))
  }

  datatype Staging = Staging(
    versions: map<RowKey, nat>,   // each row's version with the earlier changes applied
    digest: Digest.U128,
    ops: seq<StorageOp>,
    quarantined: seq<(Change, MigrationError)>)

  /** The digest after a row goes from its current version, if any, to a new one. */
  function Replaced(digest: nat, versions: map<RowKey, nat>, key: RowKey, version: nat): Digest.U128 {
    if key in versions then Digest.Added(Digest.Removed(digest, key, versions[key]), key, version)
    else Digest.Added(digest, key, version)
  }

  function StagedRow(s: Staging, c: Change, cls: Option<ConflictClass>): Result<Staging, ApplyError> {
    if c.op.Upsert? then
      if c.snapshot.None? then Err(Inconsistent)
      else if cls == Some(AppendOnly) && c.key in s.versions && s.versions[c.key] != c.version then
        Err(AppendOnlyOverwrite(c.key, s.versions[c.key], c.version))
      else
        Ok(s.(versions := s.versions[c.key := c.version],
              digest := Replaced(s.digest, s.versions, c.key, c.version),
              ops := s.ops + [UpsertRow(c.key, c.snapshot.value, c.version, c.schema)]))
    else
      Ok(s.(versions := s.versions - {c.key},
            digest := if c.key in s.versions then Digest.Removed(s.digest, c.key, s.versions[c.key]) else s.digest,
            ops := s.ops + [DeleteRow(c.key)]))
  }

  function StagedQuarantine(s: Staging, c: Change, e: MigrationError): Result<Staging, ApplyError> {
    if c.snapshot.None? then Err(Inconsistent)
    else
      Ok(Staging(s.versions[c.key := c.version], Replaced(s.digest, s.versions, c.key, c.version),
                 s.ops + [QuarantineRow(c, e)], s.quarantined + [(c, e)]))
  }

  function StagedChange(cfg: Config, s: Staging, c: Change): Result<Staging, ApplyError> {
    match Localized(cfg, c)
    case Ok(m) => StagedRow(s, m, ClassOf(cfg.registry, c.key.entity))
    case Err(e) => StagedQuarantine(s, c, e)
  }

  function StagedAll(cfg: Config, s: Staging, cs: seq<Change>): Result<Staging, ApplyError> {
    if cs == [] then Ok(s)
    else
      match StagedAll(cfg, s, cs[..|cs| - 1])
      case Err(e) => Err(e)
      case Ok(t) => StagedChange(cfg, t, cs[|cs| - 1])
  }

  lemma {:induction false} StagingErrorsStick(cfg: Config, s: Staging, cs: seq<Change>, n: nat)
    requires n <= |cs| && StagedAll(cfg, s, cs[..n]).Err?
    ensures StagedAll(cfg, s, cs) == StagedAll(cfg, s, cs[..n])
    decreases |cs|
  {
    if n < |cs| {
      assert cs[..|cs| - 1][..n] == cs[..n];
      StagingErrorsStick(cfg, s, cs[..|cs| - 1], n);
    } else {
      assert cs[..n] == cs;
    }
  }

  function StartStaging(db: DbState, digest: Digest.U128): Staging {
    Staging(Versions(db.rows), digest, [], [])
  }

  // ----- applying a batch -----

  const MAX_HEAL_ATTEMPTS: nat := 3
  const MAX_U32: nat := 0xffff_ffff

  function NextAttempt(h: ScopeHealth): nat {
    if h.Attempts() >= MAX_U32 then MAX_U32 else h.Attempts() + 1
  }

  datatype Judgement = Judgement(diverged: bool, counts: bool, heals: bool)

  function Judged(h: ScopeHealth, clientHex: string, serverHex: string, compare: bool, rebuilding: bool): Judgement {
    var diverged := compare && clientHex != serverHex;
    Judgement(diverged,
              diverged && (h.IsHealthy() || (rebuilding && h.NeedsRebootstrap())),
              compare && !diverged && h.NeedsRebootstrap())
  }

  function BatchOps(sg: Staging, batch: Batch, h: ScopeHealth, j: Judgement): seq<StorageOp> {
    sg.ops + [SetCursor(batch.scope, batch.nextCursor), SetScopeDigest(batch.scope, Digest.ToHex(sg.digest))]
    + (if j.counts then [RecordDivergence(batch.scope, NextAttempt(h), false)] else [])
    + (if j.heals then [RecordDivergence(batch.scope, h.Attempts(), true)] else [])
  }

  function QuarantineReports(q: seq<(Change, MigrationError)>): seq<Telemetry> {
    seq(|q|, i requires 0 <= i < |q| => RowQuarantined(q[i].0, q[i].1))
  }

  function TaintedMemory(mem: Memory, scope: ScopeId, attempts: nat): Memory {
    if attempts >= MAX_HEAL_ATTEMPTS
    then mem.(effects := mem.effects + [ScopeUnhealable(scope, attempts)],
              health := mem.health[scope := Unhealable(attempts)])
    else mem.(health := mem.health[scope := Tainted(attempts)])
  }

  /** Memory after the transaction was reported committed. */
  function CommittedMemory(mem: Memory, sg: Staging, batch: Batch, h: ScopeHealth, j: Judgement): Memory {
    var m := mem.(scopes := mem.scopes[batch.scope := ScopeState(batch.nextCursor, sg.digest)],
                  effects := mem.effects + QuarantineReports(sg.quarantined));
    if j.counts then
      TaintedMemory(m.(effects := m.effects + [ScopeDiverged(batch.scope, Digest.ToHex(sg.digest), batch.digest)]),
                    batch.scope, NextAttempt(h))
    else if j.heals then m.(health := m.health[batch.scope := Healed(h.Attempts())])
    else m
  }

  function SuspectMemory(mem: Memory, scope: ScopeId): Memory {
    mem.(suspect := mem.suspect + {scope}, outboxSuspect := true)
  }

  function AppliedBatch(cfg: Config, mem: Memory, db: DbState, verdict: Verdict, batch: Batch, compare: bool,
                        rebuilding: bool)
    : Outcome<Result<BatchReport, ApplyError>>
  {
    var m := Refreshed(mem, db, batch.scope);
    var state := StateOf(m, batch.scope);
    match BatchFault(batch, state.cursor)
    case Some(e) => Outcome(m, db, Err(e))
    case None =>
      match StagedAll(cfg, StartStaging(db, state.digest), batch.changes)
      case Err(e) => Outcome(m, db, Err(e))
      case Ok(sg) => CommittedBatch(m, db, verdict, sg, batch, compare, rebuilding)
  }

  function CommittedBatch(m: Memory, db: DbState, verdict: Verdict, sg: Staging, batch: Batch, compare: bool,
                          rebuilding: bool)
    : Outcome<Result<BatchReport, ApplyError>>
  {
    var h := HealthOf(m, batch.scope);
    var j := Judged(h, Digest.ToHex(sg.digest), batch.digest, compare, rebuilding);
    var (db', ok) := Transacted(db, BatchOps(sg, batch, h, j), verdict);
    if ok then Outcome(CommittedMemory(m, sg, batch, h, j), db', Ok(BatchReport(|batch.changes|, j.diverged)))
    else Outcome(SuspectMemory(m, batch.scope), db', Err(StorageFailed))
  }

  // ----- rebuilding -----

  function ScopeEntities(registry: Registry, scope: ScopeId): set<EntityName> {
    set e | e in registry.entities && registry.entities[e].scope == scope
  }

  function RebootstrapOps(registry: Registry, scope: ScopeId): seq<StorageOp> {
    [ClearScope(scope, ScopeEntities(registry, scope)), SetCursor(scope, 0),
     SetScopeDigest(scope, Digest.ToHex(Digest.EMPTY))]
  }

  function Rebootstrapped(cfg: Config, mem: Memory, db: DbState, verdict: Verdict, scope: ScopeId): Outcome<bool> {
    var (db', ok) := Transacted(db, RebootstrapOps(cfg.registry, scope), verdict);
    if ok then Outcome(mem.(scopes := mem.scopes[scope := NEW_SCOPE]), db', true)
    else Outcome(SuspectMemory(mem, scope), db', false)
  }

  function ClearedHealth(mem: Memory, db: DbState, verdict: Verdict, scope: ScopeId): Outcome<bool> {
    var (db', ok) := Transacted(db, [RecordDivergence(scope, 0, false)], verdict);
    if ok then Outcome(mem.(health := mem.health - {scope}), db', true) else Outcome(mem, db', false)
  }

  /** The health a restart reads back from what was recorded. */
  function RestoredHealth(attempts: nat, healed: bool): ScopeHealth {
    if attempts == 0 then Healthy
    else if healed then Healed(attempts)
    else if attempts >= MAX_HEAL_ATTEMPTS then Unhealable(attempts)
    else Tainted(attempts)
  }

  // ----- the outbox -----

  datatype OutboxError = Refused(error: RegistryError) | OutboxStorage

  function Enqueued(cfg: Config, mem: Memory, db: DbState, verdict: Verdict,
                    entry: OutboxEntry): Outcome<Result<(), OutboxError>> {
    match CheckCommand(cfg.registry, entry.command)
    case Err(e) => Outcome(mem, db, Err(Refused(e)))
    case Ok(_) =>
      var (db', ok) := Transacted(db, [EnqueueCommand(entry)], verdict);
      if ok then Outcome(mem.(outbox := mem.outbox + [entry]), db', Ok(()))
      else Outcome(mem.(outboxSuspect := true), db', Err(OutboxStorage))
  }

  /** The command as it would be pushed under this app's schema. */
  function Outgoing(cfg: Config, entry: OutboxEntry): Result<Command, MigrationError> {
    var c := entry.command;
    if c.name !in cfg.registry.commands then Ok(c)
    else
      var entity := cfg.registry.commands[c.name];
      if entity !in cfg.registry.entities then Ok(c)
      else
        var target := cfg.registry.entities[entity].schema;
        if entry.schema == target then Ok(c)
        else
          match Migrated(cfg.steps, entity, c.payload, entry.schema, target)
          case Err(e) => Err(e)
          case Ok(doc) => if FitsAs(doc, PAYLOAD_MAX_BYTES) then Ok(c.(payload := doc)) else Err(Invalid(entity))
  }

  /** The commands that can be sent, in outbox order. */
  function Sendable(cfg: Config, outbox: seq<OutboxEntry>): seq<Command> {
    if outbox == [] then []
    else
      var init := Sendable(cfg, outbox[..|outbox| - 1]);
      match Outgoing(cfg, outbox[|outbox| - 1])
      case Ok(c) => init + [c]
      case Err(_) => init
  }

  /** Reports for the commands that cannot. */
  function HeldReports(cfg: Config, outbox: seq<OutboxEntry>): seq<Telemetry> {
    if outbox == [] then []
    else
      var init := HeldReports(cfg, outbox[..|outbox| - 1]);
      var last := outbox[|outbox| - 1];
      match Outgoing(cfg, last)
      case Ok(_) => init
      case Err(e) => init + [CommandHeld(last.command.id, last.schema, e)]
  }

  function PushFits(budget: nat, compressedLen: string -> nat): string -> bool {
    (s: string) => |s| <= COMMANDS_MAX_TOTAL_BYTES && compressedLen(s) <= budget
  }

  /** How many sendable commands go: the greedy prefix under both caps and the compressed budget. */
  function PushCount(commands: seq<Command>, encode: Command -> string, budget: nat,
                     compressedLen: string -> nat): (n: nat)
    ensures n <= |commands|
  {
    Splice.Greedy(Splice.Encodings(commands, encode), 0, COMMANDS_MAX_COUNT, PushFits(budget, compressedLen))
  }

  function ResolutionOf(r: CommandResult): Resolution {
    match r.status
    case Applied => ResApplied(r.serverSeq)
    case Superseded => ResSuperseded
    case Rejected => DeadLettered(if r.reason.Some? then r.reason.value
      else "Rejected by the server without a stated reason.")
  }

  function Find(outbox: seq<OutboxEntry>, id: CommandId): Option<OutboxEntry> {
    if outbox == [] then None
    else if outbox[0].command.id == id then Some(outbox[0])
    else Find(outbox[1..], id)
  }

  datatype Resolved = Resolved(resolutions: seq<(CommandId, Resolution)>, unknown: nat)

  datatype Answers = Answers(ops: seq<StorageOp>, resolved: Resolved, answered: set<CommandId>)

  /** The draft op a superseded owner draft needs. */
  function DraftOps(cfg: Config, entry: OutboxEntry, status: Status): seq<StorageOp> {
    if status.Superseded? && entry.command.name in cfg.registry.commands
       && ClassOf(cfg.registry, cfg.registry.commands[entry.command.name]) == Some(OwnerDraft)
    then [SaveRecoveredDraft(cfg.registry.commands[entry.command.name], entry.command.id, entry.command.payload)]
    else []
  }

  function AnswerOne(cfg: Config, outbox: seq<OutboxEntry>, a: Answers, r: CommandResult): Answers {
    var entry := Find(outbox, r.id);
    if entry.None? || r.id in a.answered then a.(resolved := a.resolved.(unknown := a.resolved.unknown + 1))
    else
      Answers(a.ops + DraftOps(cfg, entry.value, r.status) + [ResolveCommand(r.id, ResolutionOf(r))],
              a.resolved.(resolutions := a.resolved.resolutions + [(r.id, ResolutionOf(r))]),
              a.answered + {r.id})
  }

  const NO_ANSWERS := Answers([], Resolved([], 0), {})

  function AnswerAll(cfg: Config, outbox: seq<OutboxEntry>, rs: seq<CommandResult>): Answers {
    if rs == [] then NO_ANSWERS else AnswerOne(cfg, outbox, AnswerAll(cfg, outbox, rs[..|rs| - 1]), rs[|rs| - 1])
  }

  function Pruned(outbox: seq<OutboxEntry>, resolutions: seq<(CommandId, Resolution)>): seq<OutboxEntry> {
    if resolutions == [] then outbox
    else Without(Pruned(outbox, resolutions[..|resolutions| - 1]), resolutions[|resolutions| - 1].0)
  }

  function ResultsApplied(cfg: Config, mem: Memory, db: DbState, verdict: Verdict, rs: seq<CommandResult>)
    : Outcome<Result<Resolved, OutboxError>>
  {
    var m := RefreshedOutbox(mem, db);
    var a := AnswerAll(cfg, m.outbox, rs);
    if a.ops == [] then Outcome(m, db, Ok(a.resolved))
    else
      var (db', ok) := Transacted(db, a.ops, verdict);
      if ok then Outcome(m.(outbox := Pruned(m.outbox, a.resolved.resolutions)), db', Ok(a.resolved))
      else Outcome(m.(outboxSuspect := true), db', Err(OutboxStorage))
  }

  /** A fresh engine over what the database holds; the host may or may not hand back the health record. */
  function Restarted(db: DbState, restoreHealth: bool): Memory {
    FRESH_MEMORY.(
      scopes := map s | s in db.cursors :: StoredState(db, s),
      outbox := db.outbox,
      health := if restoreHealth
                then map s | s in db.divergences && db.divergences[s].0 != 0 ::
                       RestoredHealth(db.divergences[s].0, db.divergences[s].1)
                else map[])
  }

  // ----- whole runs -----

  /** One call on the engine, with what storage will do to the transaction inside it. */
  datatype Event =
    | ApplyBatch(batch: Batch, rebuilding: bool, verdict: Verdict)
    | BeginRebootstrap(scope: ScopeId, verdict: Verdict)
    | ClearScopeHealth(scope: ScopeId, verdict: Verdict)
    | ReloadScope(scope: ScopeId)
    | Enqueue(entry: OutboxEntry, verdict: Verdict)
    | BuildPush(reported: seq<Telemetry>)
    | ApplyResults(results: seq<CommandResult>, verdict: Verdict)
    | OnUpgradeRequired
    | UpgradeCompleted
    | Restart(restoreHealth: bool)

  function Stepped(cfg: Config, mem: Memory, db: DbState, e: Event): (Memory, DbState) {
    match e
    case ApplyBatch(batch, rebuilding, verdict) =>
      var o := AppliedBatch(cfg, mem, db, verdict, batch, !batch.hasMore, rebuilding); (o.mem, o.db)
    case BeginRebootstrap(scope, verdict) => var o := Rebootstrapped(cfg, mem, db, verdict, scope); (o.mem, o.db)
    case ClearScopeHealth(scope, verdict) => var o := ClearedHealth(mem, db, verdict, scope); (o.mem, o.db)
    case ReloadScope(scope) => (RefreshedOutbox(Refreshed(mem, db, scope), db), db)
    case Enqueue(entry, verdict) => var o := Enqueued(cfg, mem, db, verdict, entry); (o.mem, o.db)
    case BuildPush(reported) => var m := RefreshedOutbox(mem, db); (m.(effects := m.effects + reported), db)
    case ApplyResults(results, verdict) => var o := ResultsApplied(cfg, mem, db, verdict, results); (o.mem, o.db)
    case OnUpgradeRequired => (mem.(upgradeRequired := true, effects := mem.effects + [UpgradeRequired(|mem.outbox|)]),
                               db)
    case UpgradeCompleted => (mem.(upgradeRequired := false), db)
    case Restart(restoreHealth) => (Restarted(db, restoreHealth), db)
  }

  /** Where a sequence of calls on one device leaves its memory and database. */
  function Ran(cfg: Config, mem: Memory, db: DbState, events: seq<Event>): (Memory, DbState) {
    if events == [] then (mem, db)
    else
      var (m, d) := Ran(cfg, mem, db, events[..|events| - 1]);
      Stepped(cfg, m, d, events[|events| - 1])
  }
}
