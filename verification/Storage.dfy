/** One device's local database: one transaction commits whole or not at all, and may lie about it. */
module Storage {
  import opened Prelude
  import opened Wire
  import opened Ids
  import opened Replay
  import opened Migrate
  import Digest

  datatype Resolution = ResApplied(serverSeq: Option<nat>) | ResSuperseded | DeadLettered(reason: string)

  datatype OutboxEntry = OutboxEntry(command: Command, schema: nat)

  datatype StorageOp =
    | UpsertRow(key: RowKey, snapshot: Document, version: nat, schema: nat)
    | DeleteRow(key: RowKey)
    | SetCursor(scope: ScopeId, cursor: nat)
    | SetScopeDigest(scope: ScopeId, digest: string)
    | EnqueueCommand(entry: OutboxEntry)
    | ResolveCommand(id: CommandId, resolution: Resolution)
    | SaveRecoveredDraft(entity: EntityName, id: CommandId, payload: Document)
    | RecordDivergence(scope: ScopeId, attempts: nat, healed: bool)
    | ClearScope(scope: ScopeId, entities: set<EntityName>)
    | QuarantineRow(change: Change, error: MigrationError)

  /** The database's contents. */
  datatype DbState = DbState(
    rows: Rows,
    cursors: map<ScopeId, nat>,
    digests: map<ScopeId, string>,
    outbox: seq<OutboxEntry>,
    resolved: seq<(CommandId, Resolution)>,
    recovered: seq<(CommandId, EntityName, Document)>,
    commits: nat,
    quarantine: seq<(Change, MigrationError)>,
    divergences: map<ScopeId, (nat, bool)>,
    enqueued: set<CommandId>)

  const EMPTY_DB := DbState(map[], map[], map[], [], [], [], 0, [], map[], {})

  /** The entries that stay when one command leaves the outbox. */
  function Without(outbox: seq<OutboxEntry>, id: CommandId): seq<OutboxEntry> {
    if outbox == [] then []
    else
      var init := Without(outbox[..|outbox| - 1], id);
      if outbox[|outbox| - 1].command.id == id then init else init + [outbox[|outbox| - 1]]
  }

  function ApplyOp(db: DbState, op: StorageOp): DbState {
    match op
    case UpsertRow(key, snapshot, version, schema) => db.(rows := db.rows[key := StoredRow(snapshot, version, schema)])
    case DeleteRow(key) => db.(rows := db.rows - {key})
    case SetCursor(scope, cursor) => db.(cursors := db.cursors[scope := cursor])
    case SetScopeDigest(scope, digest) => db.(digests := db.digests[scope := digest])
    case EnqueueCommand(entry) => db.(outbox := db.outbox + [entry], enqueued := db.enqueued + {entry.command.id})
    case ResolveCommand(id, resolution) =>
      db.(outbox := Without(db.outbox, id), resolved := db.resolved + [(id, resolution)])
    case SaveRecoveredDraft(entity, id, payload) => db.(recovered := db.recovered + [(id, entity, payload)])
    case RecordDivergence(scope, attempts, healed) => db.(divergences := db.divergences[scope := (attempts, healed)])
    case ClearScope(scope, entities) =>
      db.(rows := map k | k in db.rows && k.entity !in entities :: db.rows[k],
          cursors := db.cursors - {scope}, digests := db.digests - {scope})
    case QuarantineRow(change, error) => db.(quarantine := db.quarantine + [(change, error)])
  }

  function ApplyOps(db: DbState, ops: seq<StorageOp>): DbState {
    if ops == [] then db else ApplyOp(ApplyOps(db, ops[..|ops| - 1]), ops[|ops| - 1])
  }

  lemma {:induction false} ApplyOpsSplits(db: DbState, a: seq<StorageOp>, b: seq<StorageOp>)
    ensures ApplyOps(db, a + b) == ApplyOps(ApplyOps(db, a), b)
  {
    if b == [] {
      assert a + b == a;
    } else {
      assert (a + b)[..|a + b| - 1] == a + b[..|b| - 1];
      ApplyOpsSplits(db, a, b[..|b| - 1]);
    }
  }

  /** What a transaction does instead of succeeding. */
  datatype Verdict = Commit | FailBeforeCommit | CommitThenLoseAck

  /** The database after a transaction, and whether the engine was told it committed. */
  function Transacted(db: DbState, ops: seq<StorageOp>, verdict: Verdict): (DbState, bool) {
    match verdict
    case FailBeforeCommit => (db, false)
    case Commit => (ApplyOps(db, ops).(commits := db.commits + 1), true)
    case CommitThenLoseAck => (ApplyOps(db, ops).(commits := db.commits + 1), false)
  }

  lemma OneOpUncounted(db: DbState, op: StorageOp)
    ensures ApplyOp(db, op).commits == db.commits
  {
  }

  lemma {:induction false} CommitsUntouched(db: DbState, ops: seq<StorageOp>)
    ensures ApplyOps(db, ops).commits == db.commits
  {
    if ops != [] {
      CommitsUntouched(db, ops[..|ops| - 1]);
      OneOpUncounted(ApplyOps(db, ops[..|ops| - 1]), ops[|ops| - 1]);
    }
  }

  class Db {
    var rows: Rows
    var cursors: map<ScopeId, nat>
    var digests: map<ScopeId, string>
    var outbox: seq<OutboxEntry>
    var resolved: seq<(CommandId, Resolution)>
    var recovered: seq<(CommandId, EntityName, Document)>
    var commits: nat
    var quarantine: seq<(Change, MigrationError)>
    var divergences: map<ScopeId, (nat, bool)>
    var enqueued: set<CommandId>
    var verdict: Verdict

    function View(): DbState reads this {
      DbState(rows, cursors, digests, outbox, resolved, recovered, commits, quarantine, divergences, enqueued)
    }

    constructor (state: DbState)
      ensures View() == state && verdict == Commit
    {
      rows, cursors, digests, outbox, resolved :=
        state.rows, state.cursors, state.digests, state.outbox, state.resolved;
      recovered, commits, quarantine := state.recovered, state.commits, state.quarantine;
      divergences, enqueued, verdict := state.divergences, state.enqueued, Commit;
    }

    /** A second database holding what this one would after the operations; this one is not touched. */
    method Staged(ops: seq<StorageOp>) returns (next: Db)
      ensures fresh(next) && next.View() == ApplyOps(View(), ops) && next.verdict == Commit
    {
      next := new Db(View());
      for i := 0 to |ops|
        invariant fresh(next) && next.View() == ApplyOps(View(), ops[..i]) && next.verdict == Commit
      {
        assert ops[..i + 1][..i] == ops[..i];
        next.Perform(ops[i]);
      }
      assert ops[..|ops|] == ops;
    }

    method Perform(op: StorageOp)
      modifies this
      ensures View() == ApplyOp(old(View()), op) && verdict == old(verdict)
    {
      match op
      case UpsertRow(key, snapshot, version, schema) => rows := rows[key := StoredRow(snapshot, version, schema)];
      case DeleteRow(key) => rows := rows - {key};
      case SetCursor(scope, cursor) => cursors := cursors[scope := cursor];
      case SetScopeDigest(scope, digest) => digests := digests[scope := digest];
      case EnqueueCommand(entry) =>
        outbox := outbox + [entry];
        enqueued := enqueued + {entry.command.id};
      case ResolveCommand(id, resolution) =>
        outbox := Without(outbox, id);
        resolved := resolved + [(id, resolution)];
      case SaveRecoveredDraft(entity, id, payload) => recovered := recovered + [(id, entity, payload)];
      case RecordDivergence(scope, attempts, healed) => divergences := divergences[scope := (attempts, healed)];
      case ClearScope(scope, entities) =>
        rows := map k | k in rows && k.entity !in entities :: rows[k];
        cursors := cursors - {scope};
        digests := digests - {scope};
      case QuarantineRow(change, error) => quarantine := quarantine + [(change, error)];
    }

    /** Takes over another database's contents whole. */
    method Replace(next: Db)
      modifies this
      ensures View() == old(next.View()) && verdict == old(next.verdict)
    {
      var view := next.View();
      verdict := next.verdict;
      rows, cursors, digests, outbox, resolved := view.rows, view.cursors, view.digests, view.outbox, view.resolved;
      recovered, commits, quarantine := view.recovered, view.commits, view.quarantine;
      divergences, enqueued := view.divergences, view.enqueued;
    }
  }

  class SimStorage {
    const db: Db

    constructor (db: Db)
      ensures this.db == db
    {
      this.db := db;
    }

    /** All of the ops or none, and a report that may not match. The armed verdict is used up. */
    method Transact(ops: seq<StorageOp>) returns (ok: bool)
      modifies db
      ensures (db.View(), ok) == Transacted(old(db.View()), ops, old(db.verdict))
      ensures ok <==> old(db.verdict) == Commit
      ensures old(db.verdict) == FailBeforeCommit ==> db.View() == old(db.View())
      ensures old(db.verdict) != FailBeforeCommit ==>
        db.View() == ApplyOps(old(db.View()), ops).(commits := old(db.commits) + 1)
      ensures db.verdict == Commit
    {
      var verdict := db.verdict;
      db.verdict := Commit;
      var staged := db.Staged(ops);
      if verdict.FailBeforeCommit? {
        return false;
      }
      CommitsUntouched(db.View(), ops);
      var commits := staged.commits + 1;
      db.Replace(staged);
      db.commits := commits;
      ok := verdict.Commit?;
    }

    function RowVersion(key: RowKey): Option<nat> reads db {
      if key in db.rows then Some(db.rows[key].version) else None
    }

    /** A scope's stored cursor and digest text, if it has a cursor. */
    function ScopeState(scope: ScopeId): Option<(nat, string)> reads db {
      StoredScope(db.View(), scope)
    }

    function Outbox(): seq<OutboxEntry> reads db {
      db.outbox
    }
  }

  function StoredScope(db: DbState, scope: ScopeId): Option<(nat, string)> {
    if scope in db.cursors
    then Some((db.cursors[scope], if scope in db.digests then db.digests[scope] else Digest.ToHex(Digest.EMPTY)))
    else None
  }
}
