/**
 The client engine: an object whose methods update its memory around one storage transaction
 each. Every method is proved to do what its transition function in EngineSpec says, including
 the in-batch overlay of staged versions and the spliced push buffer.
 */
module Engine {
  import opened Prelude
  import opened Wire
  import opened Ids
  import opened Replay
  import opened Migrate
  import opened Storage
  import opened EngineSpec
  import Digest
  import Splice

  // ----- ordering -----

  /** Checks every ordering rule before anything is staged. */
  method ValidateOrdering(batch: Batch, cursor: nat) returns (fault: Option<ApplyError>)
    ensures fault == BatchFault(batch, cursor)
  {
    var cs := batch.changes;
    var previous: Option<nat> := None;
    for i := 0 to |cs|
      invariant OrderFault(cs, i, cursor).None?
      invariant previous == if i == 0 then None else Some(cs[i - 1].seqNo)
    {
      FaultsStick(cs, i + 1, |cs|, cursor);
      var found := cs[i].seqNo;
      if found <= cursor {
        return Some(AlreadyApplied(cursor, found));
      }
      if previous.Some? && found <= previous.value {
        return Some(OutOfOrder(previous.value, found));
      }
      if !cs[i].Consistent() {
        return Some(Inconsistent);
      }
      previous := Some(found);
    }
    if previous.Some? && batch.nextCursor < previous.value {
      return Some(CursorWouldRegress(batch.nextCursor, previous.value));
    }
    fault := None;
  }

  lemma {:induction false} FaultsStick(cs: seq<Change>, n: nat, m: nat, cursor: nat)
    requires n <= m <= |cs|
    ensures OrderFault(cs, n, cursor).Some? ==> OrderFault(cs, m, cursor) == OrderFault(cs, n, cursor)
  {
    if n < m {
      FaultsStick(cs, n, m - 1, cursor);
    }
  }

  // ----- staging over uncommitted changes -----

  /** What earlier changes of this batch decided: a version, or None for a row they deleted. */
  type Overlay = map<RowKey, Option<nat>>

  function Current(stored: Rows, overlay: Overlay, key: RowKey): Option<nat> {
    if key in overlay then overlay[key] else if key in stored then Some(stored[key].version) else None
  }

  /** The overlay over storage reads exactly like the rows with the batch's changes already applied. */
  ghost predicate ReadsAs(stored: Rows, overlay: Overlay, versions: map<RowKey, nat>) {
    forall k :: Current(stored, overlay, k) == if k in versions then Some(versions[k]) else None
  }

  method StageChange(storage: SimStorage, change: Change, cls: Option<ConflictClass>, digest: Digest.ScopeDigest,
                     ops: seq<StorageOp>, overlay: Overlay, ghost s: Staging)
    returns (fault: Option<ApplyError>, ops': seq<StorageOp>, overlay': Overlay)
    requires digest.Valid() && digest.raw == s.digest && ops == s.ops && ReadsAs(storage.db.rows, overlay, s.versions)
    modifies digest
    ensures digest.Valid()
    ensures match StagedRow(s, change, cls)
      case Err(e) => fault == Some(e)
      case Ok(t) =>
        && fault == None && ops' == t.ops && digest.raw == t.digest
        && ReadsAs(storage.db.rows, overlay', t.versions)
  {
    fault, ops', overlay' := None, ops, overlay;
    var current := if change.key in overlay then overlay[change.key] else storage.RowVersion(change.key);
    assert current == Current(storage.db.rows, overlay, change.key);
    match change.op
    case Upsert =>
      if change.snapshot.None? {
        return Some(Inconsistent), ops, overlay;
      }
      if cls == Some(AppendOnly) && current.Some? && current.value != change.version {
        return Some(AppendOnlyOverwrite(change.key, current.value, change.version)), ops, overlay;
      }
      match current {
        case Some(held) => digest.Update(change.key, held, change.version);
        case None => digest.Add(change.key, change.version);
      }
      ops' := ops + [UpsertRow(change.key, change.snapshot.value, change.version, change.schema)];
      overlay' := overlay[change.key := Some(change.version)];
    case Delete =>
      if current.Some? {
        digest.Remove(change.key, current.value);
      }
      ops' := ops + [DeleteRow(change.key)];
      overlay' := overlay[change.key := None];
  }

  method StageQuarantine(storage: SimStorage, change: Change, digest: Digest.ScopeDigest,
                         ops: seq<StorageOp>, overlay: Overlay, error: MigrationError, ghost s: Staging)
    returns (fault: Option<ApplyError>, ops': seq<StorageOp>, overlay': Overlay)
    requires digest.Valid() && digest.raw == s.digest && ops == s.ops && ReadsAs(storage.db.rows, overlay, s.versions)
    modifies digest
    ensures digest.Valid()
    ensures match StagedQuarantine(s, change, error)
      case Err(e) => fault == Some(e)
      case Ok(t) =>
        && fault == None && ops' == t.ops && digest.raw == t.digest
        && ReadsAs(storage.db.rows, overlay', t.versions)
  {
    fault, ops', overlay' := None, ops, overlay;
    var current := if change.key in overlay then overlay[change.key] else storage.RowVersion(change.key);
    assert current == Current(storage.db.rows, overlay, change.key);
    if change.snapshot.None? {
      return Some(Inconsistent), ops, overlay;
    }
    match current {
      case Some(held) => digest.Update(change.key, held, change.version);
      case None => digest.Add(change.key, change.version);
    }
    ops' := ops + [QuarantineRow(change, error)];
    overlay' := overlay[change.key := Some(change.version)];
  }

  lemma {:induction false} SendableSplits(cfg: Config, outbox: seq<OutboxEntry>, i: nat)
    requires i <= |outbox|
    ensures Sendable(cfg, outbox[..i]) <= Sendable(cfg, outbox)
    ensures i < |outbox| && Outgoing(cfg, outbox[i]).Ok? ==>
      |Sendable(cfg, outbox[..i])| < |Sendable(cfg, outbox)|
      && Sendable(cfg, outbox)[|Sendable(cfg, outbox[..i])|] == Outgoing(cfg, outbox[i]).value
    decreases |outbox|
  {
    var n := |outbox| - 1;
    if i < n {
      assert outbox[..n][..i] == outbox[..i];
      SendableSplits(cfg, outbox[..n], i);
    } else if i == |outbox| {
      assert outbox[..i] == outbox;
    }
  }

  /** What looking at entry i adds to a push that has considered the entries before it. */
  lemma NextEntry(cfg: Config, outbox: seq<OutboxEntry>, i: nat, chosen: seq<Command>, encode: Command -> string)
    requires i < |outbox| && chosen == Sendable(cfg, outbox[..i])
    ensures var sendable := Sendable(cfg, outbox);
      var items := Splice.Encodings(sendable, encode);
      match Outgoing(cfg, outbox[i])
      case Err(e) =>
        && Sendable(cfg, outbox[..i + 1]) == chosen
        && HeldReports(cfg, outbox[..i + 1])
          == HeldReports(cfg, outbox[..i]) + [CommandHeld(outbox[i].command.id, outbox[i].schema, e)]
      case Ok(c) =>
        && Sendable(cfg, outbox[..i + 1]) == chosen + [c] <= sendable
        && HeldReports(cfg, outbox[..i + 1]) == HeldReports(cfg, outbox[..i])
        && items[..|chosen|] + [encode(c)] == items[..|chosen| + 1]
  {
    SendableSplits(cfg, outbox, i);
    SendableSplits(cfg, outbox, i + 1);
    assert outbox[..i + 1][..i] == outbox[..i];
  }

  /**
   A push that has considered the first i entries: what it has chosen and held back, and that the
   greedy count goes on from there.
   */
  ghost predicate Filling(cfg: Config, outbox: seq<OutboxEntry>, encode: Command -> string, fits: string -> bool,
                          i: nat, chosen: seq<Command>, held: seq<Telemetry>)
  {
    var sendable := Sendable(cfg, outbox);
    var items := Splice.Encodings(sendable, encode);
    && i <= |outbox| && chosen == Sendable(cfg, outbox[..i]) && chosen <= sendable && |chosen| <= COMMANDS_MAX_COUNT
    && held == HeldReports(cfg, outbox[..i])
    && Splice.Greedy(items, |chosen|, COMMANDS_MAX_COUNT, fits) == Splice.Greedy(items, 0, COMMANDS_MAX_COUNT, fits)
  }

  /** What a push takes: the greedy count of what can be sent, looking no further than it has to. */
  ghost predicate Filled(cfg: Config, outbox: seq<OutboxEntry>, encode: Command -> string, fits: string -> bool,
                         stop: nat, chosen: seq<Command>, held: seq<Telemetry>)
  {
    var sendable := Sendable(cfg, outbox);
    var n := Splice.Greedy(Splice.Encodings(sendable, encode), 0, COMMANDS_MAX_COUNT, fits);
    && n <= |sendable| && chosen == sendable[..n]
    && stop <= |outbox| && Sendable(cfg, outbox[..stop]) == chosen
    && (n < |sendable| || stop == |outbox| || n == COMMANDS_MAX_COUNT)
    && held == HeldReports(cfg, outbox[..stop])
  }

  lemma FillingHeld(cfg: Config, outbox: seq<OutboxEntry>, encode: Command -> string, fits: string -> bool, i: nat,
                    chosen: seq<Command>, held: seq<Telemetry>)
    requires Filling(cfg, outbox, encode, fits, i, chosen, held) && i < |outbox| && Outgoing(cfg, outbox[i]).Err?
    ensures var report := CommandHeld(outbox[i].command.id, outbox[i].schema, Outgoing(cfg, outbox[i]).error);
      Filling(cfg, outbox, encode, fits, i + 1, chosen, held + [report])
  {
    NextEntry(cfg, outbox, i, chosen, encode);
  }

  lemma FillingNext(cfg: Config, outbox: seq<OutboxEntry>, encode: Command -> string, fits: string -> bool, i: nat,
                    chosen: seq<Command>, held: seq<Telemetry>, c: Command)
    requires Filling(cfg, outbox, encode, fits, i, chosen, held) && i < |outbox| && Outgoing(cfg, outbox[i]) == Ok(c)
    requires |chosen| < COMMANDS_MAX_COUNT
    ensures var items := Splice.Encodings(Sendable(cfg, outbox), encode);
      && |chosen| < |items| && items[..|chosen|] + [encode(c)] == items[..|chosen| + 1]
      && (if chosen == [] || fits(EncodeArray(items[..|chosen| + 1]))
          then Filling(cfg, outbox, encode, fits, i + 1, chosen + [c], held)
          else Filled(cfg, outbox, encode, fits, i, chosen, held))
  {
    NextEntry(cfg, outbox, i, chosen, encode);
  }

  lemma FillingEnds(cfg: Config, outbox: seq<OutboxEntry>, encode: Command -> string, fits: string -> bool, i: nat,
                    chosen: seq<Command>, held: seq<Telemetry>)
    requires Filling(cfg, outbox, encode, fits, i, chosen, held)
    requires i == |outbox| || |chosen| == COMMANDS_MAX_COUNT
    ensures Filled(cfg, outbox, encode, fits, i, chosen, held)
  {
    assert outbox[..|outbox|] == outbox;
  }

  class Engine {
    const storage: SimStorage
    const migrations: Migrations
    const compressedLen: string -> nat
    const encode: Command -> string
    var registry: Registry
    var scopes: map<ScopeId, ScopeState>
    var outbox: seq<OutboxEntry>
    var suspect: set<ScopeId>
    var outboxSuspect: bool
    var health: map<ScopeId, ScopeHealth>
    var upgradeRequired: bool
    var effects: seq<Telemetry>

    function Mem(): Memory reads this {
      Memory(scopes, outbox, suspect, outboxSuspect, health, upgradeRequired, effects)
    }

    function Cfg(): Config reads this, migrations {
      Config(registry, migrations.steps)
    }

    constructor (storage: SimStorage, migrations: Migrations, registry: Registry, compressedLen: string -> nat,
                 encode: Command -> string)
      ensures Mem() == FRESH_MEMORY && this.storage == storage && this.migrations == migrations
        && this.registry == registry
    {
      this.storage, this.migrations, this.registry := storage, migrations, registry;
      this.compressedLen, this.encode := compressedLen, encode;
      scopes, outbox, suspect, outboxSuspect := map[], [], {}, false;
      health, upgradeRequired, effects := map[], false, [];
    }

    method RestoreScope(scope: ScopeId, state: ScopeState)
      modifies this`scopes
      ensures scopes == old(scopes)[scope := state]
    {
      scopes := scopes[scope := state];
    }

    method RestoreOutbox(entries: seq<OutboxEntry>)
      modifies this`outbox
      ensures outbox == old(outbox) + entries
    {
      outbox := outbox + entries;
    }

    /** Reads a scope's cursor and digest back from storage when a transaction on it failed. */
    method RefreshIfSuspect(scope: ScopeId)
      modifies this`scopes, this`suspect
      ensures Mem() == Refreshed(old(Mem()), storage.db.View(), scope)
    {
      if scope !in suspect {
        return;
      }
      var stored := storage.ScopeState(scope);
      match stored {
        case Some(s) => scopes := scopes[scope := ScopeState(s.0, Digest.FromHex(s.1))];
        case None => scopes := scopes - {scope};
      }
      suspect := suspect - {scope};
    }

    method RefreshOutboxIfSuspect()
      modifies this`outbox, this`outboxSuspect
      ensures Mem() == RefreshedOutbox(old(Mem()), storage.db.View())
    {
      if !outboxSuspect {
        return;
      }
      outbox := storage.Outbox();
      outboxSuspect := false;
    }

    method ReloadScope(scope: ScopeId)
      modifies this`scopes, this`suspect, this`outbox, this`outboxSuspect
      ensures Mem() == RefreshedOutbox(Refreshed(old(Mem()), storage.db.View(), scope), storage.db.View())
    {
      RefreshIfSuspect(scope);
      RefreshOutboxIfSuspect();
    }

    function ScopeHealth(scope: ScopeId): ScopeHealth reads this {
      if scope in health then health[scope] else Healthy
    }

    /** The change under this app's schema, or why it cannot be reached. */
    method MigratedChange(change: Change) returns (r: Result<Change, MigrationError>)
      ensures r == Localized(Cfg(), change)
    {
      if change.key.entity !in registry.entities {
        return Ok(change);
      }
      var target := registry.entities[change.key.entity].schema;
      if change.schema == target || change.snapshot.None? {
        return Ok(change);
      }
      var migrated := migrations.MigrateValue(change.key.entity, change.snapshot.value, change.schema, target);
      match migrated {
        case Err(e) => r := Err(e);
        case Ok(doc) =>
          r := if FitsAs(doc, SNAPSHOT_MAX_BYTES) then Ok(change.(snapshot := Some(doc), schema := target))
            else Err(Invalid(change.key.entity));
      }
    }

    /** An ordinary pull's batch: digests are compared when the server says nothing more is left. */
    method ApplyBatch(batch: Batch) returns (r: Result<BatchReport, ApplyError>)
      modifies this, storage.db
      ensures registry == old(registry)
      ensures Outcome(Mem(), storage.db.View(), r)
        == AppliedBatch(old(Cfg()), old(Mem()), old(storage.db.View()), old(storage.db.verdict), batch, !batch.hasMore,
                        false)
    {
      r := ApplyChanges(batch, !batch.hasMore, false);
    }

    /** Applies one page of a bootstrap: the same work, counted as a rebuild. */
    method ApplyBootstrap(page: Batch) returns (r: Result<BatchReport, ApplyError>)
      modifies this, storage.db
      ensures registry == old(registry)
      ensures Outcome(Mem(), storage.db.View(), r)
        == AppliedBatch(old(Cfg()), old(Mem()), old(storage.db.View()), old(storage.db.verdict), page, !page.hasMore,
                        true)
    {
      r := ApplyChanges(page, !page.hasMore, true);
    }

    /** Stages every change against a copy of the digest and an overlay of what the batch has decided. */
    method StageAll(changes: seq<Change>, start: Digest.U128, ghost s0: Staging)
      returns (fault: Option<ApplyError>, digest: Digest.ScopeDigest, ops: seq<StorageOp>,
               quarantined: seq<(Change, MigrationError)>)
      requires s0 == StartStaging(storage.db.View(), start)
      ensures match StagedAll(Cfg(), s0, changes)
        case Err(e) => fault == Some(e)
        case Ok(sg) =>
          fault == None && fresh(digest) && digest.Valid() && digest.raw == sg.digest && ops == sg.ops
            && quarantined == sg.quarantined
    {
      digest := new Digest.ScopeDigest(start);
      fault, ops, quarantined := None, [], [];
      var overlay: Overlay := map[];
      ghost var sg := s0;
      for i := 0 to |changes|
        invariant fault == None && StagedAll(Cfg(), s0, changes[..i]) == Ok(sg)
        invariant fresh(digest) && digest.Valid() && digest.raw == sg.digest && ops == sg.ops
          && quarantined == sg.quarantined
        invariant ReadsAs(storage.db.rows, overlay, sg.versions)
      {
        assert changes[..i + 1][..i] == changes[..i];
        var change := changes[i];
        var cls := ClassOf(registry, change.key.entity);
        var migrated := MigratedChange(change);
        ghost var next := StagedChange(Cfg(), sg, change);
        match migrated {
          case Ok(m) =>
            fault, ops, overlay := StageChange(storage, m, cls, digest, ops, overlay, sg);
          case Err(e) =>
            fault, ops, overlay := StageQuarantine(storage, change, digest, ops, overlay, e, sg);
            quarantined := quarantined + [(change, e)];
        }
        assert StagedAll(Cfg(), s0, changes[..i + 1]) == next;
        if fault.Some? {
          StagingErrorsStick(Cfg(), s0, changes, i + 1);
          return;
        }
        sg := next.value;
      }
      assert changes[..|changes|] == changes;
    }

    /** Validate, stage, commit once, and only then advance memory. */
    method ApplyChanges(batch: Batch, compareDigest: bool, rebuilding: bool)
      returns (r: Result<BatchReport, ApplyError>)
      modifies this, storage.db
      ensures registry == old(registry)
      ensures Outcome(Mem(), storage.db.View(), r)
        == AppliedBatch(old(Cfg()), old(Mem()), old(storage.db.View()), old(storage.db.verdict), batch, compareDigest,
                        rebuilding)
    {
      RefreshIfSuspect(batch.scope);
      var state := if batch.scope in scopes then scopes[batch.scope] else NEW_SCOPE;
      var misordered := ValidateOrdering(batch, state.cursor);
      if misordered.Some? {
        return Err(misordered.value);
      }
      ghost var start := StartStaging(storage.db.View(), state.digest);
      var fault, digest, ops, quarantined := StageAll(batch.changes, state.digest, start);
      if fault.Some? {
        return Err(fault.value);
      }
      ghost var sg := StagedAll(Cfg(), start, batch.changes).value;
      r := CommitChanges(batch, digest.raw, ops, quarantined, compareDigest, rebuilding, sg);
    }

    /** The second half of an apply: cursor, digest and any divergence record ride with the rows. */
    method CommitChanges(batch: Batch, digest: Digest.U128, rowOps: seq<StorageOp>,
                         quarantined: seq<(Change, MigrationError)>,
                         compareDigest: bool, rebuilding: bool, ghost sg: Staging)
      returns (r: Result<BatchReport, ApplyError>)
      requires digest == sg.digest && rowOps == sg.ops && quarantined == sg.quarantined
      modifies this`scopes, this`suspect, this`outboxSuspect, this`health, this`effects, storage.db
      ensures Outcome(Mem(), storage.db.View(), r)
        == CommittedBatch(old(Mem()), old(storage.db.View()), old(storage.db.verdict), sg, batch, compareDigest,
                          rebuilding)
    {
      var hex := Digest.HexU128(digest);
      var ops := rowOps + [SetCursor(batch.scope, batch.nextCursor), SetScopeDigest(batch.scope, hex)];

      var trust := ScopeHealth(batch.scope);
      var diverged := compareDigest && hex != batch.digest;
      var counts := diverged && (trust.IsHealthy() || (rebuilding && trust.NeedsRebootstrap()));
      var attempts := NextAttempt(trust);
      if counts {
        ops := ops + [RecordDivergence(batch.scope, attempts, false)];
      }
      var heals := compareDigest && !diverged && trust.NeedsRebootstrap();
      if heals {
        ops := ops + [RecordDivergence(batch.scope, trust.Attempts(), true)];
      }
      assert ops == BatchOps(sg, batch, trust, Judged(trust, hex, batch.digest, compareDigest, rebuilding));

      var ok := storage.Transact(ops);
      if !ok {
        suspect := suspect + {batch.scope};
        outboxSuspect := true;
        return Err(StorageFailed);
      }
      Advance(batch, digest, quarantined, Judgement(diverged, counts, heals), sg);
      r := Ok(BatchReport(|batch.changes|, diverged));
    }

    /** Memory follows a transaction that was reported committed. */
    method Advance(batch: Batch, digest: Digest.U128, quarantined: seq<(Change, MigrationError)>, j: Judgement,
                   ghost sg: Staging)
      requires digest == sg.digest && quarantined == sg.quarantined
      modifies this`scopes, this`health, this`effects
      ensures Mem() == CommittedMemory(old(Mem()), sg, batch, HealthOf(old(Mem()), batch.scope), j)
    {
      var trust := ScopeHealth(batch.scope);
      scopes := scopes[batch.scope := ScopeState(batch.nextCursor, digest)];
      effects := effects + QuarantineReports(quarantined);
      if j.counts {
        Emit(ScopeDiverged(batch.scope, Digest.ToHex(digest), batch.digest));
        Taint(batch.scope, NextAttempt(trust));
      } else if j.heals {
        health := health[batch.scope := Healed(trust.Attempts())];
      }
    }

    method Emit(effect: Telemetry)
      modifies this`effects
      ensures effects == old(effects) + [effect]
    {
      effects := effects + [effect];
    }

    /**
     The in-memory half of a counted divergence: tainted for the first two, given up with a report from the
     third on.
     */
    method Taint(scope: ScopeId, attempts: nat)
      modifies this`effects, this`health
      ensures Mem() == TaintedMemory(old(Mem()), scope, attempts)
    {
      if attempts >= MAX_HEAL_ATTEMPTS {
        Emit(ScopeUnhealable(scope, attempts));
        health := health[scope := Unhealable(attempts)];
      } else {
        health := health[scope := Tainted(attempts)];
      }
    }

    /**
     Starts a scope over: its registered rows go, cursor and digest return to zero, all in one commit or not at
     all.
     */
    method BeginRebootstrap(scope: ScopeId) returns (ok: bool)
      modifies this`scopes, this`suspect, this`outboxSuspect, storage.db
      ensures Outcome(Mem(), storage.db.View(), ok)
        == Rebootstrapped(Cfg(), old(Mem()), old(storage.db.View()), old(storage.db.verdict), scope)
    {
      ok := storage.Transact(RebootstrapOps(registry, scope));
      if !ok {
        suspect := suspect + {scope};
        outboxSuspect := true;
        return;
      }
      scopes := scopes[scope := NEW_SCOPE];
    }

    method ClearScopeHealth(scope: ScopeId) returns (ok: bool)
      modifies this`health, storage.db
      ensures Outcome(Mem(), storage.db.View(), ok)
        == ClearedHealth(old(Mem()), old(storage.db.View()), old(storage.db.verdict), scope)
    {
      ok := storage.Transact([RecordDivergence(scope, 0, false)]);
      if ok {
        health := health - {scope};
      }
    }

    method RestoreScopeHealth(scope: ScopeId, attempts: nat, healed: bool)
      modifies this`health
      ensures health == if attempts == 0 then old(health) - {scope}
        else old(health)[scope := RestoredHealth(attempts, healed)]
    {
      if attempts == 0 {
        health := health - {scope};
        return;
      }
      if healed {
        health := health[scope := Healed(attempts)];
      } else if attempts >= MAX_HEAL_ATTEMPTS {
        health := health[scope := Unhealable(attempts)];
      } else {
        health := health[scope := Tainted(attempts)];
      }
    }

    /** The server refused this protocol version: a flag and a prompt, and nothing leaves the outbox. */
    method OnUpgradeRequired()
      modifies this`upgradeRequired, this`effects
      ensures upgradeRequired && effects == old(effects) + [UpgradeRequired(|outbox|)]
      ensures Mem() == Stepped(Cfg(), old(Mem()), storage.db.View(), Event.OnUpgradeRequired).0
    {
      upgradeRequired := true;
      Emit(UpgradeRequired(|outbox|));
    }

    method UpgradeCompleted()
      modifies this`upgradeRequired
      ensures !upgradeRequired
      ensures Mem() == Stepped(Cfg(), old(Mem()), storage.db.View(), Event.UpgradeCompleted).0
    {
      upgradeRequired := false;
    }

    /** Queues a client write: persisted before it is in memory, refused by the registry before either. */
    method Enqueue(entry: OutboxEntry) returns (r: Result<(), OutboxError>)
      modifies this`outbox, this`outboxSuspect, storage.db
      ensures Outcome(Mem(), storage.db.View(), r)
        == Enqueued(Cfg(), old(Mem()), old(storage.db.View()), old(storage.db.verdict), entry)
    {
      var allowed := CheckCommand(registry, entry.command);
      if allowed.Err? {
        return Err(Refused(allowed.error));
      }
      var ok := storage.Transact([EnqueueCommand(entry)]);
      if !ok {
        outboxSuspect := true;
        return Err(OutboxStorage);
      }
      outbox := outbox + [entry];
      r := Ok(());
    }

    /** One queued command's payload under this app's schema, or why it is held. */
    method MigratedCommand(entry: OutboxEntry) returns (r: Result<Command, MigrationError>)
      ensures r == Outgoing(Cfg(), entry)
    {
      var c := entry.command;
      if c.name !in registry.commands {
        return Ok(c);
      }
      var entity := registry.commands[c.name];
      if entity !in registry.entities {
        return Ok(c);
      }
      var target := registry.entities[entity].schema;
      if entry.schema == target {
        return Ok(c);
      }
      var migrated := migrations.MigrateValue(entity, c.payload, entry.schema, target);
      match migrated {
        case Err(e) => r := Err(e);
        case Ok(doc) => r := if FitsAs(doc, PAYLOAD_MAX_BYTES) then Ok(c.(payload := doc)) else Err(Invalid(entity));
      }
    }

    /**
     Builds the next push. Each command is encoded once and spliced into the buffer; what goes
     is the greedy longest fitting prefix of the commands that can be sent, and those that
     cannot are reported and stay queued.
     */
    method BuildPush(protocol: nat, budget: nat) returns (r: Option<PushRequest>, ghost stop: nat)
      modifies this`outbox, this`outboxSuspect, this`effects
      ensures var m := RefreshedOutbox(old(Mem()), storage.db.View());
        if m.upgradeRequired || m.outbox == [] then r == None && Mem() == m
        else
          var sendable := Sendable(Cfg(), m.outbox);
          var n := PushCount(sendable, encode, budget, compressedLen);
          && r == Some(PushRequest(protocol, sendable[..n]))
          && stop <= |m.outbox| && Sendable(Cfg(), m.outbox[..stop]) == sendable[..n]
          && (n < |sendable| || stop == |m.outbox| || n == COMMANDS_MAX_COUNT)
          && Mem() == m.(effects := m.effects + HeldReports(Cfg(), m.outbox[..stop]))
    {
      RefreshOutboxIfSuspect();
      stop := 0;
      if upgradeRequired {
        return None, 0;
      }
      if outbox == [] {
        return None, 0;
      }
      var chosen, held;
      chosen, held, stop := FillPush(budget);
      effects := effects + held;
      r := Some(PushRequest(protocol, chosen));
    }

    /**
     Splices one encoding in, and cuts it off again when the buffer came out too large; the first one always
     stays.
     */
    method TryOne(buf: string, one: string, first: bool, budget: nat, ghost items: seq<string>)
      returns (next: string, kept: bool)
      requires buf == EncodeArray(items) && (first <==> items == [])
      ensures kept <==> first || PushFits(budget, compressedLen)(EncodeArray(items + [one]))
      ensures next == EncodeArray(if kept then items + [one] else items)
    {
      var rollback := |buf|;
      next := Splice.SpliceInto(buf, one, first, items);
      var tooManyBytes := |next| > COMMANDS_MAX_TOTAL_BYTES;
      var overBudget := compressedLen(next) > budget;
      kept := first || !(tooManyBytes || overBudget);
      if !kept {
        next := next[..rollback - 1];
        next := next + "]";
      }
    }

    /** The loop of a push: migrate, encode once, splice, and roll back what does not fit. */
    method FillPush(budget: nat) returns (chosen: seq<Command>, held: seq<Telemetry>, ghost stop: nat)
      ensures Filled(Cfg(), outbox, encode, PushFits(budget, compressedLen), stop, chosen, held)
    {
      chosen, held := [], [];
      var buf := "[]";
      ghost var cfg := Cfg();
      ghost var items := Splice.Encodings(Sendable(cfg, outbox), encode);
      ghost var fits := PushFits(budget, compressedLen);
      ghost var full := false;
      var i := 0;
      while i < |outbox|
        invariant Filling(cfg, outbox, encode, fits, i, chosen, held) && !full
        invariant buf == EncodeArray(items[..|chosen|])
      {
        if |chosen| >= COMMANDS_MAX_COUNT {
          break;
        }
        var migrated := MigratedCommand(outbox[i]);
        if migrated.Err? {
          FillingHeld(cfg, outbox, encode, fits, i, chosen, held);
          held := held + [CommandHeld(outbox[i].command.id, outbox[i].schema, migrated.error)];
          i := i + 1;
          continue;
        }
        FillingNext(cfg, outbox, encode, fits, i, chosen, held, migrated.value);
        var kept;
        buf, kept := TryOne(buf, encode(migrated.value), chosen == [], budget, items[..|chosen|]);
        if !kept {
          full := true;
          break;
        }
        chosen := chosen + [migrated.value];
        i := i + 1;
      }
      stop := i;
      if !full {
        FillingEnds(cfg, outbox, encode, fits, i, chosen, held);
      }
    }

    /** Applies the server's verdicts: one record per answered command, committed before memory shrinks. */
    method ApplyResults(results: seq<CommandResult>) returns (r: Result<Resolved, OutboxError>)
      modifies this`outbox, this`outboxSuspect, storage.db
      ensures Outcome(Mem(), storage.db.View(), r)
        == ResultsApplied(Cfg(), old(Mem()), old(storage.db.View()), old(storage.db.verdict), results)
    {
      RefreshOutboxIfSuspect();
      var ops: seq<StorageOp> := [];
      var resolutions: seq<(CommandId, Resolution)> := [];
      var unknown := 0;
      var answered: set<CommandId> := {};
      for i := 0 to |results|
        invariant Answers(ops, Resolved(resolutions, unknown), answered) == AnswerAll(Cfg(), outbox, results[..i])
      {
        assert results[..i + 1][..i] == results[..i];
        var result := results[i];
        var entry := Find(outbox, result.id);
        if entry.None? {
          unknown := unknown + 1;
          continue;
        }
        if result.id in answered {
          unknown := unknown + 1;
          continue;
        }
        answered := answered + {result.id};
        if result.status.Superseded? {
          ops := ops + DraftOps(Cfg(), entry.value, result.status);
        }
        var resolution := ResolutionOf(result);
        ops := ops + [ResolveCommand(result.id, resolution)];
        resolutions := resolutions + [(result.id, resolution)];
      }
      assert results[..|results|] == results;
      if ops == [] {
        return Ok(Resolved(resolutions, unknown));
      }
      var ok := storage.Transact(ops);
      if !ok {
        outboxSuspect := true;
        return Err(OutboxStorage);
      }
      ghost var before, after := outbox, storage.db.View();
      for i := 0 to |resolutions|
        invariant storage.db.View() == after
        invariant outbox == Pruned(before, resolutions[..i])
        invariant Mem() == RefreshedOutbox(old(Mem()), old(storage.db.View())).(outbox := outbox)
      {
        assert resolutions[..i + 1][..i] == resolutions[..i];
        outbox := Without(outbox, resolutions[i].0);
      }
      assert resolutions[..|resolutions|] == resolutions;
      r := Ok(Resolved(resolutions, unknown));
    }
  }
}
