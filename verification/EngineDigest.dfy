/**
 What applying batches does to the stored rows and digest: rows are a replay of the accepted
 changes, the incremental digest is the from-scratch sum, and memory is storage unless suspect.
 */
module EngineDigest {
  import opened Prelude
  import opened Wire
  import opened Replay
  import opened Migrate
  import opened Storage
  import opened EngineSpec
  import Digest

  // ----- localized changes -----

  predicate Reachable(cfg: Config, c: Change) {
    Localized(cfg, c).Ok?
  }

  /** The change as this app stores it. */
  function Local(cfg: Config, c: Change): Change {
    match Localized(cfg, c)
    case Ok(m) => m
    case Err(_) => c
  }

  function LocalAll(cfg: Config, cs: seq<Change>): (r: seq<Change>)
    ensures |r| == |cs| && forall i :: 0 <= i < |cs| ==> r[i] == Local(cfg, cs[i])
  {
    seq(|cs|, i requires 0 <= i < |cs| => Local(cfg, cs[i]))
  }

  /** Migration changes a row's document and schema, and nothing the log orders or digests it by. */
  lemma LocalKeeps(cfg: Config, c: Change)
    ensures var m := Local(cfg, c);
      m.key == c.key && m.seqNo == c.seqNo && m.version == c.version && m.op == c.op
        && (m.snapshot.Some? <==> c.snapshot.Some?)
  {
  }

  /** Whether a change was written under another schema than this app registers its entity with. */
  predicate Foreign(cfg: Config, c: Change) {
    && c.key.entity in cfg.registry.entities && c.snapshot.Some?
    && c.schema != cfg.registry.entities[c.key.entity].schema
  }

  /**
   What this app makes of a change: one under its own schema, or with no document or of an entity it
   does not know, as it is; any other with the document the host's steps take it to, under the
   registered schema, if that is well shaped and within the size limit.
   */
  lemma LocalizedMeans(cfg: Config, c: Change, m: Change)
    ensures Localized(cfg, c) == Ok(m) <==>
      if !Foreign(cfg, c) then m == c
      else
        var schema := cfg.registry.entities[c.key.entity].schema;
        && m.key == c.key && m.seqNo == c.seqNo && m.version == c.version && m.op == c.op
        && m.schema == schema && m.snapshot.Some?
        && Takes(cfg.steps, c.key.entity, c.snapshot.value, c.schema, schema, m.snapshot.value)
        && WellShaped(m.snapshot.value.canonical) && |m.snapshot.value.canonical| <= 0x4_0000
  {
    if Foreign(cfg, c) {
      var entity, schema := c.key.entity, cfg.registry.entities[c.key.entity].schema;
      forall doc ensures Migrated(cfg.steps, entity, c.snapshot.value, c.schema, schema) == Ok(doc) <==>
          Takes(cfg.steps, entity, c.snapshot.value, c.schema, schema, doc)
      {
        MigratedMeans(cfg.steps, entity, c.snapshot.value, c.schema, schema, doc);
      }
    }
  }

  /** The host's steps take the document all the way, to one that may not be stored. */
  ghost predicate ComesOutUnfit(cfg: Config, c: Change)
    requires Foreign(cfg, c)
  {
    var schema := cfg.registry.entities[c.key.entity].schema;
    exists doc ::
      Takes(cfg.steps, c.key.entity, c.snapshot.value, c.schema, schema, doc)
      && !(WellShaped(doc.canonical) && |doc.canonical| <= 0x4_0000)
  }

  /**
   And why one is set aside: its document is newer than this app, or stops on its way up, or comes out unfit to be
   stored.
   */
  lemma LocalizedStops(cfg: Config, c: Change)
    requires !Reachable(cfg, c)
    ensures Foreign(cfg, c)
    ensures var entity, schema := c.key.entity, cfg.registry.entities[c.key.entity].schema;
      var e := Localized(cfg, c).error;
      && (schema < c.schema ==> e == Backward(c.schema, schema))
      && (schema >= c.schema ==>
           StopsAt(cfg.steps, entity, c.snapshot.value, c.schema, schema, schema, e)
           || (e == Invalid(entity) && ComesOutUnfit(cfg, c)))
  {
    var entity, schema := c.key.entity, cfg.registry.entities[c.key.entity].schema;
    var r := Migrated(cfg.steps, entity, c.snapshot.value, c.schema, schema);
    MigratedStops(cfg.steps, entity, c.snapshot.value, c.schema, schema);
    if r.Ok? {
      MigratedMeans(cfg.steps, entity, c.snapshot.value, c.schema, schema, r.value);
    }
  }

  lemma {:induction false} LastToLocal(cfg: Config, cs: seq<Change>, key: RowKey)
    ensures LastTo(LocalAll(cfg, cs), key) ==
      match LastTo(cs, key) case None => None case Some(c) => Some(Local(cfg, c))
  {
    if cs != [] {
      var n := |cs| - 1;
      LastToLocal(cfg, cs[..n], key);
      assert LocalAll(cfg, cs)[..n] == LocalAll(cfg, cs[..n]);
      LocalKeeps(cfg, cs[n]);
    }
  }

  /**
   What stands in a stored row: its latest change's version, and that change's document, taken by the
   host's own steps to the registered schema when it was written under another.
   */
  lemma RowHoldsMigrated(cfg: Config, cs: seq<Change>, key: RowKey)
    requires forall c :: c in cs ==> Reachable(cfg, c)
    requires key in Replayed(LocalAll(cfg, cs))
    ensures LastTo(cs, key).Some? && LastTo(cs, key).value.snapshot.Some?
    ensures var c, row := LastTo(cs, key).value, Replayed(LocalAll(cfg, cs))[key];
      && c.key == key && row.version == c.version
      && (Foreign(cfg, c) ==>
           row.schema == cfg.registry.entities[key.entity].schema
           && Takes(cfg.steps, key.entity, c.snapshot.value, c.schema, row.schema, row.snapshot))
      && (!Foreign(cfg, c) ==> row.schema == c.schema && row.snapshot == c.snapshot.value)
  {
    ReplayIsLast(map[], LocalAll(cfg, cs), key);
    LastToLocal(cfg, cs, key);
    LastToHere(cs, key);
    var c := LastTo(cs, key).value;
    LocalKeeps(cfg, c);
    LocalizedMeans(cfg, c, Local(cfg, c));
  }

  lemma {:induction false} LastToHere(cs: seq<Change>, key: RowKey)
    ensures LastTo(cs, key).Some? ==> LastTo(cs, key).value in cs && LastTo(cs, key).value.key == key
  {
    if cs != [] {
      LastToHere(cs[..|cs| - 1], key);
    }
  }

  lemma {:induction false} ReplayVersionsLocal(cfg: Config, cs: seq<Change>)
    ensures Versions(Replayed(LocalAll(cfg, cs))) == Versions(Replayed(cs))
  {
    if cs != [] {
      var n := |cs| - 1;
      ReplayVersionsLocal(cfg, cs[..n]);
      assert LocalAll(cfg, cs)[..n] == LocalAll(cfg, cs[..n]);
      LocalKeeps(cfg, cs[n]);
      var a, b := Replayed(LocalAll(cfg, cs[..n])), Replayed(cs[..n]);
      assert a.Keys == Versions(a).Keys && b.Keys == Versions(b).Keys;
      VersionsStep(a, Local(cfg, cs[n]));
      VersionsStep(b, cs[n]);
    }
  }

  lemma VersionsStep(rows: Rows, c: Change)
    ensures Versions(ReplayOne(rows, c)) == if c.snapshot.Some? then Versions(rows)[c.key := c.version]
      else Versions(rows) - {c.key}
  {
  }

  // ----- the staged digest -----

  /** The versions of the rows one digest covers. */
  function Kept(versions: map<RowKey, nat>, mine: RowKey -> bool): map<RowKey, nat> {
    map k | k in versions && mine(k) :: versions[k]
  }

  lemma KeptStep(versions: map<RowKey, nat>, mine: RowKey -> bool, key: RowKey, version: nat)
    ensures mine(key) ==> Kept(versions[key := version], mine) == Kept(versions, mine)[key := version]
    ensures Kept(versions - {key}, mine) == Kept(versions, mine) - {key}
    ensures !mine(key) ==> Kept(versions[key := version], mine) == Kept(versions, mine) == Kept(versions - {key}, mine)
  {
  }

  lemma ReplacedTracks(versions: map<RowKey, nat>, mine: RowKey -> bool, key: RowKey, version: nat)
    requires mine(key)
    ensures Replaced(Digest.DigestOf(Kept(versions, mine)), versions, key, version)
      == Digest.DigestOf(Kept(versions[key := version], mine))
  {
    KeptStep(versions, mine, key, version);
    if key in versions {
      Digest.DigestReplaces(Kept(versions, mine), key, version);
    } else {
      Digest.DigestTracks(Kept(versions, mine), key, version);
    }
  }

  /** One staged change, read-your-own-writes included, keeps the digest equal to the from-scratch sum. */
  lemma StagedChangeTracks(cfg: Config, s: Staging, c: Change, mine: RowKey -> bool)
    requires StagedChange(cfg, s, c).Ok? && mine(c.key)
    requires s.digest == Digest.DigestOf(Kept(s.versions, mine))
    ensures var t := StagedChange(cfg, s, c).value; t.digest == Digest.DigestOf(Kept(t.versions, mine))
  {
    LocalKeeps(cfg, c);
    ReplacedTracks(s.versions, mine, c.key, c.version);
    KeptStep(s.versions, mine, c.key, c.version);
    if c.key in s.versions {
      Digest.DigestTracks(Kept(s.versions, mine), c.key, c.version);
    } else {
      assert Kept(s.versions, mine) - {c.key} == Kept(s.versions, mine);
    }
  }

  lemma {:induction false} StagedAllTracks(cfg: Config, s: Staging, cs: seq<Change>, mine: RowKey -> bool)
    requires StagedAll(cfg, s, cs).Ok?
    requires forall c :: c in cs ==> mine(c.key)
    requires s.digest == Digest.DigestOf(Kept(s.versions, mine))
    ensures var t := StagedAll(cfg, s, cs).value; t.digest == Digest.DigestOf(Kept(t.versions, mine))
  {
    if cs != [] {
      StagedAllTracks(cfg, s, cs[..|cs| - 1], mine);
      StagedChangeTracks(cfg, StagedAll(cfg, s, cs[..|cs| - 1]).value, cs[|cs| - 1], mine);
    }
  }

  // ----- the staged rows -----

  /** Row versions after some changes, whether or not their documents could be stored. */
  function VersionsAfter(versions: map<RowKey, nat>, cs: seq<Change>): map<RowKey, nat> {
    if cs == [] then versions
    else
      var before, c := VersionsAfter(versions, cs[..|cs| - 1]), cs[|cs| - 1];
      if c.snapshot.Some? then before[c.key := c.version] else before - {c.key}
  }

  /** A row no change names keeps its version, or none. */
  lemma {:induction false} Untouched(versions: map<RowKey, nat>, cs: seq<Change>, key: RowKey)
    requires forall c :: c in cs ==> c.key != key
    ensures var after := VersionsAfter(versions, cs);
      (key in after <==> key in versions) && (key in versions ==> after[key] == versions[key])
  {
    if cs != [] {
      var n := |cs| - 1;
      assert cs[n] in cs;
      Untouched(versions, cs[..n], key);
    }
  }

  /** The changes whose documents reach this app's schema, as this app stores them. */
  function Storable(cfg: Config, cs: seq<Change>): seq<Change> {
    if cs == [] then []
    else
      var init, c := Storable(cfg, cs[..|cs| - 1]), cs[|cs| - 1];
      if Reachable(cfg, c) then init + [Local(cfg, c)] else init
  }

  /** The changes set aside, and why. */
  function SetAside(cfg: Config, cs: seq<Change>): seq<(Change, MigrationError)> {
    if cs == [] then []
    else
      var init, c := SetAside(cfg, cs[..|cs| - 1]), cs[|cs| - 1];
      match Localized(cfg, c)
      case Ok(_) => init
      case Err(e) => init + [(c, e)]
  }

  lemma {:induction false} AllStorable(cfg: Config, cs: seq<Change>)
    requires forall c :: c in cs ==> Reachable(cfg, c)
    ensures Storable(cfg, cs) == LocalAll(cfg, cs) && SetAside(cfg, cs) == []
  {
    if cs != [] {
      var n := |cs| - 1;
      AllStorable(cfg, cs[..n]);
      assert cs[n] in cs;
      assert LocalAll(cfg, cs) == LocalAll(cfg, cs[..n]) + [Local(cfg, cs[n])];
    }
  }

  lemma {:induction false} ReplayVersions(rows: Rows, cs: seq<Change>)
    ensures Versions(ReplayOnto(rows, cs)) == VersionsAfter(Versions(rows), cs)
  {
    if cs != [] {
      ReplayVersions(rows, cs[..|cs| - 1]);
      VersionsStep(ReplayOnto(rows, cs[..|cs| - 1]), cs[|cs| - 1]);
    }
  }

  lemma {:induction false} VersionsAfterLocal(cfg: Config, versions: map<RowKey, nat>, cs: seq<Change>)
    ensures VersionsAfter(versions, LocalAll(cfg, cs)) == VersionsAfter(versions, cs)
  {
    if cs != [] {
      var n := |cs| - 1;
      VersionsAfterLocal(cfg, versions, cs[..n]);
      assert LocalAll(cfg, cs)[..n] == LocalAll(cfg, cs[..n]);
      LocalKeeps(cfg, cs[n]);
    }
  }

  /** With everything reachable, the versions staged are the versions stored. */
  lemma CleanVersions(cfg: Config, rows: Rows, cs: seq<Change>)
    ensures Versions(ReplayOnto(rows, LocalAll(cfg, cs))) == VersionsAfter(Versions(rows), cs)
  {
    ReplayVersions(rows, LocalAll(cfg, cs));
    VersionsAfterLocal(cfg, Versions(rows), cs);
  }

  /** What staged operations leave of a database: its rows replayed, and what could not be stored set aside. */
  function StagedDb(cfg: Config, db: DbState, cs: seq<Change>): DbState {
    db.(rows := ReplayOnto(db.rows, Storable(cfg, cs)), quarantine := db.quarantine + SetAside(cfg, cs))
  }

  lemma OneMoreOp(db: DbState, ops: seq<StorageOp>, op: StorageOp)
    ensures ApplyOps(db, ops + [op]) == ApplyOp(ApplyOps(db, ops), op)
  {
    assert (ops + [op])[..|ops|] == ops;
  }

  lemma StorableStep(cfg: Config, db: DbState, s: Staging, cs: seq<Change>, c: Change)
    requires StagedChange(cfg, s, c).Ok? && Reachable(cfg, c) && c.Consistent()
    requires ApplyOps(db, s.ops) == StagedDb(cfg, db, cs)
    ensures ApplyOps(db, StagedChange(cfg, s, c).value.ops) == StagedDb(cfg, db, cs + [c])
  {
    LocalKeeps(cfg, c);
    OneMoreStorable(cfg, db, cs, c);
    if c.op.Upsert? {
      UpsertStep(cfg, s, c);
      var m := Local(cfg, c);
      OneMoreOp(db, s.ops, UpsertRow(m.key, m.snapshot.value, m.version, m.schema));
    } else {
      DeleteStep(cfg, s, c);
      OneMoreOp(db, s.ops, DeleteRow(c.key));
    }
  }

  lemma OneMoreStorable(cfg: Config, db: DbState, cs: seq<Change>, c: Change)
    requires Reachable(cfg, c)
    ensures StagedDb(cfg, db, cs + [c])
      == StagedDb(cfg, db, cs).(rows := ReplayOne(StagedDb(cfg, db, cs).rows, Local(cfg, c)))
  {
    assert (cs + [c])[..|cs|] == cs;
    var init, m := Storable(cfg, cs), Local(cfg, c);
    assert (init + [m])[..|init|] == init;
  }

  lemma UpsertStep(cfg: Config, s: Staging, c: Change)
    requires StagedChange(cfg, s, c).Ok? && Reachable(cfg, c) && c.Consistent() && c.op.Upsert?
    ensures var m := Local(cfg, c);
      m.snapshot.Some?
      && StagedChange(cfg, s, c).value.ops == s.ops + [UpsertRow(m.key, m.snapshot.value, m.version, m.schema)]
  {
    LocalKeeps(cfg, c);
  }

  lemma DeleteStep(cfg: Config, s: Staging, c: Change)
    requires StagedChange(cfg, s, c).Ok? && Reachable(cfg, c) && c.Consistent() && c.op.Delete?
    ensures StagedChange(cfg, s, c).value.ops == s.ops + [DeleteRow(c.key)]
  {
    LocalKeeps(cfg, c);
  }

  lemma SetAsideStep(cfg: Config, db: DbState, s: Staging, cs: seq<Change>, c: Change)
    requires StagedChange(cfg, s, c).Ok? && !Reachable(cfg, c)
    requires ApplyOps(db, s.ops) == StagedDb(cfg, db, cs)
    ensures ApplyOps(db, StagedChange(cfg, s, c).value.ops) == StagedDb(cfg, db, cs + [c])
  {
    assert (cs + [c])[..|cs|] == cs;
    var e := Localized(cfg, c).error;
    assert db.quarantine + (SetAside(cfg, cs) + [(c, e)]) == (db.quarantine + SetAside(cfg, cs)) + [(c, e)];
    OneMoreOp(db, s.ops, QuarantineRow(c, e));
  }

  lemma StagedStep(cfg: Config, db: DbState, s: Staging, cs: seq<Change>, c: Change)
    requires StagedChange(cfg, s, c).Ok? && c.Consistent()
    requires s.versions == VersionsAfter(Versions(db.rows), cs) && s.quarantined == SetAside(cfg, cs)
    ensures var t := StagedChange(cfg, s, c).value;
      t.versions == VersionsAfter(Versions(db.rows), cs + [c]) && t.quarantined == SetAside(cfg, cs + [c])
  {
    assert (cs + [c])[..|cs|] == cs;
    LocalKeeps(cfg, c);
  }

  /** The staged operations replay what can be stored, set the rest aside, and track every version. */
  lemma {:induction false} StagedOpsReplay(cfg: Config, db: DbState, digest: Digest.U128, cs: seq<Change>)
    requires StagedAll(cfg, StartStaging(db, digest), cs).Ok?
    requires forall c :: c in cs ==> c.Consistent()
    ensures var sg := StagedAll(cfg, StartStaging(db, digest), cs).value;
      && sg.versions == VersionsAfter(Versions(db.rows), cs) && sg.quarantined == SetAside(cfg, cs)
      && ApplyOps(db, sg.ops) == StagedDb(cfg, db, cs)
  {
    if cs == [] {
      assert db.quarantine + [] == db.quarantine;
    } else {
      var n := |cs| - 1;
      StagedOpsReplay(cfg, db, digest, cs[..n]);
      assert cs[n] in cs && cs == cs[..n] + [cs[n]];
      var before := StagedAll(cfg, StartStaging(db, digest), cs[..n]).value;
      StagedStep(cfg, db, before, cs[..n], cs[n]);
      if Reachable(cfg, cs[n]) {
        StorableStep(cfg, db, before, cs[..n], cs[n]);
      } else {
        SetAsideStep(cfg, db, before, cs[..n], cs[n]);
      }
    }
  }

  lemma {:induction false} StagedOpsAreRowOps(cfg: Config, s: Staging, cs: seq<Change>)
    requires StagedAll(cfg, s, cs).Ok?
    requires forall op :: op in s.ops ==> op.UpsertRow? || op.DeleteRow? || op.QuarantineRow?
    ensures forall op :: op in StagedAll(cfg, s, cs).value.ops ==> op.UpsertRow? || op.DeleteRow? || op.QuarantineRow?
  {
    if cs != [] {
      StagedOpsAreRowOps(cfg, s, cs[..|cs| - 1]);
    }
  }

  // ----- the invariant -----

  /** Memory describes storage, unless the scope is marked suspect. */
  predicate MemoryAgrees(mem: Memory, db: DbState, scope: ScopeId) {
    scope !in mem.suspect ==> StateOf(mem, scope) == StoredState(db, scope)
  }

  /** The stored digest is the sum over the stored rows it covers. */
  ghost predicate DigestExact(db: DbState, scope: ScopeId, mine: RowKey -> bool) {
    StoredState(db, scope).digest == Digest.DigestOf(Kept(Versions(db.rows), mine))
  }

  lemma RefreshedAgrees(mem: Memory, db: DbState, scope: ScopeId)
    requires MemoryAgrees(mem, db, scope)
    ensures StateOf(Refreshed(mem, db, scope), scope) == StoredState(db, scope)
    ensures forall t :: MemoryAgrees(mem, db, t) ==> MemoryAgrees(Refreshed(mem, db, scope), db, t)
  {
  }

  /** A batch's writes are its staged row operations, then the cursor, the digest and any record. */
  lemma BatchSplits(db: DbState, sg: Staging, batch: Batch, h: ScopeHealth, j: Judgement)
    ensures ApplyOps(db, BatchOps(sg, batch, h, j)) == ApplyOps(ApplyOps(db, sg.ops), TailOps(batch, sg.digest, h, j))
  {
    ApplyOpsSplits(db, sg.ops, TailOps(batch, sg.digest, h, j));
    assert BatchOps(sg, batch, h, j) == sg.ops + TailOps(batch, sg.digest, h, j);
  }

  /** A committed batch, whatever storage then reports: where it leaves the database. */
  lemma BatchWrites(cfg: Config, db: DbState, digest: Digest.U128, batch: Batch, h: ScopeHealth, j: Judgement)
    requires StagedAll(cfg, StartStaging(db, digest), batch.changes).Ok?
    requires forall c :: c in batch.changes ==> c.Consistent()
    ensures var sg := StagedAll(cfg, StartStaging(db, digest), batch.changes).value;
      var db' := ApplyOps(db, BatchOps(sg, batch, h, j));
      && db' == StagedDb(cfg, db, batch.changes).(
        cursors := db.cursors[batch.scope := batch.nextCursor],
        digests := db.digests[batch.scope := Digest.ToHex(sg.digest)], divergences := db'.divergences)
      && StoredState(db', batch.scope) == ScopeState(batch.nextCursor, sg.digest)
  {
    var sg := StagedAll(cfg, StartStaging(db, digest), batch.changes).value;
    StagedOpsReplay(cfg, db, digest, batch.changes);
    TailWrites(ApplyOps(db, sg.ops), batch, sg.digest, h, j);
    BatchSplits(db, sg, batch, h, j);
    Digest.HexRoundTrip(sg.digest, Digest.ToHex(sg.digest));
  }

  function TailOps(batch: Batch, digest: Digest.U128, h: ScopeHealth, j: Judgement): seq<StorageOp> {
    [SetCursor(batch.scope, batch.nextCursor), SetScopeDigest(batch.scope, Digest.ToHex(digest))]
    + (if j.counts then [RecordDivergence(batch.scope, NextAttempt(h), false)] else [])
    + (if j.heals then [RecordDivergence(batch.scope, h.Attempts(), true)] else [])
  }

  lemma TailWrites(db: DbState, batch: Batch, digest: Digest.U128, h: ScopeHealth, j: Judgement)
    ensures var db' := ApplyOps(db, TailOps(batch, digest, h, j));
      && db' == db.(cursors := db.cursors[batch.scope := batch.nextCursor],
                    digests := db.digests[batch.scope := Digest.ToHex(digest)], divergences := db'.divergences)
      && db'.divergences ==
        if j.heals then db.divergences[batch.scope := (h.Attempts(), true)]
        else if j.counts then db.divergences[batch.scope := (NextAttempt(h), false)]
        else db.divergences
  {
    var two := [SetCursor(batch.scope, batch.nextCursor), SetScopeDigest(batch.scope, Digest.ToHex(digest))];
    var three := if j.counts then [RecordDivergence(batch.scope, NextAttempt(h), false)] else [];
    var four := if j.heals then [RecordDivergence(batch.scope, h.Attempts(), true)] else [];
    ApplyOpsSplits(db, two, three);
    ApplyOpsSplits(db, two + three, four);
    ApplyOpsSplits(db, [two[0]], [two[1]]);
    One(db, [two[0]]);
    One(ApplyOp(db, two[0]), [two[1]]);
    assert two == [two[0]] + [two[1]];
    One(ApplyOps(db, two), three);
    One(ApplyOps(db, two + three), four);
  }

  lemma One(db: DbState, ops: seq<StorageOp>)
    requires |ops| <= 1
    ensures ApplyOps(db, ops) == if ops == [] then db else ApplyOp(db, ops[0])
  {
    if ops != [] {
      assert ops[..0] == [];
    }
  }

  /** Whether an apply got as far as writing, and whether that write landed. */
  predicate Landed(cfg: Config, db: DbState, verdict: Verdict, batch: Batch) {
    var state := StoredState(db, batch.scope);
    && BatchFault(batch, state.cursor).None?
    && StagedAll(cfg, StartStaging(db, state.digest), batch.changes).Ok?
    && !verdict.FailBeforeCommit?
  }

  lemma RefreshKeepsDb(mem: Memory, db: DbState, scope: ScopeId, other: ScopeId)
    ensures HealthOf(Refreshed(mem, db, scope), other) == HealthOf(mem, other)
    ensures Refreshed(mem, db, scope).outbox == mem.outbox
      && Refreshed(mem, db, scope).outboxSuspect == mem.outboxSuspect
  {
  }

  /** What a landed apply has written. */
  ghost predicate Wrote(cfg: Config, db: DbState, db': DbState, batch: Batch) {
    && db'.rows == ReplayOnto(db.rows, Storable(cfg, batch.changes))
    && db'.quarantine == db.quarantine + SetAside(cfg, batch.changes)
    && db'.cursors == db.cursors[batch.scope := batch.nextCursor]
    && db'.digests == db.digests[batch.scope := Digest.ToHex(StoredState(db', batch.scope).digest)]
    && StoredState(db', batch.scope).cursor == batch.nextCursor
  }

  /** The commit half: whatever storage reports, a landed write is the replay, and a lie marks the scope suspect. */
  lemma CommitRefines(cfg: Config, m: Memory, db: DbState, verdict: Verdict, batch: Batch, compare: bool,
                      rebuilding: bool)
    requires StateOf(m, batch.scope) == StoredState(db, batch.scope)
    requires StagedAll(cfg, StartStaging(db, StoredState(db, batch.scope).digest), batch.changes).Ok?
    requires forall c :: c in batch.changes ==> c.Consistent()
    ensures var sg := StagedAll(cfg, StartStaging(db, StoredState(db, batch.scope).digest), batch.changes).value;
      var o := CommittedBatch(m, db, verdict, sg, batch, compare, rebuilding);
      && MemoryAgrees(o.mem, o.db, batch.scope)
      && (if verdict.FailBeforeCommit? then o.db == db
          else Wrote(cfg, db, o.db, batch) && StoredState(o.db, batch.scope).digest == sg.digest)
      && (o.result.Ok? <==> verdict.Commit?)
      && (o.result.Ok? ==>
        (o.result.value.diverged <==> compare && Digest.ToHex(StoredState(o.db, batch.scope).digest) != batch.digest))
  {
    var start := StartStaging(db, StoredState(db, batch.scope).digest);
    var sg := StagedAll(cfg, start, batch.changes).value;
    var h := HealthOf(m, batch.scope);
    var j := Judged(h, Digest.ToHex(sg.digest), batch.digest, compare, rebuilding);
    BatchWrites(cfg, db, start.digest, batch, h, j);
  }

  /**
   One apply, of any batch, quarantined changes included, under any storage behaviour: either
   nothing stored moves, or the rows are the replay of what can be stored, the rest is set aside
   and the cursor is the batch's. Memory still describes storage or is marked suspect, and
   divergence is reported exactly when a commit was acknowledged and the digests differ.
   */
  lemma ApplyRefines(cfg: Config, mem: Memory, db: DbState, verdict: Verdict, batch: Batch, compare: bool,
                     rebuilding: bool)
    requires MemoryAgrees(mem, db, batch.scope)
    ensures var o := AppliedBatch(cfg, mem, db, verdict, batch, compare, rebuilding);
      && MemoryAgrees(o.mem, o.db, batch.scope)
      && (if Landed(cfg, db, verdict, batch) then Wrote(cfg, db, o.db, batch) else o.db == db)
      && (o.result.Ok? <==> Landed(cfg, db, verdict, batch) && verdict.Commit?)
      && (o.result.Ok? ==>
        (o.result.value.diverged <==> compare && Digest.ToHex(StoredState(o.db, batch.scope).digest) != batch.digest))
  {
    RefreshedAgrees(mem, db, batch.scope);
    var m := Refreshed(mem, db, batch.scope);
    var state := StateOf(m, batch.scope);
    BatchFaultMeaning(batch, state.cursor);
    if BatchFault(batch, state.cursor).None? && StagedAll(cfg, StartStaging(db, state.digest), batch.changes).Ok? {
      CommitRefines(cfg, m, db, verdict, batch, compare, rebuilding);
    }
  }

  // ----- the digest -----

  /** A landed apply stores the digest staging ended with. */
  lemma LandedDigest(cfg: Config, mem: Memory, db: DbState, verdict: Verdict, batch: Batch, compare: bool,
                     rebuilding: bool)
    requires MemoryAgrees(mem, db, batch.scope) && Landed(cfg, db, verdict, batch)
    ensures StoredState(AppliedBatch(cfg, mem, db, verdict, batch, compare, rebuilding).db, batch.scope).digest
      == StagedAll(cfg, StartStaging(db, StoredState(db, batch.scope).digest), batch.changes).value.digest
  {
    RefreshedAgrees(mem, db, batch.scope);
    BatchFaultMeaning(batch, StoredState(db, batch.scope).cursor);
    CommitRefines(cfg, Refreshed(mem, db, batch.scope), db, verdict, batch, compare, rebuilding);
  }

  /** After a landed apply the digest is the sum over the versions staged, quarantined ones included. */
  lemma DigestFollowsVersions(cfg: Config, mem: Memory, db: DbState, verdict: Verdict, batch: Batch, compare: bool,
                              rebuilding: bool, mine: RowKey -> bool)
    requires MemoryAgrees(mem, db, batch.scope) && DigestExact(db, batch.scope, mine)
    requires Landed(cfg, db, verdict, batch) && forall c :: c in batch.changes ==> mine(c.key)
    ensures StoredState(AppliedBatch(cfg, mem, db, verdict, batch, compare, rebuilding).db, batch.scope).digest
      == Digest.DigestOf(Kept(VersionsAfter(Versions(db.rows), batch.changes), mine))
  {
    var start := StartStaging(db, StoredState(db, batch.scope).digest);
    BatchFaultMeaning(batch, StoredState(db, batch.scope).cursor);
    LandedDigest(cfg, mem, db, verdict, batch, compare, rebuilding);
    StagedAllTracks(cfg, start, batch.changes, mine);
    StagedOpsReplay(cfg, db, start.digest, batch.changes);
  }

  /** So it is still exact if and only if the versions staged and the versions stored sum alike. */
  lemma DigestStaysExact(cfg: Config, mem: Memory, db: DbState, verdict: Verdict, batch: Batch, compare: bool,
                         rebuilding: bool, mine: RowKey -> bool)
    requires MemoryAgrees(mem, db, batch.scope) && DigestExact(db, batch.scope, mine)
    requires Landed(cfg, db, verdict, batch) && forall c :: c in batch.changes ==> mine(c.key)
    ensures DigestExact(AppliedBatch(cfg, mem, db, verdict, batch, compare, rebuilding).db, batch.scope, mine) <==>
      Digest.DigestOf(Kept(VersionsAfter(Versions(db.rows), batch.changes), mine))
      == Digest.DigestOf(Kept(Versions(ReplayOnto(db.rows, Storable(cfg, batch.changes))), mine))
  {
    DigestFollowsVersions(cfg, mem, db, verdict, batch, compare, rebuilding, mine);
    ApplyRefines(cfg, mem, db, verdict, batch, compare, rebuilding);
  }

  /** A row of a batch that was set aside, unless it is stored at that very version already. */
  predicate Drifts(cfg: Config, rows: Rows, cs: seq<Change>, key: RowKey) {
    var last := LastTo(cs, key);
    last.Some? && !Reachable(cfg, last.value) && last.value.Consistent()
    && (key !in ReplayOnto(rows, Storable(cfg, cs))
         || ReplayOnto(rows, Storable(cfg, cs))[key].version != last.value.version)
  }

  lemma {:induction false} KeyVersions(cfg: Config, rows: Rows, cs: seq<Change>, key: RowKey)
    requires forall c :: c in cs ==> c.Consistent()
    ensures var staged, stored := VersionsAfter(Versions(rows), cs), ReplayOnto(rows, Storable(cfg, cs));
      match LastTo(cs, key)
      case None => (key in staged <==> key in stored) && (key in stored ==> staged[key] == stored[key].version)
      case Some(c) =>
        && c in cs && (c.snapshot.Some? <==> key in staged) && (key in staged ==> staged[key] == c.version)
        && (Reachable(cfg, c) ==>
             (key in staged <==> key in stored) && (key in stored ==> staged[key] == stored[key].version))
  {
    if cs != [] {
      var n := |cs| - 1;
      KeyVersions(cfg, rows, cs[..n], key);
      LocalKeeps(cfg, cs[n]);
      assert cs[n] in cs;
      if Reachable(cfg, cs[n]) {
        var init := Storable(cfg, cs[..n]);
        assert (init + [Local(cfg, cs[n])])[..|init|] == init;
      }
    }
  }

  /** The versions staged are the versions stored if and only if no row's latest change was set aside. */
  lemma NoDriftMeans(cfg: Config, rows: Rows, cs: seq<Change>)
    requires forall c :: c in cs ==> c.Consistent()
    ensures VersionsAfter(Versions(rows), cs) == Versions(ReplayOnto(rows, Storable(cfg, cs))) <==>
      forall key :: !Drifts(cfg, rows, cs, key)
  {
    var staged, stored := VersionsAfter(Versions(rows), cs), ReplayOnto(rows, Storable(cfg, cs));
    if key :| Drifts(cfg, rows, cs, key) {
      KeyVersions(cfg, rows, cs, key);
      assert key in staged;
      assert key in Versions(stored) ==> Versions(stored)[key] == stored[key].version;
    } else {
      forall key
        ensures (key in staged <==> key in Versions(stored))
          && (key in staged ==> staged[key] == Versions(stored)[key]) {
        KeyVersions(cfg, rows, cs, key);
        assert !Drifts(cfg, rows, cs, key);
      }
    }
  }

  /** With nothing to quarantine, the rows are the replay of the whole batch and the digest is still the exact sum. */
  lemma CleanApplyRefines(cfg: Config, mem: Memory, db: DbState, verdict: Verdict, batch: Batch, compare: bool,
                          rebuilding: bool, mine: RowKey -> bool)
    requires MemoryAgrees(mem, db, batch.scope) && DigestExact(db, batch.scope, mine)
    requires forall c :: c in batch.changes ==> Reachable(cfg, c) && mine(c.key)
    ensures var o := AppliedBatch(cfg, mem, db, verdict, batch, compare, rebuilding);
      && MemoryAgrees(o.mem, o.db, batch.scope) && DigestExact(o.db, batch.scope, mine)
      && (if Landed(cfg, db, verdict, batch)
          then Wrote(cfg, db, o.db, batch) && o.db.rows == ReplayOnto(db.rows, LocalAll(cfg, batch.changes))
          else o.db == db)
      && (o.result.Ok? <==> Landed(cfg, db, verdict, batch) && verdict.Commit?)
      && (o.result.Ok? ==>
        (o.result.value.diverged <==> compare && Digest.ToHex(StoredState(o.db, batch.scope).digest) != batch.digest))
  {
    ApplyRefines(cfg, mem, db, verdict, batch, compare, rebuilding);
    AllStorable(cfg, batch.changes);
    CleanVersions(cfg, db.rows, batch.changes);
    if Landed(cfg, db, verdict, batch) {
      DigestStaysExact(cfg, mem, db, verdict, batch, compare, rebuilding, mine);
    }
  }
}
