/**
 Push traffic: requests and answers may be lost, repeated and reordered without limit. One command
 id keeps one payload, one record at the server, at most one log entry, and one verdict everywhere.
 */
module PushChannel {
  import opened Prelude
  import opened Wire
  import opened Ids
  import opened Replay
  import opened Storage
  import opened EngineSpec
  import opened EngineOutbox
  import opened ServerSpec
  import Dedupe
  import EngineDigest

  /** Every command ever authored, by id. */
  type Authored = map<CommandId, OutboxEntry>

  predicate AuthoredSound(authored: Authored) {
    forall id :: id in authored ==> authored[id].command.id == id
  }

  // ----- what a request may carry -----

  /** A command as its author's registry and migrations send it. */
  predicate Vouched(cfg: Config, authored: Authored, c: Command) {
    c.id in authored && Outgoing(cfg, authored[c.id]) == Ok(c)
  }

  lemma {:induction false} SendableVouched(cfg: Config, authored: Authored, outbox: seq<OutboxEntry>)
    requires AuthoredSound(authored)
    requires forall e :: e in outbox ==> e.command.id in authored && authored[e.command.id] == e
    ensures forall c :: c in Sendable(cfg, outbox) ==> Vouched(cfg, authored, c)
  {
    if outbox != [] {
      var init, last := outbox[..|outbox| - 1], outbox[|outbox| - 1];
      SendableVouched(cfg, authored, init);
      assert last in outbox;
    }
  }

  // ----- the server's table and log -----

  /** Each record was made for the one payload its id carries. */
  predicate TableSound(cfg: Config, authored: Authored, dedupe: Dedupe.Table) {
    forall id :: id in dedupe ==> RecordSound(cfg, authored, id, dedupe[id])
  }

  predicate RecordSound(cfg: Config, authored: Authored, id: CommandId, r: Dedupe.Recorded) {
    && id in authored && Outgoing(cfg, authored[id]).Ok? && r.result.id == id
    && r.checksum == Dedupe.PayloadChecksum(Outgoing(cfg, authored[id]).value.payload)
  }

  /** An entry a command wrote is the one its record names. */
  predicate Named(dedupe: Dedupe.Table, e: Entry) {
    e.origin.Some? ==>
      && e.origin.value in dedupe
      && dedupe[e.origin.value].result == Dedupe.AppliedResult(e.origin.value, e.change.seqNo)
  }

  predicate WroteEntry(log: seq<Entry>, id: CommandId) {
    exists i :: 0 <= i < |log| && log[i].origin == Some(id)
  }

  /** The log and the table tell one story: applied exactly when written. */
  ghost predicate OneStory(s: ServerState) {
    && (forall i :: 0 <= i < |s.log| ==> Named(s.dedupe, s.log[i]))
    && (forall id :: id in s.dedupe && s.dedupe[id].result.status.Applied? ==> WroteEntry(s.log, id))
  }

  ghost predicate ServerSound(cfg: Config, authored: Authored, s: ServerState) {
    Numbered(s) && TableSound(cfg, authored, s.dedupe) && OneStory(s)
  }

  /** Records are never rewritten. */
  predicate Extends(dedupe: Dedupe.Table, dedupe': Dedupe.Table) {
    forall id :: id in dedupe ==> id in dedupe' && dedupe'[id] == dedupe[id]
  }

  /** Two entries of one command are one entry. */
  lemma AtMostOnce(s: ServerState, i: nat, j: nat)
    requires Numbered(s) && OneStory(s)
    requires i < |s.log| && j < |s.log| && s.log[i].origin.Some? && s.log[i].origin == s.log[j].origin
    ensures i == j
  {
    assert Named(s.dedupe, s.log[i]) && Named(s.dedupe, s.log[j]);
  }

  lemma StorySurvives(log: seq<Entry>, log': seq<Entry>, dedupe: Dedupe.Table, dedupe': Dedupe.Table, i: nat)
    requires i < |log| <= |log'| && log' [i].origin == log[i].origin && log'[i].change == log[i].change
    requires Named(dedupe, log[i]) && Extends(dedupe, dedupe')
    ensures Named(dedupe', log'[i])
  {
  }

  /** A command met for the first time: its record and at most one entry, nothing else. */
  predicate FirstMet(s: ServerState, c: Command, t: ServerState, r: CommandResult) {
    && t.dedupe == s.dedupe[c.id := Dedupe.Recorded(Dedupe.PayloadChecksum(c.payload), r)] && r.id == c.id
    && s.log <= t.log && |t.log| <= |s.log| + 1 && t.targets == s.targets
    && (r.status.Applied? <==> |t.log| == |s.log| + 1)
    && (|t.log| == |s.log| + 1 ==>
      var e := t.log[|s.log|]; e.origin == Some(c.id) && r == Dedupe.AppliedResult(c.id, e.change.seqNo))
  }

  lemma FreshDecision(s: ServerState, c: Command, roll: nat, visible: bool)
    requires c.id !in s.dedupe
    ensures FirstMet(s, c, Decided(s, c, roll, visible).0, Decided(s, c, roll, visible).1)
  {
  }

  lemma FirstMetStory(s: ServerState, c: Command, t: ServerState, r: CommandResult)
    requires OneStory(s) && c.id !in s.dedupe && FirstMet(s, c, t, r)
    ensures OneStory(t) && Extends(s.dedupe, t.dedupe)
  {
    forall i | 0 <= i < |t.log| ensures Named(t.dedupe, t.log[i]) {
      if i < |s.log| {
        assert Named(s.dedupe, s.log[i]);
        StorySurvives(s.log, t.log, s.dedupe, t.dedupe, i);
      }
    }
    forall id | id in t.dedupe && t.dedupe[id].result.status.Applied? ensures WroteEntry(t.log, id) {
      if id == c.id {
        assert t.log[|s.log|].origin == Some(c.id);
      } else {
        assert WroteEntry(s.log, id);
        var i :| 0 <= i < |s.log| && s.log[i].origin == Some(id);
        assert t.log[i].origin == Some(id);
      }
    }
  }

  lemma FirstMetTable(cfg: Config, authored: Authored, s: ServerState, c: Command, t: ServerState, r: CommandResult)
    requires TableSound(cfg, authored, s.dedupe) && Vouched(cfg, authored, c) && FirstMet(s, c, t, r)
    ensures TableSound(cfg, authored, t.dedupe)
  {
    forall id | id in t.dedupe ensures RecordSound(cfg, authored, id, t.dedupe[id]) {
      if id != c.id {
        assert RecordSound(cfg, authored, id, s.dedupe[id]);
      }
    }
  }

  lemma ReplayedDecision(cfg: Config, authored: Authored, s: ServerState, c: Command, roll: nat, visible: bool)
    requires TableSound(cfg, authored, s.dedupe) && Vouched(cfg, authored, c) && c.id in s.dedupe
    ensures Decided(s, c, roll, visible) == (s, s.dedupe[c.id].result) && s.dedupe[c.id].result.id == c.id
  {
    assert RecordSound(cfg, authored, c.id, s.dedupe[c.id]);
  }

  /** The log and records a push leaves: everything before is still there. */
  predicate Later(s: ServerState, t: ServerState) {
    s.log <= t.log && t.targets == s.targets && Extends(s.dedupe, t.dedupe)
  }

  /** One vouched command: replayed or decided afresh, never mistaken for a mutation. */
  lemma DecidedSound(cfg: Config, authored: Authored, s: ServerState, c: Command, roll: nat, visible: bool)
    requires ServerSound(cfg, authored, s) && Vouched(cfg, authored, c)
    ensures var (t, r) := Decided(s, c, roll, visible);
      ServerSound(cfg, authored, t) && Later(s, t) && c.id in t.dedupe && t.dedupe[c.id].result == r && r.id == c.id
  {
    var (t, r) := Decided(s, c, roll, visible);
    if c.id in s.dedupe {
      ReplayedDecision(cfg, authored, s, c, roll, visible);
    } else {
      DecidedKeepsNumbered(s, c, roll, visible);
      FreshDecision(s, c, roll, visible);
      FirstMetStory(s, c, t, r);
      FirstMetTable(cfg, authored, s, c, t, r);
    }
  }

  /** Every result names the record it came from. */
  predicate AnswerSound(dedupe: Dedupe.Table, rs: seq<CommandResult>) {
    forall r :: r in rs ==> r.id in dedupe && dedupe[r.id].result == r
  }

  lemma AnswersLast(s: ServerState, t: ServerState, rs: seq<CommandResult>)
    requires AnswerSound(s.dedupe, rs) && Extends(s.dedupe, t.dedupe)
    ensures AnswerSound(t.dedupe, rs)
  {
  }

  /** The results answer exactly the commands looked at, in order. */
  predicate InStep(commands: seq<Command>, rs: seq<CommandResult>) {
    |rs| == |commands| && forall i :: 0 <= i < |rs| ==> rs[i].id == commands[i].id
  }

  lemma {:induction false} PushedSound(cfg: Config, authored: Authored, s: ServerState, commands: seq<Command>,
                                       draws: seq<(nat, bool)>)
    requires ServerSound(cfg, authored, s) && |draws| == |commands|
    requires forall c :: c in commands ==> Vouched(cfg, authored, c)
    ensures var (t, rs) := Pushed(s, commands, draws);
      ServerSound(cfg, authored, t) && Later(s, t) && AnswerSound(t.dedupe, rs) && InStep(commands, rs)
  {
    if commands != [] {
      var n := |commands| - 1;
      PushedSound(cfg, authored, s, commands[..n], draws[..n]);
      var (t, rs) := Pushed(s, commands[..n], draws[..n]);
      assert commands[n] in commands && commands == commands[..n] + [commands[n]];
      PushedOneMore(cfg, authored, s, t, commands[..n], rs, commands[n], draws[n].0, draws[n].1);
    }
  }

  /** One more command after a push that left a sound server. */
  lemma PushedOneMore(cfg: Config, authored: Authored, s: ServerState, t: ServerState, commands: seq<Command>,
                      rs: seq<CommandResult>, c: Command, roll: nat, visible: bool)
    requires ServerSound(cfg, authored, t) && Later(s, t) && AnswerSound(t.dedupe, rs) && InStep(commands, rs)
    requires Vouched(cfg, authored, c)
    ensures var (u, r) := Decided(t, c, roll, visible);
      ServerSound(cfg, authored, u) && Later(s, u) && AnswerSound(u.dedupe, rs + [r])
        && InStep(commands + [c], rs + [r])
  {
    var (u, r) := Decided(t, c, roll, visible);
    DecidedSound(cfg, authored, t, c, roll, visible);
    LaterTwice(s, t, u);
    AnswersJoin(t, u, rs, r);
    StepsJoin(commands, rs, c, r);
  }

  lemma AnswersJoin(t: ServerState, u: ServerState, rs: seq<CommandResult>, r: CommandResult)
    requires AnswerSound(t.dedupe, rs) && Extends(t.dedupe, u.dedupe) && r.id in u.dedupe && u.dedupe[r.id].result == r
    ensures AnswerSound(u.dedupe, rs + [r])
  {
    AnswersLast(t, u, rs);
  }

  lemma StepsJoin(commands: seq<Command>, rs: seq<CommandResult>, c: Command, r: CommandResult)
    requires InStep(commands, rs) && r.id == c.id
    ensures InStep(commands + [c], rs + [r])
  {
  }

  lemma LaterTwice(s: ServerState, t: ServerState, u: ServerState)
    requires Later(s, t) && Later(t, u)
    ensures Later(s, u)
  {
    assert forall i :: 0 <= i < |s.log| ==> u.log[i] == t.log[i] == s.log[i];
  }

  /** A response in which the last result is said twice. */
  function RepeatResult(rs: seq<CommandResult>): seq<CommandResult> {
    if rs == [] then rs else rs + [rs[|rs| - 1]]
  }

  // ----- the device -----

  /** What a device has queued is what was authored; what it has resolved is what the server decided. */
  ghost predicate QueueSound(authored: Authored, dedupe: Dedupe.Table, mem: Memory, db: DbState) {
    && Accounted(db) && QueueAgrees(mem, db) && db.enqueued <= authored.Keys
    && (forall e :: e in db.outbox ==> e.command.id in authored && authored[e.command.id] == e)
    && (forall r :: r in db.resolved ==> VerdictSound(dedupe, r))
  }

  predicate VerdictSound(dedupe: Dedupe.Table, r: (CommandId, Resolution)) {
    r.0 in dedupe && SaysAs(r.1, dedupe[r.0].result)
  }

  lemma TableGrowthKeepsQueue(authored: Authored, dedupe: Dedupe.Table, dedupe': Dedupe.Table, mem: Memory, db: DbState)
    requires QueueSound(authored, dedupe, mem, db) && Extends(dedupe, dedupe')
    ensures QueueSound(authored, dedupe', mem, db)
  {
    forall r | r in db.resolved ensures VerdictSound(dedupe', r) {
      assert VerdictSound(dedupe, r);
    }
  }

  /** Somebody else's new command changes nothing here. */
  lemma AuthorshipKeepsQueue(authored: Authored, entry: OutboxEntry, dedupe: Dedupe.Table, mem: Memory, db: DbState)
    requires QueueSound(authored, dedupe, mem, db) && entry.command.id !in authored
    ensures QueueSound(authored[entry.command.id := entry], dedupe, mem, db)
  {
  }

  /** What is queued after an answer was queued before it. */
  lemma ResultsShrinkQueue(cfg: Config, mem: Memory, db: DbState, verdict: Verdict, rs: seq<CommandResult>)
    requires Accounted(db) && QueueAgrees(mem, db)
    ensures var o := ResultsApplied(cfg, mem, db, verdict, rs); forall e :: e in o.db.outbox ==> e in db.outbox
  {
    AnswersSettle(cfg, db, rs);
    var a := AnswerAll(cfg, db.outbox, rs);
    RemainingQueued(db.outbox, a.resolved.resolutions);
  }

  /** Any answer, however late or repeated, leaves the device's verdicts the server's. */
  lemma AnswerKeepsQueue(cfg: Config, authored: Authored, dedupe: Dedupe.Table, mem: Memory, db: DbState,
                         verdict: Verdict, rs: seq<CommandResult>)
    requires QueueSound(authored, dedupe, mem, db) && AnswerSound(dedupe, rs)
    ensures var o := ResultsApplied(cfg, mem, db, verdict, rs); QueueSound(authored, dedupe, o.mem, o.db)
  {
    ResultsSettle(cfg, mem, db, verdict, rs);
    ResultsShrinkQueue(cfg, mem, db, verdict, rs);
    var o := ResultsApplied(cfg, mem, db, verdict, rs);
    forall r | r in o.db.resolved ensures VerdictSound(dedupe, r) {
      var i :| 0 <= i < |o.db.resolved| && o.db.resolved[i] == r;
      if verdict.FailBeforeCommit? || i < |db.resolved| {
        assert r in db.resolved && VerdictSound(dedupe, r);
      } else {
        FirstForMeans(rs, r.0);
      }
    }
  }

  lemma EnqueueKeepsQueue(cfg: Config, authored: Authored, dedupe: Dedupe.Table, mem: Memory, db: DbState,
                          verdict: Verdict, entry: OutboxEntry)
    requires QueueSound(authored, dedupe, mem, db) && entry.command.id !in authored
    ensures var o := Enqueued(cfg, mem, db, verdict, entry);
      QueueSound(authored[entry.command.id := entry], dedupe, o.mem, o.db)
  {
    EnqueueAccounts(cfg, mem, db, verdict, entry);
    EngineDigest.One(db, [EnqueueCommand(entry)]);
  }

  // ----- drafts -----

  /** The draft a superseded command must leave behind, if its entity is an owner draft. */
  function DraftOf(cfg: Config, entry: OutboxEntry): Option<(CommandId, EntityName, Document)> {
    if WritesDraft(cfg, entry) then Some(DraftFor(cfg, entry)) else None
  }

  predicate DraftSound(cfg: Config, authored: Authored, db: DbState, r: (CommandId, Resolution)) {
    r.0 in authored
    && (r.1.ResSuperseded? && DraftOf(cfg, authored[r.0]).Some? ==> DraftOf(cfg, authored[r.0]).value in db.recovered)
  }

  /** No superseded owner draft has been lost. */
  predicate DraftsSound(cfg: Config, authored: Authored, db: DbState) {
    forall r :: r in db.resolved ==> DraftSound(cfg, authored, db, r)
  }

  lemma AuthorshipKeepsDrafts(cfg: Config, authored: Authored, entry: OutboxEntry, db: DbState)
    requires DraftsSound(cfg, authored, db) && entry.command.id !in authored
    ensures DraftsSound(cfg, authored[entry.command.id := entry], db)
  {
    forall r | r in db.resolved ensures DraftSound(cfg, authored[entry.command.id := entry], db, r) {
      assert DraftSound(cfg, authored, db, r);
    }
  }

  lemma SameDrafts(cfg: Config, authored: Authored, db: DbState, db': DbState)
    requires DraftsSound(cfg, authored, db) && db'.resolved == db.resolved && db'.recovered == db.recovered
    ensures DraftsSound(cfg, authored, db')
  {
    forall r | r in db'.resolved ensures DraftSound(cfg, authored, db', r) {
      assert DraftSound(cfg, authored, db, r);
    }
  }

  /** A verdict recorded by this answer has its draft written in the same transaction. */
  lemma NewDraftSound(cfg: Config, authored: Authored, db: DbState, rs: seq<CommandResult>, r: (CommandId, Resolution))
    requires Accounted(db) && r.0 in IdsOf(db.outbox)
    requires forall e :: e in db.outbox ==> e.command.id in authored && authored[e.command.id] == e
    requires FirstFor(rs, r.0).Some? && SaysAs(r.1, FirstFor(rs, r.0).value)
    ensures DraftSound(cfg, authored, ApplyOps(db, AnswerAll(cfg, db.outbox, rs).ops), r)
  {
    var entry :| entry in db.outbox && entry.command.id == r.0;
    DraftsSurvive(cfg, db, rs, entry);
  }

  lemma AnswerKeepsDrafts(cfg: Config, authored: Authored, mem: Memory, db: DbState, verdict: Verdict,
                          rs: seq<CommandResult>)
    requires Accounted(db) && QueueAgrees(mem, db) && DraftsSound(cfg, authored, db)
    requires forall e :: e in db.outbox ==> e.command.id in authored && authored[e.command.id] == e
    ensures DraftsSound(cfg, authored, ResultsApplied(cfg, mem, db, verdict, rs).db)
  {
    AnswersSettle(cfg, db, rs);
    RecoveredGrows(cfg, db, rs);
    var a := AnswerAll(cfg, db.outbox, rs);
    var d := ApplyOps(db, a.ops);
    forall r | r in d.resolved ensures DraftSound(cfg, authored, d, r) {
      if r in db.resolved {
        assert DraftSound(cfg, authored, db, r);
      } else {
        assert r in a.resolved.resolutions && r.0 in RecordedIds(a.resolved.resolutions);
        NewDraftSound(cfg, authored, db, rs, r);
      }
    }
    var o := ResultsApplied(cfg, mem, db, verdict, rs);
    if a.ops != [] && !verdict.FailBeforeCommit? {
      SameDrafts(cfg, authored, d, o.db);
    }
  }
}
