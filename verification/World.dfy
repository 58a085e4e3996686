/**
 The whole system as steps: one server, any number of devices, a network that loses, delays and
 repeats, storage that fails or lies, devices that restart, and writes that commit out of order.
 The claims the simulator checks on sampled runs, as facts about every reachable state.
 */
module World {
  import opened Prelude
  import opened Wire
  import opened Ids
  import opened Replay
  import opened Storage
  import opened EngineSpec
  import opened EngineDigest
  import opened ServerSpec
  import opened PullChannel
  import opened PushChannel
  import Dedupe
  import Digest
  import EngineOutbox
  import EngineRuns

  /** The server, the devices, everything authored, and every push request and answer ever sent. */
  datatype World = World(server: ServerState, devices: map<nat, Device>, authored: Authored,
                         requests: set<seq<Command>>, answers: set<seq<CommandResult>>)

  datatype Step =
    | ExternalChange(scope: ScopeId, key: RowKey, visible: bool)
    | ExternalDelete(scope: ScopeId, key: RowKey)
    | CommitSome(due: set<nat>)
    | SendPull(d: nat)
    | AnswerPull(d: nat, asked: nat, limit: nat, budget: nat, corrupt: bool)
    | Deliver(d: nat, verdict: Verdict, keep: bool)
    | Lose(d: nat, i: nat)
    | Author(d: nat, entry: OutboxEntry, verdict: Verdict)
    | SendPush(d: nat, n: nat)
    | ServePush(request: seq<Command>, draws: seq<(nat, bool)>, repeated: bool)
    | DeliverAnswer(d: nat, results: seq<CommandResult>, verdict: Verdict)
    | RestartDevice(d: nat)

  function ScopeEntries(s: Setup, w: World): seq<Entry> {
    ScopeLog(w.server.log, s.scope)
  }

  function Commits(log: seq<Entry>, due: set<nat>): seq<Entry> {
    seq(|log|, i requires 0 <= i < |log| => if i in due then log[i].(visible := true) else log[i])
  }

  function Put(w: World, d: nat, v: Device): World {
    w.(devices := w.devices[d := v])
  }

  ghost function Answer(s: Setup, w: World, asked: nat, limit: nat, budget: nat): Batch {
    PullAnswer(ScopeEntries(s, w), s.scope, asked, limit, true, s.encode, budget, s.compressedLen)
  }

  /** Queue operations on one device. */
  function Queueing(s: Setup, v: Device, entry: OutboxEntry, verdict: Verdict): Device {
    var o := Enqueued(s.cfg, v.mem, v.db, verdict, entry); v.(mem := o.mem, db := o.db)
  }

  function Resolving(s: Setup, v: Device, results: seq<CommandResult>, verdict: Verdict): Device {
    var o := ResultsApplied(s.cfg, v.mem, v.db, verdict, results); v.(mem := o.mem, db := o.db)
  }

  /** Where a fresh push would start from. */
  function Reading(v: Device): Device {
    v.(mem := RefreshedOutbox(v.mem, v.db))
  }

  /** One step. Requests may be answered at any time and any number of times; so may pushes. */
  ghost predicate Next(s: Setup, w: World, w': World, step: Step) {
    match step
    case ExternalChange(scope, key, visible) => w' == w.(server := Appended(w.server, scope, key, None, visible))
    case ExternalDelete(scope, key) => w' == w.(server := Deleted(w.server, scope, key))
    case CommitSome(due) => w' == w.(server := w.server.(log := Commits(w.server.log, due)))
    case SendPull(d) => d in w.devices && w' == Put(w, d, Sending(s, w.devices[d]))
    case AnswerPull(d, asked, limit, budget, corrupt) =>
      && d in w.devices && asked in w.devices[d].sent && limit > 0
      && var batch := Answer(s, w, asked, limit, budget);
        && (corrupt ==> batch.changes != [])
        && var l := Letter(asked, if corrupt then RepeatLast(batch) else batch, corrupt, |ScopeEntries(s, w)|);
          w' == Put(w, d, w.devices[d].(inbox := w.devices[d].inbox + [l]))
    case Deliver(d, verdict, keep) =>
      && d in w.devices && w.devices[d].inbox != []
      && w' == Put(w, d, Taken(Delivered(s, w.devices[d], w.devices[d].inbox[0].batch, verdict), keep))
    case Lose(d, i) =>
      && d in w.devices && i < |w.devices[d].inbox|
      && w' == Put(w, d, w.devices[d].(inbox := w.devices[d].inbox[..i] + w.devices[d].inbox[i + 1..]))
    case Author(d, entry, verdict) =>
      && d in w.devices && entry.command.id !in w.authored
      && w' == Put(w, d, Queueing(s, w.devices[d], entry, verdict)).(authored := w.authored[entry.command.id := entry])
    case SendPush(d, n) =>
      && d in w.devices
      && var v := Reading(w.devices[d]);
        n <= |Sendable(s.cfg, v.mem.outbox)|
        && w' == Put(w, d, v).(requests := w.requests + {Sendable(s.cfg, v.mem.outbox)[..n]})
    case ServePush(request, draws, repeated) =>
      && request in w.requests && |draws| <= |request|
      && var (t, rs) := Pushed(w.server, request[..|draws|], draws);
        w' == w.(server := t, answers := w.answers + {if repeated then RepeatResult(rs) else rs})
    case DeliverAnswer(d, results, verdict) =>
      && d in w.devices && results in w.answers
      && w' == Put(w, d, Resolving(s, w.devices[d], results, verdict))
    case RestartDevice(d) =>
      d in w.devices && w' == Put(w, d, w.devices[d].(mem := Restarted(w.devices[d].db, false)))
  }

  ghost predicate SomeStep(s: Setup, w: World, w': World) {
    exists step :: Next(s, w, w', step)
  }

  ghost predicate Starts(s: Setup, w: World) {
    && w.server.log == [] && w.server.nextSeq == 1 && w.server.dedupe == map[]
    && w.authored == map[] && w.requests == {} && w.answers == {}
    && forall d :: d in w.devices ==> w.devices[d] == Device(FRESH_MEMORY, EMPTY_DB, {}, [])
  }

  ghost predicate Run(s: Setup, run: seq<World>) {
    && run != [] && Starts(s, run[0]) && Serves(s.cfg)
    && forall i :: 0 < i < |run| ==> SomeStep(s, run[i - 1], run[i])
  }

  /** Every document the server writes can be brought to this app's schema, so nothing is quarantined. */
  ghost predicate Serves(cfg: Config) {
    forall n, key :: Reachable(cfg, UpsertOf(n, key))
  }

  // ----- the invariant -----

  predicate Written(c: Change) {
    c == UpsertOf(c.seqNo, c.key) || c == DeleteOf(c.seqNo, c.key)
  }

  predicate WrittenLog(log: seq<Entry>) {
    forall e :: e in log ==> Written(e.change)
  }

  ghost predicate DeviceInv(s: Setup, w: World, v: Device) {
    && DeviceSound(s, ScopeEntries(s, w), v)
    && QueueSound(w.authored, w.server.dedupe, v.mem, v.db)
    && DraftsSound(s.cfg, w.authored, v.db)
  }

  ghost predicate ServerInv(s: Setup, w: World) {
    ServerSound(s.cfg, w.authored, w.server) && WrittenLog(w.server.log) && AuthoredSound(w.authored)
  }

  ghost predicate TrafficInv(s: Setup, w: World) {
    && (forall rq :: rq in w.requests ==> RequestSound(s, w, rq))
    && (forall rs :: rs in w.answers ==> AnswerSound(w.server.dedupe, rs))
  }

  predicate RequestSound(s: Setup, w: World, rq: seq<Command>) {
    forall c :: c in rq ==> Vouched(s.cfg, w.authored, c)
  }

  ghost predicate Inv(s: Setup, w: World) {
    && ServerInv(s, w) && TrafficInv(s, w)
    && forall d :: d in w.devices ==> DeviceInv(s, w, w.devices[d])
  }

  lemma ScopeOrdered(s: Setup, w: World)
    requires ServerInv(s, w)
    ensures Ordered(ScopeEntries(s, w))
  {
    var es := ScopeEntries(s, w);
    ScopeLogAscending(w.server.log, s.scope);
    ScopeLogMembers(w.server.log, s.scope);
    forall i | 0 <= i < |es| ensures es[i].change.seqNo >= 1 {
      assert es[i] in es;
    }
  }

  lemma ScopeLogSound(s: Setup, w: World)
    requires ServerInv(s, w) && Serves(s.cfg)
    ensures LogSound(s, ScopeEntries(s, w))
  {
    ScopeOrdered(s, w);
    ScopeLogMembers(w.server.log, s.scope);
    forall e | e in ScopeEntries(s, w) ensures EntrySound(s, e) {
      assert Written(e.change);
      if e.change == UpsertOf(e.change.seqNo, e.change.key) {
        assert Reachable(s.cfg, UpsertOf(e.change.seqNo, e.change.key));
      }
    }
  }

  // ----- server steps -----

  /** A server step that only adds disturbs neither devices nor traffic. */
  lemma ServerStepKeeps(s: Setup, w: World, w': World)
    requires Inv(s, w) && ServerInv(s, w')
    requires w'.devices == w.devices && w'.authored == w.authored && w'.requests == w.requests
    requires w.answers <= w'.answers && forall rs :: rs in w'.answers - w.answers ==> AnswerSound(w'.server.dedupe, rs)
    requires Grows(w.server.log, w'.server.log) && Extends(w.server.dedupe, w'.server.dedupe)
    ensures Inv(s, w')
  {
    ScopeOrdered(s, w);
    ScopeOrdered(s, w');
    ScopeLogGrows(w.server.log, w'.server.log, s.scope);
    forall d | d in w'.devices ensures DeviceInv(s, w', w'.devices[d]) {
      assert DeviceInv(s, w, w.devices[d]);
      GrowthKeepsDevice(s, ScopeEntries(s, w), ScopeEntries(s, w'), w.devices[d]);
      TableGrowthKeepsQueue(w.authored, w.server.dedupe, w'.server.dedupe, w.devices[d].mem, w.devices[d].db);
    }
    forall rs | rs in w'.answers ensures AnswerSound(w'.server.dedupe, rs) {
      if rs in w.answers {
        AnswersLast(w.server, w'.server, rs);
      }
    }
    forall rq | rq in w'.requests ensures RequestSound(s, w', rq) {
      assert RequestSound(s, w, rq);
    }
  }

  /** An entry nobody's command wrote joins the log. */
  lemma ExternalKeepsServer(s: Setup, w: World, w': World, e: Entry)
    requires ServerInv(s, w) && e.origin.None? && Written(e.change)
      && e.change.seqNo == w.server.nextSeq == e.change.version
    requires e.change.Consistent()
    requires w' == w.(server := w.server.(log := w.server.log + [e], nextSeq := w.server.nextSeq + 1))
    ensures ServerInv(s, w') && Grows(w.server.log, w'.server.log)
  {
    forall i | 0 <= i < |w'.server.log| ensures Named(w'.server.dedupe, w'.server.log[i]) {
      if i < |w.server.log| {
        assert Named(w.server.dedupe, w.server.log[i]);
      }
    }
    forall id | id in w'.server.dedupe && w'.server.dedupe[id].result.status.Applied?
      ensures WroteEntry(w'.server.log, id) {
      assert WroteEntry(w.server.log, id);
      var i :| 0 <= i < |w.server.log| && w.server.log[i].origin == Some(id);
      assert w'.server.log[i].origin == Some(id);
    }
    assert forall i :: 0 <= i < |w.server.log| ==> w.server.log[i] in w.server.log;
  }

  lemma CommitKeepsStory(st: ServerState, log': seq<Entry>)
    requires OneStory(st) && SameEntries(st.log, log')
    ensures OneStory(st.(log := log'))
  {
    forall i | 0 <= i < |log'| ensures Named(st.dedupe, log'[i]) {
      assert Named(st.dedupe, st.log[i]);
    }
    forall id | id in st.dedupe && st.dedupe[id].result.status.Applied? ensures WroteEntry(log', id) {
      assert WroteEntry(st.log, id);
      var i :| 0 <= i < |log'| && st.log[i].origin == Some(id);
      assert log'[i].origin == Some(id);
    }
  }

  lemma CommitKeepsNumbered(st: ServerState, log': seq<Entry>)
    requires Numbered(st) && WrittenLog(st.log) && SameEntries(st.log, log')
    ensures Numbered(st.(log := log')) && WrittenLog(log')
  {
    forall e | e in log' ensures exists f :: f in st.log && f.change == e.change {
      var i :| 0 <= i < |log'| && log'[i] == e;
      assert st.log[i] in st.log;
    }
  }

  lemma CommitKeepsServer(s: Setup, w: World, w': World, due: set<nat>)
    requires ServerInv(s, w) && Next(s, w, w', CommitSome(due))
    ensures ServerInv(s, w') && Grows(w.server.log, w'.server.log)
    ensures SameEntries(w.server.log, w'.server.log)
    ensures forall i :: 0 <= i < |w.server.log| ==>
      (w'.server.log[i].visible <==> w.server.log[i].visible || i in due)
  {
    assert SameEntries(w.server.log, w'.server.log);
    CommitKeepsStory(w.server, w'.server.log);
    CommitKeepsNumbered(w.server, w'.server.log);
  }

  lemma {:induction false} PushedWritten(s: ServerState, commands: seq<Command>, draws: seq<(nat, bool)>)
    requires |draws| == |commands| && WrittenLog(s.log)
    ensures WrittenLog(Pushed(s, commands, draws).0.log)
  {
    if commands != [] {
      var n := |commands| - 1;
      PushedWritten(s, commands[..n], draws[..n]);
    }
  }

  /** Serving part of a request leaves a sound server that only added. */
  lemma ServedSound(s: Setup, w: World, request: seq<Command>, draws: seq<(nat, bool)>)
    requires Inv(s, w) && request in w.requests && |draws| <= |request|
    ensures var (t, rs) := Pushed(w.server, request[..|draws|], draws);
      ServerSound(s.cfg, w.authored, t) && Later(w.server, t) && AnswerSound(t.dedupe, rs) && WrittenLog(t.log)
  {
    var served := request[..|draws|];
    assert RequestSound(s, w, request);
    forall c | c in served ensures Vouched(s.cfg, w.authored, c) {
      assert c in request;
    }
    PushedSound(s.cfg, w.authored, w.server, served, draws);
    PushedWritten(w.server, served, draws);
  }

  lemma ServeKeeps(s: Setup, w: World, w': World, request: seq<Command>, draws: seq<(nat, bool)>, repeated: bool)
    requires Inv(s, w) && Next(s, w, w', ServePush(request, draws, repeated))
    ensures Inv(s, w')
  {
    ServedSound(s, w, request, draws);
    assert Grows(w.server.log, w'.server.log);
    assert ServerInv(s, w');
    ServerStepKeeps(s, w, w');
  }

  // ----- device steps -----

  /** A step on one device that leaves the server and the traffic alone. */
  lemma DeviceStepKeeps(s: Setup, w: World, d: nat, v: Device)
    requires Inv(s, w) && d in w.devices && DeviceInv(s, w, v)
    ensures Inv(s, Put(w, d, v))
  {
    var w' := Put(w, d, v);
    forall k | k in w'.devices ensures DeviceInv(s, w', w'.devices[k]) {
      if k != d {
        assert DeviceInv(s, w, w.devices[k]);
      }
    }
    forall rq | rq in w'.requests ensures RequestSound(s, w', rq) {
      assert RequestSound(s, w, rq);
    }
  }

  lemma DeliverKeeps(s: Setup, w: World, d: nat, verdict: Verdict, keep: bool)
    requires Inv(s, w) && Serves(s.cfg) && d in w.devices && w.devices[d].inbox != []
    ensures DeviceInv(s, w, Taken(Delivered(s, w.devices[d], w.devices[d].inbox[0].batch, verdict), keep))
  {
    var v := w.devices[d];
    assert DeviceInv(s, w, v);
    ScopeLogSound(s, w);
    DeliveryKeepsDevice(s, ScopeEntries(s, w), v, verdict, keep);
    var batch := v.inbox[0].batch;
    EngineOutbox.ApplyKeepsOutbox(s.cfg, v.mem, v.db, verdict, batch, !batch.hasMore, false);
    SameQueue(w.authored, w.server.dedupe, v, Delivered(s, v, batch, verdict));
    SameDrafts(s.cfg, w.authored, v.db, Delivered(s, v, batch, verdict).db);
  }

  lemma SameQueue(authored: Authored, dedupe: Dedupe.Table, v: Device, v': Device)
    requires QueueSound(authored, dedupe, v.mem, v.db) && EngineOutbox.QueueAgrees(v'.mem, v'.db)
    requires v'.db.outbox == v.db.outbox && v'.db.resolved == v.db.resolved && v'.db.enqueued == v.db.enqueued
    ensures QueueSound(authored, dedupe, v'.mem, v'.db)
  {
    EngineOutbox.AccountedSame(v.db, v'.db);
  }

  /** A queue operation leaves what a pull depends on as it was. */
  lemma QueueingKeepsPull(s: Setup, es: seq<Entry>, v: Device, v': Device)
    requires DeviceSound(s, es, v) && EngineRuns.OnlyOutbox(v.mem, v'.mem, v.db, v'.db)
    requires v'.sent == v.sent && v'.inbox == v.inbox
    ensures DeviceSound(s, es, v')
  {
    assert StoredState(v'.db, s.scope) == StoredState(v.db, s.scope);
    assert StateOf(v'.mem, s.scope) == StateOf(v.mem, s.scope);
  }

  lemma SendPullKeeps(s: Setup, w: World, d: nat)
    requires Inv(s, w) && d in w.devices
    ensures DeviceInv(s, w, Sending(s, w.devices[d]))
  {
    var v := w.devices[d];
    assert DeviceInv(s, w, v);
    SendingSound(s, ScopeEntries(s, w), v);
    RefreshKeepsDb(v.mem, v.db, s.scope, s.scope);
    SameQueue(w.authored, w.server.dedupe, v, Sending(s, v));
  }

  lemma AnswerPullKeeps(s: Setup, w: World, d: nat, asked: nat, limit: nat, budget: nat, corrupt: bool)
    requires Inv(s, w) && Serves(s.cfg) && d in w.devices && asked in w.devices[d].sent && limit > 0
    requires corrupt ==> Answer(s, w, asked, limit, budget).changes != []
    ensures var batch := Answer(s, w, asked, limit, budget);
      DeviceInv(s, w,
                w.devices[d].(inbox :=
                  w.devices[d].inbox
                  + [Letter(asked, if corrupt then RepeatLast(batch) else batch, corrupt, |ScopeEntries(s, w)|)]))
  {
    var v := w.devices[d];
    var es := ScopeEntries(s, w);
    assert DeviceInv(s, w, v);
    ScopeOrdered(s, w);
    UpToMonotone(es, asked, CursorOf(s, v));
    PullIsHonest(es, s.scope, asked, limit, s.encode, budget, s.compressedLen);
    AnswerKeepsDevice(s, es, v, asked, Answer(s, w, asked, limit, budget), corrupt);
  }

  lemma RestartKeeps(s: Setup, w: World, d: nat)
    requires Inv(s, w) && d in w.devices
    ensures DeviceInv(s, w, w.devices[d].(mem := Restarted(w.devices[d].db, false)))
  {
    var v := w.devices[d];
    assert DeviceInv(s, w, v);
    RestartKeepsDevice(s, ScopeEntries(s, w), v);
    SameQueue(w.authored, w.server.dedupe, v, v.(mem := Restarted(v.db, false)));
  }

  lemma ResolvingKeeps(s: Setup, w: World, d: nat, results: seq<CommandResult>, verdict: Verdict)
    requires Inv(s, w) && d in w.devices && results in w.answers
    ensures DeviceInv(s, w, Resolving(s, w.devices[d], results, verdict))
  {
    var v := w.devices[d];
    assert DeviceInv(s, w, v);
    EngineRuns.ResultsKeep(s.cfg, v.mem, v.db, verdict, results);
    QueueingKeepsPull(s, ScopeEntries(s, w), v, Resolving(s, v, results, verdict));
    AnswerKeepsQueue(s.cfg, w.authored, w.server.dedupe, v.mem, v.db, verdict, results);
    AnswerKeepsDrafts(s.cfg, w.authored, v.mem, v.db, verdict, results);
  }

  /** The author's own device after a new command, queued or not. */
  lemma AuthorKeepsOwn(s: Setup, w: World, w': World, d: nat, entry: OutboxEntry, verdict: Verdict)
    requires Inv(s, w) && Next(s, w, w', Author(d, entry, verdict))
    ensures DeviceInv(s, w', w'.devices[d])
  {
    var v := w.devices[d];
    assert DeviceInv(s, w, v);
    EngineRuns.EnqueueKeeps(s.cfg, v.mem, v.db, verdict, entry);
    QueueingKeepsPull(s, ScopeEntries(s, w), v, w'.devices[d]);
    EnqueueKeepsQueue(s.cfg, w.authored, w.server.dedupe, v.mem, v.db, verdict, entry);
    EngineOutbox.EnqueueAccounts(s.cfg, v.mem, v.db, verdict, entry);
    SameDrafts(s.cfg, w.authored, v.db, w'.devices[d].db);
    AuthorshipKeepsDrafts(s.cfg, w.authored, entry, w'.devices[d].db);
  }

  lemma AuthorKeepsOthers(s: Setup, w: World, w': World, d: nat, entry: OutboxEntry, verdict: Verdict, k: nat)
    requires Inv(s, w) && Next(s, w, w', Author(d, entry, verdict)) && k in w.devices && k != d
    ensures DeviceInv(s, w', w'.devices[k])
  {
    assert DeviceInv(s, w, w.devices[k]);
    AuthorshipKeepsQueue(w.authored, entry, w.server.dedupe, w.devices[k].mem, w.devices[k].db);
    AuthorshipKeepsDrafts(s.cfg, w.authored, entry, w.devices[k].db);
  }

  lemma AuthorKeeps(s: Setup, w: World, w': World, d: nat, entry: OutboxEntry, verdict: Verdict)
    requires Inv(s, w) && Next(s, w, w', Author(d, entry, verdict))
    ensures Inv(s, w')
  {
    forall k | k in w'.devices ensures DeviceInv(s, w', w'.devices[k]) {
      if k == d {
        AuthorKeepsOwn(s, w, w', d, entry, verdict);
      } else {
        AuthorKeepsOthers(s, w, w', d, entry, verdict, k);
      }
    }
    AuthorKeepsServer(s, w, w', entry);
    AuthorKeepsRequests(s, w, w', entry);
  }

  lemma AuthorKeepsRequests(s: Setup, w: World, w': World, entry: OutboxEntry)
    requires TrafficInv(s, w) && entry.command.id !in w.authored && w'.server == w.server
    requires w'.requests == w.requests && w'.answers == w.answers
      && w'.authored == w.authored[entry.command.id := entry]
    ensures TrafficInv(s, w')
  {
    forall rq | rq in w'.requests ensures RequestSound(s, w', rq) {
      assert RequestSound(s, w, rq);
    }
  }

  lemma AuthorKeepsServer(s: Setup, w: World, w': World, entry: OutboxEntry)
    requires ServerInv(s, w) && entry.command.id !in w.authored
    requires w'.server == w.server && w'.authored == w.authored[entry.command.id := entry]
    ensures ServerInv(s, w')
  {
    forall id | id in w.server.dedupe ensures RecordSound(s.cfg, w'.authored, id, w.server.dedupe[id]) {
      assert RecordSound(s.cfg, w.authored, id, w.server.dedupe[id]);
    }
  }

  lemma SendPushKeeps(s: Setup, w: World, w': World, d: nat, n: nat)
    requires Inv(s, w) && Next(s, w, w', SendPush(d, n))
    ensures Inv(s, w')
  {
    var v := Reading(w.devices[d]);
    ReadingKeeps(s, w, d);
    DeviceStepKeeps(s, w, d, v);
    AskingKeeps(s, Put(w, d, v), w', Sendable(s.cfg, v.mem.outbox)[..n]);
  }

  lemma ReadingKeeps(s: Setup, w: World, d: nat)
    requires Inv(s, w) && d in w.devices
    ensures DeviceInv(s, w, Reading(w.devices[d]))
    ensures forall n :: 0 <= n <= |Sendable(s.cfg, Reading(w.devices[d]).mem.outbox)| ==>
      RequestSound(s, w, Sendable(s.cfg, Reading(w.devices[d]).mem.outbox)[..n])
  {
    var v := w.devices[d];
    assert DeviceInv(s, w, v);
    QueueingKeepsPull(s, ScopeEntries(s, w), v, Reading(v));
    SameQueue(w.authored, w.server.dedupe, v, Reading(v));
    SendableVouched(s.cfg, w.authored, v.db.outbox);
    assert Reading(v).mem.outbox == v.db.outbox;
  }

  /** A sound request joins those that may be served. */
  lemma AskingKeeps(s: Setup, w: World, w': World, request: seq<Command>)
    requires Inv(s, w) && RequestSound(s, w, request) && w' == w.(requests := w.requests + {request})
    ensures Inv(s, w')
  {
    forall rq | rq in w'.requests ensures RequestSound(s, w', rq) {
      assert rq == request || RequestSound(s, w, rq);
    }
    forall k | k in w'.devices ensures DeviceInv(s, w', w'.devices[k]) {
      assert DeviceInv(s, w, w'.devices[k]);
    }
  }

  predicate ServerStep(step: Step) {
    step.ExternalChange? || step.ExternalDelete? || step.CommitSome? || step.ServePush?
  }

  lemma ServerStepInv(s: Setup, w: World, w': World, step: Step)
    requires Inv(s, w) && Next(s, w, w', step) && ServerStep(step)
    ensures Inv(s, w')
  {
    match step
    case ExternalChange(scope, key, visible) =>
      ExternalKeepsServer(s, w, w', Entry(scope, UpsertOf(w.server.nextSeq, key), visible, None));
      ServerStepKeeps(s, w, w');
    case ExternalDelete(scope, key) =>
      ExternalKeepsServer(s, w, w', Entry(scope, DeleteOf(w.server.nextSeq, key), true, None));
      ServerStepKeeps(s, w, w');
    case CommitSome(due) =>
      CommitKeepsServer(s, w, w', due);
      ServerStepKeeps(s, w, w');
    case ServePush(request, draws, repeated) => ServeKeeps(s, w, w', request, draws, repeated);
  }

  lemma AnswerPullInv(s: Setup, w: World, w': World, d: nat, asked: nat, limit: nat, budget: nat, corrupt: bool)
    requires Inv(s, w) && Serves(s.cfg) && Next(s, w, w', AnswerPull(d, asked, limit, budget, corrupt))
    ensures Inv(s, w')
  {
    AnswerPullKeeps(s, w, d, asked, limit, budget, corrupt);
    DeviceStepKeeps(s, w, d, w'.devices[d]);
  }

  lemma DeliverInv(s: Setup, w: World, w': World, d: nat, verdict: Verdict, keep: bool)
    requires Inv(s, w) && Serves(s.cfg) && Next(s, w, w', Deliver(d, verdict, keep))
    ensures Inv(s, w')
  {
    DeliverKeeps(s, w, d, verdict, keep);
    DeviceStepKeeps(s, w, d, w'.devices[d]);
  }

  lemma LoseInv(s: Setup, w: World, w': World, d: nat, i: nat)
    requires Inv(s, w) && Next(s, w, w', Lose(d, i))
    ensures Inv(s, w')
  {
    assert DeviceInv(s, w, w.devices[d]);
    LossKeepsTraffic(s, ScopeEntries(s, w), w.devices[d], i);
    DeviceStepKeeps(s, w, d, w'.devices[d]);
  }

  lemma SendPullInv(s: Setup, w: World, w': World, d: nat)
    requires Inv(s, w) && Next(s, w, w', SendPull(d))
    ensures Inv(s, w')
  {
    SendPullKeeps(s, w, d);
    DeviceStepKeeps(s, w, d, w'.devices[d]);
  }

  lemma DeliverAnswerInv(s: Setup, w: World, w': World, d: nat, results: seq<CommandResult>, verdict: Verdict)
    requires Inv(s, w) && Next(s, w, w', DeliverAnswer(d, results, verdict))
    ensures Inv(s, w')
  {
    ResolvingKeeps(s, w, d, results, verdict);
    DeviceStepKeeps(s, w, d, w'.devices[d]);
  }

  lemma RestartInv(s: Setup, w: World, w': World, d: nat)
    requires Inv(s, w) && Next(s, w, w', RestartDevice(d))
    ensures Inv(s, w')
  {
    RestartKeeps(s, w, d);
    DeviceStepKeeps(s, w, d, w'.devices[d]);
  }

  lemma PullStepInv(s: Setup, w: World, w': World, step: Step)
    requires Inv(s, w) && Serves(s.cfg) && Next(s, w, w', step)
    requires step.SendPull? || step.AnswerPull? || step.Deliver? || step.Lose?
    ensures Inv(s, w')
  {
    if step.SendPull? {
      SendPullInv(s, w, w', step.d);
    } else if step.AnswerPull? {
      AnswerPullInv(s, w, w', step.d, step.asked, step.limit, step.budget, step.corrupt);
    } else if step.Deliver? {
      DeliverInv(s, w, w', step.d, step.verdict, step.keep);
    } else {
      LoseInv(s, w, w', step.d, step.i);
    }
  }

  /** Every step keeps everything. */
  lemma InvStep(s: Setup, w: World, w': World, step: Step)
    requires Inv(s, w) && Serves(s.cfg) && Next(s, w, w', step)
    ensures Inv(s, w')
  {
    if ServerStep(step) {
      ServerStepInv(s, w, w', step);
    } else if step.Author? {
      AuthorKeeps(s, w, w', step.d, step.entry, step.verdict);
    } else if step.SendPush? {
      SendPushKeeps(s, w, w', step.d, step.n);
    } else if step.DeliverAnswer? {
      DeliverAnswerInv(s, w, w', step.d, step.results, step.verdict);
    } else if step.RestartDevice? {
      RestartInv(s, w, w', step.d);
    } else {
      PullStepInv(s, w, w', step);
    }
  }

  lemma InvStart(s: Setup, w: World)
    requires Starts(s, w)
    ensures Inv(s, w)
  {
    forall d | d in w.devices ensures DeviceInv(s, w, w.devices[d]) {
      FreshDevice(s, ScopeEntries(s, w));
    }
  }

  lemma {:induction false} InvHolds(s: Setup, run: seq<World>, i: nat)
    requires Run(s, run) && i < |run|
    ensures Inv(s, run[i])
  {
    if i == 0 {
      InvStart(s, run[0]);
    } else {
      InvHolds(s, run, i - 1);
      assert SomeStep(s, run[i - 1], run[i]);
      var step :| Next(s, run[i - 1], run[i], step);
      InvStep(s, run[i - 1], run[i], step);
    }
  }

  // ----- what holds over every run -----

  predicate DeviceForward(s: Setup, v: Device, v': Device) {
    && CursorOf(s, v) <= CursorOf(s, v') && (s.scope in v.db.cursors ==> s.scope in v'.db.cursors)
    && EngineOutbox.OnlyGrows(v.db, v'.db)
  }

  /** One step takes no device's cursor back, loses none of its records, and rewrites none of the server's. */
  ghost predicate Forward(s: Setup, w: World, w': World) {
    && w'.devices.Keys == w.devices.Keys
    && (forall d :: d in w.devices ==> DeviceForward(s, w.devices[d], w'.devices[d]))
    && Extends(w.server.dedupe, w'.server.dedupe)
  }

  lemma DeliverForward(s: Setup, w: World, d: nat, verdict: Verdict, keep: bool)
    requires Inv(s, w) && Serves(s.cfg) && d in w.devices && w.devices[d].inbox != []
    ensures DeviceForward(s, w.devices[d],
                          Taken(Delivered(s, w.devices[d], w.devices[d].inbox[0].batch, verdict), keep))
  {
    var v := w.devices[d];
    assert DeviceInv(s, w, v);
    ScopeLogSound(s, w);
    DeliveredForward(s, ScopeEntries(s, w), v, verdict, keep);
  }

  lemma DeliveredForward(s: Setup, es: seq<Entry>, v: Device, verdict: Verdict, keep: bool)
    requires LogSound(s, es) && DeviceSound(s, es, v) && EngineOutbox.QueueAgrees(v.mem, v.db) && v.inbox != []
    ensures DeviceForward(s, v, Taken(Delivered(s, v, v.inbox[0].batch, verdict), keep))
  {
    var batch := v.inbox[0].batch;
    DeliveryKeepsDevice(s, es, v, verdict, keep);
    EngineOutbox.ApplyKeepsOutbox(s.cfg, v.mem, v.db, verdict, batch, !batch.hasMore, false);
  }

  lemma ServeForward(s: Setup, w: World, w': World, request: seq<Command>, draws: seq<(nat, bool)>, repeated: bool)
    requires Inv(s, w) && Next(s, w, w', ServePush(request, draws, repeated))
    ensures Extends(w.server.dedupe, w'.server.dedupe)
  {
    ServedSound(s, w, request, draws);
  }

  lemma PutForward(s: Setup, w: World, w': World, d: nat, v: Device)
    requires d in w.devices && w'.devices == w.devices[d := v] && w'.server == w.server
    requires DeviceForward(s, w.devices[d], v)
    ensures Forward(s, w, w')
  {
  }

  lemma QueueDeviceForward(s: Setup, v: Device, v': Device)
    requires EngineRuns.OnlyOutbox(v.mem, v'.mem, v.db, v'.db) && EngineOutbox.OnlyGrows(v.db, v'.db)
    ensures DeviceForward(s, v, v')
  {
    assert StoredState(v'.db, s.scope) == StoredState(v.db, s.scope);
  }

  lemma AuthorForward(s: Setup, w: World, w': World, d: nat, entry: OutboxEntry, verdict: Verdict)
    requires Inv(s, w) && Next(s, w, w', Author(d, entry, verdict))
    ensures Forward(s, w, w')
  {
    var v := w.devices[d];
    assert DeviceInv(s, w, v);
    EngineRuns.EnqueueKeeps(s.cfg, v.mem, v.db, verdict, entry);
    EngineOutbox.EnqueueAccounts(s.cfg, v.mem, v.db, verdict, entry);
    QueueDeviceForward(s, v, w'.devices[d]);
    PutForward(s, w, w', d, w'.devices[d]);
  }

  lemma DeliverAnswerForward(s: Setup, w: World, w': World, d: nat, results: seq<CommandResult>, verdict: Verdict)
    requires Inv(s, w) && Next(s, w, w', DeliverAnswer(d, results, verdict))
    ensures Forward(s, w, w')
  {
    var v := w.devices[d];
    assert DeviceInv(s, w, v);
    EngineRuns.ResultsKeep(s.cfg, v.mem, v.db, verdict, results);
    EngineOutbox.ResultsSettle(s.cfg, v.mem, v.db, verdict, results);
    QueueDeviceForward(s, v, w'.devices[d]);
    PutForward(s, w, w', d, w'.devices[d]);
  }

  /** Steps that touch no database. */
  predicate Storeless(step: Step) {
    step.SendPull? || step.AnswerPull? || step.Lose? || step.SendPush? || step.RestartDevice?
  }

  lemma StorelessForward(s: Setup, w: World, w': World, step: Step)
    requires Next(s, w, w', step) && Storeless(step)
    ensures Forward(s, w, w')
  {
    assert w'.devices[step.d].db == w.devices[step.d].db && w'.server == w.server;
    PutForward(s, w, w', step.d, w'.devices[step.d]);
  }

  lemma ServerForward(s: Setup, w: World, w': World, step: Step)
    requires Inv(s, w) && Next(s, w, w', step) && ServerStep(step)
    ensures Forward(s, w, w')
  {
    if step.ServePush? {
      ServeForward(s, w, w', step.request, step.draws, step.repeated);
    }
    assert w'.devices == w.devices;
  }

  lemma StepForward(s: Setup, w: World, w': World, step: Step)
    requires Inv(s, w) && Serves(s.cfg) && Next(s, w, w', step)
    ensures Forward(s, w, w')
  {
    if ServerStep(step) {
      ServerForward(s, w, w', step);
    } else if Storeless(step) {
      StorelessForward(s, w, w', step);
    } else if step.Deliver? {
      DeliverForward(s, w, step.d, step.verdict, step.keep);
      PutForward(s, w, w', step.d, w'.devices[step.d]);
    } else if step.Author? {
      AuthorForward(s, w, w', step.d, step.entry, step.verdict);
    } else {
      DeliverAnswerForward(s, w, w', step.d, step.results, step.verdict);
    }
  }

  lemma ForwardTwice(s: Setup, a: World, b: World, c: World)
    requires Forward(s, a, b) && Forward(s, b, c)
    ensures Forward(s, a, c)
  {
    forall d | d in a.devices ensures DeviceForward(s, a.devices[d], c.devices[d]) {
      assert DeviceForward(s, a.devices[d], b.devices[d]) && DeviceForward(s, b.devices[d], c.devices[d]);
    }
  }

  lemma RunStepForward(s: Setup, run: seq<World>, j: nat)
    requires Run(s, run) && 0 < j < |run|
    ensures Forward(s, run[j - 1], run[j])
  {
    InvHolds(s, run, j - 1);
    assert SomeStep(s, run[j - 1], run[j]);
    var step :| Next(s, run[j - 1], run[j], step);
    StepForward(s, run[j - 1], run[j], step);
  }

  lemma ForwardItself(s: Setup, w: World)
    ensures Forward(s, w, w)
  {
  }

  lemma {:induction false} RunForward(s: Setup, run: seq<World>, i: nat, j: nat)
    requires Run(s, run) && i <= j < |run|
    ensures Forward(s, run[i], run[j])
    decreases j - i
  {
    if i == j {
      ForwardItself(s, run[i]);
    } else {
      RunForward(s, run, i, j - 1);
      RunStepForward(s, run, j);
      ForwardTwice(s, run[i], run[j - 1], run[j]);
    }
  }

  /**
   In every reachable state each device's stored rows are the replay of its scope's log up to its
   stored cursor, its digest is the sum over them, every entry at or below the cursor has
   committed, the cursor is within the visible head, and it is never lower later on.
   */
  lemma DevicesHoldReplay(s: Setup, run: seq<World>, i: nat, j: nat, d: nat)
    requires Run(s, run) && i <= j < |run| && d in run[i].devices
    ensures d in run[j].devices && CursorOf(s, run[i].devices[d]) <= CursorOf(s, run[j].devices[d])
    ensures var v := run[i].devices[d];
      && HoldsReplay(s, ScopeEntries(s, run[i]), v.db)
      && StoredState(v.db, s.scope).digest == Digest.DigestOf(Versions(v.db.rows))
    ensures var cursor, es := CursorOf(s, run[i].devices[d]), ScopeEntries(s, run[i]);
      && (forall k :: 0 <= k < |es| && es[k].change.seqNo <= cursor ==> es[k].visible)
      && cursor <= Replay.VisibleHead(es)
  {
    InvHolds(s, run, i);
    RunForward(s, run, i, j);
    var v := run[i].devices[d];
    assert DeviceInv(s, run[i], v) && DeviceForward(s, v, run[j].devices[d]);
    ScopeOrdered(s, run[i]);
    StandsBelowHead(ScopeEntries(s, run[i]), CursorOf(s, v));
    AllKept(Versions(v.db.rows));
  }

  /** The visible head of any scope is a number the server has given out. */
  lemma HeadBounds(s: Setup, run: seq<World>, i: nat)
    requires Run(s, run) && i < |run|
    ensures Replay.VisibleHead(ScopeEntries(s, run[i])) < run[i].server.nextSeq
  {
    InvHolds(s, run, i);
    var es := ScopeEntries(s, run[i]);
    ScopeLogMembers(run[i].server.log, s.scope);
    var n := Committed(es);
    if n > 0 {
      assert es[n - 1] in es;
    }
  }

  // ----- every device is a run of the engine -----

  /** The call a step makes on a device's engine, if it makes one there. */
  function CallOn(s: Setup, w: World, step: Step, d: nat): seq<Event>
    requires step.Deliver? ==> step.d in w.devices && w.devices[step.d].inbox != []
    requires step.SendPull? ==> step.d in w.devices
  {
    match step
    case SendPull(k) => if k == d && s.scope in w.devices[d].mem.suspect then [ReloadScope(s.scope)] else []
    case Deliver(k, verdict, _) => if k == d then [ApplyBatch(w.devices[d].inbox[0].batch, false, verdict)] else []
    case Author(k, entry, verdict) => if k == d then [Enqueue(entry, verdict)] else []
    case SendPush(k, _) => if k == d then [BuildPush([])] else []
    case DeliverAnswer(k, results, verdict) => if k == d then [ApplyResults(results, verdict)] else []
    case RestartDevice(k) => if k == d then [Restart(false)] else []
    case _ => []
  }

  /** Where these calls leave a device's engine and database. */
  predicate ReachedBy(cfg: Config, from: Device, calls: seq<Event>, v: Device) {
    Ran(cfg, from.mem, from.db, calls) == (v.mem, v.db)
  }

  lemma OneCall(cfg: Config, mem: Memory, db: DbState, e: Event)
    ensures Ran(cfg, mem, db, [e]) == Stepped(cfg, mem, db, e)
  {
    assert [e][..0] == [];
  }

  lemma ReadingIsCall(cfg: Config, v: Device)
    ensures Stepped(cfg, v.mem, v.db, BuildPush([])) == (Reading(v).mem, v.db)
  {
    var m := RefreshedOutbox(v.mem, v.db);
    assert m.(effects := m.effects + []) == m;
  }

  /** A device after a step is its engine after that call, and untouched if there was none. */
  lemma StepIsCall(s: Setup, w: World, w': World, step: Step, d: nat)
    requires Next(s, w, w', step) && d in w.devices
    ensures d in w'.devices && ReachedBy(s.cfg, w.devices[d], CallOn(s, w, step, d), w'.devices[d])
  {
    var v, calls := w.devices[d], CallOn(s, w, step, d);
    if calls != [] {
      OneCall(s.cfg, v.mem, v.db, calls[0]);
      ReadingIsCall(s.cfg, v);
    }
  }

  lemma {:induction false} RanFurther(cfg: Config, mem: Memory, db: DbState, a: seq<Event>, b: seq<Event>)
    ensures var (m, d) := Ran(cfg, mem, db, a); Ran(cfg, mem, db, a + b) == Ran(cfg, m, d, b)
  {
    if b == [] {
      assert a + b == a;
    } else {
      assert (a + b)[..|a + b| - 1] == a + b[..|b| - 1];
      RanFurther(cfg, mem, db, a, b[..|b| - 1]);
    }
  }

  ghost predicate Reaches(cfg: Config, from: Device, v: Device) {
    exists calls :: ReachedBy(cfg, from, calls, v)
  }

  /** One state of a device after another, each where calls on the one before leave it. */
  ghost predicate Linked(cfg: Config, vs: seq<Device>) {
    forall j :: 0 < j < |vs| ==> Reaches(cfg, vs[j - 1], vs[j])
  }

  lemma {:induction false} LinkedIsRun(cfg: Config, vs: seq<Device>) returns (events: seq<Event>)
    requires vs != [] && Linked(cfg, vs)
    ensures ReachedBy(cfg, vs[0], events, vs[|vs| - 1])
  {
    var n := |vs| - 1;
    if n == 0 {
      events := [];
    } else {
      var before := LinkedIsRun(cfg, vs[..n]);
      assert Reaches(cfg, vs[n - 1], vs[n]);
      var calls :| ReachedBy(cfg, vs[n - 1], calls, vs[n]);
      events := before + calls;
      RanFurther(cfg, vs[0].mem, vs[0].db, before, calls);
    }
  }

  lemma OneLink(s: Setup, run: seq<World>, j: nat, d: nat) returns (calls: seq<Event>)
    requires Run(s, run) && 0 < j < |run| && d in run[j - 1].devices
    ensures d in run[j].devices && ReachedBy(s.cfg, run[j - 1].devices[d], calls, run[j].devices[d])
  {
    assert SomeStep(s, run[j - 1], run[j]);
    var step :| Next(s, run[j - 1], run[j], step);
    StepIsCall(s, run[j - 1], run[j], step, d);
    calls := CallOn(s, run[j - 1], step, d);
  }

  const NEW_DEVICE := Device(FRESH_MEMORY, EMPTY_DB, {}, [])

  /** The states one device has gone through. */
  lemma {:induction false} DeviceLinked(s: Setup, run: seq<World>, i: nat, d: nat) returns (vs: seq<Device>)
    requires Run(s, run) && i < |run| && d in run[0].devices
    ensures d in run[i].devices && |vs| == i + 1 && vs[0] == NEW_DEVICE && vs[i] == run[i].devices[d]
    ensures Linked(s.cfg, vs)
  {
    if i == 0 {
      vs := [run[0].devices[d]];
    } else {
      var init := DeviceLinked(s, run, i - 1, d);
      var calls := OneLink(s, run, i, d);
      vs := LinkOn(s.cfg, init, calls, run[i].devices[d]);
    }
  }

  lemma LinkOn(cfg: Config, vs: seq<Device>, calls: seq<Event>, v: Device) returns (more: seq<Device>)
    requires vs != [] && Linked(cfg, vs) && ReachedBy(cfg, vs[|vs| - 1], calls, v)
    ensures more == vs + [v] && Linked(cfg, more)
  {
    more := vs + [v];
    forall j | 0 < j < |more| ensures Reaches(cfg, more[j - 1], more[j]) {
      if j < |vs| {
        assert Reaches(cfg, vs[j - 1], vs[j]);
      }
    }
  }

  lemma DevicesStay(s: Setup, run: seq<World>, i: nat, d: nat)
    requires Run(s, run) && i < |run| && d in run[i].devices
    ensures d in run[0].devices
  {
    RunForward(s, run, 0, i);
  }

  /**
   So in every reachable state each device is where some run of the engine from a new device leaves
   it: what holds over every run of the engine holds of every device in the world.
   */
  lemma DeviceIsRun(s: Setup, run: seq<World>, i: nat, d: nat) returns (events: seq<Event>)
    requires Run(s, run) && i < |run| && d in run[i].devices
    ensures ReachedBy(s.cfg, NEW_DEVICE, events, run[i].devices[d])
  {
    DevicesStay(s, run, i, d);
    var vs := DeviceLinked(s, run, i, d);
    events := LinkedIsRun(s.cfg, vs);
  }

  /** For one: no device ever queues, or could send, a command for a server-owned entity. */
  lemma NoneForServerOwned(s: Setup, run: seq<World>, i: nat, d: nat)
    requires Run(s, run) && i < |run| && d in run[i].devices
    ensures var db := run[i].devices[d].db;
      forall e :: e in db.outbox ==>
        var entity := EngineOutbox.Target(s.cfg, e.command);
        entity.Some? && s.cfg.registry.entities[entity.value].conflictClass != ServerAuthoritative
  {
    var events := DeviceIsRun(s, run, i, d);
    EngineOutbox.ServerOwnedNeverQueued(s.cfg, events);
  }

  /** No prefix of the scope's log leaves a row deleted. */
  ghost predicate NothingDeleted(es: seq<Entry>) {
    forall n :: 0 <= n <= |es| ==> NoTombstoneLast(Changes(es)[..n])
  }

  /** A log of upserts only is one of these, and no other is: one delete is enough to leave it. */
  lemma UpsertsOnly(es: seq<Entry>)
    ensures NothingDeleted(es) <==> forall i :: 0 <= i < |es| ==> es[i].change.snapshot.Some?
  {
    if forall i :: 0 <= i < |es| ==> es[i].change.snapshot.Some? {
      forall n, key | 0 <= n <= |es| && LastTo(Changes(es)[..n], key).Some?
        ensures LastTo(Changes(es)[..n], key).value.snapshot.Some?
      {
        ReplayIsLast(map[], Changes(es)[..n], key);
      }
    } else {
      var i :| 0 <= i < |es| && es[i].change.snapshot.None?;
      var prefix := Changes(es)[..i + 1];
      assert LastTo(prefix, es[i].change.key) == Some(prefix[i]);
      assert !NoTombstoneLast(Changes(es)[..i + 1]);
    }
  }

  ghost function NextResult(s: Setup, v: Device, verdict: Verdict): Result<BatchReport, ApplyError>
    requires v.inbox != []
  {
    var batch := v.inbox[0].batch;
    AppliedBatch(s.cfg, v.mem, v.db, verdict, batch, !batch.hasMore, false).result
  }

  /** The log up to the cursor the next answer brings. */
  ghost function Brought(s: Setup, w: World, v: Device): seq<Change>
    requires v.inbox != []
  {
    var es := ScopeEntries(s, w);
    Changes(es)[..UpTo(es, v.inbox[0].batch.nextCursor)]
  }

  lemma NextDivergence(s: Setup, es: seq<Entry>, v: Device, verdict: Verdict)
    requires LogSound(s, es) && DeviceSound(s, es, v) && v.inbox != [] && NextResult(s, v, verdict).Ok?
    ensures var prefix := Changes(es)[..UpTo(es, v.inbox[0].batch.nextCursor)];
      NextResult(s, v, verdict).value.diverged <==>
        |prefix| == v.inbox[0].whole && Digest.DigestOf(Versions(Replayed(prefix))) != Digest.DigestOf(HeldIn(prefix))
  {
    assert v.inbox[0] in v.inbox && LetterSound(s, es, CursorOf(s, v), v.inbox[0]);
    if v.inbox[0].corrupt {
      CorruptRefused(s, v, v.inbox[0].batch, verdict);
    } else {
      DivergenceMeans(s, es, v, v.inbox[0], verdict);
    }
  }

  /**
   In any run, the next answer delivered to a device and applied is reported as divergence if and
   only if it reaches the end of the scope's log as it stood when the answer was cut from it, and the
   digest of the rows it leaves is not the digest of the server's history of the same log.
   */
  lemma RunDivergenceMeans(s: Setup, run: seq<World>, i: nat, d: nat, verdict: Verdict)
    requires Run(s, run) && i < |run| && d in run[i].devices && run[i].devices[d].inbox != []
    requires NextResult(s, run[i].devices[d], verdict).Ok?
    ensures var v := run[i].devices[d];
      var prefix := Brought(s, run[i], v);
      NextResult(s, v, verdict).value.diverged <==>
        |prefix| == v.inbox[0].whole && Digest.DigestOf(Versions(Replayed(prefix))) != Digest.DigestOf(HeldIn(prefix))
  {
    InvHolds(s, run, i);
    assert DeviceInv(s, run[i], run[i].devices[d]);
    ScopeLogSound(s, run[i]);
    NextDivergence(s, ScopeEntries(s, run[i]), run[i].devices[d], verdict);
  }

  /** So however late or often it arrives, none is reported while no row's latest change up to there is a delete. */
  lemma NoRunDiverges(s: Setup, run: seq<World>, i: nat, d: nat, verdict: Verdict)
    requires Run(s, run) && i < |run| && d in run[i].devices && run[i].devices[d].inbox != []
    requires NoTombstoneLast(Brought(s, run[i], run[i].devices[d]))
    ensures var r := NextResult(s, run[i].devices[d], verdict); r.Ok? ==> !r.value.diverged
  {
    if NextResult(s, run[i].devices[d], verdict).Ok? {
      RunDivergenceMeans(s, run, i, d, verdict);
      HistoryMatchesReplay(Brought(s, run[i], run[i].devices[d]));
    }
  }

  /** One command wrote at most one entry. */
  ghost predicate WrittenOnce(log: seq<Entry>, id: CommandId) {
    forall k, m :: 0 <= k < m < |log| ==> log[k].origin != Some(id) || log[m].origin != Some(id)
  }

  /** A command wrote the entry of this number. */
  predicate WroteNumber(log: seq<Entry>, id: CommandId, seqNo: nat) {
    exists k :: 0 <= k < |log| && log[k].origin == Some(id) && log[k].change.seqNo == seqNo
  }

  lemma VerdictTold(server: ServerState, id: CommandId, res: Resolution)
    requires Numbered(server) && OneStory(server) && VerdictSound(server.dedupe, (id, res))
    ensures res.ResApplied? ==> res.serverSeq.Some? && WroteNumber(server.log, id, res.serverSeq.value)
  {
    if res.ResApplied? {
      assert WroteEntry(server.log, id);
      var k :| 0 <= k < |server.log| && server.log[k].origin == Some(id);
      assert Named(server.dedupe, server.log[k]);
    }
  }

  /**
   Exactly once, end to end: whatever is lost, repeated or reordered, whichever device restarts or
   whose storage lies, a command id has at most one log entry; every verdict a device records is
   the server's, for good; and a recorded server_seq is the number of the entry that command wrote.
   */
  lemma ExactlyOnce(s: Setup, run: seq<World>, i: nat, j: nat, d: nat, id: CommandId, res: Resolution)
    requires Run(s, run) && i <= j < |run| && d in run[i].devices && (id, res) in run[i].devices[d].db.resolved
    ensures id in run[j].server.dedupe
    ensures var r := run[j].server.dedupe[id].result;
      && (res.ResApplied? <==> r.status.Applied?) && (res.ResApplied? ==> res.serverSeq == r.serverSeq)
      && (res.ResSuperseded? <==> r.status.Superseded?) && (res.DeadLettered? <==> r.status.Rejected?)
      && (res.DeadLettered? && r.reason.Some? ==> res.reason == r.reason.value)
    ensures WrittenOnce(run[j].server.log, id)
    ensures res.ResApplied? ==> res.serverSeq.Some? && WroteNumber(run[j].server.log, id, res.serverSeq.value)
  {
    InvHolds(s, run, i);
    InvHolds(s, run, j);
    RunForward(s, run, i, j);
    assert DeviceInv(s, run[i], run[i].devices[d]);
    assert VerdictSound(run[i].server.dedupe, (id, res));
    assert ServerInv(s, run[j]);
    NeverAppendedTwice(s, run, j, id);
    VerdictTold(run[j].server, id, res);
  }

  /** Recorded by a device or not, no command is ever appended twice. */
  lemma NeverAppendedTwice(s: Setup, run: seq<World>, i: nat, id: CommandId)
    requires Run(s, run) && i < |run|
    ensures WrittenOnce(run[i].server.log, id)
  {
    InvHolds(s, run, i);
    var server := run[i].server;
    forall k, m | 0 <= k < m < |server.log|
      ensures server.log[k].origin != Some(id) || server.log[m].origin != Some(id) {
      if server.log[k].origin == Some(id) == server.log[m].origin {
        AtMostOnce(server, k, m);
      }
    }
  }

  /**
   No device loses a command: what it ever committed is queued or resolved, never both, in every
   reachable state, and every superseded owner draft is there to be recovered.
   */
  lemma NoDeviceLosesACommand(s: Setup, run: seq<World>, i: nat, d: nat)
    requires Run(s, run) && i < |run| && d in run[i].devices
    ensures EngineOutbox.Accounted(run[i].devices[d].db)
    ensures forall e :: e in run[i].devices[d].db.outbox ==>
      e.command.id in run[i].authored && run[i].authored[e.command.id] == e
    ensures forall r :: r in run[i].devices[d].db.resolved ==>
      && r.0 in run[i].authored && r.0 in run[i].server.dedupe
      && (run[i].server.dedupe[r.0].result.status.Superseded?
          && EngineOutbox.WritesDraft(s.cfg, run[i].authored[r.0]) ==>
           EngineOutbox.DraftFor(s.cfg, run[i].authored[r.0]) in run[i].devices[d].db.recovered)
  {
    InvHolds(s, run, i);
    var db := run[i].devices[d].db;
    assert DeviceInv(s, run[i], run[i].devices[d]);
    forall r | r in db.resolved
      ensures VerdictSound(run[i].server.dedupe, r) && DraftSound(s.cfg, run[i].authored, db, r) {
    }
  }
}
