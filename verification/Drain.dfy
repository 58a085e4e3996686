/**
 Draining the outbox under load: a shedding server answers a prefix of what it is offered, at
 least one command whenever any is offered, so fault-free rounds resolve everything that can be
 sent, in order, and leave exactly what is held.
 */
module Drain {
  import opened Prelude
  import opened Wire
  import opened Ids
  import opened Storage
  import opened EngineSpec
  import opened EngineOutbox
  import opened ServerSpec
  import opened PushChannel
  import Splice

  // ----- what answering a prefix leaves -----

  /** The entries none of these ids belongs to, in order. */
  function Remaining(outbox: seq<OutboxEntry>, ids: set<CommandId>): seq<OutboxEntry> {
    if outbox == [] then []
    else
      var init := Remaining(outbox[..|outbox| - 1], ids);
      if outbox[|outbox| - 1].command.id in ids then init else init + [outbox[|outbox| - 1]]
  }

  /** The entries whose payload cannot reach this app's schema, in order. */
  function Held(cfg: Config, outbox: seq<OutboxEntry>): seq<OutboxEntry> {
    if outbox == [] then []
    else
      var init := Held(cfg, outbox[..|outbox| - 1]);
      if Outgoing(cfg, outbox[|outbox| - 1]).Err? then init + [outbox[|outbox| - 1]] else init
  }

  function CommandIds(cs: seq<Command>): set<CommandId> {
    set c | c in cs :: c.id
  }

  function Unanswered(cs: seq<Command>, ids: set<CommandId>): seq<Command> {
    if cs == [] then []
    else
      var init := Unanswered(cs[..|cs| - 1], ids);
      if cs[|cs| - 1].id in ids then init else init + [cs[|cs| - 1]]
  }

  lemma {:induction false} WithoutIsRemaining(outbox: seq<OutboxEntry>, ids: set<CommandId>, id: CommandId)
    ensures Without(Remaining(outbox, ids), id) == Remaining(outbox, ids + {id})
  {
    if outbox != [] {
      var init, last := outbox[..|outbox| - 1], outbox[|outbox| - 1];
      WithoutIsRemaining(init, ids, id);
      if last.command.id !in ids {
        assert (Remaining(init, ids) + [last])[..|Remaining(init, ids)|] == Remaining(init, ids);
      }
    }
  }

  lemma {:induction false} PrunedIsRemaining(outbox: seq<OutboxEntry>, resolutions: seq<(CommandId, Resolution)>)
    ensures Pruned(outbox, resolutions) == Remaining(outbox, RecordedIds(resolutions))
  {
    if resolutions == [] {
      assert RecordedIds(resolutions) == {};
      NothingAnswered(outbox);
    } else {
      var init, last := resolutions[..|resolutions| - 1], resolutions[|resolutions| - 1];
      PrunedIsRemaining(outbox, init);
      WithoutIsRemaining(outbox, RecordedIds(init), last.0);
      assert resolutions == init + [last];
      assert RecordedIds(resolutions) == RecordedIds(init) + {last.0};
    }
  }

  lemma {:induction false} NothingAnswered(outbox: seq<OutboxEntry>)
    ensures Remaining(outbox, {}) == outbox
  {
    if outbox != [] {
      NothingAnswered(outbox[..|outbox| - 1]);
    }
  }

  /** Taking answered entries out of the queue takes their commands out of what can be sent. */
  lemma {:induction false} SendableRemaining(cfg: Config, outbox: seq<OutboxEntry>, ids: set<CommandId>)
    ensures Sendable(cfg, Remaining(outbox, ids)) == Unanswered(Sendable(cfg, outbox), ids)
  {
    if outbox != [] {
      var init, last := outbox[..|outbox| - 1], outbox[|outbox| - 1];
      SendableRemaining(cfg, init, ids);
      if last.command.id !in ids {
        assert (Remaining(init, ids) + [last])[..|Remaining(init, ids)|] == Remaining(init, ids);
      }
      if Outgoing(cfg, last).Ok? {
        var s := Sendable(cfg, init);
        assert (s + [Outgoing(cfg, last).value])[..|s|] == s;
      }
    }
  }

  lemma {:induction false} HeldRemaining(cfg: Config, outbox: seq<OutboxEntry>, ids: set<CommandId>)
    requires forall e :: e in outbox && Outgoing(cfg, e).Err? ==> e.command.id !in ids
    ensures Held(cfg, Remaining(outbox, ids)) == Held(cfg, outbox)
  {
    if outbox != [] {
      var init, last := outbox[..|outbox| - 1], outbox[|outbox| - 1];
      assert last in outbox;
      HeldRemaining(cfg, init, ids);
      if last.command.id !in ids {
        assert (Remaining(init, ids) + [last])[..|Remaining(init, ids)|] == Remaining(init, ids);
      }
    }
  }

  predicate DistinctCommands(cs: seq<Command>) {
    forall i, j :: 0 <= i < j < |cs| ==> cs[i].id != cs[j].id
  }

  /** Whatever ids a queue has, its last entry's is none of the earlier ones. */
  lemma LastIsNew(outbox: seq<OutboxEntry>)
    requires DistinctQueue(outbox) && outbox != []
    ensures var init, last := outbox[..|outbox| - 1], outbox[|outbox| - 1];
      last.command.id !in IdsOf(init) && DistinctQueue(init) && IdsOf(outbox) == IdsOf(init) + {last.command.id}
  {
    var init, last := outbox[..|outbox| - 1], outbox[|outbox| - 1];
    assert outbox == init + [last];
    forall e | e in init ensures e.command.id != last.command.id {
      var i :| 0 <= i < |init| && init[i] == e;
    }
  }

  lemma CommandIdsPush(cs: seq<Command>, c: Command)
    ensures CommandIds(cs + [c]) == CommandIds(cs) + {c.id}
    ensures DistinctCommands(cs) && c.id !in CommandIds(cs) ==> DistinctCommands(cs + [c])
  {
    assert forall i :: 0 <= i < |cs| ==> cs[i] in cs && cs[i].id in CommandIds(cs);
  }

  /** The ids that can be sent are queued ids, each once. */
  lemma {:induction false} SendableIds(cfg: Config, outbox: seq<OutboxEntry>)
    requires DistinctQueue(outbox)
    ensures DistinctCommands(Sendable(cfg, outbox)) && CommandIds(Sendable(cfg, outbox)) <= IdsOf(outbox)
  {
    if outbox != [] {
      var init, last := outbox[..|outbox| - 1], outbox[|outbox| - 1];
      SendableIds(cfg, init);
      LastIsNew(outbox);
      if Outgoing(cfg, last).Ok? {
        CommandIdsPush(Sendable(cfg, init), Outgoing(cfg, last).value);
      }
    }
  }

  /** And no held command's. */
  lemma {:induction false} HeldIdsApart(cfg: Config, outbox: seq<OutboxEntry>, e: OutboxEntry)
    requires DistinctQueue(outbox) && e in outbox && Outgoing(cfg, e).Err?
    ensures e.command.id !in CommandIds(Sendable(cfg, outbox))
  {
    var init, last := outbox[..|outbox| - 1], outbox[|outbox| - 1];
    LastIsNew(outbox);
    assert outbox == init + [last];
    if e == last {
      SendableIds(cfg, init);
    } else {
      HeldIdsApart(cfg, init, e);
      assert e.command.id in IdsOf(init);
      if Outgoing(cfg, last).Ok? {
        CommandIdsPush(Sendable(cfg, init), Outgoing(cfg, last).value);
      }
    }
  }

  lemma {:induction false} AllAnswered(cs: seq<Command>, ids: set<CommandId>)
    requires forall c :: c in cs ==> c.id in ids
    ensures Unanswered(cs, ids) == []
  {
    if cs != [] {
      AllAnswered(cs[..|cs| - 1], ids);
      assert cs[|cs| - 1] in cs;
    }
  }

  lemma {:induction false} RestUnanswered(a: seq<Command>, b: seq<Command>, ids: set<CommandId>)
    requires forall c :: c in a ==> c.id in ids
    requires forall c :: c in b ==> c.id !in ids
    ensures Unanswered(a + b, ids) == b
  {
    if b == [] {
      assert a + b == a;
      AllAnswered(a, ids);
    } else {
      var init, last := b[..|b| - 1], b[|b| - 1];
      assert last in b;
      assert (a + b)[..|a + b| - 1] == a + init;
      RestUnanswered(a, init, ids);
    }
  }

  lemma LaterIdIsNew(cs: seq<Command>, a: nat, i: nat)
    requires DistinctCommands(cs) && a <= i < |cs|
    ensures cs[i].id !in CommandIds(cs[..a])
  {
    forall d | d in cs[..a] ensures d.id != cs[i].id {
      var j :| 0 <= j < a && cs[j] == d;
    }
  }

  lemma LaterIdsNew(cs: seq<Command>, a: nat)
    requires DistinctCommands(cs) && a <= |cs|
    ensures forall c :: c in cs[a..] ==> c.id !in CommandIds(cs[..a])
  {
    forall c | c in cs[a..] ensures c.id !in CommandIds(cs[..a]) {
      var i :| a <= i < |cs| && cs[i] == c;
      LaterIdIsNew(cs, a, i);
    }
  }

  /** Answering the first commands leaves exactly the later ones. */
  lemma UnansweredIsRest(cs: seq<Command>, a: nat)
    requires DistinctCommands(cs) && a <= |cs|
    ensures Unanswered(cs, CommandIds(cs[..a])) == cs[a..]
  {
    LaterIdsNew(cs, a);
    RestUnanswered(cs[..a], cs[a..], CommandIds(cs[..a]));
    assert cs[..a] + cs[a..] == cs;
  }

  // ----- one round -----

  /** How a round goes: the request's budget, how many the server looks at, and what its draws are. */
  datatype Luck = Luck(budget: nat, accepted: nat, draws: nat -> (nat, bool))

  /** What a loaded server looks at: never none of what it is offered. */
  function LooksAt(accepted: nat, offered: nat): (n: nat)
    ensures n <= offered && (offered > 0 ==> n > 0)
  {
    if offered == 0 then 0 else if accepted < 1 then 1 else Min(accepted, offered)
  }

  datatype Pair = Pair(server: ServerState, mem: Memory, db: DbState)

  function Offered(cfg: Config, p: Pair, luck: Luck, compressedLen: string -> nat): seq<Command> {
    var sendable := Sendable(cfg, p.db.outbox);
    sendable[..PushCount(sendable, EncodeCommand, luck.budget, compressedLen)]
  }

  function Looked(cfg: Config, p: Pair, luck: Luck, compressedLen: string -> nat): seq<Command> {
    var offered := Offered(cfg, p, luck, compressedLen);
    offered[..LooksAt(luck.accepted, |offered|)]
  }

  /** One fault-free push round with no upgrade pending: build, be answered in part, resolve what was answered. */
  function PushRound(cfg: Config, p: Pair, luck: Luck, compressedLen: string -> nat): Pair {
    var looked := Looked(cfg, p, luck, compressedLen);
    var (t, rs) := Pushed(p.server, looked, seq(|looked|, i requires 0 <= i < |looked| => luck.draws(i)));
    var o := ResultsApplied(cfg, p.mem, p.db, Commit, rs);
    Pair(t, o.mem, o.db)
  }

  ghost predicate PairSound(cfg: Config, authored: Authored, p: Pair) {
    ServerSound(cfg, authored, p.server) && AuthoredSound(authored)
      && QueueSound(authored, p.server.dedupe, p.mem, p.db)
  }

  /** A response settles exactly the commands it answers. */
  lemma SettledIs(outbox: seq<OutboxEntry>, cs: seq<Command>, rs: seq<CommandResult>)
    requires InStep(cs, rs) && forall c :: c in cs ==> c.id in IdsOf(outbox)
    ensures Settled(outbox, rs) == CommandIds(cs)
  {
    forall id ensures id in Settled(outbox, rs) <==> id in CommandIds(cs) {
      FirstForMeans(rs, id);
      if FirstFor(rs, id).Some? {
        var r :| r in rs && r.id == id;
        var i :| 0 <= i < |rs| && rs[i] == r;
        assert cs[i] in cs;
      }
      if id in CommandIds(cs) {
        var i :| 0 <= i < |cs| && cs[i].id == id;
        assert rs[i] in rs;
      }
    }
  }

  lemma ResolvedLeaves(cfg: Config, mem: Memory, db: DbState, rs: seq<CommandResult>)
    requires Accounted(db) && QueueAgrees(mem, db)
    ensures ResultsApplied(cfg, mem, db, Commit, rs).db.outbox == Remaining(db.outbox, Settled(db.outbox, rs))
  {
    AnswersSettle(cfg, db, rs);
    var a := AnswerAll(cfg, db.outbox, rs);
    PrunedIsRemaining(db.outbox, a.resolved.resolutions);
    if a.ops == [] {
      NothingAnswered(db.outbox);
    }
  }

  lemma LookedIsPrefix(cfg: Config, p: Pair, luck: Luck, compressedLen: string -> nat)
    ensures var sendable, looked := Sendable(cfg, p.db.outbox), Looked(cfg, p, luck, compressedLen);
      && |looked| <= |sendable| && looked == sendable[..|looked|] && (sendable != [] ==> looked != [])
  {
    var sendable := Sendable(cfg, p.db.outbox);
    Splice.GreedyFits(Splice.Encodings(sendable, EncodeCommand), 0, COMMANDS_MAX_COUNT,
                      PushFits(luck.budget, compressedLen));
  }

  /** What a round leaves queued when the server looked at the first a commands that can be sent. */
  lemma AnsweredPrefix(cfg: Config, outbox: seq<OutboxEntry>, a: nat)
    requires DistinctQueue(outbox) && a <= |Sendable(cfg, outbox)|
    ensures var rest := Remaining(outbox, CommandIds(Sendable(cfg, outbox)[..a]));
      Sendable(cfg, rest) == Sendable(cfg, outbox)[a..] && Held(cfg, rest) == Held(cfg, outbox)
  {
    var sendable := Sendable(cfg, outbox);
    var ids := CommandIds(sendable[..a]);
    SendableIds(cfg, outbox);
    assert forall c :: c in sendable[..a] ==> c in sendable;
    forall e | e in outbox && Outgoing(cfg, e).Err? ensures e.command.id !in ids {
      HeldIdsApart(cfg, outbox, e);
    }
    SendableRemaining(cfg, outbox, ids);
    UnansweredIsRest(sendable, a);
    HeldRemaining(cfg, outbox, ids);
  }

  /**
   One round resolves the first commands the server looked at, at least one if any can be sent, and disturbs no
   other.
   */
  lemma RoundResolves(cfg: Config, authored: Authored, p: Pair, luck: Luck, compressedLen: string -> nat)
    requires PairSound(cfg, authored, p)
    ensures var q := PushRound(cfg, p, luck, compressedLen);
      var a := |Looked(cfg, p, luck, compressedLen)|;
      && PairSound(cfg, authored, q) && a <= |Sendable(cfg, p.db.outbox)|
      && (Sendable(cfg, p.db.outbox) != [] ==> a > 0)
      && Sendable(cfg, q.db.outbox) == Sendable(cfg, p.db.outbox)[a..]
      && Held(cfg, q.db.outbox) == Held(cfg, p.db.outbox)
  {
    var looked := Looked(cfg, p, luck, compressedLen);
    var draws := seq(|looked|, i requires 0 <= i < |looked| => luck.draws(i));
    var (t, rs) := Pushed(p.server, looked, draws);
    LookedIsPrefix(cfg, p, luck, compressedLen);
    SendableVouched(cfg, authored, p.db.outbox);
    SendableIds(cfg, p.db.outbox);
    forall c | c in looked ensures c.id in IdsOf(p.db.outbox) && Vouched(cfg, authored, c) {
      assert c in Sendable(cfg, p.db.outbox) && c.id in CommandIds(Sendable(cfg, p.db.outbox));
    }
    PushedSound(cfg, authored, p.server, looked, draws);
    TableGrowthKeepsQueue(authored, p.server.dedupe, t.dedupe, p.mem, p.db);
    AnswerKeepsQueue(cfg, authored, t.dedupe, p.mem, p.db, Commit, rs);
    ResolvedLeaves(cfg, p.mem, p.db, rs);
    SettledIs(p.db.outbox, looked, rs);
    AnsweredPrefix(cfg, p.db.outbox, |looked|);
  }

  function PushRounds(cfg: Config, p: Pair, plan: seq<Luck>, compressedLen: string -> nat): Pair {
    if plan == [] then p
      else PushRound(cfg, PushRounds(cfg, p, plan[..|plan| - 1], compressedLen), plan[|plan| - 1], compressedLen)
  }

  /**
   However hard the server sheds, each fault-free round lowers what can be sent by at least one, so
   after at most as many rounds as there are such commands only the held ones are left, in order.
   */
  lemma {:induction false} OutboxDrains(cfg: Config, authored: Authored, p: Pair, plan: seq<Luck>,
                                        compressedLen: string -> nat)
    requires PairSound(cfg, authored, p)
    ensures var q := PushRounds(cfg, p, plan, compressedLen);
      && PairSound(cfg, authored, q) && Held(cfg, q.db.outbox) == Held(cfg, p.db.outbox)
      && (|Sendable(cfg, q.db.outbox)| == 0 || |Sendable(cfg, q.db.outbox)| + |plan| <= |Sendable(cfg, p.db.outbox)|)
      && (|plan| >= |Sendable(cfg, p.db.outbox)| ==>
           Sendable(cfg, q.db.outbox) == [] && q.db.outbox == Held(cfg, p.db.outbox))
  {
    if plan != [] {
      var n := |plan| - 1;
      OutboxDrains(cfg, authored, p, plan[..n], compressedLen);
      RoundResolves(cfg, authored, PushRounds(cfg, p, plan[..n], compressedLen), plan[n], compressedLen);
    }
    OnlyHeldLeft(cfg, PushRounds(cfg, p, plan, compressedLen).db.outbox);
  }

  /** A queue with nothing to send is all held. */
  lemma {:induction false} OnlyHeldLeft(cfg: Config, outbox: seq<OutboxEntry>)
    ensures Sendable(cfg, outbox) == [] ==> Held(cfg, outbox) == outbox
  {
    if outbox != [] {
      OnlyHeldLeft(cfg, outbox[..|outbox| - 1]);
    }
  }
}
