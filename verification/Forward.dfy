/**
 Forwarding commands to the host: classify, ask, record. Each call is a sequence of effects on
 the shared result table, and any number of calls interleave between them.
 */
module Forward {
  import opened Prelude
  import opened Wire
  import opened Ids
  import opened Dedupe

  datatype HostOutcome = HostApplied(serverSeq: nat) | HostRejected(reason: string) | HostSuperseded

  datatype HostError = Timeout | BadStatus(code: nat) | Unreachable | Malformed

  datatype Forwarded =
    | Decided(result: CommandResult)
    | Replayed(result: CommandResult)
    | Refused(result: CommandResult)      // the record under this id is for another body
    | Unresolved(error: HostError)

  /** Where one call stands between its effects. */
  datatype Call =
    | Submitted(command: Command)
    | Asking(command: Command)                                // classified fresh; the host is being asked
    | Recording(command: Command, result: CommandResult)      // answered; the insert is next
    | LostRace(command: Command)                              // the insert found a row
    | Done(command: Command, outcome: Forwarded)
    | Corrupt(command: Command, found: Decision)

  datatype State = State(
    table: Table,
    calls: map<nat, Call>,
    answers: set<(Command, HostOutcome)>)   // everything the host ever answered

  const INITIAL := State(map[], map[], {})

  function ResultOf(command: Command, outcome: HostOutcome): CommandResult {
    match outcome
    case HostApplied(s) => AppliedResult(command.id, s)
    case HostRejected(reason) => RejectedResult(command.id, reason)
    case HostSuperseded => SupersededResult(command.id)
  }

  datatype Step =
    | Submit(p: nat, command: Command)
    | Classify(p: nat)
    | HostAnswers(p: nat, outcome: HostOutcome)
    | HostFails(p: nat, error: HostError)
    | Insert(p: nat)
    | ReadWinner(p: nat)

  function Classified(table: Table, command: Command): Call {
    match Decide(command, Lookup(table, command.id))
    case Replay(existing) => Done(command, Replayed(existing))
    case Mutated(_, _) => Done(command, Refused(RejectedResult(command.id, MUTATED_REASON)))
    case Fresh => Asking(command)
  }

  function Reread(table: Table, command: Command): Call {
    match Decide(command, Lookup(table, command.id))
    case Replay(existing) => Done(command, Decided(existing))
    case d => Corrupt(command, d)
  }

  ghost predicate Next(s: State, s': State, step: Step) {
    match step
    case Submit(p, command) => p !in s.calls && s' == s.(calls := s.calls[p := Submitted(command)])
    case Classify(p) =>
      && p in s.calls && s.calls[p].Submitted?
      && s' == s.(calls := s.calls[p := Classified(s.table, s.calls[p].command)])
    case HostAnswers(p, outcome) =>
      && p in s.calls && s.calls[p].Asking?
      && var c := s.calls[p].command;
        s' == s.(calls := s.calls[p := Recording(c, ResultOf(c, outcome))],
                 answers := s.answers + {(c, outcome)})
    case HostFails(p, error) =>
      && p in s.calls && s.calls[p].Asking?
      && s' == s.(calls := s.calls[p := Done(s.calls[p].command, Unresolved(error))])
    case Insert(p) =>
      && p in s.calls && s.calls[p].Recording?
      && var c, result := s.calls[p].command, s.calls[p].result;
        if c.id in s.table then s' == s.(calls := s.calls[p := LostRace(c)])
        else s' == s.(table := s.table[c.id := Recorded(PayloadChecksum(c.payload), result)],
                      calls := s.calls[p := Done(c, Decided(result))])
    case ReadWinner(p) =>
      && p in s.calls && s.calls[p].LostRace?
      && s' == s.(calls := s.calls[p := Reread(s.table, s.calls[p].command)])
  }

  ghost predicate SomeStep(s: State, s': State) {
    exists step :: Next(s, s', step)
  }

  ghost predicate Run(run: seq<State>) {
    run != [] && run[0] == INITIAL && forall i :: 0 < i < |run| ==> SomeStep(run[i - 1], run[i])
  }

  /** A result that says what the host said: applied with its number, rejected in its words, or superseded. */
  predicate SaysAs(r: CommandResult, outcome: HostOutcome) {
    && (r.status.Applied? <==> outcome.HostApplied?)
    && (r.status.Rejected? <==> outcome.HostRejected?)
    && (r.status.Superseded? <==> outcome.HostSuperseded?)
    && r.serverSeq == (if outcome.HostApplied? then Some(outcome.serverSeq) else None)
    && r.reason == (if outcome.HostRejected? then Some(outcome.reason) else None)
  }

  /** The host answered this command so. */
  predicate Answered(s: State, c: Command, r: CommandResult, outcome: HostOutcome) {
    (c, outcome) in s.answers && r.id == c.id && SaysAs(r, outcome)
  }

  /** The record for an id says what the host answered, for a command with that id and that body. */
  ghost predicate AnsweredByHost(s: State, id: CommandId, r: Recorded) {
    exists c: Command, outcome ::
      c.id == id && PayloadChecksum(c.payload) == r.checksum && Answered(s, c, r.result, outcome)
  }

  /** What a finished or unfinished call may claim about the table. */
  ghost predicate CallAgrees(s: State, call: Call) {
    match call
    case Done(c, Decided(r)) => c.id in s.table && s.table[c.id] == Recorded(PayloadChecksum(c.payload), r)
    case Done(c, Replayed(r)) => c.id in s.table && s.table[c.id] == Recorded(PayloadChecksum(c.payload), r)
    case Done(c, Refused(r)) =>
      && c.id in s.table && s.table[c.id].checksum != PayloadChecksum(c.payload)
      && r.id == c.id && SaysAs(r, HostRejected("This request could not be verified. Please try again."))
    case Recording(c, r) => exists outcome :: Answered(s, c, r, outcome)
    case LostRace(c) => c.id in s.table
    case Corrupt(c, d) => d.Mutated? && c.id in s.table && s.table[c.id].checksum != PayloadChecksum(c.payload)
    case _ => true
  }

  ghost predicate Inv(s: State) {
    && (forall id :: id in s.table ==> AnsweredByHost(s, id, s.table[id]))
    && (forall p :: p in s.calls ==> CallAgrees(s, s.calls[p]))
  }

  /** Only a winning insert writes, and it writes an id that had no record. */
  lemma TableStep(s: State, s': State, step: Step)
    requires Next(s, s', step)
    ensures forall id :: id in s.table ==> id in s'.table && s'.table[id] == s.table[id]
    ensures s'.table != s.table ==> step.Insert? && s'.calls[step.p].Done? && s'.calls[step.p].outcome.Decided?
    ensures s.answers <= s'.answers
  {
  }

  /** Records and answers only accumulate, so what a call claims stays true. */
  ghost predicate Grows(s: State, s': State) {
    && (forall id :: id in s.table ==> id in s'.table && s'.table[id] == s.table[id])
    && s.answers <= s'.answers
  }

  lemma CallAgreesGrows(s: State, s': State, call: Call)
    requires Grows(s, s') && CallAgrees(s, call)
    ensures CallAgrees(s', call)
  {
    if call.Recording? {
      var outcome :| Answered(s, call.command, call.result, outcome);
      assert Answered(s', call.command, call.result, outcome);
    }
  }

  lemma RecordGrows(s: State, s': State, id: CommandId, r: Recorded)
    requires Grows(s, s') && AnsweredByHost(s, id, r)
    ensures AnsweredByHost(s', id, r)
  {
    var c: Command, outcome :|
      c.id == id && PayloadChecksum(c.payload) == r.checksum && Answered(s, c, r.result, outcome);
    assert Answered(s', c, r.result, outcome);
  }

  lemma ActingCallAgrees(s: State, s': State, step: Step)
    requires Inv(s) && Next(s, s', step) && Grows(s, s')
    ensures step.p in s'.calls && CallAgrees(s', s'.calls[step.p])
  {
    if step.p in s.calls {
      assert CallAgrees(s, s.calls[step.p]);
    }
    if step.HostAnswers? {
      assert Answered(s', s'.calls[step.p].command, s'.calls[step.p].result, step.outcome);
    }
  }

  lemma RecordsStep(s: State, s': State, step: Step)
    requires Inv(s) && Next(s, s', step) && Grows(s, s')
    ensures forall id :: id in s'.table ==> AnsweredByHost(s', id, s'.table[id])
  {
    forall id | id in s'.table ensures AnsweredByHost(s', id, s'.table[id]) {
      if id in s.table {
        RecordGrows(s, s', id, s.table[id]);
      } else {
        var call := s.calls[step.p];
        assert CallAgrees(s, call);
        var outcome :| Answered(s, call.command, call.result, outcome);
        assert Answered(s', call.command, call.result, outcome);
      }
    }
  }

  lemma InvStep(s: State, s': State, step: Step)
    requires Inv(s) && Next(s, s', step)
    ensures Inv(s')
  {
    TableStep(s, s', step);
    RecordsStep(s, s', step);
    ActingCallAgrees(s, s', step);
    forall q | q in s'.calls ensures CallAgrees(s', s'.calls[q]) {
      if q != step.p {
        OtherCallsKept(s, s', step, q);
        CallAgreesGrows(s, s', s.calls[q]);
      }
    }
  }

  lemma OtherCallsKept(s: State, s': State, step: Step, q: nat)
    requires Next(s, s', step) && q in s'.calls && q != step.p
    ensures q in s.calls && s'.calls[q] == s.calls[q]
  {
  }

  lemma {:induction false} InvHolds(run: seq<State>, i: nat)
    requires Run(run) && i < |run|
    ensures Inv(run[i])
  {
    if i > 0 {
      InvHolds(run, i - 1);
      assert SomeStep(run[i - 1], run[i]);
      var step :| Next(run[i - 1], run[i], step);
      InvStep(run[i - 1], run[i], step);
    }
  }

  lemma {:induction false} TableKept(run: seq<State>, i: nat, j: nat, id: CommandId)
    requires Run(run) && i <= j < |run| && id in run[i].table
    ensures id in run[j].table && run[j].table[id] == run[i].table[id]
    decreases j - i
  {
    if i < j {
      TableKept(run, i, j - 1, id);
      assert SomeStep(run[j - 1], run[j]);
      var step :| Next(run[j - 1], run[j], step);
      TableStep(run[j - 1], run[j], step);
    }
  }

  /** The verdict a call hands back, when it hands one back as the command's own. */
  function Verdict(call: Call): Option<CommandResult> {
    if call.Done? && (call.outcome.Decided? || call.outcome.Replayed?) then Some(call.outcome.result) else None
  }

  /**
   Over every interleaving, two calls on one id that both hand back a verdict hand back the same
   one: the record, which says what the host answered for that body, number and words included, and
   never changes afterwards.
   */
  lemma Agreement(run: seq<State>, i: nat, j: nat, p: nat, q: nat)
    requires Run(run) && i <= j < |run|
    requires p in run[i].calls && q in run[j].calls && run[i].calls[p].command.id == run[j].calls[q].command.id
    requires Verdict(run[i].calls[p]).Some? && Verdict(run[j].calls[q]).Some?
    ensures Verdict(run[i].calls[p]) == Verdict(run[j].calls[q])
    ensures PayloadChecksum(run[i].calls[p].command.payload) == PayloadChecksum(run[j].calls[q].command.payload)
    ensures var id := run[i].calls[p].command.id;
      && id in run[j].table && run[j].table[id].result == Verdict(run[j].calls[q]).value
      && AnsweredByHost(run[i], id, run[j].table[id])
    ensures var r := Verdict(run[j].calls[q]).value;
      exists c: Command, outcome ::
        && (c, outcome) in run[i].answers && c.id == r.id == run[i].calls[p].command.id
        && PayloadChecksum(c.payload) == PayloadChecksum(run[i].calls[p].command.payload)
        && match outcome
           case HostApplied(n) => r.status.Applied? && r.serverSeq == Some(n) && r.reason == None
           case HostRejected(words) => r.status.Rejected? && r.reason == Some(words) && r.serverSeq == None
           case HostSuperseded => r.status.Superseded? && r.reason == None && r.serverSeq == None
  {
    InvHolds(run, i);
    InvHolds(run, j);
    assert CallAgrees(run[i], run[i].calls[p]) && CallAgrees(run[j], run[j].calls[q]);
    TableKept(run, i, j, run[i].calls[p].command.id);
  }

  /** A call that lost the insert race always finds the winner's record; it errs only on a different body. */
  lemma LosersFindAWinner(run: seq<State>, i: nat, p: nat)
    requires Run(run) && i < |run| && p in run[i].calls && run[i].calls[p].Corrupt?
    ensures run[i].calls[p].found.Mutated?
  {
    InvHolds(run, i);
    assert CallAgrees(run[i], run[i].calls[p]);
  }

  // ----- what a call is told -----

  /**
   What a call makes of the table as it reads it. Nothing recorded: the host is asked. Recorded for
   this body: the record is replayed. For another body: the call is refused as unverifiable.
   */
  lemma ClassifyMeans(s: State, s': State, p: nat)
    requires Next(s, s', Classify(p))
    ensures var c, now := s.calls[p].command, s'.calls[p];
      && (now == Asking(c) <==> c.id !in s.table)
      && (now.Done? && now.outcome.Replayed? <==>
           c.id in s.table && s.table[c.id].checksum == PayloadChecksum(c.payload))
      && (now.Done? && now.outcome.Refused? <==>
           c.id in s.table && s.table[c.id].checksum != PayloadChecksum(c.payload))
      && (now.Done? ==> now.command == c && !now.outcome.Decided? && !now.outcome.Unresolved?)
      && (now.Done? && now.outcome.Replayed? ==> now.outcome.result == s.table[c.id].result)
      && (now.Done? && now.outcome.Refused? ==>
           now.outcome.result
             == CommandResult(c.id, Rejected, Some("This request could not be verified. Please try again."), None))
  {
  }

  /** A call that lost the insert hands back the winner's record as its own if the bodies agree, and errs if not. */
  lemma RereadMeans(s: State, s': State, p: nat)
    requires Next(s, s', ReadWinner(p)) && s.calls[p].command.id in s.table
    ensures var c, now := s.calls[p].command, s'.calls[p];
      if s.table[c.id].checksum == PayloadChecksum(c.payload)
      then now == Done(c, Decided(s.table[c.id].result)) else now.Corrupt?
  {
  }

  // ----- when the host is asked -----

  /** Some call's insert for this id is the step between two states. */
  ghost predicate Inserts(s: State, s': State, id: CommandId) {
    exists p :: p in s.calls && s.calls[p].Recording? && s.calls[p].command.id == id && Next(s, s', Insert(p))
  }

  lemma InsertedStep(s: State, s': State, step: Step, id: CommandId)
    requires Next(s, s', step) && id !in s.table
    ensures id in s'.table ==> Inserts(s, s', id)
  {
    TableStep(s, s', step);
    if id in s'.table {
      assert step.Insert? && s.calls[step.p].command.id == id;
    }
  }

  /** Over any run an id has a record if and only if some call that had the host's answer has inserted for it. */
  lemma {:induction false} RecordedIffInserted(run: seq<State>, j: nat, id: CommandId)
    requires Run(run) && j < |run|
    ensures id in run[j].table <==> exists i :: 0 <= i < j && Inserts(run[i], run[i + 1], id)
  {
    if j > 0 {
      RecordedIffInserted(run, j - 1, id);
      assert SomeStep(run[j - 1], run[j - 1 + 1]);
      RecordedStep(run[j - 1], run[j], id);
      InsertedSplits(run, j, id);
    }
  }

  lemma InsertedSplits(run: seq<State>, j: nat, id: CommandId)
    requires 0 < j < |run|
    ensures (exists i :: 0 <= i < j && Inserts(run[i], run[i + 1], id)) <==>
      (exists i :: 0 <= i < j - 1 && Inserts(run[i], run[i + 1], id)) || Inserts(run[j - 1], run[j], id)
  {
    if Inserts(run[j - 1], run[j], id) {
      assert Inserts(run[j - 1], run[j - 1 + 1], id);
    }
  }

  lemma RecordedStep(s: State, s': State, id: CommandId)
    requires SomeStep(s, s')
    ensures id in s'.table <==> id in s.table || Inserts(s, s', id)
  {
    var step :| Next(s, s', step);
    TableStep(s, s', step);
    if id !in s.table {
      InsertedStep(s, s', step, id);
    }
  }

  /** So in any run a call is put to the host if and only if no insert for its id came before it was classified. */
  lemma HostAskedIffNotInserted(run: seq<State>, j: nat, s': State, p: nat)
    requires Run(run) && j < |run| && Next(run[j], s', Classify(p))
    ensures s'.calls[p].Asking? <==> forall i :: 0 <= i < j ==> !Inserts(run[i], run[i + 1], run[j].calls[p].command.id)
  {
    RecordedIffInserted(run, j, run[j].calls[p].command.id);
  }

  /**
   A failed ask leaves the table as it was, and every later call on that id is put to the host
   again until an insert lands. So being asked at most once is not what the table provides, and a
   host that may have applied a command before failing must itself be idempotent.
   */
  lemma UnansweredAskIsRepeated(run: seq<State>, i: nat, p: nat, error: HostError, j: nat, s': State, q: nat)
    requires Run(run) && i < j < |run| && Next(run[i], run[i + 1], HostFails(p, error))
    requires Next(run[j], s', Classify(q)) && run[j].calls[q].command.id == run[i].calls[p].command.id
    ensures run[i + 1].table == run[i].table
    ensures var id := run[i].calls[p].command.id;
      id !in run[i].table && (forall k :: i < k < j ==> !Inserts(run[k], run[k + 1], id)) ==> s'.calls[q].Asking?
  {
    var id := run[i].calls[p].command.id;
    if id !in run[i].table && forall k :: i < k < j ==> !Inserts(run[k], run[k + 1], id) {
      NoInsertNoRecord(run, i + 1, j, id);
    }
  }

  lemma {:induction false} NoInsertNoRecord(run: seq<State>, i: nat, j: nat, id: CommandId)
    requires Run(run) && i <= j < |run| && id !in run[i].table
    requires forall k :: i <= k < j ==> !Inserts(run[k], run[k + 1], id)
    ensures id !in run[j].table
    decreases j - i
  {
    if i < j {
      NoInsertNoRecord(run, i, j - 1, id);
      assert SomeStep(run[j - 1], run[j]);
      var step :| Next(run[j - 1], run[j], step);
      InsertedStep(run[j - 1], run[j], step, id);
      assert run[j - 1 + 1] == run[j];
    }
  }

  ghost function TwoAsks(c: Command): seq<State> {
    var s1 := INITIAL.(calls := map[0 := Submitted(c)]);
    var s2 := s1.(calls := map[0 := Asking(c)]);
    var s3 := s2.(calls := map[0 := Done(c, Unresolved(Timeout))]);
    var s4 := s3.(calls := map[0 := Done(c, Unresolved(Timeout)), 1 := Submitted(c)]);
    var s5 := s4.(calls := map[0 := Done(c, Unresolved(Timeout)), 1 := Asking(c)]);
    [INITIAL, s1, s2, s3, s4, s5]
  }

  /** One run in which the same command reaches the host twice. */
  lemma AskedTwice(c: Command)
    ensures Run(TwoAsks(c)) && TwoAsks(c)[2].calls[0] == Asking(c) && TwoAsks(c)[5].calls[1] == Asking(c)
  {
    var run := TwoAsks(c);
    assert Next(run[0], run[1], Submit(0, c));
    assert Next(run[1], run[2], Classify(0));
    assert Next(run[2], run[3], HostFails(0, Timeout));
    assert Next(run[3], run[4], Submit(1, c));
    assert Next(run[4], run[5], Classify(1));
  }
}
