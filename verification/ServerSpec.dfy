/**
 The simulated server as functions of its plain log: what a pull, a bootstrap page and a digest
 must be, without any of the indexes the server keeps to compute them quickly.
 */
module ServerSpec {
  import opened Prelude
  import opened Wire
  import opened Ids
  import opened Replay
  import Dedupe
  import Digest
  import Splice

  // ----- what a client at a cursor should hold -----

  /** The last version each row was given, tombstones' versions included: what the history index answers. */
  function HeldIn(cs: seq<Change>): map<RowKey, nat> {
    if cs == [] then map[] else HeldIn(cs[..|cs| - 1])[cs[|cs| - 1].key := cs[|cs| - 1].version]
  }

  lemma {:induction false} HeldIsLast(cs: seq<Change>, key: RowKey)
    ensures key in HeldIn(cs) <==> LastTo(cs, key).Some?
    ensures key in HeldIn(cs) ==> HeldIn(cs)[key] == LastTo(cs, key).value.version
  {
    if cs != [] {
      HeldIsLast(cs[..|cs| - 1], key);
    }
  }

  /** No row's latest change is a delete. */
  ghost predicate NoTombstoneLast(cs: seq<Change>) {
    forall key :: LastTo(cs, key).Some? ==> LastTo(cs, key).value.snapshot.Some?
  }

  /**
   The history index describes the rows a client holds exactly when no row's latest change is a
   delete: a tombstone stays in the history as though it were a live version.
   */
  lemma HistoryMatchesReplay(cs: seq<Change>)
    ensures HeldIn(cs) == Versions(Replayed(cs)) <==> NoTombstoneLast(cs)
  {
    forall key ensures key in HeldIn(cs) <==> LastTo(cs, key).Some?
      ensures key in Replayed(cs) <==> LastTo(cs, key).Some? && LastTo(cs, key).value.snapshot.Some?
      ensures key in Replayed(cs) ==> Replayed(cs)[key].version == HeldIn(cs)[key]
    {
      HeldIsLast(cs, key);
      ReplayIsLast(map[], cs, key);
    }
    if NoTombstoneLast(cs) {
      assert HeldIn(cs) == Versions(Replayed(cs));
    } else {
      var key :| LastTo(cs, key).Some? && LastTo(cs, key).value.snapshot.None?;
      assert key in HeldIn(cs) && key !in Versions(Replayed(cs));
    }
  }

  function RowsAt(es: seq<Entry>, cursor: nat): map<RowKey, nat> {
    HeldIn(Changes(es)[..UpTo(es, cursor)])
  }

  /** The digest the server sends: over the history as far as a reader may see. */
  ghost function DigestAt(es: seq<Entry>, cursor: nat): (d: nat)
    ensures d < Digest.MODULUS
  {
    Digest.DigestOf(RowsAt(es, cursor))
  }

  /** Upserting one row and deleting it again is enough to make the two disagree. */
  lemma TombstoneMisleads(key: RowKey, doc: Document)
    ensures var up := Change(1, key, Upsert, Some(doc), 1, 1);
      var down := Change(2, key, Delete, None, 2, 1);
      HeldIn([up, down]) == map[key := 2] && Replayed([up, down]) == map[]
  {
    var up, down := Change(1, key, Upsert, Some(doc), 1, 1), Change(2, key, Delete, None, 2, 1);
    var both := [up, down];
    assert both[..1] == [up] && [up][..0] == [];
    assert HeldIn(both) == HeldIn([up])[key := 2] && HeldIn([up]) == map[key := 1];
    assert ReplayOnto(map[], both) == ReplayOne(ReplayOnto(map[], [up]), down);
    assert ReplayOnto(map[], [up]) == ReplayOne(map[], up);
  }

  // ----- pull -----

  /** The changes one read hands over: with the guard it stops at the first uncommitted entry. */
  function Candidates(es: seq<Entry>, start: nat, guarded: bool, limit: nat): (cs: seq<Change>)
    ensures |cs| <= limit && (start <= |es| ==> |cs| <= |es| - start)
    decreases |es| - start
  {
    if start >= |es| || limit == 0 then []
    else if es[start].visible then [es[start].change] + Candidates(es, start + 1, guarded, limit - 1)
    else if guarded then []
    else Candidates(es, start + 1, guarded, limit)
  }

  function Min(a: nat, b: nat): nat {
    if a < b then a else b
  }

  /** With the guard on, the candidates are a contiguous committed stretch of the scope's log. */
  lemma {:induction false} GuardedCandidates(es: seq<Entry>, start: nat, limit: nat)
    requires start <= |es|
    ensures Candidates(es, start, true, limit) == Changes(es)[start..Min(CommittedFrom(es, start), start + limit)]
    decreases |es| - start
  {
    if start < |es| && limit > 0 && es[start].visible {
      GuardedCandidates(es, start + 1, limit - 1);
    }
  }

  lemma {:induction false} CommittedFromCommitted(es: seq<Entry>, k: nat, start: nat)
    requires k <= |es| && k <= start <= CommittedFrom(es, k)
    ensures CommittedFrom(es, start) == CommittedFrom(es, k)
    decreases start - k
  {
    if k < start {
      CommittedFromCommitted(es, k + 1, start);
    }
  }

  ghost function PullAnswer(es: seq<Entry>, scope: ScopeId, after: nat, limit: nat, guarded: bool,
                            encode: Change -> string, budget: nat, compressedLen: string -> nat): Batch
  {
    var start := UpTo(es, after);
    var candidates := Candidates(es, start, guarded, limit);
    Splice.Filled(scope, after, candidates, |es| - start > |candidates|, encode, budget, compressedLen,
                  Digest.ToHex(DigestAt(es, VisibleHead(es))))
  }

  /** A contiguous committed stretch of the scope's log just past the cursor. */
  predicate Stretch(es: seq<Entry>, scope: ScopeId, after: nat, batch: Batch) {
    var a := UpTo(es, after);
    var n := a + |batch.changes|;
    && batch.scope == scope && n <= |es|
    && batch.changes == Changes(es)[a..n]
    && (forall i :: a <= i < n ==> es[i].visible)
    && batch.nextCursor == (if n == a then after else es[n - 1].change.seqNo)
  }

  /**
   An answer cut from the first `whole` entries says more is left if and only if it stops short of
   them, and carries the digest of exactly the log it reaches to if it does not.
   */
  ghost predicate Concludes(es: seq<Entry>, after: nat, batch: Batch, whole: nat) {
    var n := UpTo(es, after) + |batch.changes|;
    && n <= whole <= |es| && (batch.hasMore <==> n < whole)
    && (!batch.hasMore ==> batch.digest == Digest.ToHex(Digest.DigestOf(HeldIn(Changes(es)[..n]))))
  }

  ghost predicate Honest(es: seq<Entry>, scope: ScopeId, after: nat, batch: Batch, whole: nat) {
    Stretch(es, scope, after, batch) && Concludes(es, after, batch, whole)
  }

  /** Any prefix of the next committed stretch, cut off with the right cursor. */
  lemma CutIsStretch(es: seq<Entry>, scope: ScopeId, after: nat, top: nat, batch: Batch)
    requires UpTo(es, after) <= top <= CommittedFrom(es, UpTo(es, after))
    requires var a := UpTo(es, after); var cs := Changes(es)[a..top]; var k := |batch.changes|;
      && k <= |cs| && batch.changes == cs[..k] && batch.scope == scope
      && batch.nextCursor == (if k == 0 then after else cs[k - 1].seqNo)
    ensures Stretch(es, scope, after, batch)
  {
    var a, k, all := UpTo(es, after), |batch.changes|, Changes(es);
    assert all[a..top][..k] == all[a..a + k];
    if k > 0 {
      assert all[a..top][k - 1] == es[a + k - 1].change;
    }
  }

  lemma WholeConcludes(es: seq<Entry>, after: nat, batch: Batch)
    requires Ascending(es) && UpTo(es, after) + |batch.changes| <= |es|
    requires batch.hasMore <==> UpTo(es, after) + |batch.changes| < |es|
    requires !batch.hasMore ==> Committed(es) == |es|
    requires batch.digest == Digest.ToHex(DigestAt(es, VisibleHead(es)))
    ensures Concludes(es, after, batch, |es|)
  {
    if !batch.hasMore {
      WholeLog(es);
    }
  }

  /**
   A guarded pull from a reachable cursor is honest: it says nothing is left if and only if it
   reaches the end of the log, and it is empty only when nothing more has committed.
   */
  lemma PullIsHonest(es: seq<Entry>, scope: ScopeId, after: nat, limit: nat,
                     encode: Change -> string, budget: nat, compressedLen: string -> nat)
    requires Ascending(es) && limit > 0 && UpTo(es, after) <= Committed(es)
    ensures var batch := PullAnswer(es, scope, after, limit, true, encode, budget, compressedLen);
      && Honest(es, scope, after, batch, |es|)
      && (batch.hasMore <==> UpTo(es, after) + |batch.changes| < |es|)
      && (batch.changes == [] ==> Committed(es) == UpTo(es, after))
      && (!batch.hasMore ==> UpTo(es, after) + |batch.changes| == |es| == Committed(es))
  {
    var a := UpTo(es, after);
    CommittedFromCommitted(es, 0, a);
    GuardedCandidates(es, a, limit);
    var cs := Candidates(es, a, true, limit);
    var top := Min(CommittedFrom(es, a), a + limit);
    Splice.FilledIsCut(scope, after, cs, |es| - a > |cs|, encode, budget, compressedLen,
                       Digest.ToHex(DigestAt(es, VisibleHead(es))));
    var batch := PullAnswer(es, scope, after, limit, true, encode, budget, compressedLen);
    CutIsStretch(es, scope, after, top, batch);
    WholeConcludes(es, after, batch);
  }

  /** When everything has committed the visible head covers the whole log. */
  lemma WholeLog(es: seq<Entry>)
    requires Ascending(es) && Committed(es) == |es|
    ensures UpTo(es, VisibleHead(es)) == |es|
    ensures DigestAt(es, VisibleHead(es)) == Digest.DigestOf(HeldIn(Changes(es)[..|es|]))
  {
    UpToIs(es, VisibleHead(es), |es|);
  }

  lemma {:induction false} CandidatesPast(es: seq<Entry>, start: nat, guarded: bool, limit: nat)
    ensures forall c :: c in Candidates(es, start, guarded, limit) ==>
      exists i :: start <= i < |es| && es[i].change == c
    decreases |es| - start
  {
    if start < |es| && limit > 0 {
      CandidatesPast(es, start + 1, guarded, if es[start].visible then limit - 1 else limit);
    }
  }

  /**
   Guarded or not, an answer holds nothing at or below the cursor it was asked from, and its own cursor is no
   lower.
   */
  lemma NothingAgain(es: seq<Entry>, scope: ScopeId, after: nat, limit: nat, guarded: bool,
                     encode: Change -> string, budget: nat, compressedLen: string -> nat)
    requires Ascending(es)
    ensures var batch := PullAnswer(es, scope, after, limit, guarded, encode, budget, compressedLen);
      (forall c :: c in batch.changes ==> after < c.seqNo) && after <= batch.nextCursor
  {
    var start := UpTo(es, after);
    var cs := Candidates(es, start, guarded, limit);
    UpToSplits(es, after);
    CandidatesPast(es, start, guarded, limit);
    Splice.FilledIsCut(scope, after, cs, |es| - start > |cs|, encode, budget, compressedLen,
                       Digest.ToHex(DigestAt(es, VisibleHead(es))));
    var batch := PullAnswer(es, scope, after, limit, guarded, encode, budget, compressedLen);
    forall c | c in batch.changes ensures c in cs {
      var i :| 0 <= i < |batch.changes| && batch.changes[i] == c;
      assert cs[i] == c;
    }
    if batch.changes != [] {
      assert batch.changes[|batch.changes| - 1] in cs;
    }
  }

  /** A write held open, and a later one that committed first. */
  function Overtaken(scope: ScopeId, slow: Change, quick: Change): seq<Entry> {
    [Entry(scope, slow, false, None), Entry(scope, quick, true, None)]
  }

  /**
   Without the guard a held-open write is skipped for good: the answer moves the cursor past it,
   and from there no answer ever holds it again, whatever commits or is written later and guarded
   or not, while every answer's cursor only moves on.
   */
  lemma UnguardedSkips(scope: ScopeId, slow: Change, quick: Change, encode: Change -> string, budget: nat,
                       compressedLen: string -> nat, es': seq<Entry>, after: nat, limit: nat, guarded: bool)
    requires 1 <= slow.seqNo < quick.seqNo
    requires Grows(Overtaken(scope, slow, quick), es') && Ascending(es') && quick.seqNo <= after
    ensures var batch := PullAnswer(Overtaken(scope, slow, quick), scope, 0, 4, false, encode, budget, compressedLen);
      batch.changes == [quick] && batch.nextCursor == quick.seqNo && VisibleHead(Overtaken(scope, slow, quick)) == 0
    ensures var later := PullAnswer(es', scope, after, limit, guarded, encode, budget, compressedLen);
      es'[0].change == slow && slow !in later.changes && after <= later.nextCursor
  {
    var es := Overtaken(scope, slow, quick);
    assert es[0].change == slow && es[1].change == quick;
    UpToIs(es, 0, 0);
    assert Candidates(es, 2, false, 3) == [];
    assert Candidates(es, 1, false, 4) == [quick] + Candidates(es, 2, false, 3);
    var cs := Candidates(es, 0, false, 4);
    assert cs == [quick];
    Splice.FilledIsCut(scope, 0, cs, true, encode, budget, compressedLen, Digest.ToHex(DigestAt(es, VisibleHead(es))));
    NothingAgain(es', scope, after, limit, guarded, encode, budget, compressedLen);
  }

  // ----- bootstrap -----

  /** Whether a bootstrap from a cursor sends this change: a row's latest, past the cursor, no tombstones from zero. */
  predicate Sends(cs: seq<Change>, c: Change, after: nat) {
    LastTo(cs, c.key) == Some(c) && after < c.seqNo && (c.op.Delete? ==> after > 0)
  }

  /** The compacted log: each row's latest change, in log order. */
  function Compacted(cs: seq<Change>, n: nat, after: nat): (r: seq<Change>)
    requires n <= |cs|
  {
    if n == 0 then []
    else if Sends(cs, cs[n - 1], after) then Compacted(cs, n - 1, after) + [cs[n - 1]]
    else Compacted(cs, n - 1, after)
  }

  ghost function PageAnswer(es: seq<Entry>, scope: ScopeId, after: nat, guarded: bool,
                            encode: Change -> string, budget: nat, compressedLen: string -> nat): Batch
  {
    var seen := Candidates(es, 0, guarded, |es|);
    Splice.Filled(scope, after, Compacted(seen, |seen|, after), false, encode, budget, compressedLen,
                  Digest.ToHex(DigestAt(es, VisibleHead(es))))
  }

  // ----- writes -----

  datatype ServerState = ServerState(log: seq<Entry>, nextSeq: nat, dedupe: Dedupe.Table,
                                     targets: map<string, (EntityName, ScopeId)>)

  /** The snapshot a simulated write carries. */
  function Content(seqNo: nat): Document {
    Document("{\"v\":" + Digits(seqNo) + "}")
  }

  function UpsertOf(seqNo: nat, key: RowKey): Change {
    Change(seqNo, key, Upsert, Some(Content(seqNo)), seqNo, 1)
  }

  function DeleteOf(seqNo: nat, key: RowKey): Change {
    Change(seqNo, key, Delete, None, seqNo, 1)
  }

  function Appended(s: ServerState, scope: ScopeId, key: RowKey, origin: Option<CommandId>,
                    visible: bool): ServerState {
    s.(log := s.log + [Entry(scope, UpsertOf(s.nextSeq, key), visible, origin)], nextSeq := s.nextSeq + 1)
  }

  function Deleted(s: ServerState, scope: ScopeId, key: RowKey): ServerState {
    s.(log := s.log + [Entry(scope, DeleteOf(s.nextSeq, key), true, None)], nextSeq := s.nextSeq + 1)
  }

  function RowName(n: nat): string {
    "row:" + Digits(n % 8)
  }

  /** The row a command's id picks under its entity, written under the next number. */
  function AppliedTo(s: ServerState, command: Command, target: (EntityName, ScopeId), visible: bool): ServerState {
    Appended(s, target.1, Digest.RowKey(target.0, RowName(LastByte(command.id))), Some(command.id), visible)
  }

  function LastByte(id: CommandId): nat {
    if |id.bytes| == 16 then id.bytes[15] else 0
  }

  const UNKNOWN_COMMAND := "Unknown command."
  const DEADLINE_PASSED := "Submission deadline passed."

  /** One command: the dedupe rule, then the host's verdict as the draw decides it. */
  function Decided(s: ServerState, command: Command, roll: nat, visible: bool): (ServerState, CommandResult) {
    var checksum := Dedupe.PayloadChecksum(command.payload);
    match Dedupe.Decide(command, Dedupe.Lookup(s.dedupe, command.id))
    case Replay(result) => (s, result)
    case Mutated(_, _) => Recorded(s, command, Dedupe.RejectedResult(command.id, Dedupe.MUTATED_REASON))
    case Fresh =>
      if command.name !in s.targets then Recorded(s, command, Dedupe.RejectedResult(command.id, UNKNOWN_COMMAND))
      else if roll < 80 then
        Recorded(AppliedTo(s, command, s.targets[command.name], visible), command,
                 Dedupe.AppliedResult(command.id, s.nextSeq))
      else if roll < 90 then Recorded(s, command, Dedupe.SupersededResult(command.id))
      else Recorded(s, command, Dedupe.RejectedResult(command.id, DEADLINE_PASSED))
  }

  function Recorded(s: ServerState, command: Command, result: CommandResult): (ServerState, CommandResult) {
    (s.(dedupe := s.dedupe[command.id := Dedupe.Recorded(Dedupe.PayloadChecksum(command.payload), result)]), result)
  }

  /** Rejected for this reason, with one record under the id and nothing else. */
  predicate RejectedFor(s: ServerState, c: Command, t: ServerState, r: CommandResult, reason: string) {
    && r.id == c.id && r.status.Rejected? && r.reason == Some(reason) && r.serverSeq == None
    && t == s.(dedupe := s.dedupe[c.id := Dedupe.Recorded(Dedupe.PayloadChecksum(c.payload), r)])
  }

  /** The write of an applied command: one of eight rows of its entity, by the id's last byte, under the next number. */
  function Written(s: ServerState, c: Command): Change
    requires c.name in s.targets
  {
    var n := if |c.id.bytes| == 16 then c.id.bytes[15] else 0;
    Change(s.nextSeq, Digest.RowKey(s.targets[c.name].0, "row:" + [('0' as nat + n % 8) as char]), Upsert,
           Some(Document("{\"v\":" + Digits(s.nextSeq) + "}")), s.nextSeq, 1)
  }

  /**
   What becomes of a command. An id recorded for this body is answered with its record and changes
   nothing; one recorded for another body is rejected as unverifiable. A new one is rejected for an
   unregistered name, and otherwise the draw decides: applied under the next number, superseded
   without a number or a reason, or rejected as late.
   */
  lemma DecidedMeans(s: ServerState, c: Command, roll: nat, visible: bool)
    ensures var (t, r) := Decided(s, c, roll, visible);
      var unseen, known := c.id !in s.dedupe, c.name in s.targets;
      && (!unseen && s.dedupe[c.id].checksum == Dedupe.PayloadChecksum(c.payload) ==>
           t == s && r == s.dedupe[c.id].result)
      && (!unseen && s.dedupe[c.id].checksum != Dedupe.PayloadChecksum(c.payload) ==>
           RejectedFor(s, c, t, r, "This request could not be verified. Please try again."))
      && (unseen && !known ==> RejectedFor(s, c, t, r, "Unknown command."))
      && (unseen && known ==>
        && r.id == c.id
        && (r.status.Applied? <==> roll < 80) && (r.status.Superseded? <==> 80 <= roll < 90)
        && (roll < 80 ==>
          && r.reason == None && r.serverSeq == Some(s.nextSeq) && t.nextSeq == s.nextSeq + 1
          && t.log == s.log + [Entry(s.targets[c.name].1, Written(s, c), visible, Some(c.id))])
        && (80 <= roll < 90 ==> r.reason == None && r.serverSeq == None && t.log == s.log && t.nextSeq == s.nextSeq)
        && (roll >= 90 ==> RejectedFor(s, c, t, r, "Submission deadline passed.")))
  {
  }

  /** A push answered for its first commands only; the rest are not mentioned at all. */
  function Pushed(s: ServerState, commands: seq<Command>, draws: seq<(nat, bool)>): (ServerState, seq<CommandResult>)
    requires |draws| == |commands|
  {
    if commands == [] then (s, [])
    else
      var n := |commands| - 1;
      var (t, rs) := Pushed(s, commands[..n], draws[..n]);
      var (u, r) := Decided(t, commands[n], draws[n].0, draws[n].1);
      (u, rs + [r])
  }

  // ----- the log's invariant -----

  /** Numbers are taken in order and a write's version is its number. */
  predicate Numbered(s: ServerState) {
    && Ascending(s.log)
    && (forall e :: e in s.log ==>
         1 <= e.change.seqNo < s.nextSeq && e.change.version == e.change.seqNo && e.change.Consistent())
    && 1 <= s.nextSeq
  }

  lemma DecidedKeepsNumbered(s: ServerState, command: Command, roll: nat, visible: bool)
    requires Numbered(s)
    ensures Numbered(Decided(s, command, roll, visible).0)
    ensures s.log <= Decided(s, command, roll, visible).0.log
  {
  }
}
