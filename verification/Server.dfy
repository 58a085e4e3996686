/**
 The simulated server: an append-only log whose entries take their number early and become
 visible late, indexes that answer without scanning it, and the dedupe table. Every method is
 proved against ServerSpec, which knows only the plain log.
 */
module Server {
  import opened Prelude
  import opened Wire
  import opened Ids
  import opened Replay
  import opened ServerSpec
  import opened ServerIndex
  import Compaction
  import Dedupe
  import Digest
  import Rng
  import Splice

  datatype LogEntry = LogEntry(seqNo: nat, change: Change, visible: bool)

  ghost predicate Stores(es: seq<Entry>, log: seq<LogEntry>) {
    |log| == |es| && forall i :: 0 <= i < |es| ==> log[i] == LogEntry(es[i].change.seqNo, es[i].change, es[i].visible)
  }

  /** The positions of writes held open, and of those due to commit. */
  function HeldOpen(inFlight: seq<(nat, nat)>): set<nat> {
    set p | p in inFlight :: p.0
  }

  function Due(inFlight: seq<(nat, nat)>): set<nat> {
    set p | p in inFlight && p.1 <= 1 :: p.0
  }

  predicate OncePerWrite(inFlight: seq<(nat, nat)>) {
    forall i, j :: 0 <= i < j < |inFlight| ==> inFlight[i].0 != inFlight[j].0
  }

  /** Exactly the uncommitted entries are waiting to commit. */
  ghost predicate FlightAgrees(es: seq<Entry>, inFlight: seq<(nat, nat)>) {
    && OncePerWrite(inFlight)
    && (forall i :: i in HeldOpen(inFlight) ==> i < |es|)
    && (forall i :: 0 <= i < |es| ==> (i in HeldOpen(inFlight) <==> !es[i].visible))
  }

  lemma PushHeld(inFlight: seq<(nat, nat)>, p: (nat, nat))
    ensures HeldOpen(inFlight + [p]) == HeldOpen(inFlight) + {p.0}
    ensures Due(inFlight + [p]) == Due(inFlight) + (if p.1 <= 1 then {p.0} else {})
  {
    var more := inFlight + [p];
    assert p in more;
    assert forall q :: q in inFlight ==> q in more;
  }

  lemma PushOnce(inFlight: seq<(nat, nat)>, p: (nat, nat))
    ensures OncePerWrite(inFlight) && p.0 !in HeldOpen(inFlight) <==> OncePerWrite(inFlight + [p])
  {
    var more := inFlight + [p];
    if OncePerWrite(more) {
      assert forall i, j :: 0 <= i < j < |inFlight| ==> inFlight[i] == more[i] && inFlight[j] == more[j];
      forall q | q in inFlight ensures q.0 != p.0 {
        var i :| 0 <= i < |inFlight| && inFlight[i] == q;
        assert more[i].0 != more[|inFlight|].0;
      }
    } else if OncePerWrite(inFlight) {
      var i, j :| 0 <= i < j < |more| && more[i].0 == more[j].0;
      assert more[i] in inFlight;
    }
  }

  lemma FlightPush(es: seq<Entry>, inFlight: seq<(nat, nat)>, e: Entry, held: nat)
    requires FlightAgrees(es, inFlight) && (e.visible <==> held == 0)
    ensures FlightAgrees(es + [e], if held > 0 then inFlight + [(|es|, held)] else inFlight)
  {
    PushHeld(inFlight, (|es|, held));
    PushOnce(inFlight, (|es|, held));
  }

  /** One step of commits: entries whose delay has run out become visible. */
  ghost predicate CommitsDue(es: seq<Entry>, es': seq<Entry>, inFlight: seq<(nat, nat)>) {
    && SameEntries(es, es')
    && forall i :: 0 <= i < |es| ==> (es'[i].visible <==> es[i].visible || i in Due(inFlight))
  }

  function MadeVisible(es: seq<Entry>, i: nat): seq<Entry>
    requires i < |es|
  {
    es[i := es[i].(visible := true)]
  }

  /** One more write looked at: its entry becomes visible if its delay has run out. */
  lemma CommitsOneMore(es: seq<Entry>, es': seq<Entry>, inFlight: seq<(nat, nat)>, k: nat)
    requires k < |inFlight| && FlightAgrees(es, inFlight) && CommitsDue(es, es', inFlight[..k])
    ensures var (index, remaining) := inFlight[k];
      && index < |es'|
      && (remaining <= 1 ==>
           CommitsDue(es, MadeVisible(es', index), inFlight[..k + 1])
           && Waiting(inFlight[..k + 1]) == Waiting(inFlight[..k]))
      && (remaining > 1 ==>
           CommitsDue(es, es', inFlight[..k + 1])
           && Waiting(inFlight[..k + 1]) == Waiting(inFlight[..k]) + [(index, remaining - 1)])
  {
    assert inFlight[k] in inFlight && inFlight[k].0 in HeldOpen(inFlight);
    assert inFlight[..k + 1] == inFlight[..k] + [inFlight[k]] && inFlight[..k + 1][..k] == inFlight[..k];
    PushHeld(inFlight[..k], inFlight[k]);
  }

  lemma {:induction false} WaitingHeld(inFlight: seq<(nat, nat)>)
    requires OncePerWrite(inFlight)
    ensures HeldOpen(Waiting(inFlight)) == HeldOpen(inFlight) - Due(inFlight)
    ensures OncePerWrite(Waiting(inFlight)) && Due(inFlight) <= HeldOpen(inFlight)
  {
    if inFlight != [] {
      var init, last := inFlight[..|inFlight| - 1], inFlight[|inFlight| - 1];
      assert inFlight == init + [last];
      var later := (last.0, if last.1 > 0 then last.1 - 1 else 0);
      PushHeld(init, last);
      PushOnce(init, last);
      WaitingHeld(init);
      PushHeld(Waiting(init), later);
      PushOnce(Waiting(init), later);
    }
  }

  lemma FlightCommits(es: seq<Entry>, es': seq<Entry>, inFlight: seq<(nat, nat)>)
    requires FlightAgrees(es, inFlight) && CommitsDue(es, es', inFlight)
    ensures FlightAgrees(es', Waiting(inFlight))
  {
    WaitingHeld(inFlight);
  }

  /** An index into the log that picks out one scope's entries. */
  ghost predicate Picks(log: seq<LogEntry>, indices: seq<nat>, es: seq<Entry>) {
    |indices| == |es| && forall j :: 0 <= j < |es| ==>
      indices[j] < |log| && log[indices[j]] == LogEntry(es[j].change.seqNo, es[j].change, es[j].visible)
  }

  lemma IndexPicks(entries: seq<Entry>, log: seq<LogEntry>, byScope: ByScope, scope: ScopeId)
    requires Stores(entries, log) && IndexAgrees(entries, byScope)
    ensures Picks(log, Get(byScope, scope, []), ScopeLog(entries, scope))
  {
    IndicesPickScopeLog(entries, scope);
    assert Get(byScope, scope, []) == Indices(entries, scope);
  }

  /** What has been taken and what is still to come, one entry further on. */
  lemma WalkNext(es: seq<Entry>, k: nat, guarded: bool, limit: nat, cs: seq<Change>)
    requires k < |es| && |cs| < limit
    ensures cs + Candidates(es, k, guarded, limit - |cs|) ==
      if es[k].visible then (cs + [es[k].change]) + Candidates(es, k + 1, guarded, limit - |cs + [es[k].change]|)
      else if guarded then cs
      else cs + Candidates(es, k + 1, guarded, limit - |cs|)
  {
    if es[k].visible {
      assert Candidates(es, k, guarded, limit - |cs|)
        == [es[k].change] + Candidates(es, k + 1, guarded, limit - |cs + [es[k].change]|);
    }
  }

  /** Walks an index from a position, stopping or skipping at uncommitted entries. */
  method WalkIndex(log: seq<LogEntry>, indices: seq<nat>, start: nat, limit: nat, guarded: bool, ghost es: seq<Entry>)
    returns (cs: seq<Change>)
    requires Picks(log, indices, es) && start <= |es|
    ensures cs == Candidates(es, start, guarded, limit)
  {
    cs := [];
    var k := start;
    while k < |indices| && |cs| < limit
      invariant start <= k <= |indices| && |cs| <= limit
      invariant Candidates(es, start, guarded, limit) == cs + Candidates(es, k, guarded, limit - |cs|)
      decreases |indices| - k
    {
      var entry := log[indices[k]];
      WalkNext(es, k, guarded, limit, cs);
      if entry.visible {
        cs := cs + [entry.change];
      } else if guarded {
        break;
      }
      k := k + 1;
    }
  }

  /** The live versions listed so far. */
  ghost predicate ListsSoFar(held: seq<(RowKey, nat)>, done: set<RowKey>, spec: map<RowKey, nat>) {
    && (forall k :: k in Digest.RowsOf(held) <==> k in done && k in spec)
    && (forall k :: k in Digest.RowsOf(held) ==> Digest.RowsOf(held)[k] == spec[k])
    && (forall i, j :: 0 <= i < j < |held| ==> held[i].0 != held[j].0)
  }

  lemma ListsNext(held: seq<(RowKey, nat)>, done: set<RowKey>, spec: map<RowKey, nat>, key: RowKey)
    requires ListsSoFar(held, done, spec) && key !in done
    ensures ListsSoFar(if key in spec then held + [(key, spec[key])] else held, done + {key}, spec)
  {
    if key in spec {
      ListGrows(held, key, spec[key]);
    }
  }

  lemma AllListed(held: seq<(RowKey, nat)>, done: set<RowKey>, spec: map<RowKey, nat>)
    requires ListsSoFar(held, done, spec) && spec.Keys <= done
    ensures Digest.RowsOf(held) == spec
  {
  }

  /** Every row the scope's log has touched up to a cursor has a history. */
  lemma HistoryCovers(entries: seq<Entry>, rowHistory: RowHistory, scope: ScopeId, cursor: nat)
    requires HistoryAgrees(entries, rowHistory) && Ascending(entries)
    ensures ServerSpec.RowsAt(ScopeLog(entries, scope), cursor).Keys <= Get(rowHistory, scope, map[]).Keys
  {
    var es := ScopeLog(entries, scope);
    forall k | k in ServerSpec.RowsAt(es, cursor) ensures k in Get(rowHistory, scope, map[]) {
      HeldIsLast(Changes(es)[..UpTo(es, cursor)], k);
      HistoryIsScan(entries, scope, k, cursor);
      assert HistoryOf(rowHistory, scope, k) == History(entries, scope, k);
    }
  }

  /** Pushing one entry keeps the log, its numbering and every index but the live rows in step. */
  lemma PushKeeps(entries: seq<Entry>, log: seq<LogEntry>, byScope: ByScope, rowHistory: RowHistory,
                  inFlight: seq<(nat, nat)>, e: Entry, held: nat)
    requires Stores(entries, log) && IndexAgrees(entries, byScope) && HistoryAgrees(entries, rowHistory)
      && FlightAgrees(entries, inFlight)
    requires e.visible <==> held == 0
    ensures Stores(entries + [e], log + [LogEntry(e.change.seqNo, e.change, e.visible)])
    ensures IndexAgrees(entries + [e], byScope[e.scope := Get(byScope, e.scope, []) + [|log|]])
    ensures HistoryAgrees(entries + [e], Noted(rowHistory, e.scope, e.change))
    ensures FlightAgrees(entries + [e], if held > 0 then inFlight + [(|log|, held)] else inFlight)
  {
    IndexPush(entries, byScope, e);
    HistoryPush(entries, rowHistory, e);
    FlightPush(entries, inFlight, e, held);
  }

  class Server {
    const encode: Change -> string
    const compressedLen: string -> nat
    var log: seq<LogEntry>
    var byScope: ByScope
    var rows: LiveRows
    var rowHistory: RowHistory
    var dedupe: Dedupe.Table
    var nextSeq: nat
    var targets: map<string, (EntityName, ScopeId)>
    var warm: bool
    var inFlight: seq<(nat, nat)>
    var holdNext: nat
    var commitOrderGuard: bool
    ghost var entries: seq<Entry>

    ghost function View(): ServerState reads this {
      ServerState(entries, nextSeq, dedupe, targets)
    }

    ghost predicate Indexed() reads this {
      IndexAgrees(entries, byScope) && HistoryAgrees(entries, rowHistory) && RowsAgree(entries, rows)
    }

    ghost predicate Valid() reads this {
      Numbered(View()) && Stores(entries, log) && Indexed() && FlightAgrees(entries, inFlight)
    }

    constructor (encode: Change -> string, compressedLen: string -> nat)
      ensures Valid() && View() == ServerState([], 1, map[], map[]) && inFlight == [] && holdNext == 0
        && commitOrderGuard
    {
      this.encode, this.compressedLen := encode, compressedLen;
      log, byScope, rows, rowHistory, dedupe, nextSeq, targets := [], map[], map[], map[], map[], 1, map[];
      warm, inFlight, holdNext, commitOrderGuard, entries := true, [], 0, true, [];
      new;
      assert Replayed(Changes([])) == map[];
    }

    method RegisterCommand(name: string, entity: EntityName, scope: ScopeId)
      requires Valid()
      modifies this`targets
      ensures Valid() && View() == old(View()).(targets := old(targets)[name := (entity, scope)])
    {
      targets := targets[name := (entity, scope)];
    }

    /** The next write takes its number now and commits some steps later. */
    method HoldNextWrite(delay: nat)
      requires Valid()
      modifies this`holdNext
      ensures Valid() && View() == old(View()) && holdNext == if delay == 0 then 1 else delay
    {
      holdNext := if delay == 0 then 1 else delay;
    }

    /** Commits every held write whose delay has run out, in delay order rather than number order. */
    method AdvanceCommits()
      requires Valid()
      modifies this`log, this`inFlight, this`entries
      ensures Valid() && CommitsDue(old(entries), entries, old(inFlight)) && inFlight == Waiting(old(inFlight))
    {
      ghost var before := entries;
      var waiting := CommitDue();
      FlightCommits(before, entries, inFlight);
      CommitKeepsAgreement(before, entries, byScope, rowHistory, rows);
      NumberedCommits(before, entries, nextSeq);
      inFlight := waiting;
    }

    method CommitDue() returns (waiting: seq<(nat, nat)>)
      requires Stores(entries, log) && FlightAgrees(entries, inFlight)
      modifies this`log, this`entries
      ensures Stores(entries, log) && CommitsDue(old(entries), entries, inFlight) && waiting == Waiting(inFlight)
    {
      waiting := [];
      ghost var before := entries;
      for k := 0 to |inFlight|
        invariant waiting == Waiting(inFlight[..k])
        invariant Stores(entries, log) && CommitsDue(before, entries, inFlight[..k])
      {
        var (index, remaining) := inFlight[k];
        CommitsOneMore(before, entries, inFlight, k);
        if remaining <= 1 {
          log := log[index := log[index].(visible := true)];
          entries := MadeVisible(entries, index);
        } else {
          waiting := waiting + [(index, remaining - 1)];
        }
      }
      assert inFlight[..|inFlight|] == inFlight;
    }

    /** The number of the last entry before the first uncommitted one. */
    method VisibleHead(scope: ScopeId) returns (head: nat)
      requires Valid()
      ensures head == Replay.VisibleHead(ScopeLog(entries, scope))
    {
      var indices := Get(byScope, scope, []);
      ghost var es := ScopeLog(entries, scope);
      IndexPicks(entries, log, byScope, scope);
      head := 0;
      var k := 0;
      while k < |indices|
        invariant k <= |indices|
        invariant k <= Committed(es)
        invariant head == if k == 0 then 0 else es[k - 1].change.seqNo
        decreases |indices| - k
      {
        var entry := log[indices[k]];
        if !entry.visible {
          break;
        }
        head := entry.seqNo;
        k := k + 1;
      }
      assert k == Committed(es);
    }

    /** A row's version at a cursor, found by searching its own history. */
    method RowVersionAt(scope: ScopeId, key: RowKey, cursor: nat) returns (version: Option<nat>)
      requires Valid()
      ensures var es := ScopeLog(entries, scope);
        version == VersionOf(LastTo(Changes(es)[..UpTo(es, cursor)], key))
    {
      var versions := HistoryOf(rowHistory, scope, key);
      assert versions == History(entries, scope, key);
      HistoryAscends(entries, scope, key);
      HistoryIsScan(entries, scope, key, cursor);
      var n := PartitionPoint(versions, (p: (nat, nat)) => p.0 <= cursor);
      SearchIsScan(versions, cursor, n);
      version := if n > 0 then Some(versions[n - 1].1) else None;
    }

    /** Every row a client at a cursor should hold, one search per row. */
    method RowsAt(scope: ScopeId, cursor: nat) returns (held: seq<(RowKey, nat)>)
      requires Valid()
      ensures forall i, j :: 0 <= i < j < |held| ==> held[i].0 != held[j].0
      ensures Digest.RowsOf(held) == ServerSpec.RowsAt(ScopeLog(entries, scope), cursor)
    {
      ghost var spec := ServerSpec.RowsAt(ScopeLog(entries, scope), cursor);
      held := [];
      var keys := Get(rowHistory, scope, map[]).Keys;
      ghost var done: set<RowKey> := {};
      while keys != {}
        invariant done !! keys && done + keys == Get(rowHistory, scope, map[]).Keys
        invariant ListsSoFar(held, done, spec)
        decreases |keys|
      {
        var key :| key in keys;
        keys := keys - {key};
        held := ListRow(scope, cursor, key, held, done, spec);
        done := done + {key};
      }
      HistoryCovers(entries, rowHistory, scope, cursor);
      AllListed(held, done, spec);
    }

    /** One row's turn in that list. */
    method ListRow(scope: ScopeId, cursor: nat, key: RowKey, held: seq<(RowKey, nat)>, ghost done: set<RowKey>,
                   ghost spec: map<RowKey, nat>)
      returns (more: seq<(RowKey, nat)>)
      requires Valid() && spec == ServerSpec.RowsAt(ScopeLog(entries, scope), cursor)
      requires ListsSoFar(held, done, spec) && key !in done
      ensures ListsSoFar(more, done + {key}, spec)
    {
      ghost var es := ScopeLog(entries, scope);
      HeldIsLast(Changes(es)[..UpTo(es, cursor)], key);
      ListsNext(held, done, spec, key);
      var version := RowVersionAt(scope, key, cursor);
      more := if version.Some? then held + [(key, version.value)] else held;
    }

    /** The digest a client that has caught up should arrive at. */
    method ScopeDigest(scope: ScopeId) returns (hex: string)
      requires Valid()
      ensures var es := ScopeLog(entries, scope); hex == Digest.ToHex(DigestAt(es, Replay.VisibleHead(es)))
    {
      var head := VisibleHead(scope);
      var held := RowsAt(scope, head);
      var digest := Digest.FromRows(held);
      hex := Digest.HexU128(digest.raw);
    }

    /** What a pull of one scope is answered with, by the plain log. */
    ghost function Answer(scope: ScopeId, cursor: nat, limit: nat, budget: nat): Batch reads this {
      PullAnswer(ScopeLog(entries, scope), scope, cursor, limit, commitOrderGuard, encode, budget, compressedLen)
    }

    /** Answers one scope of a pull. */
    method Pull(scope: ScopeId, cursor: nat, limit: nat, budget: nat) returns (batch: Batch)
      requires Valid()
      ensures batch == Answer(scope, cursor, limit, budget)
    {
      var indices := Get(byScope, scope, []);
      ghost var es := ScopeLog(entries, scope);
      IndexPicks(entries, log, byScope, scope);
      ScopeLogAscending(entries, scope);
      var now := log;
      var start := PartitionPoint(indices, (i: nat) => i < |now| && now[i].seqNo <= cursor);
      UpToIs(es, cursor, start);
      var candidates := WalkIndex(log, indices, start, limit, commitOrderGuard, es);
      var moreBeyond := |indices| - start > |candidates|;
      var digest := ScopeDigest(scope);
      batch := Splice.FillBatch(scope, cursor, candidates, moreBeyond, encode, budget, compressedLen, digest);
    }

    /** Answers one page of a bootstrap from the compacted log. */
    method Bootstrap(scope: ScopeId, after: nat, budget: nat) returns (page: Batch)
      requires Valid()
      ensures page
        == PageAnswer(ScopeLog(entries, scope), scope, after, commitOrderGuard, encode, budget, compressedLen)
    {
      ghost var es := ScopeLog(entries, scope);
      var indices := Get(byScope, scope, []);
      IndexPicks(entries, log, byScope, scope);
      var seen := WalkIndex(log, indices, 0, |indices|, commitOrderGuard, es);
      ScopeLogAscending(entries, scope);
      CandidatesInOrder(es, 0, commitOrderGuard, |es|);
      var candidates := Compaction.Compact(seen, after);
      var digest := ScopeDigest(scope);
      page := Splice.FillBatch(scope, after, candidates, false, encode, budget, compressedLen, digest);
    }

    // ----- writes -----

    /** Appends one entry to the log, its scope's index and its row's history. */
    method PushRaw(scope: ScopeId, change: Change, held: nat, ghost origin: Option<CommandId>)
      requires Stores(entries, log) && IndexAgrees(entries, byScope) && HistoryAgrees(entries, rowHistory)
        && FlightAgrees(entries, inFlight)
      modifies this`log, this`byScope, this`rowHistory, this`inFlight, this`entries
      ensures Stores(entries, log) && IndexAgrees(entries, byScope) && HistoryAgrees(entries, rowHistory)
        && FlightAgrees(entries, inFlight)
      ensures entries == old(entries) + [Entry(scope, change, held == 0, origin)]
    {
      ghost var e := Entry(scope, change, held == 0, origin);
      PushKeeps(entries, log, byScope, rowHistory, inFlight, e, held);
      byScope := byScope[scope := Get(byScope, scope, []) + [|log|]];
      rowHistory := Noted(rowHistory, scope, change);
      if held > 0 {
        inFlight := inFlight + [(|log|, held)];
      }
      log := log + [LogEntry(change.seqNo, change, held == 0)];
      entries := entries + [e];
    }

    /** Appends one upsert, held open if the next write was to be. */
    method PushEntry(seqNo: nat, scope: ScopeId, key: RowKey, ghost origin: Option<CommandId>)
      requires Stores(entries, log) && IndexAgrees(entries, byScope) && HistoryAgrees(entries, rowHistory)
        && FlightAgrees(entries, inFlight)
      requires Numbered(ServerState(entries, seqNo, dedupe, targets)) && nextSeq == seqNo + 1
      requires RowsAgree(entries + [Entry(scope, UpsertOf(seqNo, key), holdNext == 0, origin)], rows)
      modifies this`log, this`byScope, this`rowHistory, this`inFlight, this`holdNext, this`entries
      ensures Valid() && entries == old(entries) + [Entry(scope, UpsertOf(seqNo, key), old(holdNext) == 0, origin)]
      ensures holdNext == 0
    {
      var held := holdNext;
      holdNext := 0;
      NumberedPush(View().(nextSeq := seqNo), Entry(scope, UpsertOf(seqNo, key), held == 0, origin));
      PushRaw(scope, UpsertOf(seqNo, key), held, origin);
    }

    /** The write one applied command makes, on the row its id picks. */
    method Append(scope: ScopeId, entity: EntityName, id: CommandId) returns (seqNo: nat)
      requires Valid()
      modifies this`log, this`byScope, this`rows, this`rowHistory, this`inFlight, this`holdNext, this`entries,
        this`nextSeq
      ensures Valid() && seqNo == old(nextSeq) && holdNext == 0
      ensures View()
        == Appended(old(View()), scope, Digest.RowKey(entity, RowName(LastByte(id))), Some(id), old(holdNext) == 0)
    {
      seqNo := nextSeq;
      var key := Digest.RowKey(entity, RowName(LastByte(id)));
      WriteRow(scope, key, Some(id));
      PushEntry(seqNo, scope, key, Some(id));
    }

    /** Takes the next number and updates the live rows, before the entry itself is pushed. */
    method WriteRow(scope: ScopeId, key: RowKey, ghost origin: Option<CommandId>)
      requires Valid()
      modifies this`rows, this`nextSeq
      ensures nextSeq == old(nextSeq) + 1
      ensures RowsAgree(entries + [Entry(scope, UpsertOf(old(nextSeq), key), holdNext == 0, origin)], rows)
    {
      ghost var e := Entry(scope, UpsertOf(nextSeq, key), holdNext == 0, origin);
      RowsPush(entries, rows, e);
      var held := Get(rows, scope, map[]);
      rows := rows[scope := held[key := nextSeq]];
      nextSeq := nextSeq + 1;
    }

    /** A write nobody here asked for. */
    method ExternalChange(scope: ScopeId, entity: EntityName, rng: Rng.Rng) returns (ghost row: nat)
      requires Valid() && rng.Valid()
      modifies rng, this`log, this`byScope, this`rows, this`rowHistory, this`inFlight, this`holdNext, this`entries,
        this`nextSeq
      ensures Valid() && rng.Valid() && row < 8
      ensures View() == Appended(old(View()), scope, Digest.RowKey(entity, RowName(row)), None, old(holdNext) == 0)
    {
      ghost var draws;
      var n;
      n, draws := rng.Below(8);
      row := n;
      var seqNo := nextSeq;
      var key := Digest.RowKey(entity, RowName(n));
      WriteRow(scope, key, None);
      PushEntry(seqNo, scope, key, None);
    }

    /** Deletes a row: its tombstone joins the log, visible at once, and its history. */
    method ExternalDelete(scope: ScopeId, key: RowKey)
      requires Valid()
      modifies this`log, this`byScope, this`rows, this`rowHistory, this`inFlight, this`entries, this`nextSeq
      ensures Valid() && View() == Deleted(old(View()), scope, key)
    {
      var change := DeleteOf(nextSeq, key);
      RowsPush(entries, rows, Entry(scope, change, true, None));
      NumberedPush(View(), Entry(scope, change, true, None));
      rows := rows[scope := Get(rows, scope, map[]) - {key}];
      nextSeq := nextSeq + 1;
      PushRaw(scope, change, 0, None);
    }

    /**
     The host's side of a fresh command: applied, superseded or rejected as the draw falls. Nothing is recorded
     yet.
     */
    method HostDecides(command: Command, target: (EntityName, ScopeId), rng: Rng.Rng)
      returns (result: CommandResult, ghost roll: nat)
      requires Valid() && rng.Valid()
      modifies rng, this`log, this`byScope, this`rows, this`rowHistory, this`inFlight, this`holdNext, this`entries,
        this`nextSeq
      ensures Valid() && rng.Valid() && roll < 100
      ensures View() == if roll < 80 then AppliedTo(old(View()), command, target, old(holdNext) == 0) else old(View())
      ensures result ==
        if roll < 80 then Dedupe.AppliedResult(command.id, old(nextSeq))
        else if roll < 90 then Dedupe.SupersededResult(command.id)
        else Dedupe.RejectedResult(command.id, DEADLINE_PASSED)
    {
      ghost var draws;
      var drawn;
      drawn, draws := rng.Below(100);
      roll := drawn;
      if drawn < 80 {
        var seqNo := Append(target.1, target.0, command.id);
        result := Dedupe.AppliedResult(command.id, seqNo);
      } else if drawn < 90 {
        result := Dedupe.SupersededResult(command.id);
      } else {
        result := Dedupe.RejectedResult(command.id, DEADLINE_PASSED);
      }
    }

    /** Decides one command, recording the outcome; a replay changes nothing. */
    method ApplyCommand(command: Command, rng: Rng.Rng) returns (result: CommandResult, ghost roll: nat)
      requires Valid() && rng.Valid()
      modifies rng, this`log, this`byScope, this`rows, this`rowHistory, this`inFlight, this`holdNext, this`entries,
        this`nextSeq, this`dedupe
      ensures Valid() && rng.Valid() && roll < 100
      ensures (View(), result) == Decided(old(View()), command, roll, old(holdNext) == 0)
    {
      roll := 0;
      var checksum := Dedupe.PayloadChecksum(command.payload);
      match Dedupe.Decide(command, Dedupe.Lookup(dedupe, command.id)) {
        case Replay(existing) =>
          return existing, 0;
        case Mutated(_, _) =>
          result := Dedupe.RejectedResult(command.id, Dedupe.MUTATED_REASON);
        case Fresh =>
          if command.name !in targets {
            result := Dedupe.RejectedResult(command.id, UNKNOWN_COMMAND);
          } else {
            result, roll := HostDecides(command, targets[command.name], rng);
          }
      }
      dedupe := dedupe[command.id := Dedupe.Recorded(checksum, result)];
    }

    /** Answers a push's first commands only; what lies beyond is not answered at all. */
    method PushPrefix(commands: seq<Command>, accepted: nat, rng: Rng.Rng)
      returns (results: seq<CommandResult>, ghost draws: seq<(nat, bool)>)
      requires Valid() && rng.Valid()
      modifies rng, this`log, this`byScope, this`rows, this`rowHistory, this`inFlight, this`holdNext, this`entries,
        this`nextSeq, this`dedupe
      ensures Valid() && rng.Valid()
      ensures |draws| == Min(accepted, |commands|)
      ensures (View(), results) == Pushed(old(View()), commands[..|draws|], draws)
    {
      results, draws := [], [];
      var n := Min(accepted, |commands|);
      for i := 0 to n
        invariant Valid() && rng.Valid() && |draws| == i
        invariant (View(), results) == Pushed(old(View()), commands[..i], draws)
      {
        ghost var held := holdNext == 0;
        ghost var roll;
        var result;
        result, roll := ApplyCommand(commands[i], rng);
        assert commands[..i + 1][..i] == commands[..i] && (draws + [(roll, held)])[..i] == draws;
        results := results + [result];
        draws := draws + [(roll, held)];
      }
    }
  }

  lemma NumberedPush(s: ServerState, e: Entry)
    requires Numbered(s) && e.change.seqNo == e.change.version == s.nextSeq && e.change.Consistent()
    ensures Numbered(s.(log := s.log + [e], nextSeq := s.nextSeq + 1))
  {
    assert forall i :: 0 <= i < |s.log| ==> s.log[i] in s.log;
  }

  lemma NumberedCommits(es: seq<Entry>, es': seq<Entry>, nextSeq: nat)
    requires SameEntries(es, es') && Ascending(es)
    requires forall e :: e in es ==>
      1 <= e.change.seqNo < nextSeq && e.change.version == e.change.seqNo && e.change.Consistent()
    ensures Ascending(es')
    ensures forall e :: e in es' ==>
      1 <= e.change.seqNo < nextSeq && e.change.version == e.change.seqNo && e.change.Consistent()
  {
    forall e | e in es'
      ensures 1 <= e.change.seqNo < nextSeq && e.change.version == e.change.seqNo && e.change.Consistent() {
      var i :| 0 <= i < |es'| && es'[i] == e;
      assert es[i] in es;
    }
  }

  /** A longer list of rows holds one more. */
  lemma ListGrows(held: seq<(RowKey, nat)>, key: RowKey, version: nat)
    ensures Digest.RowsOf(held + [(key, version)]) == Digest.RowsOf(held)[key := version]
    ensures key !in Digest.RowsOf(held) ==> forall i :: 0 <= i < |held| ==> held[i].0 != key
  {
    assert (held + [(key, version)])[..|held|] == held;
    Digest.RowsOfKeys(held, key);
  }

  lemma {:induction false} CandidatesAreEntries(es: seq<Entry>, start: nat, guarded: bool, limit: nat, c: Change)
    requires c in Candidates(es, start, guarded, limit)
    ensures exists i :: start <= i < |es| && es[i].change == c
    decreases |es| - start
  {
    if es[start].visible {
      if c != es[start].change {
        CandidatesAreEntries(es, start + 1, guarded, limit - 1, c);
      }
    } else {
      CandidatesAreEntries(es, start + 1, guarded, limit, c);
    }
  }

  lemma {:induction false} CandidatesInOrder(es: seq<Entry>, start: nat, guarded: bool, limit: nat)
    requires Ascending(es)
    ensures Compaction.InSeqOrder(Candidates(es, start, guarded, limit))
    decreases |es| - start
  {
    if start < |es| && limit > 0 {
      if es[start].visible {
        var rest := Candidates(es, start + 1, guarded, limit - 1);
        CandidatesInOrder(es, start + 1, guarded, limit - 1);
        forall c | c in rest ensures es[start].change.seqNo < c.seqNo {
          CandidatesAreEntries(es, start + 1, guarded, limit - 1, c);
        }
        FirstInOrder(es[start].change, rest);
      } else if !guarded {
        CandidatesInOrder(es, start + 1, guarded, limit);
      }
    }
  }

  lemma FirstInOrder(c: Change, rest: seq<Change>)
    requires Compaction.InSeqOrder(rest) && forall d :: d in rest ==> c.seqNo < d.seqNo
    ensures Compaction.InSeqOrder([c] + rest)
  {
  }
}
