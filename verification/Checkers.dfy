/**
 The simulator's invariant checkers, which look at one world after another and remember just
 enough to notice a change, and what must hold of the worlds for them to stay silent.
 */
module Checkers {
  import opened Prelude
  import opened Wire
  import opened Ids
  import opened Replay
  import opened Storage
  import opened EngineSpec
  import opened EngineOutbox
  import Bootstrap
  import Digest
  import EngineDigest
  import PullChannel
  import ServerSpec
  import World

  datatype Claim =
    CursorMonotonicity | Idempotency | Durability | NoLoss | AppliedState | DurableEffects | CursorBounds | Convergence

  datatype Violation = Violation(claim: Claim, device: nat)

  /** A resolution without its reason or number. */
  datatype Seen = SeenApplied | SeenSuperseded | SeenDeadLettered

  function SeenAs(r: Resolution): Seen {
    match r
    case ResApplied(_) => SeenApplied
    case ResSuperseded => SeenSuperseded
    case DeadLettered(_) => SeenDeadLettered
  }

  function Outcomes(records: seq<(CommandId, Resolution)>): map<CommandId, Seen> {
    if records == [] then map[]
    else Outcomes(records[..|records| - 1])[records[|records| - 1].0 := SeenAs(records[|records| - 1].1)]
  }

  lemma {:induction false} OutcomesKeys(records: seq<(CommandId, Resolution)>)
    ensures Outcomes(records).Keys == RecordedIds(records)
  {
    if records != [] {
      var init, last := records[..|records| - 1], records[|records| - 1];
      OutcomesKeys(init);
      assert records == init + [last];
    }
  }

  /** Each record's outcome stands when no id is recorded twice, and is the same however many records follow. */
  lemma {:induction false} OutcomesGrow(a: seq<(CommandId, Resolution)>, b: seq<(CommandId, Resolution)>)
    requires a <= b && DistinctRecords(b)
    ensures forall id :: id in Outcomes(a) ==> id in Outcomes(b) && Outcomes(b)[id] == Outcomes(a)[id]
    decreases |b|
  {
    if |a| < |b| {
      var n := |b| - 1;
      OutcomesGrow(a, b[..n]);
      OutcomesKeys(b[..n]);
      forall id | id in Outcomes(a) ensures id != b[n].0 {
        assert id in RecordedIds(b[..n]);
        var i :| 0 <= i < n && b[..n][i].0 == id;
        assert b[i].0 != b[n].0;
      }
    } else {
      assert a == b;
    }
  }

  /** Nothing seen resolved has changed or gone. */
  predicate StillSeen(seen: map<CommandId, Seen>, now: map<CommandId, Seen>) {
    forall id :: id in seen ==> id in now && now[id] == seen[id]
  }

  predicate SameKind(a: Resolution, b: Resolution) {
    (a.ResApplied? <==> b.ResApplied?) && (a.ResSuperseded? <==> b.ResSuperseded?)
  }

  lemma {:induction false} OutcomeOf(records: seq<(CommandId, Resolution)>, r: (CommandId, Resolution))
    requires DistinctRecords(records) && r in records
    ensures r.0 in Outcomes(records) && Outcomes(records)[r.0] == SeenAs(r.1)
  {
    var n := |records| - 1;
    if r != records[n] {
      assert records == records[..n] + [records[n]];
      OutcomeOf(records[..n], r);
      var i :| 0 <= i < n && records[i] == r;
      assert records[i].0 != records[n].0;
    }
  }

  /** A record of the same command and of the same kind is among these. */
  predicate Stands(now: seq<(CommandId, Resolution)>, r: (CommandId, Resolution)) {
    exists q :: q in now && q.0 == r.0 && SameKind(q.1, r.1)
  }

  lemma RecordStands(before: seq<(CommandId, Resolution)>, now: seq<(CommandId, Resolution)>,
                     r: (CommandId, Resolution))
    requires DistinctRecords(before) && DistinctRecords(now) && r in before
    ensures r.0 in Outcomes(before)
    ensures r.0 in Outcomes(now) && Outcomes(now)[r.0] == Outcomes(before)[r.0] <==> Stands(now, r)
  {
    OutcomesKeys(now);
    OutcomeOf(before, r);
    if r.0 in Outcomes(now) {
      var q :| q in now && q.0 == r.0;
      OutcomeOf(now, q);
      if p :| p in now && p.0 == r.0 && SameKind(p.1, r.1) {
        OutcomeOf(now, p);
      }
    }
  }

  /** What the checker remembers stands if and only if every record still has one of its kind. */
  lemma OutcomesStand(before: seq<(CommandId, Resolution)>, now: seq<(CommandId, Resolution)>)
    requires DistinctRecords(before) && DistinctRecords(now)
    ensures StillSeen(Outcomes(before), Outcomes(now)) <==> forall r :: r in before ==> Stands(now, r)
  {
    OutcomesKeys(before);
    forall r | r in before
      ensures r.0 in Outcomes(before)
      ensures r.0 in Outcomes(now) && Outcomes(now)[r.0] == Outcomes(before)[r.0] <==> Stands(now, r)
    {
      RecordStands(before, now, r);
    }
    if !StillSeen(Outcomes(before), Outcomes(now)) {
      var id :| id in Outcomes(before) && !(id in Outcomes(now) && Outcomes(now)[id] == Outcomes(before)[id]);
      var r :| r in before && r.0 == id;
      assert !Stands(now, r);
    }
  }

  /** One violation for each id. */
  method Report(claim: Claim, device: nat, ids: set<CommandId>) returns (found: seq<Violation>)
    ensures |found| == |ids| && (found == [] <==> ids == {})
    ensures forall v :: v in found ==> v == Violation(claim, device)
  {
    found := [];
    var rest := ids;
    while rest != {}
      invariant |found| + |rest| == |ids|
      invariant forall v :: v in found ==> v == Violation(claim, device)
      decreases |rest|
    {
      var id :| id in rest;
      rest := rest - {id};
      found := found + [Violation(claim, device)];
    }
  }

  /** The outcome each record gives, noting every command recorded twice. */
  method Collapse(device: nat, records: seq<(CommandId, Resolution)>)
    returns (now: map<CommandId, Seen>, found: seq<Violation>)
    ensures now == Outcomes(records) && (found == [] <==> DistinctRecords(records))
  {
    now, found := map[], [];
    for i := 0 to |records|
      invariant now == Outcomes(records[..i]) && (found == [] <==> DistinctRecords(records[..i]))
    {
      CollapseStep(records, i);
      if records[i].0 in now {
        found := found + [Violation(Idempotency, device)];
      }
      now := now[records[i].0 := SeenAs(records[i].1)];
    }
    assert records[..|records|] == records;
  }

  lemma CollapseStep(records: seq<(CommandId, Resolution)>, i: nat)
    requires i < |records|
    ensures Outcomes(records[..i + 1]) == Outcomes(records[..i])[records[i].0 := SeenAs(records[i].1)]
    ensures DistinctRecords(records[..i + 1]) <==>
      DistinctRecords(records[..i]) && records[i].0 !in Outcomes(records[..i])
  {
    var before := records[..i];
    assert records[..i + 1] == before + [records[i]] && (before + [records[i]])[..i] == before;
    OutcomesKeys(before);
    OneMore(before, records[i]);
  }

  /** What has been seen so far, with what is new added and every change noted. */
  method Compare(device: nat, seen: map<CommandId, Seen>, now: map<CommandId, Seen>)
    returns (known: map<CommandId, Seen>, found: seq<Violation>)
    ensures known == now + seen
    ensures found == [] <==> forall id :: id in now && id in seen ==> now[id] == seen[id]
  {
    known, found := seen, [];
    var ids := now.Keys;
    while ids != {}
      invariant ids <= now.Keys && known.Keys == seen.Keys + (now.Keys - ids)
      invariant forall id :: id in known ==> known[id] == if id in seen then seen[id] else now[id]
      invariant found == [] <==> forall id :: id in now && id !in ids && id in seen ==> now[id] == seen[id]
      decreases |ids|
    {
      var id :| id in ids;
      ids := ids - {id};
      if id !in known {
        known := known[id := now[id]];
      } else if known[id] != now[id] {
        found := found + [Violation(Idempotency, device)];
      }
    }
  }

  /** Both readings of the rule: outcomes never repeat or change, and never disappear. */
  method Durable(device: nat, seen: map<CommandId, Seen>, records: seq<(CommandId, Resolution)>)
    returns (kept: map<CommandId, Seen>, found: seq<Violation>)
    ensures found == [] <==> DistinctRecords(records) && StillSeen(seen, Outcomes(records))
    ensures found == [] ==> kept == Outcomes(records)
  {
    var now, repeats := Collapse(device, records);
    var known, changes := Compare(device, seen, now);
    var losses := Report(Durability, device, known.Keys - now.Keys);
    found := repeats + changes + losses;
    kept := map id | id in known && id in now :: known[id];
    SeenMeans(seen, now);
    if StillSeen(seen, now) {
      assert kept == now;
    }
  }

  /** What is both queued and resolved, and what is neither. */
  method Accountable(device: nat, ever: set<CommandId>, queued: set<CommandId>, done: set<CommandId>)
    returns (kept: set<CommandId>, found: seq<Violation>)
    ensures kept == ever * (queued + done)
    ensures found == [] <==> queued !! done && ever <= queued + done
  {
    var vanished := ever - queued - done;
    var twice := Report(NoLoss, device, queued * done);
    var gone := Report(NoLoss, device, vanished);
    found := twice + gone;
    kept := ever - vanished;
    NoneVanished(ever, queued, done);
  }

  lemma NoneVanished(ever: set<CommandId>, queued: set<CommandId>, done: set<CommandId>)
    ensures ever - queued - done == {} <==> ever <= queued + done
    ensures ever - (ever - queued - done) == ever * (queued + done)
  {
    if id :| id in ever && id !in queued + done {
      assert id in ever - queued - done;
    }
  }

  lemma SeenMeans(seen: map<CommandId, Seen>, now: map<CommandId, Seen>)
    ensures StillSeen(seen, now) <==>
      (now + seen).Keys - now.Keys == {} && forall id :: id in now && id in seen ==> now[id] == seen[id]
  {
    if StillSeen(seen, now) {
      assert (now + seen).Keys - now.Keys == {};
    } else {
      var id :| id in seen && (id !in now || now[id] != seen[id]);
      if id !in now {
        assert id in (now + seen).Keys - now.Keys;
      }
    }
  }

  /** The checker's memory between worlds. */
  class Invariants {
    var highWater: map<nat, nat>
    var resolved: map<nat, map<CommandId, Seen>>
    var everQueued: map<nat, set<CommandId>>
    var violations: seq<Violation>

    constructor ()
      ensures highWater == map[] && resolved == map[] && everQueued == map[] && violations == []
    {
      highWater, resolved, everQueued, violations := map[], map[], map[], [];
    }

    predicate Holds() reads this { violations == [] }

    /** A cursor never moves back, and never vanishes. */
    method CheckCursorMonotonic(device: nat, cursor: Option<nat>)
      modifies this`highWater, this`violations
      ensures var high := if device in old(highWater) then old(highWater)[device] else 0;
        && (violations == old(violations) <==>
             match cursor case None => device !in old(highWater) case Some(now) => high <= now)
        && old(violations) <= violations
        && (forall k :: k != device ==>
             (k in highWater <==> k in old(highWater)) && (k in highWater ==> highWater[k] == old(highWater)[k]))
        && (cursor.Some? ==>
             device in highWater && highWater[device] == if high < cursor.value then cursor.value else high)
        && (cursor.None? ==> device !in highWater)
    {
      match cursor
      case None =>
        if device in highWater {
          violations := violations + [Violation(CursorMonotonicity, device)];
          highWater := highWater - {device};
        }
      case Some(now) =>
        var high := if device in highWater then highWater[device] else 0;
        if now < high {
          violations := violations + [Violation(CursorMonotonicity, device)];
        }
        highWater := highWater[device := if high < now then now else high];
    }

    /** One record a command; a recorded outcome never changes and never goes. */
    method CheckDurabilityAndIdempotency(device: nat, records: seq<(CommandId, Resolution)>)
      modifies this`resolved, this`violations
      ensures var seen := if device in old(resolved) then old(resolved)[device] else map[];
        && (violations == old(violations) <==> DistinctRecords(records) && StillSeen(seen, Outcomes(records)))
        && (violations == old(violations) ==> resolved == old(resolved)[device := Outcomes(records)])
      ensures old(violations) <= violations
    {
      var seen := if device in resolved then resolved[device] else map[];
      var kept, found := Durable(device, seen, records);
      violations := violations + found;
      resolved := resolved[device := kept];
    }

    /** Every command ever seen queued is queued or resolved, and none is both. */
    method CheckNoLoss(device: nat, db: DbState)
      modifies this`everQueued, this`violations
      ensures var ever := (if device in old(everQueued) then old(everQueued)[device] else {}) + IdsOf(db.outbox);
        && (violations == old(violations) <==>
             IdsOf(db.outbox) !! RecordedIds(db.resolved) && ever <= IdsOf(db.outbox) + RecordedIds(db.resolved))
        && everQueued == old(everQueued)[device := ever * (IdsOf(db.outbox) + RecordedIds(db.resolved))]
      ensures old(violations) <= violations
    {
      var ever := (if device in everQueued then everQueued[device] else {}) + IdsOf(db.outbox);
      var kept, found := Accountable(device, ever, IdsOf(db.outbox), RecordedIds(db.resolved));
      violations := violations + found;
      everQueued := everQueued[device := kept];
    }

    /** One violation for each stored row whose version is not the expected one. */
    method CheckAppliedState(device: nat, rows: Rows, expected: map<RowKey, nat>)
      modifies this`violations
      ensures violations == old(violations) <==> AppliedStateHolds(rows, expected)
      ensures old(violations) <= violations
    {
      var keys := rows.Keys;
      while keys != {}
        invariant keys <= rows.Keys && old(violations) <= violations
        invariant violations == old(violations) <==>
          forall k :: k in rows && k !in keys ==> k in expected && expected[k] == rows[k].version
        decreases |keys|
      {
        var k :| k in keys;
        keys := keys - {k};
        if k !in expected || expected[k] != rows[k].version {
          violations := violations + [Violation(AppliedState, device)];
        }
      }
    }

    /** One violation for each expected row that is missing or at another version. */
    method CheckDurableEffects(device: nat, rows: Rows, expected: map<RowKey, nat>)
      modifies this`violations
      ensures violations == old(violations) <==> DurableEffectsHold(rows, expected)
      ensures old(violations) <= violations
    {
      var keys := expected.Keys;
      while keys != {}
        invariant keys <= expected.Keys && old(violations) <= violations
        invariant violations == old(violations) <==>
          forall k :: k in expected && k !in keys ==> k in rows && rows[k].version == expected[k]
        decreases |keys|
      {
        var k :| k in keys;
        keys := keys - {k};
        if k !in rows || rows[k].version != expected[k] {
          violations := violations + [Violation(DurableEffects, device)];
        }
      }
    }

    /** No device's cursor lies past the last number given out. */
    method CheckCursorBounds(dbs: map<nat, DbState>, scope: ScopeId, head: nat)
      modifies this`violations
      ensures violations == old(violations) <==> Bounded(dbs, scope, head)
      ensures old(violations) <= violations
    {
      var keys := dbs.Keys;
      while keys != {}
        invariant keys <= dbs.Keys && old(violations) <= violations
        invariant violations == old(violations) <==>
          forall d :: d in dbs && d !in keys && scope in dbs[d].cursors ==> dbs[d].cursors[scope] <= head
        decreases |keys|
      {
        var d :| d in keys;
        keys := keys - {d};
        if scope in dbs[d].cursors && dbs[d].cursors[scope] > head {
          violations := violations + [Violation(CursorBounds, d)];
        }
      }
    }

    /** The applied-state and durable-effects checks of every device that has a cursor. */
    method CheckRows(dbs: map<nat, DbState>, scope: ScopeId, rowsAt: nat -> map<RowKey, nat>)
      modifies this`violations
      ensures violations == old(violations) <==> AllRowsHold(dbs, scope, rowsAt)
      ensures old(violations) <= violations
    {
      var keys := dbs.Keys;
      while keys != {}
        invariant keys <= dbs.Keys && old(violations) <= violations
        invariant violations == old(violations) <==>
          forall d :: d in dbs && d !in keys ==> RowsHold(dbs[d], scope, rowsAt)
        decreases |keys|
      {
        var d :| d in keys;
        keys := keys - {d};
        ghost var before := violations;
        if scope in dbs[d].cursors {
          var expected := rowsAt(dbs[d].cursors[scope]);
          CheckDurableEffects(d, dbs[d].rows, expected);
          CheckAppliedState(d, dbs[d].rows, expected);
        }
        assert violations == before <==> RowsHold(dbs[d], scope, rowsAt);
      }
    }

    /**
     After everything has settled: a device with no digest, one behind the server, or one whose digest is not
     the server's.
     */
    method CheckConvergence(dbs: map<nat, DbState>, scope: ScopeId, head: nat, expected: string)
      modifies this`violations
      ensures violations == old(violations) <==>
        forall d :: d in dbs ==> ConvergenceHolds(dbs[d], scope, head, expected)
      ensures old(violations) <= violations
    {
      var keys := dbs.Keys;
      while keys != {}
        invariant keys <= dbs.Keys && old(violations) <= violations
        invariant violations == old(violations) <==>
          forall d :: d in dbs && d !in keys ==> ConvergenceHolds(dbs[d], scope, head, expected)
        decreases |keys|
      {
        var d :| d in keys;
        keys := keys - {d};
        if scope !in dbs[d].digests {
          if head > 0 {
            violations := violations + [Violation(Convergence, d)];
          }
          continue;
        }
        var cursor := if scope in dbs[d].cursors then dbs[d].cursors[scope] else 0;
        if cursor < head {
          violations := violations + [Violation(Convergence, d)];
          continue;
        }
        if dbs[d].digests[scope] != expected {
          violations := violations + [Violation(Convergence, d)];
        }
      }
    }

    function Noted(): Notes reads this { Notes(highWater, resolved, everQueued) }

    /**
     One device's three checks that look back: silent when it only moved forward, and then its new state is
     what is remembered.
     */
    method CheckDevice(d: nat, db: DbState, scope: ScopeId, ghost before: DbState)
      requires Recalls(Noted(), d, before, scope) && MovedForward(before, db, scope)
      modifies this
      ensures violations == old(violations) && Recalls(Noted(), d, db, scope) && Elsewhere(old(Noted()), Noted(), d)
    {
      CheckCursorMonotonic(d, if scope in db.cursors then Some(db.cursors[scope]) else None);
      CheckDurabilityAndIdempotency(d, db.resolved);
      CheckNoLoss(d, db);
    }

    method CheckNext(dbs: map<nat, DbState>, scope: ScopeId, d: nat, ghost before: map<nat, DbState>,
                     ghost keys: set<nat>)
      requires d in keys && keys <= dbs.Keys && MovedAll(before, dbs, scope)
        && Midway(Noted(), before, dbs, keys, scope)
      modifies this
      ensures violations == old(violations) && Midway(Noted(), before, dbs, keys - {d}, scope)
    {
      ghost var noted := Noted();
      OneOfAll(noted, before, dbs, keys, d, scope);
      CheckDevice(d, dbs[d], scope, before[d]);
      MidwayNext(noted, Noted(), before, dbs, keys, d, scope);
    }

    /** Every device's checks that look back. */
    method CheckStep(dbs: map<nat, DbState>, scope: ScopeId, ghost before: map<nat, DbState>)
      requires MovedAll(before, dbs, scope) && Midway(Noted(), before, dbs, dbs.Keys, scope)
      modifies this
      ensures violations == old(violations) && Midway(Noted(), before, dbs, {}, scope)
    {
      var keys := dbs.Keys;
      while keys != {}
        invariant keys <= dbs.Keys && violations == old(violations)
        invariant Midway(Noted(), before, dbs, keys, scope)
        decreases |keys|
      {
        var d :| d in keys;
        CheckNext(dbs, scope, d, before, keys);
        keys := keys - {d};
      }
    }

    /** One step's checks, in the simulator's order. */
    method CheckAll(dbs: map<nat, DbState>, scope: ScopeId, head: nat, rowsAt: nat -> map<RowKey, nat>,
                    ghost before: map<nat, DbState>)
      requires MovedAll(before, dbs, scope) && RecallsAll(Noted(), before, scope) && Bounded(dbs, scope, head)
      modifies this
      ensures RecallsAll(Noted(), dbs, scope)
      ensures violations == [] <==> old(violations) == [] && AllRowsHold(dbs, scope, rowsAt)
    {
      StartsMidway(Noted(), before, dbs, scope);
      CheckStep(dbs, scope, before);
      EndsMidway(Noted(), before, dbs, scope);
      ghost var noted := Noted();
      CheckAgainst(dbs, scope, head, rowsAt);
      assert Noted() == noted;
    }

    method CheckAgainst(dbs: map<nat, DbState>, scope: ScopeId, head: nat, rowsAt: nat -> map<RowKey, nat>)
      requires Bounded(dbs, scope, head)
      modifies this`violations
      ensures violations == [] <==> old(violations) == [] && AllRowsHold(dbs, scope, rowsAt)
    {
      CheckCursorBounds(dbs, scope, head);
      CheckRows(dbs, scope, rowsAt);
    }
  }

  /** No cursor is past the head. */
  predicate Bounded(dbs: map<nat, DbState>, scope: ScopeId, head: nat) {
    forall d :: d in dbs && scope in dbs[d].cursors ==> dbs[d].cursors[scope] <= head
  }

  predicate AllRowsHold(dbs: map<nat, DbState>, scope: ScopeId, rowsAt: nat -> map<RowKey, nat>) {
    forall d :: d in dbs ==> RowsHold(dbs[d], scope, rowsAt)
  }

  /** What the checker remembers between steps. */
  datatype Notes = Notes(highWater: map<nat, nat>, resolved: map<nat, map<CommandId, Seen>>,
                         everQueued: map<nat, set<CommandId>>)

  /** What is remembered of a device fits what its database held. */
  predicate Recalls(n: Notes, d: nat, db: DbState, scope: ScopeId) {
    && (scope in db.cursors <==> d in n.highWater) && (scope in db.cursors ==> n.highWater[d] == db.cursors[scope])
    && (if d in n.resolved then n.resolved[d] else map[]) == Outcomes(db.resolved)
    && (if d in n.everQueued then n.everQueued[d] else {}) <= IdsOf(db.outbox) + RecordedIds(db.resolved)
  }

  predicate RecallsAll(n: Notes, dbs: map<nat, DbState>, scope: ScopeId) {
    forall d :: d in dbs ==> Recalls(n, d, dbs[d], scope)
  }

  /** The devices still to be checked are remembered as they were, the others as they are. */
  ghost predicate Midway(n: Notes, before: map<nat, DbState>, dbs: map<nat, DbState>, keys: set<nat>, scope: ScopeId) {
    before.Keys == dbs.Keys && forall d :: d in dbs ==> Recalls(n, d, if d in keys then before[d] else dbs[d], scope)
  }

  ghost predicate MovedAll(before: map<nat, DbState>, dbs: map<nat, DbState>, scope: ScopeId) {
    before.Keys == dbs.Keys && forall d :: d in dbs ==> MovedForward(before[d], dbs[d], scope)
  }

  lemma StartsMidway(n: Notes, before: map<nat, DbState>, dbs: map<nat, DbState>, scope: ScopeId)
    requires before.Keys == dbs.Keys && RecallsAll(n, before, scope)
    ensures Midway(n, before, dbs, dbs.Keys, scope)
  {
    forall d | d in dbs ensures Recalls(n, d, before[d], scope) {
      assert d in before.Keys;
    }
  }

  lemma EndsMidway(n: Notes, before: map<nat, DbState>, dbs: map<nat, DbState>, scope: ScopeId)
    requires Midway(n, before, dbs, {}, scope)
    ensures RecallsAll(n, dbs, scope)
  {
  }

  lemma OneOfAll(n: Notes, before: map<nat, DbState>, dbs: map<nat, DbState>, keys: set<nat>, d: nat, scope: ScopeId)
    requires d in keys && keys <= dbs.Keys && MovedAll(before, dbs, scope) && Midway(n, before, dbs, keys, scope)
    ensures d in before && Recalls(n, d, before[d], scope) && MovedForward(before[d], dbs[d], scope)
  {
  }

  /** Nothing remembered of any other device has changed. */
  ghost predicate Elsewhere(n: Notes, m: Notes, d: nat) {
    forall k :: k != d ==>
      && (k in m.highWater <==> k in n.highWater) && (k in n.highWater ==> m.highWater[k] == n.highWater[k])
      && (k in m.resolved <==> k in n.resolved) && (k in n.resolved ==> m.resolved[k] == n.resolved[k])
      && (k in m.everQueued <==> k in n.everQueued) && (k in n.everQueued ==> m.everQueued[k] == n.everQueued[k])
  }

  lemma MidwayNext(n: Notes, m: Notes, before: map<nat, DbState>, dbs: map<nat, DbState>, keys: set<nat>, d: nat,
                   scope: ScopeId)
    requires d in keys && keys <= dbs.Keys && Midway(n, before, dbs, keys, scope)
    requires Elsewhere(n, m, d) && Recalls(m, d, dbs[d], scope)
    ensures Midway(m, before, dbs, keys - {d}, scope)
  {
    forall k | k in dbs && k != d ensures Recalls(m, k, if k in keys then before[k] else dbs[k], scope) {
      assert Recalls(n, k, if k in keys then before[k] else dbs[k], scope);
    }
  }

  /** The last number the server has given out. */
  function Head(w: World.World): nat {
    if w.server.nextSeq == 0 then 0 else w.server.nextSeq - 1
  }

  function Databases(w: World.World): map<nat, DbState> {
    map d | d in w.devices :: w.devices[d].db
  }

  /** What the checks that look back ask of two states of one device. */
  predicate MovedForward(before: DbState, db: DbState, scope: ScopeId) {
    && (scope in before.cursors ==> scope in db.cursors && before.cursors[scope] <= db.cursors[scope])
    && DistinctRecords(db.resolved) && StillSeen(Outcomes(before.resolved), Outcomes(db.resolved))
    && IdsOf(db.outbox) !! RecordedIds(db.resolved)
    && IdsOf(before.outbox) + RecordedIds(before.resolved) <= IdsOf(db.outbox) + RecordedIds(db.resolved)
  }

  /** What the row checks ask of a device with a cursor; one without is passed over. */
  predicate RowsHold(db: DbState, scope: ScopeId, rowsAt: nat -> map<RowKey, nat>) {
    scope in db.cursors ==>
      var expected := rowsAt(db.cursors[scope]);
      AppliedStateHolds(db.rows, expected) && DurableEffectsHold(db.rows, expected)
  }

  /** What the convergence check asks of one device. */
  predicate ConvergenceHolds(db: DbState, scope: ScopeId, head: nat, expected: string) {
    if scope !in db.digests then head == 0
    else head <= (if scope in db.cursors then db.cursors[scope] else 0) && db.digests[scope] == expected
  }

  predicate AppliedStateHolds(rows: Rows, expected: map<RowKey, nat>) {
    forall k :: k in rows ==> k in expected && expected[k] == rows[k].version
  }

  predicate DurableEffectsHold(rows: Rows, expected: map<RowKey, nat>) {
    forall k :: k in expected ==> k in rows && rows[k].version == expected[k]
  }

  lemma OneMore(records: seq<(CommandId, Resolution)>, r: (CommandId, Resolution))
    ensures DistinctRecords(records + [r]) <==> DistinctRecords(records) && r.0 !in RecordedIds(records)
  {
    var more := records + [r];
    if DistinctRecords(more) {
      assert forall i, j :: 0 <= i < j < |records| ==> records[i] == more[i] && records[j] == more[j];
      forall q | q in records ensures q.0 != r.0 {
        var i :| 0 <= i < |records| && records[i] == q;
        assert more[i].0 != more[|records|].0;
      }
    } else if DistinctRecords(records) {
      var i, j :| 0 <= i < j < |more| && more[i].0 == more[j].0;
      assert more[i] in records;
    }
  }

  // ----- why they stay silent -----

  /** What the replay of a log prefix holds, against what the server's history says of it. */
  lemma ReplayAgainstHistory(cfg: Config, cs: seq<Change>)
    ensures AppliedStateHolds(Replayed(EngineDigest.LocalAll(cfg, cs)), ServerSpec.HeldIn(cs))
    ensures DurableEffectsHold(Replayed(EngineDigest.LocalAll(cfg, cs)), ServerSpec.HeldIn(cs)) <==>
      ServerSpec.NoTombstoneLast(cs)
  {
    var rows, held := Replayed(EngineDigest.LocalAll(cfg, cs)), ServerSpec.HeldIn(cs);
    EngineDigest.ReplayVersionsLocal(cfg, cs);
    assert Versions(rows) == Versions(Replayed(cs));
    forall k ensures k in held <==> LastTo(cs, k).Some?
      ensures k in rows <==> LastTo(cs, k).Some? && LastTo(cs, k).value.snapshot.Some?
      ensures k in rows ==> rows[k].version == held[k]
    {
      ServerSpec.HeldIsLast(cs, k);
      ReplayIsLast(map[], cs, k);
      assert k in rows <==> k in Versions(rows);
      assert k in Replayed(cs) <==> k in Versions(Replayed(cs));
    }
    if k :| LastTo(cs, k).Some? && LastTo(cs, k).value.snapshot.None? {
      assert k in held && k !in rows;
    }
  }

  /**
   In every reachable world the applied-state, cursor-bounds, no-loss and idempotency checks pass
   for every device; the durable-effects check passes exactly when no row's latest change at or
   below the device's cursor is a delete, since the history it consults counts tombstones as rows.
   */
  lemma ChecksPass(s: PullChannel.Setup, run: seq<World.World>, i: nat, d: nat)
    requires World.Run(s, run) && i < |run| && d in run[i].devices
    ensures var db := run[i].devices[d].db;
      var es := World.ScopeEntries(s, run[i]);
      var cursor := StoredState(db, s.scope).cursor;
      && AppliedStateHolds(db.rows, ServerSpec.RowsAt(es, cursor))
      && (DurableEffectsHold(db.rows, ServerSpec.RowsAt(es, cursor)) <==>
           ServerSpec.NoTombstoneLast(Changes(es)[..UpTo(es, cursor)]))
      && cursor < run[i].server.nextSeq
      && DistinctRecords(db.resolved) && IdsOf(db.outbox) !! RecordedIds(db.resolved)
  {
    World.DevicesHoldReplay(s, run, i, i, d);
    World.NoDeviceLosesACommand(s, run, i, d);
    var db := run[i].devices[d].db;
    var es := World.ScopeEntries(s, run[i]);
    ReplayAgainstHistory(s.cfg, Changes(es)[..UpTo(es, StoredState(db, s.scope).cursor)]);
    World.HeadBounds(s, run, i);
  }

  /**
   And so do the checks that compare one world with a later one: no cursor has gone back or gone,
   every outcome seen before is still there unchanged, and everything seen queued or resolved is
   still one of the two.
   */
  lemma ChecksPassLater(s: PullChannel.Setup, run: seq<World.World>, i: nat, j: nat, d: nat)
    requires World.Run(s, run) && i <= j < |run| && d in run[i].devices
    ensures d in run[j].devices && MovedForward(run[i].devices[d].db, run[j].devices[d].db, s.scope)
  {
    World.RunForward(s, run, i, j);
    World.NoDeviceLosesACommand(s, run, i, d);
    World.NoDeviceLosesACommand(s, run, j, d);
    assert World.DeviceForward(s, run[i].devices[d], run[j].devices[d]);
    OutcomesGrow(run[i].devices[d].db.resolved, run[j].devices[d].db.resolved);
  }

  /** No device's cursor has a row below it whose latest change is a delete. */
  ghost predicate NothingGone(s: PullChannel.Setup, w: World.World) {
    var es := World.ScopeEntries(s, w);
    forall d :: d in w.devices && s.scope in w.devices[d].db.cursors ==>
      ServerSpec.NoTombstoneLast(Changes(es)[..UpTo(es, w.devices[d].db.cursors[s.scope])])
  }

  /** A log of upserts only is one where nothing ever goes. */
  lemma UpsertsNeverGo(s: PullChannel.Setup, w: World.World)
    requires forall k :: 0 <= k < |World.ScopeEntries(s, w)| ==> World.ScopeEntries(s, w)[k].change.snapshot.Some?
    ensures NothingGone(s, w)
  {
    World.UpsertsOnly(World.ScopeEntries(s, w));
  }

  /** In a reachable world the row checks of all devices pass exactly then, and the cursor bounds always. */
  lemma RowsHoldForAll(s: PullChannel.Setup, run: seq<World.World>, i: nat, rowsAt: nat -> map<RowKey, nat>)
    requires World.Run(s, run) && i < |run|
    requires forall cursor :: rowsAt(cursor) == ServerSpec.RowsAt(World.ScopeEntries(s, run[i]), cursor)
    ensures AllRowsHold(Databases(run[i]), s.scope, rowsAt) <==> NothingGone(s, run[i])
    ensures Bounded(Databases(run[i]), s.scope, Head(run[i]))
  {
    var dbs, es := Databases(run[i]), World.ScopeEntries(s, run[i]);
    forall d | d in dbs && s.scope in dbs[d].cursors
      ensures RowsHold(dbs[d], s.scope, rowsAt) <==>
        ServerSpec.NoTombstoneLast(Changes(es)[..UpTo(es, dbs[d].cursors[s.scope])])
      ensures dbs[d].cursors[s.scope] <= Head(run[i])
    {
      ChecksPass(s, run, i, d);
    }
    if NothingGone(s, run[i]) {
      forall d | d in dbs ensures RowsHold(dbs[d], s.scope, rowsAt) {
      }
    } else {
      var d :| d in run[i].devices && s.scope in run[i].devices[d].db.cursors
        && !ServerSpec.NoTombstoneLast(Changes(es)[..UpTo(es, run[i].devices[d].db.cursors[s.scope])]);
      assert d in dbs && !RowsHold(dbs[d], s.scope, rowsAt);
    }
  }

  lemma MovedForAll(s: PullChannel.Setup, run: seq<World.World>, i: nat, j: nat)
    requires World.Run(s, run) && i <= j < |run|
    ensures MovedAll(Databases(run[i]), Databases(run[j]), s.scope)
  {
    World.RunForward(s, run, i, j);
    forall d | d in Databases(run[j]) ensures MovedForward(Databases(run[i])[d], Databases(run[j])[d], s.scope) {
      ChecksPassLater(s, run, i, j, d);
    }
  }

  /**
   The simulator's checks after every step of a run: over the whole run they report something if
   and only if at some step some device's cursor had a row below it whose latest change was a delete.
   */
  method CheckRun(s: PullChannel.Setup, run: seq<World.World>) returns (inv: Invariants)
    requires World.Run(s, run)
    ensures fresh(inv) && (inv.violations == [] <==> forall i :: 0 <= i < |run| ==> NothingGone(s, run[i]))
  {
    inv := new Invariants();
    ghost var last := 0;
    for i := 0 to |run|
      invariant fresh(inv) && last <= i && last < |run|
      invariant inv.violations == [] <==> forall k :: 0 <= k < i ==> NothingGone(s, run[k])
      invariant RecallsAll(inv.Noted(), Databases(run[last]), s.scope)
    {
      MovedForAll(s, run, last, i);
      CheckOneStep(s, run, i, inv, Databases(run[last]));
      last := i;
    }
  }

  method CheckOneStep(s: PullChannel.Setup, run: seq<World.World>, i: nat, inv: Invariants,
                      ghost before: map<nat, DbState>)
    requires World.Run(s, run) && i < |run|
    requires MovedAll(before, Databases(run[i]), s.scope) && RecallsAll(inv.Noted(), before, s.scope)
    modifies inv
    ensures RecallsAll(inv.Noted(), Databases(run[i]), s.scope)
    ensures inv.violations == [] <==> old(inv.violations) == [] && NothingGone(s, run[i])
  {
    var es := World.ScopeEntries(s, run[i]);
    var rowsAt := (cursor: nat) => ServerSpec.RowsAt(es, cursor);
    RowsHoldForAll(s, run, i, rowsAt);
    inv.CheckAll(Databases(run[i]), s.scope, Head(run[i]), rowsAt, before);
  }

  // ----- convergence -----

  ghost function ServerDigest(s: PullChannel.Setup, w: World.World): nat {
    var es := World.ScopeEntries(s, w); ServerSpec.DigestAt(es, VisibleHead(es))
  }

  ghost predicate Passes(s: PullChannel.Setup, w: World.World, d: nat)
    requires d in w.devices
  {
    ConvergenceHolds(w.devices[d].db, s.scope, Head(w), Digest.ToHex(ServerDigest(s, w)))
  }

  /** A device that stands at the end of what it may see of its scope, with the digest the server has for it. */
  ghost predicate CaughtUp(s: PullChannel.Setup, w: World.World, d: nat)
    requires d in w.devices
  {
    var stored := StoredState(w.devices[d].db, s.scope);
    stored.cursor == VisibleHead(World.ScopeEntries(s, w)) && stored.digest == ServerDigest(s, w)
  }

  /**
   In every reachable world the convergence check passes a device if and only if it has caught up
   and the last number given out anywhere was given out in its scope and has committed.
   */
  lemma ConvergenceMeans(s: PullChannel.Setup, run: seq<World.World>, i: nat, d: nat)
    requires World.Run(s, run) && i < |run| && d in run[i].devices
    ensures Passes(s, run[i], d) <==>
      CaughtUp(s, run[i], d) && VisibleHead(World.ScopeEntries(s, run[i])) == Head(run[i])
  {
    var w, db := run[i], run[i].devices[d].db;
    var es := World.ScopeEntries(s, w);
    World.InvHolds(s, run, i);
    assert World.DeviceInv(s, w, w.devices[d]);
    World.DevicesHoldReplay(s, run, i, i, d);
    World.HeadBounds(s, run, i);
    World.ScopeOrdered(s, w);
    if VisibleHead(es) == 0 {
      NothingVisible(s, w, es);
    }
    CheckMeans(db, s.scope, VisibleHead(es), Head(w), ServerDigest(s, w));
  }

  lemma CheckMeans(db: DbState, scope: ScopeId, visible: nat, head: nat, server: nat)
    requires PullChannel.TextKept(db, scope) && StoredState(db, scope).cursor <= visible <= head
    requires server < Digest.MODULUS && (visible == 0 ==> server == Digest.DigestOf(map[]))
    ensures ConvergenceHolds(db, scope, head, Digest.ToHex(server)) <==>
      StoredState(db, scope) == ScopeState(visible, server) && visible == head
  {
    Digest.EmptyDigest();
    Digest.HexInjective(StoredState(db, scope).digest, server);
  }

  lemma NothingVisible(s: PullChannel.Setup, w: World.World, es: seq<Entry>)
    requires es == World.ScopeEntries(s, w) && PullChannel.Ordered(es) && VisibleHead(es) == 0
    ensures ServerDigest(s, w) == Digest.DigestOf(map[])
  {
    PullChannel.HeadDigest(es);
    assert Bootstrap.Seen(es) == [];
  }

  /**
   And a device at the end of what it may see has caught up exactly when its scope's live rows and history sum
   alike.
   */
  lemma CaughtUpMeans(s: PullChannel.Setup, run: seq<World.World>, i: nat, d: nat)
    requires World.Run(s, run) && i < |run| && d in run[i].devices
    requires StoredState(run[i].devices[d].db, s.scope).cursor == VisibleHead(World.ScopeEntries(s, run[i]))
    ensures var seen := Bootstrap.Seen(World.ScopeEntries(s, run[i]));
      && (CaughtUp(s, run[i], d) <==>
           Digest.DigestOf(Versions(Replayed(seen))) == Digest.DigestOf(ServerSpec.HeldIn(seen)))
      && (ServerSpec.NoTombstoneLast(seen) ==> CaughtUp(s, run[i], d))
  {
    var w, db := run[i], run[i].devices[d].db;
    var es := World.ScopeEntries(s, w);
    World.InvHolds(s, run, i);
    assert World.DeviceInv(s, w, w.devices[d]);
    World.ScopeOrdered(s, w);
    SumsCompared(s, es, db);
  }

  lemma SumsCompared(s: PullChannel.Setup, es: seq<Entry>, db: DbState)
    requires PullChannel.Ordered(es) && StoredState(db, s.scope).cursor == VisibleHead(es)
    requires EngineDigest.DigestExact(db, s.scope, PullChannel.All()) && PullChannel.HoldsReplay(s, es, db)
    ensures var seen := Bootstrap.Seen(es);
      && (StoredState(db, s.scope).digest == ServerSpec.DigestAt(es, VisibleHead(es)) <==>
           Digest.DigestOf(Versions(Replayed(seen))) == Digest.DigestOf(ServerSpec.HeldIn(seen)))
      && (ServerSpec.NoTombstoneLast(seen) ==>
           StoredState(db, s.scope).digest == ServerSpec.DigestAt(es, VisibleHead(es)))
  {
    PullChannel.HeadDigest(es);
    SeenDigest(s, es, db);
    ServerSpec.HistoryMatchesReplay(Bootstrap.Seen(es));
  }

  lemma SeenDigest(s: PullChannel.Setup, es: seq<Entry>, db: DbState)
    requires PullChannel.Ordered(es) && StoredState(db, s.scope).cursor == VisibleHead(es)
    requires EngineDigest.DigestExact(db, s.scope, PullChannel.All()) && PullChannel.HoldsReplay(s, es, db)
    ensures StoredState(db, s.scope).digest == Digest.DigestOf(Versions(Replayed(Bootstrap.Seen(es))))
  {
    SeenReached(es);
    PullChannel.ClientDigest(s, es, db);
  }

  lemma SeenReached(es: seq<Entry>)
    requires PullChannel.Ordered(es)
    ensures Changes(es)[..UpTo(es, VisibleHead(es))] == Bootstrap.Seen(es)
  {
    UpToIs(es, VisibleHead(es), Committed(es));
  }

  /**
   So one write to any other scope has the check report every device of this one: nothing about
   the device or its scope has changed, and it has still caught up if it had.
   */
  lemma OtherScopeReported(s: PullChannel.Setup, run: seq<World.World>, i: nat, d: nat, scope: ScopeId, key: RowKey,
                           visible: bool)
    requires World.Run(s, run) && i < |run| && d in run[i].devices && scope != s.scope
    ensures var w := run[i].(server := ServerSpec.Appended(run[i].server, scope, key, None, visible));
      && World.Run(s, run[..i + 1] + [w]) && w.devices == run[i].devices
      && World.ScopeEntries(s, w) == World.ScopeEntries(s, run[i])
      && (CaughtUp(s, run[i], d) ==> CaughtUp(s, w, d)) && !Passes(s, w, d)
  {
    var w := run[i].(server := ServerSpec.Appended(run[i].server, scope, key, None, visible));
    var more := run[..i + 1] + [w];
    assert World.Next(s, run[i], w, World.ExternalChange(scope, key, visible));
    forall k | 0 < k < |more| ensures World.SomeStep(s, more[k - 1], more[k]) {
      if k <= i {
        assert World.SomeStep(s, run[k - 1], run[k]);
      }
    }
    var log := run[i].server.log;
    assert w.server.log[..|log|] == log;
    World.HeadBounds(s, run, i);
    ConvergenceMeans(s, more, i + 1, d);
  }

  /**
   A device that has caught up and passes, to begin with: in a world where nothing has happened yet every
   device does.
   */
  lemma FreshPasses(s: PullChannel.Setup, w: World.World, d: nat)
    requires World.Starts(s, w) && World.Serves(s.cfg) && d in w.devices
    ensures World.Run(s, [w]) && CaughtUp(s, w, d) && Passes(s, w, d)
  {
    CaughtUpMeans(s, [w], 0, d);
    ConvergenceMeans(s, [w], 0, d);
  }
}
