/** The change log as a value, and what a device that has applied a prefix of it must hold. */
module Replay {
  import opened Prelude
  import opened Wire
  import opened Ids

  datatype StoredRow = StoredRow(snapshot: Document, version: nat, schema: nat)

  type Rows = map<RowKey, StoredRow>

  // ----- replaying changes -----

  function RowOf(c: Change): StoredRow
    requires c.snapshot.Some?
  {
    StoredRow(c.snapshot.value, c.version, c.schema)
  }

  function ReplayOne(rows: Rows, c: Change): Rows {
    if c.snapshot.Some? then rows[c.key := RowOf(c)] else rows - {c.key}
  }

  /** Changes applied in order onto some rows. */
  function ReplayOnto(rows: Rows, cs: seq<Change>): Rows {
    if cs == [] then rows else ReplayOne(ReplayOnto(rows, cs[..|cs| - 1]), cs[|cs| - 1])
  }

  function Replayed(cs: seq<Change>): Rows {
    ReplayOnto(map[], cs)
  }

  lemma {:induction false} ReplaySplits(rows: Rows, a: seq<Change>, b: seq<Change>)
    ensures ReplayOnto(rows, a + b) == ReplayOnto(ReplayOnto(rows, a), b)
  {
    if b == [] {
      assert a + b == a;
    } else {
      assert (a + b)[..|a + b| - 1] == a + b[..|b| - 1];
      ReplaySplits(rows, a, b[..|b| - 1]);
    }
  }

  function Versions(rows: Rows): map<RowKey, nat> {
    map k | k in rows :: rows[k].version
  }

  /** The last change to a row. */
  function LastTo(cs: seq<Change>, key: RowKey): Option<Change> {
    if cs == [] then None
    else if cs[|cs| - 1].key == key then Some(cs[|cs| - 1])
    else LastTo(cs[..|cs| - 1], key)
  }

  /** A row is decided by its last change alone. */
  lemma {:induction false} ReplayIsLast(rows: Rows, cs: seq<Change>, key: RowKey)
    ensures match LastTo(cs, key)
      case None => (key in ReplayOnto(rows, cs) <==> key in rows)
        && (key in rows ==> ReplayOnto(rows, cs)[key] == rows[key])
      case Some(c) =>
        && c.key == key && c in cs
        && (c.snapshot.Some? <==> key in ReplayOnto(rows, cs))
        && (c.snapshot.Some? ==> ReplayOnto(rows, cs)[key] == RowOf(c))
  {
    if cs != [] {
      ReplayIsLast(rows, cs[..|cs| - 1], key);
    }
  }

  // ----- the log -----

  /** One log entry. `origin` is the command that wrote it, for stating what one command may do. */
  datatype Entry = Entry(scope: ScopeId, change: Change, visible: bool, origin: Option<CommandId>)

  predicate Ascending(es: seq<Entry>) {
    forall i, j :: 0 <= i < j < |es| ==> es[i].change.seqNo < es[j].change.seqNo
  }

  /** One scope's entries, in log order. */
  function ScopeLog(log: seq<Entry>, scope: ScopeId): seq<Entry> {
    if log == [] then []
    else
      var init := ScopeLog(log[..|log| - 1], scope);
      if log[|log| - 1].scope == scope then init + [log[|log| - 1]] else init
  }

  lemma {:induction false} ScopeLogMembers(log: seq<Entry>, scope: ScopeId)
    ensures forall e :: e in ScopeLog(log, scope) <==> e in log && e.scope == scope
  {
    if log != [] {
      ScopeLogMembers(log[..|log| - 1], scope);
      assert log == log[..|log| - 1] + [log[|log| - 1]];
    }
  }

  lemma {:induction false} ScopeLogAscending(log: seq<Entry>, scope: ScopeId)
    requires Ascending(log)
    ensures Ascending(ScopeLog(log, scope))
  {
    if log != [] {
      var init := log[..|log| - 1];
      ScopeLogAscending(init, scope);
      ScopeLogMembers(init, scope);
      forall e | e in ScopeLog(init, scope) ensures e.change.seqNo < log[|log| - 1].change.seqNo {
        var i :| 0 <= i < |init| && init[i] == e;
      }
    }
  }

  function Changes(es: seq<Entry>): (cs: seq<Change>)
    ensures |cs| == |es| && forall i :: 0 <= i < |es| ==> cs[i] == es[i].change
  {
    seq(|es|, i requires 0 <= i < |es| => es[i].change)
  }

  /** How many entries lie at or below a cursor. */
  function UpTo(es: seq<Entry>, cursor: nat): (n: nat)
    ensures n <= |es|
  {
    UpToWithin(es, cursor, |es|)
  }

  function UpToWithin(es: seq<Entry>, cursor: nat, k: nat): (n: nat)
    requires k <= |es|
    ensures n <= k
  {
    if k == 0 then 0 else if es[k - 1].change.seqNo <= cursor then k else UpToWithin(es, cursor, k - 1)
  }

  lemma {:induction false} UpToEdges(es: seq<Entry>, cursor: nat, k: nat)
    requires k <= |es|
    ensures forall i :: UpToWithin(es, cursor, k) <= i < k ==> cursor < es[i].change.seqNo
    ensures UpToWithin(es, cursor, k) > 0 ==> es[UpToWithin(es, cursor, k) - 1].change.seqNo <= cursor
  {
    if k > 0 {
      UpToEdges(es, cursor, k - 1);
    }
  }

  /** Everything before that place is at or below the cursor, everything from it on is past it. */
  lemma UpToSplits(es: seq<Entry>, cursor: nat)
    requires Ascending(es)
    ensures forall i :: 0 <= i < UpTo(es, cursor) ==> es[i].change.seqNo <= cursor
    ensures forall i :: UpTo(es, cursor) <= i < |es| ==> cursor < es[i].change.seqNo
  {
    UpToEdges(es, cursor, |es|);
    var n := UpTo(es, cursor);
    if n > 0 {
      assert forall i :: 0 <= i < n - 1 ==> es[i].change.seqNo < es[n - 1].change.seqNo;
    }
  }

  lemma UpToIs(es: seq<Entry>, cursor: nat, n: nat)
    requires n <= |es|
    requires forall i :: 0 <= i < n ==> es[i].change.seqNo <= cursor
    requires forall i :: n <= i < |es| ==> cursor < es[i].change.seqNo
    ensures UpTo(es, cursor) == n
  {
    UpToEdges(es, cursor, |es|);
    var m := UpTo(es, cursor);
    assert m < |es| ==> cursor < es[m].change.seqNo;
  }

  /** Length of the longest prefix whose entries have all committed. */
  function Committed(es: seq<Entry>): (n: nat)
    ensures n <= |es|
    ensures forall i :: 0 <= i < n ==> es[i].visible
    ensures n < |es| ==> !es[n].visible
  {
    CommittedFrom(es, 0)
  }

  function CommittedFrom(es: seq<Entry>, k: nat): (n: nat)
    requires k <= |es|
    ensures k <= n <= |es|
    ensures forall i :: k <= i < n ==> es[i].visible
    ensures n < |es| ==> !es[n].visible
    decreases |es| - k
  {
    if k == |es| || !es[k].visible then k else CommittedFrom(es, k + 1)
  }

  /** The number of the last entry before the first uncommitted one. */
  function VisibleHead(es: seq<Entry>): nat {
    var n := Committed(es);
    if n == 0 then 0 else es[n - 1].change.seqNo
  }

  /** The log only grows: entries keep their content and place, and committed ones stay committed. */
  ghost predicate Grows(es: seq<Entry>, es': seq<Entry>) {
    && |es| <= |es'|
    && forall i :: 0 <= i < |es| ==>
      es'[i].change == es[i].change && es'[i].origin == es[i].origin && es'[i].scope == es[i].scope
      && (es[i].visible ==> es'[i].visible)
  }

  /** The same entries, some of them newly committed or not yet. */
  ghost predicate SameEntries(es: seq<Entry>, es': seq<Entry>) {
    |es| == |es'| && forall i :: 0 <= i < |es| ==> es'[i] == es[i].(visible := es'[i].visible)
  }

  lemma {:induction false} SameLengths(log: seq<Entry>, log': seq<Entry>, scope: ScopeId)
    requires |log| == |log'| && Grows(log, log')
    ensures |ScopeLog(log, scope)| == |ScopeLog(log', scope)|
  {
    if log != [] {
      var m := |log| - 1;
      assert Grows(log[..m], log'[..m]);
      SameLengths(log[..m], log'[..m], scope);
      assert log'[m].scope == log[m].scope;
    }
  }

  lemma {:induction false} ScopeLogGrows(log: seq<Entry>, log': seq<Entry>, scope: ScopeId)
    requires Grows(log, log')
    ensures Grows(ScopeLog(log, scope), ScopeLog(log', scope))
    decreases |log'|
  {
    if |log| < |log'| {
      ScopeLogGrows(log, log'[..|log'| - 1], scope);
    } else if log' != [] {
      var m := |log| - 1;
      ScopeLogGrows(log[..m], log'[..m], scope);
      var init, init' := ScopeLog(log[..m], scope), ScopeLog(log'[..m], scope);
      SameLengths(log[..m], log'[..m], scope);
      assert log'[m].scope == log[m].scope;
      if log[m].scope == scope {
        assert ScopeLog(log, scope) == init + [log[m]] && ScopeLog(log', scope) == init' + [log'[m]];
      }
    }
  }

  lemma CommittedGrows(es: seq<Entry>, es': seq<Entry>)
    requires Grows(es, es')
    ensures Committed(es) <= Committed(es')
    ensures Changes(es')[..|es|] == Changes(es)
    ensures Ascending(es') ==> VisibleHead(es) <= VisibleHead(es')
  {
    var n, n' := Committed(es), Committed(es');
    if n' < n {
      assert false;
    }
  }
}
