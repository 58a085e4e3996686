/**
 The indexes the server keeps beside its log, and that each is the linear scan it replaces:
 positions by scope, every version of every row, and the live rows.
 */
module ServerIndex {
  import opened Prelude
  import opened Wire
  import opened Replay
  import Digest

  function Get<K, V>(m: map<K, V>, k: K, default: V): V {
    if k in m then m[k] else default
  }

  // ----- positions by scope -----

  function Indices(es: seq<Entry>, scope: ScopeId): seq<nat> {
    if es == [] then []
    else
      var init := Indices(es[..|es| - 1], scope);
      if es[|es| - 1].scope == scope then init + [|es| - 1] else init
  }

  /** The index picks out exactly the scope's log, in order. */
  lemma {:induction false} IndicesPickScopeLog(es: seq<Entry>, scope: ScopeId)
    ensures |Indices(es, scope)| == |ScopeLog(es, scope)|
    ensures forall j :: 0 <= j < |Indices(es, scope)| ==>
      Indices(es, scope)[j] < |es| && es[Indices(es, scope)[j]] == ScopeLog(es, scope)[j]
  {
    if es != [] {
      IndicesPickScopeLog(es[..|es| - 1], scope);
    }
  }

  type ByScope = map<ScopeId, seq<nat>>

  ghost predicate IndexAgrees(es: seq<Entry>, byScope: ByScope) {
    forall s :: Get(byScope, s, []) == Indices(es, s)
  }

  lemma IndexPush(es: seq<Entry>, byScope: ByScope, e: Entry)
    requires IndexAgrees(es, byScope)
    ensures IndexAgrees(es + [e], byScope[e.scope := Get(byScope, e.scope, []) + [|es|]])
  {
    assert (es + [e])[..|es|] == es;
    var pushed := byScope[e.scope := Get(byScope, e.scope, []) + [|es|]];
    forall s ensures Get(pushed, s, []) == Indices(es + [e], s) {
      assert Get(byScope, s, []) == Indices(es, s);
    }
  }

  // ----- every version of every row -----

  type RowVersions = seq<(nat, nat)>

  type RowHistory = map<ScopeId, map<RowKey, RowVersions>>

  function History(es: seq<Entry>, scope: ScopeId, key: RowKey): RowVersions {
    if es == [] then []
    else
      var last := es[|es| - 1];
      var init := History(es[..|es| - 1], scope, key);
      if last.scope == scope && last.change.key == key then init + [(last.change.seqNo, last.change.version)] else init
  }

  function HistoryOf(rowHistory: RowHistory, scope: ScopeId, key: RowKey): RowVersions {
    Get(Get(rowHistory, scope, map[]), key, [])
  }

  ghost predicate HistoryAgrees(es: seq<Entry>, rowHistory: RowHistory) {
    forall s, k :: HistoryOf(rowHistory, s, k) == History(es, s, k)
  }

  function Noted(rowHistory: RowHistory, scope: ScopeId, c: Change): RowHistory {
    var rows := Get(rowHistory, scope, map[]);
    rowHistory[scope := rows[c.key := Get(rows, c.key, []) + [(c.seqNo, c.version)]]]
  }

  lemma HistoryPush(es: seq<Entry>, rowHistory: RowHistory, e: Entry)
    requires HistoryAgrees(es, rowHistory)
    ensures HistoryAgrees(es + [e], Noted(rowHistory, e.scope, e.change))
  {
    assert (es + [e])[..|es|] == es;
    forall s, k ensures HistoryOf(Noted(rowHistory, e.scope, e.change), s, k) == History(es + [e], s, k) {
      assert HistoryOf(rowHistory, s, k) == History(es, s, k);
    }
  }

  predicate AscendingVersions(h: RowVersions) {
    forall i, j :: 0 <= i < j < |h| ==> h[i].0 < h[j].0
  }

  /** A row's version at a cursor, by scanning its history. */
  function VersionIn(h: RowVersions, cursor: nat): Option<nat> {
    if h == [] then None
    else if h[|h| - 1].0 <= cursor then Some(h[|h| - 1].1)
    else VersionIn(h[..|h| - 1], cursor)
  }

  lemma {:induction false} HistoryAscends(es: seq<Entry>, scope: ScopeId, key: RowKey)
    requires Ascending(es)
    ensures AscendingVersions(History(es, scope, key))
    ensures forall p :: p in History(es, scope, key) ==> exists i :: 0 <= i < |es| && es[i].change.seqNo == p.0
  {
    if es != [] {
      var n := |es| - 1;
      HistoryAscends(es[..n], scope, key);
      assert forall i :: 0 <= i < n ==> es[..n][i] == es[i];
    }
  }

  function VersionOf(c: Option<Change>): Option<nat> {
    match c case None => None case Some(c) => Some(c.version)
  }

  /** What one more entry adds to the changes up to a cursor. */
  lemma UpToPush(es: seq<Entry>, e: Entry, cursor: nat)
    requires e.change.seqNo <= cursor ==> UpTo(es, cursor) == |es|
    ensures var more := es + [e];
      var before := Changes(es)[..UpTo(es, cursor)];
      Changes(more)[..UpTo(more, cursor)] == if e.change.seqNo <= cursor then before + [e.change] else before
  {
    if e.change.seqNo > cursor {
      WithinPush(es, e, cursor, |es|);
    }
  }

  lemma {:induction false} WithinPush(es: seq<Entry>, e: Entry, cursor: nat, k: nat)
    requires k <= |es|
    ensures UpToWithin(es + [e], cursor, k) == UpToWithin(es, cursor, k)
  {
    if k > 0 {
      WithinPush(es, e, cursor, k - 1);
    }
  }

  lemma LastToPush(cs: seq<Change>, c: Change, key: RowKey)
    ensures LastTo(cs + [c], key) == if c.key == key then Some(c) else LastTo(cs, key)
  {
    assert (cs + [c])[..|cs|] == cs;
  }

  /** The changes a scope's log holds up to a cursor. */
  function Reached(es: seq<Entry>, scope: ScopeId, cursor: nat): seq<Change> {
    var log := ScopeLog(es, scope);
    Changes(log)[..UpTo(log, cursor)]
  }

  lemma ReachedPush(es: seq<Entry>, scope: ScopeId, cursor: nat)
    requires Ascending(es) && es != []
    ensures var last := es[|es| - 1];
      var before := Reached(es[..|es| - 1], scope, cursor);
      Reached(es, scope, cursor) == if last.scope == scope && last.change.seqNo <= cursor then before + [last.change]
        else before
  {
    var init, last := es[..|es| - 1], es[|es| - 1];
    if last.scope == scope {
      if last.change.seqNo <= cursor {
        BelowAll(es, scope, cursor);
      }
      UpToPush(ScopeLog(init, scope), last, cursor);
    }
  }

  /** Scanning the row's own history answers what scanning the scope's log up to the cursor would. */
  lemma {:induction false} HistoryIsScan(es: seq<Entry>, scope: ScopeId, key: RowKey, cursor: nat)
    requires Ascending(es)
    ensures VersionIn(History(es, scope, key), cursor) == VersionOf(LastTo(Reached(es, scope, cursor), key))
  {
    if es != [] {
      var init, last := es[..|es| - 1], es[|es| - 1];
      HistoryIsScan(init, scope, key, cursor);
      ReachedPush(es, scope, cursor);
      LastToPush(Reached(init, scope, cursor), last.change, key);
      VersionPush(History(init, scope, key), (last.change.seqNo, last.change.version), cursor);
    }
  }

  lemma VersionPush(h: RowVersions, p: (nat, nat), cursor: nat)
    ensures VersionIn(h + [p], cursor) == if p.0 <= cursor then Some(p.1) else VersionIn(h, cursor)
  {
    assert (h + [p])[..|h|] == h;
  }

  /** When a scope's newest entry is at or below a cursor, all of its entries are. */
  lemma BelowAll(es: seq<Entry>, scope: ScopeId, cursor: nat)
    requires Ascending(es) && es != [] && es[|es| - 1].scope == scope && es[|es| - 1].change.seqNo <= cursor
    ensures UpTo(ScopeLog(es[..|es| - 1], scope), cursor) == |ScopeLog(es[..|es| - 1], scope)|
  {
    var init := ScopeLog(es[..|es| - 1], scope);
    ScopeLogMembers(es[..|es| - 1], scope);
    forall i | 0 <= i < |init| ensures init[i].change.seqNo <= cursor {
      assert init[i] in es[..|es| - 1];
    }
    UpToIs(init, cursor, |init|);
  }

  // ----- live rows -----

  type LiveRows = map<ScopeId, map<RowKey, nat>>

  /** The live rows are the replay of the whole log. */
  ghost predicate RowsAgree(es: seq<Entry>, rows: LiveRows) {
    forall s :: Get(rows, s, map[]) == Versions(Replayed(Changes(ScopeLog(es, s))))
  }

  function Kept(rows: LiveRows, e: Entry): LiveRows {
    var held := Get(rows, e.scope, map[]);
    rows[e.scope := if e.change.snapshot.Some? then held[e.change.key := e.change.version] else held - {e.change.key}]
  }

  lemma RowsPush(es: seq<Entry>, rows: LiveRows, e: Entry)
    requires RowsAgree(es, rows)
    ensures RowsAgree(es + [e], Kept(rows, e))
  {
    assert (es + [e])[..|es|] == es;
    var log := ScopeLog(es, e.scope);
    var more := ScopeLog(es + [e], e.scope);
    assert more == log + [e];
    assert Changes(more)[..|log|] == Changes(log);
    var before := Replayed(Changes(log));
    assert Replayed(Changes(more)) == ReplayOne(before, e.change);
    assert Versions(ReplayOne(before, e.change))
      == if e.change.snapshot.Some? then Versions(before)[e.change.key := e.change.version]
        else Versions(before) - {e.change.key};
    forall s ensures Get(Kept(rows, e), s, map[]) == Versions(Replayed(Changes(ScopeLog(es + [e], s)))) {
      assert Get(rows, s, map[]) == Versions(Replayed(Changes(ScopeLog(es, s))));
    }
  }

  // ----- commits change no index -----

  lemma {:induction false} CommitKeepsIndices(es: seq<Entry>, es': seq<Entry>, s: ScopeId, k: RowKey)
    requires SameEntries(es, es')
    ensures Indices(es', s) == Indices(es, s) && History(es', s, k) == History(es, s, k)
    ensures Changes(ScopeLog(es', s)) == Changes(ScopeLog(es, s))
  {
    if es != [] {
      var n := |es| - 1;
      CommitKeepsIndices(es[..n], es'[..n], s, k);
      assert es'[n] == es[n].(visible := es'[n].visible);
      var a, b := ScopeLog(es[..n], s), ScopeLog(es'[..n], s);
      if es[n].scope == s {
        assert Changes(a + [es[n]]) == Changes(a) + [es[n].change];
        assert Changes(b + [es'[n]]) == Changes(b) + [es[n].change];
      }
    }
  }

  lemma CommitKeepsAgreement(es: seq<Entry>, es': seq<Entry>, byScope: ByScope, rowHistory: RowHistory, rows: LiveRows)
    requires SameEntries(es, es') && IndexAgrees(es, byScope) && HistoryAgrees(es, rowHistory) && RowsAgree(es, rows)
    ensures IndexAgrees(es', byScope) && HistoryAgrees(es', rowHistory) && RowsAgree(es', rows)
  {
    forall s, k ensures Indices(es', s) == Indices(es, s) && History(es', s, k) == History(es, s, k)
      ensures Changes(ScopeLog(es', s)) == Changes(ScopeLog(es, s))
    {
      CommitKeepsIndices(es, es', s, k);
    }
    forall s ensures Get(byScope, s, []) == Indices(es', s)
      ensures Get(rows, s, map[]) == Versions(Replayed(Changes(ScopeLog(es', s))))
    {
      var k: RowKey := Digest.RowKey("", "");
      CommitKeepsIndices(es, es', s, k);
    }
  }

  // ----- search -----

  /** The first position past the cursor, in log time: the count of leading items below it. */
  method PartitionPoint<T>(xs: seq<T>, below: T -> bool) returns (n: nat)
    requires forall i, j :: 0 <= i < j < |xs| && below(xs[j]) ==> below(xs[i])
    ensures n <= |xs|
    ensures forall i :: 0 <= i < n ==> below(xs[i])
    ensures forall i :: n <= i < |xs| ==> !below(xs[i])
  {
    n := 0;
    var hi := |xs|;
    while n < hi
      invariant n <= hi <= |xs|
      invariant forall i :: 0 <= i < n ==> below(xs[i])
      invariant forall i :: hi <= i < |xs| ==> !below(xs[i])
    {
      var mid := n + (hi - n) / 2;
      if below(xs[mid]) {
        n := mid + 1;
      } else {
        hi := mid;
      }
    }
  }

  /** Searching an ascending history is scanning it. */
  lemma {:induction false} SearchIsScan(h: RowVersions, cursor: nat, n: nat)
    requires n <= |h|
    requires forall i :: 0 <= i < n ==> h[i].0 <= cursor
    requires forall i :: n <= i < |h| ==> h[i].0 > cursor
    ensures VersionIn(h, cursor) == if n > 0 then Some(h[n - 1].1) else None
  {
    if h != [] && n < |h| {
      SearchIsScan(h[..|h| - 1], cursor, n);
    }
  }

  // ----- writes held open -----

  /** Writes still waiting after one more step. */
  function Waiting(inFlight: seq<(nat, nat)>): seq<(nat, nat)> {
    if inFlight == [] then []
    else
      var (i, remaining) := inFlight[|inFlight| - 1];
      var init := Waiting(inFlight[..|inFlight| - 1]);
      if remaining <= 1 then init else init + [(i, remaining - 1)]
  }

  function WaitingAfter(inFlight: seq<(nat, nat)>, steps: nat): seq<(nat, nat)> {
    if steps == 0 then inFlight else Waiting(WaitingAfter(inFlight, steps - 1))
  }

  predicate HeldAtMost(inFlight: seq<(nat, nat)>, k: nat) {
    forall p :: p in inFlight ==> p.1 <= k
  }

  lemma {:induction false} WaitingShortens(inFlight: seq<(nat, nat)>, k: nat)
    requires HeldAtMost(inFlight, k + 1)
    ensures HeldAtMost(Waiting(inFlight), k) && (k == 0 ==> Waiting(inFlight) == [])
  {
    if inFlight != [] {
      assert inFlight[|inFlight| - 1] in inFlight;
      WaitingShortens(inFlight[..|inFlight| - 1], k);
    }
  }

  /** Once nobody holds new writes, every write has committed after as many steps as the longest hold. */
  lemma {:induction false} EverythingCommits(inFlight: seq<(nat, nat)>, k: nat, steps: nat)
    requires HeldAtMost(inFlight, k) && steps <= k
    ensures HeldAtMost(WaitingAfter(inFlight, steps), k - steps)
    ensures steps == k > 0 ==> WaitingAfter(inFlight, steps) == []
  {
    if steps > 0 {
      EverythingCommits(inFlight, k, steps - 1);
      WaitingShortens(WaitingAfter(inFlight, steps - 1), k - steps);
    }
  }
}
