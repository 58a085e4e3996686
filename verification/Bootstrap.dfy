/**
 A bootstrap served page by page while the log keeps growing: from an emptied scope, whatever is
 written, deleted or committed between pages and however storage fails, the landed page that says
 nothing is left brings the scope to exactly the live rows of the log that page was cut from.
 */
module Bootstrap {
  import opened Prelude
  import opened Wire
  import opened Replay
  import opened Storage
  import opened EngineSpec
  import opened EngineDigest
  import opened ServerSpec
  import opened PullChannel
  import Compaction
  import EngineRuns
  import Digest
  import Splice

  /** The committed part of a scope's log: all a guarded server serves from. */
  function Seen(es: seq<Entry>): seq<Change> {
    Changes(es)[..Committed(es)]
  }

  lemma SeenIsCandidates(es: seq<Entry>)
    ensures Candidates(es, 0, true, |es|) == Seen(es)
  {
    GuardedCandidates(es, 0, |es|);
  }

  lemma SeenGrows(es: seq<Entry>, es': seq<Entry>)
    requires Grows(es, es')
    ensures Seen(es) <= Seen(es')
  {
    CommittedGrows(es, es');
    assert Changes(es')[..|es|] == Changes(es);
    assert Seen(es')[..Committed(es)] == Changes(es')[..|es|][..Committed(es)];
  }

  // ----- one scope's rows among others' -----

  function Scoped(rows: Rows, mine: RowKey -> bool): Rows {
    map k | k in rows && mine(k) :: rows[k]
  }

  /** Rows of other scopes, untouched. */
  ghost predicate OthersKept(rows: Rows, rows': Rows, mine: RowKey -> bool) {
    forall k :: !mine(k) ==> (k in rows' <==> k in rows) && (k in rows ==> rows'[k] == rows[k])
  }

  lemma KeptIsScoped(rows: Rows, mine: RowKey -> bool)
    ensures Kept(Versions(rows), mine) == Versions(Scoped(rows, mine))
  {
  }

  lemma ScopedStep(rows: Rows, c: Change, mine: RowKey -> bool)
    requires mine(c.key)
    ensures Scoped(ReplayOne(rows, c), mine) == ReplayOne(Scoped(rows, mine), c)
    ensures OthersKept(rows, ReplayOne(rows, c), mine)
  {
  }

  /** Replaying one scope's changes replays them onto its rows and touches no other's. */
  lemma {:induction false} ScopedReplay(rows: Rows, cs: seq<Change>, mine: RowKey -> bool)
    requires forall c :: c in cs ==> mine(c.key)
    ensures Scoped(ReplayOnto(rows, cs), mine) == ReplayOnto(Scoped(rows, mine), cs)
    ensures OthersKept(rows, ReplayOnto(rows, cs), mine)
  {
    if cs != [] {
      var n := |cs| - 1;
      ScopedReplay(rows, cs[..n], mine);
      assert cs[n] in cs;
      ScopedStep(ReplayOnto(rows, cs[..n]), cs[n], mine);
    }
  }

  lemma LocalMine(cfg: Config, cs: seq<Change>, mine: RowKey -> bool)
    requires forall c :: c in cs ==> mine(c.key)
    ensures forall c :: c in LocalAll(cfg, cs) ==> mine(c.key)
  {
    forall c | c in LocalAll(cfg, cs) ensures mine(c.key) {
      var i :| 0 <= i < |cs| && LocalAll(cfg, cs)[i] == c;
      LocalKeeps(cfg, cs[i]);
      assert cs[i] in cs;
    }
  }

  // ----- the invariant between pages -----

  /** A row stands as its latest change left it. */
  predicate Settled(cfg: Config, rows: Rows, c: Change) {
    if c.snapshot.Some? then c.key in rows && rows[c.key] == RowOf(Local(cfg, c)) else c.key !in rows
  }

  /**
   Part way through: every row whose latest change is at or below the cursor is right, no row
   is held that the log never mentions, and at the start nothing is held at all.
   */
  ghost predicate PartWay(cfg: Config, seen: seq<Change>, rows: Rows, cursor: nat) {
    && (forall key :: LastTo(seen, key).Some? && LastTo(seen, key).value.seqNo <= cursor ==>
         Settled(cfg, rows, LastTo(seen, key).value))
    && (forall key :: key in rows ==> LastTo(seen, key).Some?)
    && (cursor == 0 ==> rows == map[])
    && (cursor == 0 || exists c :: c in seen && c.seqNo == cursor)
  }

  /** Changes past the cursor do not decide rows settled below it. */
  lemma {:induction false} LaterLast(a: seq<Change>, b: seq<Change>, key: RowKey)
    ensures LastTo(b, key).Some? ==> LastTo(a + b, key) == LastTo(b, key)
    ensures LastTo(b, key).None? ==> LastTo(a + b, key) == LastTo(a, key)
  {
    if b == [] {
      assert a + b == a;
    } else {
      assert (a + b)[..|a + b| - 1] == a + b[..|b| - 1];
      LaterLast(a, b[..|b| - 1], key);
    }
  }

  /** What commits later lies past any cursor reached so far. */
  lemma MoreIsPast(seen: seq<Change>, more: seq<Change>, cursor: nat)
    requires Compaction.InSeqOrder(seen + more) && forall i :: 0 <= i < |seen + more| ==> (seen + more)[i].seqNo >= 1
    requires cursor == 0 || exists c :: c in seen && c.seqNo == cursor
    ensures forall c :: c in more ==> c.seqNo > cursor
  {
    forall c | c in more ensures c.seqNo > cursor {
      var i :| 0 <= i < |more| && more[i] == c;
      assert (seen + more)[|seen| + i] == c;
      if cursor > 0 {
        var d :| d in seen && d.seqNo == cursor;
        var j :| 0 <= j < |seen| && seen[j] == d;
        assert (seen + more)[j] == d;
      }
    }
  }

  /** The log growing under a bootstrap keeps it part way. */
  lemma GrowthKeepsPartWay(cfg: Config, seen: seq<Change>, seen': seq<Change>, rows: Rows, cursor: nat)
    requires seen <= seen' && Compaction.InSeqOrder(seen') && PartWay(cfg, seen, rows, cursor)
    requires forall i :: 0 <= i < |seen'| ==> seen'[i].seqNo >= 1
    ensures PartWay(cfg, seen', rows, cursor)
  {
    var more := seen'[|seen|..];
    assert seen' == seen + more;
    MoreIsPast(seen, more, cursor);
    forall key | LastTo(seen', key).Some? && LastTo(seen', key).value.seqNo <= cursor
      ensures Settled(cfg, rows, LastTo(seen', key).value) {
      LaterLast(seen, more, key);
      Compaction.LastToMeans(more, key);
    }
    forall key | key in rows ensures LastTo(seen', key).Some? {
      LaterLast(seen, more, key);
    }
  }

  // ----- one page -----

  /** A page: a prefix of what remains, cut off with the right cursor, that says whether it is all. */
  predicate PageOf(seen: seq<Change>, after: nat, page: Batch) {
    var all := Compacted(seen, |seen|, after);
    var n := |page.changes|;
    && n <= |all| && page.changes == all[..n] && (all != [] ==> n > 0)
    && page.nextCursor == (if n == 0 then after else all[n - 1].seqNo)
    && (page.hasMore <==> n < |all|)
  }

  lemma ServedPage(es: seq<Entry>, scope: ScopeId, after: nat, encode: Change -> string, budget: nat,
                   compressedLen: string -> nat)
    ensures var page := PageAnswer(es, scope, after, true, encode, budget, compressedLen);
      PageOf(Seen(es), after, page) && page.scope == scope && page.digest == Digest.ToHex(DigestAt(es, VisibleHead(es)))
  {
    SeenIsCandidates(es);
    var seen := Seen(es);
    Splice.FilledIsCut(scope, after, Compacted(seen, |seen|, after), false, encode, budget, compressedLen,
                       Digest.ToHex(DigestAt(es, VisibleHead(es))));
  }

  lemma PageWithin(seen: seq<Change>, after: nat, page: Batch)
    requires Compaction.InSeqOrder(seen) && PageOf(seen, after, page)
    ensures forall c :: c in page.changes ==> c in Compacted(seen, |seen|, after) && c.seqNo <= page.nextCursor
  {
    var all, n := Compacted(seen, |seen|, after), |page.changes|;
    Compaction.CompactedMembers(seen, |seen|, after);
    forall c | c in page.changes ensures c in all && c.seqNo <= page.nextCursor {
      var i :| 0 <= i < n && all[..n][i] == c;
      assert all[i] == c;
    }
  }

  lemma PageCovers(seen: seq<Change>, after: nat, page: Batch, i: nat)
    requires Compaction.InSeqOrder(seen) && PageOf(seen, after, page) && i < |Compacted(seen, |seen|, after)|
    requires Compacted(seen, |seen|, after)[i].seqNo <= page.nextCursor || !page.hasMore
    ensures Compacted(seen, |seen|, after)[i] in page.changes
  {
    var all, n := Compacted(seen, |seen|, after), |page.changes|;
    Compaction.CompactedMembers(seen, |seen|, after);
    assert i < n;
    assert page.changes[i] == all[i];
  }

  /** What a page's members are. */
  lemma PageMembers(seen: seq<Change>, after: nat, page: Batch)
    requires Compaction.InSeqOrder(seen) && PageOf(seen, after, page)
    ensures Compaction.InSeqOrder(page.changes)
    ensures forall c :: c in page.changes ==> c in seen && Sends(seen, c, after) && c.seqNo <= page.nextCursor
    ensures forall c :: c in seen && Sends(seen, c, after) && (c.seqNo <= page.nextCursor || !page.hasMore) ==>
      c in page.changes
  {
    var all := Compacted(seen, |seen|, after);
    Compaction.CompactedMembers(seen, |seen|, after);
    assert seen[..|seen|] == seen;
    PageWithin(seen, after, page);
    forall c | c in all && (c.seqNo <= page.nextCursor || !page.hasMore) ensures c in page.changes {
      var i :| 0 <= i < |all| && all[i] == c;
      PageCovers(seen, after, page, i);
    }
  }

  /** A row's latest change. */
  predicate Latest(seen: seq<Change>, c: Change) {
    c in seen && forall d :: d in seen && d.key == c.key ==> d.seqNo <= c.seqNo
  }

  lemma LatestIsLast(seen: seq<Change>, c: Change)
    requires Compaction.InSeqOrder(seen)
    ensures Latest(seen, c) <==> LastTo(seen, c.key) == Some(c)
  {
    Compaction.LastToMeans(seen, c.key);
    if Latest(seen, c) {
      var last := LastTo(seen, c.key).value;
      var i, j :| 0 <= i < |seen| && 0 <= j < |seen| && seen[i] == c && seen[j] == last;
    }
  }

  /**
   What a page is, of the log as far as it may be seen: in order, the latest changes of the rows past
   the cursor it was asked from and up to its own, deletes left out from the start; all there are,
   when it says nothing is left.
   */
  lemma PageServesLatest(es: seq<Entry>, scope: ScopeId, after: nat, encode: Change -> string, budget: nat,
                         compressedLen: string -> nat)
    requires Ascending(es)
    ensures var page := PageAnswer(es, scope, after, true, encode, budget, compressedLen);
      && Compaction.InSeqOrder(page.changes)
      && (forall c :: c in page.changes <==>
           Latest(Seen(es), c) && after < c.seqNo && (c.op.Delete? ==> after > 0)
           && (c.seqNo <= page.nextCursor || !page.hasMore))
  {
    var page := PageAnswer(es, scope, after, true, encode, budget, compressedLen);
    ServedPage(es, scope, after, encode, budget, compressedLen);
    SeenInOrder(es);
    PageMembers(Seen(es), after, page);
    forall c: Change ensures Latest(Seen(es), c) <==> LastTo(Seen(es), c.key) == Some(c) {
      LatestIsLast(Seen(es), c);
    }
    forall c: Change | LastTo(Seen(es), c.key) == Some(c) ensures c in Seen(es) {
      Compaction.LastToMeans(Seen(es), c.key);
    }
  }

  lemma SeenInOrder(es: seq<Entry>)
    requires Ascending(es)
    ensures Compaction.InSeqOrder(Seen(es))
  {
    forall i, j | 0 <= i < j < |Seen(es)| ensures Seen(es)[i].seqNo < Seen(es)[j].seqNo {
      assert Seen(es)[i] == es[i].change && Seen(es)[j] == es[j].change;
    }
  }

  /** A page holds at most one change to a row. */
  lemma OnePerRow(seen: seq<Change>, after: nat, page: Batch, key: RowKey)
    requires Compaction.InSeqOrder(seen) && PageOf(seen, after, page)
    ensures forall c :: c in page.changes && c.key == key ==> LastTo(page.changes, key) == Some(c) == LastTo(seen, key)
    ensures LastTo(page.changes, key).Some? ==>
      LastTo(page.changes, key).value in page.changes && LastTo(page.changes, key).value.key == key
  {
    PageMembers(seen, after, page);
    Compaction.LastToMeans(page.changes, key);
    forall c | c in page.changes && c.key == key ensures LastTo(page.changes, key) == Some(c) == LastTo(seen, key) {
      assert Sends(seen, c, after);
      var last := LastTo(page.changes, key).value;
      assert last in page.changes && Sends(seen, last, after);
    }
  }

  /** So replaying it settles each row it names, and leaves the others. */
  lemma PageSettles(cfg: Config, seen: seq<Change>, after: nat, page: Batch, rows: Rows, key: RowKey)
    requires Compaction.InSeqOrder(seen) && PageOf(seen, after, page)
    ensures var rows' := ReplayOnto(rows, LocalAll(cfg, page.changes));
      && (forall c :: c in page.changes && c.key == key ==> Settled(cfg, rows', c))
      && ((forall c :: c in page.changes ==> c.key != key) ==>
           (key in rows' <==> key in rows) && (key in rows ==> rows'[key] == rows[key]))
  {
    OnePerRow(seen, after, page, key);
    ReplayIsLast(rows, LocalAll(cfg, page.changes), key);
    LastToLocal(cfg, page.changes, key);
    if LastTo(page.changes, key).Some? {
      LocalKeeps(cfg, LastTo(page.changes, key).value);
    }
  }

  /** Applying a page moves the bootstrap on; applying the last one finishes it. */
  lemma PageAdvances(cfg: Config, seen: seq<Change>, rows: Rows, cursor: nat, page: Batch)
    requires Compaction.InSeqOrder(seen) && PartWay(cfg, seen, rows, cursor) && PageOf(seen, cursor, page)
    requires forall i :: 0 <= i < |seen| ==> seen[i].seqNo >= 1 && seen[i].Consistent()
    ensures var rows' := ReplayOnto(rows, LocalAll(cfg, page.changes));
      && PartWay(cfg, seen, rows', page.nextCursor)
      && (!page.hasMore ==> forall key :: LastTo(seen, key).Some? ==> Settled(cfg, rows', LastTo(seen, key).value))
  {
    var rows' := ReplayOnto(rows, LocalAll(cfg, page.changes));
    PageMembers(seen, cursor, page);
    PageCursor(seen, cursor, page);
    forall key | LastTo(seen, key).Some? && (LastTo(seen, key).value.seqNo <= page.nextCursor || !page.hasMore)
      ensures Settled(cfg, rows', LastTo(seen, key).value)
    {
      KeySettles(cfg, seen, rows, cursor, page, key);
    }
    forall key | key in rows' ensures LastTo(seen, key).Some? {
      PageSettles(cfg, seen, cursor, page, rows, key);
      Compaction.LastToMeans(seen, key);
    }
  }

  lemma PageCursor(seen: seq<Change>, cursor: nat, page: Batch)
    requires Compaction.InSeqOrder(seen) && PageOf(seen, cursor, page)
    requires cursor == 0 || exists c :: c in seen && c.seqNo == cursor
    ensures page.nextCursor == 0 || exists c :: c in seen && c.seqNo == page.nextCursor
    ensures if page.changes == [] then page.nextCursor == cursor else cursor < page.nextCursor
  {
    PageMembers(seen, cursor, page);
    if page.changes != [] {
      var last := page.changes[|page.changes| - 1];
      assert last in page.changes && last in seen && Sends(seen, last, cursor) && last.seqNo == page.nextCursor;
    }
  }

  /** A row whose latest change is not sent has nothing on the page. */
  lemma OnlyLatest(seen: seq<Change>, cursor: nat, page: Batch, key: RowKey)
    requires Compaction.InSeqOrder(seen) && PageOf(seen, cursor, page)
    requires LastTo(seen, key).Some? && !Sends(seen, LastTo(seen, key).value, cursor)
    ensures forall c :: c in page.changes ==> c.key != key
  {
    PageMembers(seen, cursor, page);
  }

  /** One row across one page. */
  lemma KeySettles(cfg: Config, seen: seq<Change>, rows: Rows, cursor: nat, page: Batch, key: RowKey)
    requires Compaction.InSeqOrder(seen) && PartWay(cfg, seen, rows, cursor) && PageOf(seen, cursor, page)
    requires forall i :: 0 <= i < |seen| ==> seen[i].seqNo >= 1 && seen[i].Consistent()
    requires LastTo(seen, key).Some? && (LastTo(seen, key).value.seqNo <= page.nextCursor || !page.hasMore)
    ensures Settled(cfg, ReplayOnto(rows, LocalAll(cfg, page.changes)), LastTo(seen, key).value)
  {
    var last := LastTo(seen, key).value;
    Compaction.LastToMeans(seen, key);
    PageMembers(seen, cursor, page);
    PageSettles(cfg, seen, cursor, page, rows, key);
    if Sends(seen, last, cursor) {
      assert last in page.changes;
    } else {
      OnlyLatest(seen, cursor, page, key);
      if last.seqNo > cursor {
        assert last.op.Delete? && cursor == 0;
        assert last.snapshot.None?;
      }
    }
  }

  // ----- the whole bootstrap -----

  /** Everything settled, and nothing else held: the replay of the log. */
  lemma AllSettledIsReplay(cfg: Config, seen: seq<Change>, rows: Rows)
    requires forall key :: LastTo(seen, key).Some? ==> Settled(cfg, rows, LastTo(seen, key).value)
    requires forall key :: key in rows ==> LastTo(seen, key).Some?
    ensures rows == Replayed(LocalAll(cfg, seen))
  {
    var spec := Replayed(LocalAll(cfg, seen));
    forall key ensures (key in rows <==> key in spec) && (key in rows ==> rows[key] == spec[key]) {
      ReplayIsLast(map[], LocalAll(cfg, seen), key);
      LastToLocal(cfg, seen, key);
      if LastTo(seen, key).Some? {
        Compaction.LastToMeans(seen, key);
        LocalKeeps(cfg, LastTo(seen, key).value);
      }
    }
  }

  /** One page applied: the server's log as it then stands, the byte budget, and what storage does. */
  datatype PageStep = PageStep(es: seq<Entry>, budget: nat, verdict: Verdict)

  ghost function PageFor(s: Setup, v: Device, p: PageStep): Batch {
    PageAnswer(p.es, s.scope, CursorOf(s, v), true, s.encode, p.budget, s.compressedLen)
  }

  /** Ask for the next page from where storage stands, and apply it as a rebuild. */
  ghost function Paged(s: Setup, v: Device, p: PageStep): Device {
    var o := AppliedBatch(s.cfg, v.mem, v.db, p.verdict, PageFor(s, v, p), !PageFor(s, v, p).hasMore, true);
    v.(mem := o.mem, db := o.db)
  }

  ghost function PagedAll(s: Setup, v: Device, ps: seq<PageStep>): Device {
    if ps == [] then v else Paged(s, PagedAll(s, v, ps[..|ps| - 1]), ps[|ps| - 1])
  }

  /** The log between pages only grows, and holds the scope's own rows. */
  ghost predicate Served(s: Setup, mine: RowKey -> bool, ps: seq<PageStep>) {
    && (forall i :: 0 <= i < |ps| ==> LogSound(s, ps[i].es) && Owned(ps[i].es, mine))
    && (forall i :: 0 < i < |ps| ==> Grows(ps[i - 1].es, ps[i].es))
  }

  ghost predicate Owned(es: seq<Entry>, mine: RowKey -> bool) {
    forall e :: e in es ==> mine(e.change.key)
  }

  ghost predicate Building(s: Setup, mine: RowKey -> bool, es: seq<Entry>, v: Device) {
    && MemoryAgrees(v.mem, v.db, s.scope) && DigestExact(v.db, s.scope, mine)
    && PartWay(s.cfg, Seen(es), Scoped(v.db.rows, mine), CursorOf(s, v))
  }

  lemma SeenSound(s: Setup, es: seq<Entry>)
    requires LogSound(s, es)
    ensures Compaction.InSeqOrder(Seen(es))
    ensures forall c :: c in Seen(es) ==> c.seqNo >= 1 && c.Consistent() && Reachable(s.cfg, c)
    ensures forall i :: 0 <= i < |Seen(es)| ==> Seen(es)[i].seqNo >= 1 && Seen(es)[i].Consistent()
  {
    forall c | c in Seen(es) ensures c.seqNo >= 1 && c.Consistent() && Reachable(s.cfg, c) {
      var i :| 0 <= i < Committed(es) && Seen(es)[i] == c;
      assert c == es[i].change && EntrySound(s, es[i]);
    }
    forall i | 0 <= i < |Seen(es)| ensures Seen(es)[i].seqNo >= 1 && Seen(es)[i].Consistent() {
      assert Seen(es)[i] in Seen(es);
    }
  }

  lemma SeenOwned(es: seq<Entry>, mine: RowKey -> bool)
    requires Owned(es, mine)
    ensures forall c :: c in Seen(es) ==> mine(c.key)
  {
    forall c | c in Seen(es) ensures mine(c.key) {
      var i :| 0 <= i < Committed(es) && Seen(es)[i] == c;
      assert es[i] in es;
    }
  }

  lemma PageInOrder(s: Setup, es: seq<Entry>, cursor: nat, page: Batch)
    requires LogSound(s, es) && PageOf(Seen(es), cursor, page)
    ensures BatchFault(page, cursor).None?
    ensures forall c :: c in page.changes ==> c in Seen(es) && Reachable(s.cfg, c) && c.Consistent()
  {
    SeenSound(s, es);
    PageMembers(Seen(es), cursor, page);
    forall i | 0 <= i < |page.changes| ensures cursor < page.changes[i].seqNo && page.changes[i].Consistent() {
      assert page.changes[i] in page.changes;
    }
    BatchFaultMeaning(page, cursor);
  }

  // ----- which pages land -----

  predicate DistinctRows(cs: seq<Change>) {
    forall i, j :: 0 <= i < j < |cs| ==> cs[i].key != cs[j].key
  }

  lemma {:induction false} DistinctOverwrites(cfg: Config, versions: map<RowKey, nat>, cs: seq<Change>)
    requires DistinctRows(cs)
    ensures EngineRuns.NoOverwrite(cfg, versions, cs) <==>
      forall c :: c in cs ==> !EngineRuns.Overwrites(cfg, versions, c)
  {
    if cs != [] {
      var init, c := cs[..|cs| - 1], cs[|cs| - 1];
      assert forall i :: 0 <= i < |init| ==> init[i] == cs[i];
      DistinctOverwrites(cfg, versions, init);
      Untouched(versions, init, c.key);
      assert EngineRuns.Overwrites(cfg, VersionsAfter(versions, init), c) <==> EngineRuns.Overwrites(cfg, versions, c);
      assert forall d :: d in cs <==> d in init || d == c by {
        assert cs == init + [c];
      }
    }
  }

  lemma PageRowsDistinct(seen: seq<Change>, after: nat, page: Batch)
    requires Compaction.InSeqOrder(seen) && PageOf(seen, after, page)
    ensures DistinctRows(page.changes)
  {
    PageMembers(seen, after, page);
    forall i, j | 0 <= i < j < |page.changes| ensures page.changes[i].key != page.changes[j].key {
      assert page.changes[i] in page.changes && page.changes[j] in page.changes;
      assert Sends(seen, page.changes[i], after) && Sends(seen, page.changes[j], after);
    }
  }

  /**
   A page lands if and only if its transaction does not fail outright and it puts no other version
   over an append-only row the device holds.
   */
  lemma PageLandsIff(s: Setup, es: seq<Entry>, db: DbState, page: Batch, verdict: Verdict)
    requires LogSound(s, es) && page.scope == s.scope && PageOf(Seen(es), StoredState(db, s.scope).cursor, page)
    ensures Landed(s.cfg, db, verdict, page) <==>
      !verdict.FailBeforeCommit?
      && forall c :: c in page.changes ==> !EngineRuns.Overwrites(s.cfg, Versions(db.rows), c)
  {
    var cursor := StoredState(db, s.scope).cursor;
    SeenSound(s, es);
    PageInOrder(s, es, cursor, page);
    PageRowsDistinct(Seen(es), cursor, page);
    DistinctOverwrites(s.cfg, Versions(db.rows), page.changes);
    EngineRuns.LandedMeansAccepted(s.cfg, db, page, verdict);
  }

  // ----- pages applied -----

  lemma PageOwned(s: Setup, mine: RowKey -> bool, es: seq<Entry>, cursor: nat, page: Batch)
    requires LogSound(s, es) && Owned(es, mine) && PageOf(Seen(es), cursor, page)
    ensures forall c :: c in page.changes ==> Reachable(s.cfg, c) && mine(c.key)
  {
    PageInOrder(s, es, cursor, page);
    SeenOwned(es, mine);
  }

  lemma PageMovesOn(s: Setup, mine: RowKey -> bool, es: seq<Entry>, rows: Rows, cursor: nat, page: Batch)
    requires LogSound(s, es) && Owned(es, mine) && PageOf(Seen(es), cursor, page)
    requires PartWay(s.cfg, Seen(es), Scoped(rows, mine), cursor)
    ensures var rows' := ReplayOnto(rows, LocalAll(s.cfg, page.changes));
      && PartWay(s.cfg, Seen(es), Scoped(rows', mine), page.nextCursor) && OthersKept(rows, rows', mine)
      && (!page.hasMore ==> Scoped(rows', mine) == Replayed(LocalAll(s.cfg, Seen(es))))
  {
    SeenSound(s, es);
    PageOwned(s, mine, es, cursor, page);
    LocalMine(s.cfg, page.changes, mine);
    ScopedReplay(rows, LocalAll(s.cfg, page.changes), mine);
    PageAdvances(s.cfg, Seen(es), Scoped(rows, mine), cursor, page);
    if !page.hasMore {
      AllSettledIsReplay(s.cfg, Seen(es), Scoped(ReplayOnto(rows, LocalAll(s.cfg, page.changes)), mine));
    }
  }

  /** One page asked for and applied, landed or not. */
  lemma PageKeepsBuilding(s: Setup, mine: RowKey -> bool, v: Device, p: PageStep)
    requires LogSound(s, p.es) && Owned(p.es, mine) && Building(s, mine, p.es, v)
    ensures Building(s, mine, p.es, Paged(s, v, p)) && OthersKept(v.db.rows, Paged(s, v, p).db.rows, mine)
    ensures Landed(s.cfg, v.db, p.verdict, PageFor(s, v, p)) && !PageFor(s, v, p).hasMore ==>
      Scoped(Paged(s, v, p).db.rows, mine) == Replayed(LocalAll(s.cfg, Seen(p.es)))
  {
    var page := PageFor(s, v, p);
    ServedPage(p.es, s.scope, CursorOf(s, v), s.encode, p.budget, s.compressedLen);
    PageOwned(s, mine, p.es, CursorOf(s, v), page);
    CleanApplyRefines(s.cfg, v.mem, v.db, p.verdict, page, !page.hasMore, true, mine);
    PageMovesOn(s, mine, p.es, v.db.rows, CursorOf(s, v), page);
  }

  /** A scope with nothing held and its cursor at the start is where a bootstrap starts. */
  ghost predicate Emptied(s: Setup, mine: RowKey -> bool, v: Device) {
    && MemoryAgrees(v.mem, v.db, s.scope) && DigestExact(v.db, s.scope, mine)
    && Scoped(v.db.rows, mine) == map[] && CursorOf(s, v) == 0
  }

  lemma EmptiedIsBuilding(s: Setup, mine: RowKey -> bool, es: seq<Entry>, v: Device)
    requires LogSound(s, es) && Emptied(s, mine, v)
    ensures Building(s, mine, es, v)
  {
    SeenSound(s, es);
    forall key | LastTo(Seen(es), key).Some? ensures LastTo(Seen(es), key).value.seqNo >= 1 {
      Compaction.LastToMeans(Seen(es), key);
    }
  }

  lemma ServedPrefix(s: Setup, mine: RowKey -> bool, ps: seq<PageStep>)
    requires Served(s, mine, ps) && |ps| > 1
    ensures var n := |ps| - 1;
      && Served(s, mine, ps[..n]) && LogSound(s, ps[n].es) && Owned(ps[n].es, mine)
      && Grows(ps[n - 1].es, ps[n].es) && ps[..n][0] == ps[0] && ps[..n][n - 1] == ps[n - 1]
  {
    var n := |ps| - 1;
    assert forall i :: 0 <= i < n ==> ps[..n][i] == ps[i];
  }

  lemma OthersKeptTwice(a: Rows, b: Rows, c: Rows, mine: RowKey -> bool)
    requires OthersKept(a, b, mine) && OthersKept(b, c, mine)
    ensures OthersKept(a, c, mine)
  {
  }

  /** Still building when the last page is asked for, against the log as it stands by then. */
  lemma {:induction false} BuildingBefore(s: Setup, mine: RowKey -> bool, v: Device, ps: seq<PageStep>)
    requires Served(s, mine, ps) && ps != [] && Building(s, mine, ps[0].es, v)
    ensures var w := PagedAll(s, v, ps[..|ps| - 1]);
      Building(s, mine, ps[|ps| - 1].es, w) && OthersKept(v.db.rows, w.db.rows, mine)
    ensures LogSound(s, ps[|ps| - 1].es) && Owned(ps[|ps| - 1].es, mine)
  {
    var n := |ps| - 1;
    if n == 0 {
      assert ps[..0] == [];
    } else {
      ServedPrefix(s, mine, ps);
      BuildingBefore(s, mine, v, ps[..n]);
      var before := PagedAll(s, v, ps[..n][..n - 1]);
      PageKeepsBuilding(s, mine, before, ps[n - 1]);
      OthersKeptTwice(v.db.rows, before.db.rows, PagedAll(s, v, ps[..n]).db.rows, mine);
      GrowthKeepsBuilding(s, mine, ps[n - 1].es, ps[n].es, PagedAll(s, v, ps[..n]));
    }
  }

  lemma GrowthKeepsBuilding(s: Setup, mine: RowKey -> bool, es: seq<Entry>, es': seq<Entry>, v: Device)
    requires Grows(es, es') && LogSound(s, es') && Building(s, mine, es, v)
    ensures Building(s, mine, es', v)
  {
    SeenGrows(es, es');
    SeenSound(s, es');
    GrowthKeepsPartWay(s.cfg, Seen(es), Seen(es'), Scoped(v.db.rows, mine), CursorOf(s, v));
  }

  // ----- the whole bootstrap -----

  /** The device just before the last page. */
  ghost function BeforeLast(s: Setup, v: Device, ps: seq<PageStep>): Device
    requires ps != []
  {
    PagedAll(s, v, ps[..|ps| - 1])
  }

  /** The last page says nothing is left, and it landed, acknowledged or not. */
  ghost predicate Finishes(s: Setup, v: Device, ps: seq<PageStep>)
    requires ps != []
  {
    var w, last := BeforeLast(s, v, ps), ps[|ps| - 1];
    Landed(s.cfg, w.db, last.verdict, PageFor(s, w, last)) && !PageFor(s, w, last).hasMore
  }

  /**
   From an emptied scope of a device that may hold other scopes' rows, over any pages between which
   the log grows by any upserts, deletes and commits, with page transactions failing or lying: once
   a page that says nothing is left has landed, the scope's stored rows are exactly the live rows of
   the log it was cut from, the stored digest is the sum over them, and no other row has changed.
   */
  lemma BootstrapBuildsLiveRows(s: Setup, owner: RowKey -> ScopeId, v: Device, ps: seq<PageStep>)
    requires var mine := EngineRuns.Mine(owner, s.scope); Served(s, mine, ps) && Emptied(s, mine, v)
    requires ps != [] && Finishes(s, v, ps)
    ensures var mine, w := EngineRuns.Mine(owner, s.scope), PagedAll(s, v, ps);
      && Scoped(w.db.rows, mine) == Replayed(LocalAll(s.cfg, Seen(ps[|ps| - 1].es)))
      && StoredState(w.db, s.scope).digest == Digest.DigestOf(Versions(Scoped(w.db.rows, mine)))
      && OthersKept(v.db.rows, w.db.rows, mine)
  {
    var n, mine := |ps| - 1, EngineRuns.Mine(owner, s.scope);
    EmptiedIsBuilding(s, mine, ps[0].es, v);
    BuildingBefore(s, mine, v, ps);
    PageKeepsBuilding(s, mine, PagedAll(s, v, ps[..n]), ps[n]);
    OthersKeptTwice(v.db.rows, PagedAll(s, v, ps[..n]).db.rows, PagedAll(s, v, ps).db.rows, mine);
    KeptIsScoped(PagedAll(s, v, ps).db.rows, mine);
  }

  /**
   A landed rebuild empties the scope, whatever it held and whatever its digest was, if all of its rows are
   registered under it.
   */
  lemma RebuildEmpties(s: Setup, mine: RowKey -> bool, v: Device, verdict: Verdict)
    requires !verdict.FailBeforeCommit?
    requires forall k :: k in v.db.rows && mine(k) ==> EngineRuns.RegisteredUnder(s.cfg, k.entity, s.scope)
    ensures var o := Rebootstrapped(s.cfg, v.mem, v.db, verdict, s.scope);
      Emptied(s, mine, v.(mem := o.mem, db := o.db))
  {
    EngineRuns.RebuildWrites(s.cfg, v.db, s.scope);
    EngineRuns.RebuildDigest(s.cfg, v.db, s.scope, mine);
    Digest.EmptyDigest();
    var left := EngineRuns.Unregistered(s.cfg, v.db.rows, s.scope);
    assert Scoped(left, mine) == map[];
    KeptIsScoped(left, mine);
    assert Kept(Versions(left), mine) == map[];
  }

  /** So a rebuild and a bootstrap heal any scope whose rows are registered, wherever it had strayed to. */
  lemma RebuildHeals(s: Setup, owner: RowKey -> ScopeId, v: Device, verdict: Verdict, ps: seq<PageStep>)
    requires !verdict.FailBeforeCommit? && ps != []
    requires var mine := EngineRuns.Mine(owner, s.scope);
      Served(s, mine, ps) && forall k :: k in v.db.rows && mine(k) ==>
        EngineRuns.RegisteredUnder(s.cfg, k.entity, s.scope)
    requires var o := Rebootstrapped(s.cfg, v.mem, v.db, verdict, s.scope);
      Finishes(s, v.(mem := o.mem, db := o.db), ps)
    ensures var o := Rebootstrapped(s.cfg, v.mem, v.db, verdict, s.scope);
      var mine, w := EngineRuns.Mine(owner, s.scope), PagedAll(s, v.(mem := o.mem, db := o.db), ps);
      && Scoped(w.db.rows, mine) == Replayed(LocalAll(s.cfg, Seen(ps[|ps| - 1].es)))
      && StoredState(w.db, s.scope).digest == Digest.DigestOf(Versions(Scoped(w.db.rows, mine)))
  {
    var o := Rebootstrapped(s.cfg, v.mem, v.db, verdict, s.scope);
    RebuildEmpties(s, EngineRuns.Mine(owner, s.scope), v, verdict);
    BootstrapBuildsLiveRows(s, owner, v.(mem := o.mem, db := o.db), ps);
  }

  // ----- a bootstrap that ends -----

  /** Nothing is held whose latest change lies past the cursor. */
  ghost predicate NothingAhead(seen: seq<Change>, rows: Rows, cursor: nat) {
    forall key :: key in rows ==> LastTo(seen, key).Some? && LastTo(seen, key).value.seqNo <= cursor
  }

  /** So no page overwrites anything. */
  lemma NothingOverwritten(s: Setup, mine: RowKey -> bool, es: seq<Entry>, rows: Rows, cursor: nat, page: Batch)
    requires LogSound(s, es) && Owned(es, mine) && PageOf(Seen(es), cursor, page)
    requires NothingAhead(Seen(es), Scoped(rows, mine), cursor)
    ensures forall c :: c in page.changes ==> !EngineRuns.Overwrites(s.cfg, Versions(rows), c)
  {
    SeenSound(s, es);
    SeenOwned(es, mine);
    PageMembers(Seen(es), cursor, page);
    forall c | c in page.changes ensures c.key !in rows {
      assert c.key !in Scoped(rows, mine);
    }
  }

  lemma PageLeavesNothingAhead(s: Setup, mine: RowKey -> bool, es: seq<Entry>, rows: Rows, cursor: nat, page: Batch)
    requires LogSound(s, es) && Owned(es, mine) && PageOf(Seen(es), cursor, page) && cursor <= page.nextCursor
    requires NothingAhead(Seen(es), Scoped(rows, mine), cursor)
    ensures NothingAhead(Seen(es), Scoped(ReplayOnto(rows, LocalAll(s.cfg, page.changes)), mine), page.nextCursor)
  {
    SeenSound(s, es);
    PageMembers(Seen(es), cursor, page);
    var rows' := Scoped(ReplayOnto(rows, LocalAll(s.cfg, page.changes)), mine);
    forall key | key in rows'
      ensures LastTo(Seen(es), key).Some? && LastTo(Seen(es), key).value.seqNo <= page.nextCursor
    {
      PageSettles(s.cfg, Seen(es), cursor, page, rows, key);
      if c :| c in page.changes && c.key == key {
        assert Sends(Seen(es), c, cursor);
      } else {
        assert key in Scoped(rows, mine);
      }
    }
  }

  /** A landed page with more to come has moved on along the log. */
  lemma PageMovesAlong(s: Setup, es: seq<Entry>, cursor: nat, page: Batch)
    requires LogSound(s, es) && PageOf(Seen(es), cursor, page)
    requires cursor == 0 || exists c :: c in Seen(es) && c.seqNo == cursor
    ensures cursor <= page.nextCursor
    ensures page.hasMore ==> UpTo(es, cursor) < UpTo(es, page.nextCursor)
  {
    SeenSound(s, es);
    PageCursor(Seen(es), cursor, page);
    if page.hasMore {
      var c :| c in Seen(es) && c.seqNo == page.nextCursor;
      var i :| 0 <= i < |Seen(es)| && Seen(es)[i] == c;
      assert es[i].change == c;
      UpToSplits(es, cursor);
      UpToSplits(es, page.nextCursor);
    }
  }

  lemma FaultFreePage(s: Setup, mine: RowKey -> bool, v: Device, p: PageStep)
    requires LogSound(s, p.es) && Owned(p.es, mine) && Building(s, mine, p.es, v) && p.verdict.Commit?
    requires NothingAhead(Seen(p.es), Scoped(v.db.rows, mine), CursorOf(s, v))
    ensures Landed(s.cfg, v.db, p.verdict, PageFor(s, v, p))
    ensures var w := Paged(s, v, p);
      && NothingAhead(Seen(p.es), Scoped(w.db.rows, mine), CursorOf(s, w))
      && (PageFor(s, v, p).hasMore ==> UpTo(p.es, CursorOf(s, v)) < UpTo(p.es, CursorOf(s, w)))
  {
    var page := PageFor(s, v, p);
    ServedPage(p.es, s.scope, CursorOf(s, v), s.encode, p.budget, s.compressedLen);
    NothingOverwritten(s, mine, p.es, v.db.rows, CursorOf(s, v), page);
    PageLandsIff(s, p.es, v.db, page, p.verdict);
    PageMovesAlong(s, p.es, CursorOf(s, v), page);
    PageLeavesNothingAhead(s, mine, p.es, v.db.rows, CursorOf(s, v), page);
    PageOwned(s, mine, p.es, CursorOf(s, v), page);
    CleanApplyRefines(s.cfg, v.mem, v.db, p.verdict, page, !page.hasMore, true, mine);
  }

  /** How many entries along a bootstrap is, counted from one; zero when it is not part way or holds what lies ahead. */
  ghost function Along(s: Setup, mine: RowKey -> bool, es: seq<Entry>, v: Device): nat {
    if Building(s, mine, es, v) && NothingAhead(Seen(es), Scoped(v.db.rows, mine), CursorOf(s, v))
    then UpTo(es, CursorOf(s, v)) + 1 else 0
  }

  lemma OneFurther(s: Setup, mine: RowKey -> bool, v: Device, p: PageStep)
    requires LogSound(s, p.es) && Owned(p.es, mine) && Along(s, mine, p.es, v) > 0 && p.verdict.Commit?
    ensures Landed(s.cfg, v.db, p.verdict, PageFor(s, v, p))
    ensures PageFor(s, v, p).hasMore ==> Along(s, mine, p.es, v) < Along(s, mine, p.es, Paged(s, v, p))
  {
    FaultFreePage(s, mine, v, p);
    PageKeepsBuilding(s, mine, v, p);
  }

  /** The last of some pages, when it does not finish, takes the bootstrap further on. */
  lemma NotTheLast(s: Setup, mine: RowKey -> bool, v: Device, ps: seq<PageStep>, es: seq<Entry>)
    requires ps != [] && ps[|ps| - 1].es == es && ps[|ps| - 1].verdict.Commit?
    requires LogSound(s, es) && Owned(es, mine) && Along(s, mine, es, PagedAll(s, v, ps[..|ps| - 1])) > 0
    requires !Finishes(s, v, ps)
    ensures Along(s, mine, es, PagedAll(s, v, ps[..|ps| - 1])) < Along(s, mine, es, PagedAll(s, v, ps))
  {
    OneFurther(s, mine, BeforeLast(s, v, ps), ps[|ps| - 1]);
  }

  /** Fault-free pages of one log. */
  predicate FaultFree(es: seq<Entry>, ps: seq<PageStep>) {
    forall i :: 0 <= i < |ps| ==> ps[i].es == es && ps[i].verdict.Commit?
  }

  /** None of these pages finishes, each taken as the last. */
  ghost predicate NoneFinishes(s: Setup, v: Device, ps: seq<PageStep>) {
    ps == [] || (NoneFinishes(s, v, ps[..|ps| - 1]) && !Finishes(s, v, ps))
  }

  lemma {:induction false} OneFinishes(s: Setup, v: Device, ps: seq<PageStep>) returns (n: nat)
    requires !NoneFinishes(s, v, ps)
    ensures 0 < n <= |ps| && Finishes(s, v, ps[..n])
  {
    n := |ps|;
    assert ps[..n] == ps;
    if !NoneFinishes(s, v, ps[..|ps| - 1]) {
      n := OneFinishes(s, v, ps[..|ps| - 1]);
      assert ps[..|ps| - 1][..n] == ps[..n];
    }
  }

  /** Each of them then moves the bootstrap at least one entry on. */
  lemma {:induction false} PagesGoOn(s: Setup, mine: RowKey -> bool, v: Device, es: seq<Entry>, ps: seq<PageStep>)
    requires LogSound(s, es) && Owned(es, mine) && Along(s, mine, es, v) > 0
    requires FaultFree(es, ps) && NoneFinishes(s, v, ps)
    ensures |ps| < Along(s, mine, es, PagedAll(s, v, ps))
  {
    if ps != [] {
      PagesGoOn(s, mine, v, es, ps[..|ps| - 1]);
      NotTheLast(s, mine, v, ps, es);
    }
  }

  lemma EmptiedStarts(s: Setup, mine: RowKey -> bool, es: seq<Entry>, v: Device)
    requires LogSound(s, es) && Emptied(s, mine, v)
    ensures Along(s, mine, es, v) > 0
  {
    EmptiedIsBuilding(s, mine, es, v);
  }

  lemma SomeFinishes(s: Setup, mine: RowKey -> bool, v: Device, es: seq<Entry>, ps: seq<PageStep>)
    requires LogSound(s, es) && Owned(es, mine) && Along(s, mine, es, v) > 0
    requires FaultFree(es, ps) && |ps| > |es|
    ensures !NoneFinishes(s, v, ps)
  {
    if NoneFinishes(s, v, ps) {
      PagesGoOn(s, mine, v, es, ps);
    }
  }

  /**
   A bootstrap ends: from an emptied scope, over a log that stands still and with nothing failing,
   some page among the first |es| + 1 lands and says nothing is left, whatever the budgets.
   */
  lemma BootstrapEnds(s: Setup, owner: RowKey -> ScopeId, v: Device, es: seq<Entry>, ps: seq<PageStep>)
    returns (n: nat)
    requires var mine := EngineRuns.Mine(owner, s.scope);
      LogSound(s, es) && Owned(es, mine) && Emptied(s, mine, v)
    requires FaultFree(es, ps) && |ps| > |es|
    ensures 0 < n <= |ps| && Finishes(s, v, ps[..n])
  {
    EmptiedStarts(s, EngineRuns.Mine(owner, s.scope), es, v);
    SomeFinishes(s, EngineRuns.Mine(owner, s.scope), v, es, ps);
    n := OneFinishes(s, v, ps);
  }

  // ----- what the last page reports -----

  lemma LastPageCompares(s: Setup, mine: RowKey -> bool, v: Device, p: PageStep)
    requires LogSound(s, p.es) && Owned(p.es, mine) && Building(s, mine, p.es, v)
    requires Landed(s.cfg, v.db, p.verdict, PageFor(s, v, p)) && !PageFor(s, v, p).hasMore && p.verdict.Commit?
    ensures var r := AppliedBatch(s.cfg, v.mem, v.db, p.verdict, PageFor(s, v, p), true, true).result;
      r.Ok? && (r.value.diverged <==>
        Digest.DigestOf(Versions(Replayed(Seen(p.es)))) != Digest.DigestOf(HeldIn(Seen(p.es))))
  {
    var page := PageFor(s, v, p);
    ServedPage(p.es, s.scope, CursorOf(s, v), s.encode, p.budget, s.compressedLen);
    PageOwned(s, mine, p.es, CursorOf(s, v), page);
    CleanApplyRefines(s.cfg, v.mem, v.db, p.verdict, page, true, true, mine);
    PageMovesOn(s, mine, p.es, v.db.rows, CursorOf(s, v), page);
    var rows := Paged(s, v, p).db.rows;
    KeptIsScoped(rows, mine);
    ReplayVersionsLocal(s.cfg, Seen(p.es));
    HeadDigest(p.es);
    Digest.HexInjective(Digest.DigestOf(Versions(Replayed(Seen(p.es)))), Digest.DigestOf(HeldIn(Seen(p.es))));
  }

  /**
   When the last page of such a bootstrap, acknowledged, reports divergence: exactly when the live
   rows of the log it was cut from and the server's history of that log do not sum alike. The
   device holds the right rows either way, so rebuilding again cannot make it stop.
   */
  lemma LastPageReports(s: Setup, owner: RowKey -> ScopeId, v: Device, ps: seq<PageStep>)
    requires var mine := EngineRuns.Mine(owner, s.scope); Served(s, mine, ps) && Emptied(s, mine, v)
    requires ps != [] && Finishes(s, v, ps) && ps[|ps| - 1].verdict.Commit?
    ensures var w, last := BeforeLast(s, v, ps), ps[|ps| - 1];
      var r := AppliedBatch(s.cfg, w.mem, w.db, last.verdict, PageFor(s, w, last), true, true).result;
      && r.Ok?
      && (r.value.diverged <==>
           Digest.DigestOf(Versions(Replayed(Seen(last.es)))) != Digest.DigestOf(HeldIn(Seen(last.es))))
      && (NoTombstoneLast(Seen(last.es)) ==> !r.value.diverged)
  {
    var mine := EngineRuns.Mine(owner, s.scope);
    EmptiedIsBuilding(s, mine, ps[0].es, v);
    BuildingBefore(s, mine, v, ps);
    LastPageCompares(s, mine, BeforeLast(s, v, ps), ps[|ps| - 1]);
    HistoryMatchesReplay(Seen(ps[|ps| - 1].es));
  }

  // ----- a bootstrap that cannot finish -----

  /** An append-only row written, deleted, and written again at another version. */
  ghost predicate Rewritten(s: Setup, first: Change, gone: Change, again: Change) {
    && 1 <= first.seqNo < gone.seqNo < again.seqNo && first.key == gone.key == again.key
    && first.Consistent() && gone.Consistent() && again.Consistent()
    && Reachable(s.cfg, first) && Reachable(s.cfg, gone) && Reachable(s.cfg, again)
    && first.snapshot.Some? && gone.snapshot.None? && again.snapshot.Some? && first.version != again.version
    && ClassOf(s.cfg.registry, first.key.entity) == Some(AppendOnly)
  }

  function Story(s: Setup, cs: seq<Change>): (es: seq<Entry>)
    ensures |es| == |cs| && forall i :: 0 <= i < |cs| ==> es[i] == Entry(s.scope, cs[i], true, None)
  {
    seq(|cs|, i requires 0 <= i < |cs| => Entry(s.scope, cs[i], true, None))
  }

  lemma StorySeen(s: Setup, cs: seq<Change>)
    requires Compaction.InSeqOrder(cs)
    requires forall i :: 0 <= i < |cs| ==> cs[i].seqNo >= 1 && cs[i].Consistent() && Reachable(s.cfg, cs[i])
    ensures LogSound(s, Story(s, cs)) && Seen(Story(s, cs)) == cs
  {
    var es := Story(s, cs);
    assert Committed(es) == |es|;
    assert Changes(es)[..|es|] == cs;
    forall e | e in es ensures EntrySound(s, e) {
      var i :| 0 <= i < |es| && es[i] == e;
    }
  }

  /** A pull takes the three changes: the delete lies between the two versions. */
  lemma PullTakesThem(s: Setup, first: Change, gone: Change, again: Change)
    requires Rewritten(s, first, gone, again)
    ensures EngineRuns.NoOverwrite(s.cfg, map[], [first, gone, again])
  {
    var three, two, one := [first, gone, again], [first, gone], [first];
    assert three[..2] == two && two[..1] == one && one[..0] == [];
    var none: map<RowKey, nat> := map[];
    assert VersionsAfter(none, []) == none && EngineRuns.NoOverwrite(s.cfg, none, []);
    assert VersionsAfter(map[], one) == map[first.key := first.version];
    assert VersionsAfter(map[], two) == map[first.key := first.version] - {first.key};
    assert EngineRuns.NoOverwrite(s.cfg, map[], one);
    assert EngineRuns.NoOverwrite(s.cfg, map[], two);
  }

  /** The log's latest change to a row writes it at another version than this one. */
  ghost predicate WrittenAnew(es: seq<Entry>, key: RowKey, held: nat) {
    var last := LastTo(Seen(es), key);
    last.Some? && last.value.snapshot.Some? && last.value.version != held
  }

  /** A device that holds an append-only row the log ahead of it writes anew. */
  ghost predicate Barred(s: Setup, es: seq<Entry>, v: Device, key: RowKey) {
    && MemoryAgrees(v.mem, v.db, s.scope) && ClassOf(s.cfg.registry, key.entity) == Some(AppendOnly)
    && key in v.db.rows && WrittenAnew(es, key, v.db.rows[key].version)
    && CursorOf(s, v) < LastTo(Seen(es), key).value.seqNo
  }

  /** A page either holds the change that bars it, or stops short of it and names the row nowhere. */
  lemma ServedShort(seen: seq<Change>, cursor: nat, page: Batch, key: RowKey)
    requires Compaction.InSeqOrder(seen) && PageOf(seen, cursor, page)
    requires LastTo(seen, key).Some? && LastTo(seen, key).value.op.Upsert? && cursor < LastTo(seen, key).value.seqNo
    ensures var last := LastTo(seen, key).value;
      last in page.changes
      || (page.hasMore && page.nextCursor < last.seqNo && forall c :: c in page.changes ==> c.key != key)
  {
    Compaction.LastToMeans(seen, key);
    PageMembers(seen, cursor, page);
    var last := LastTo(seen, key).value;
    assert Sends(seen, last, cursor);
    forall c | c in page.changes && c.key == key ensures c == last {
      assert Sends(seen, c, cursor);
    }
  }

  lemma WouldOverwrite(cfg: Config, rows: Rows, c: Change)
    requires Reachable(cfg, c) && c.snapshot.Some? && ClassOf(cfg.registry, c.key.entity) == Some(AppendOnly)
    requires c.key in rows && rows[c.key].version != c.version
    ensures EngineRuns.Overwrites(cfg, Versions(rows), c)
  {
  }

  /** What a landed page that names the row nowhere leaves of it. */
  lemma RowStays(cfg: Config, seen: seq<Change>, cursor: nat, page: Batch, rows: Rows, key: RowKey)
    requires Compaction.InSeqOrder(seen) && PageOf(seen, cursor, page) && key in rows
    requires forall c :: c in page.changes ==> c.key != key && Reachable(cfg, c)
    ensures var rows' := ReplayOnto(rows, Storable(cfg, page.changes)); key in rows' && rows'[key] == rows[key]
  {
    AllStorable(cfg, page.changes);
    PageSettles(cfg, seen, cursor, page, rows, key);
  }

  /** The page either is refused or does not get past the change that bars the device. */
  lemma BarredPage(s: Setup, es: seq<Entry>, v: Device, page: Batch, verdict: Verdict, key: RowKey)
    requires LogSound(s, es) && Barred(s, es, v, key)
    requires page.scope == s.scope && PageOf(Seen(es), CursorOf(s, v), page)
    ensures Landed(s.cfg, v.db, verdict, page) ==>
      && page.hasMore && page.nextCursor < LastTo(Seen(es), key).value.seqNo
      && var rows' := ReplayOnto(v.db.rows, Storable(s.cfg, page.changes)); key in rows' && rows'[key] == v.db.rows[key]
  {
    SeenSound(s, es);
    PageInOrder(s, es, CursorOf(s, v), page);
    Compaction.LastToMeans(Seen(es), key);
    var last := LastTo(Seen(es), key).value;
    ServedShort(Seen(es), CursorOf(s, v), page, key);
    if last in page.changes {
      WouldOverwrite(s.cfg, v.db.rows, last);
      PageLandsIff(s, es, v.db, page, verdict);
    } else {
      RowStays(s.cfg, Seen(es), CursorOf(s, v), page, v.db.rows, key);
    }
  }

  lemma BarredStep(s: Setup, v: Device, p: PageStep, key: RowKey)
    requires LogSound(s, p.es) && Barred(s, p.es, v, key)
    ensures Barred(s, p.es, Paged(s, v, p), key) && Paged(s, v, p).db.rows[key] == v.db.rows[key]
    ensures !Landed(s.cfg, v.db, p.verdict, PageFor(s, v, p)) || PageFor(s, v, p).hasMore
  {
    var page := PageFor(s, v, p);
    ServedPage(p.es, s.scope, CursorOf(s, v), s.encode, p.budget, s.compressedLen);
    BarredPage(s, p.es, v, page, p.verdict, key);
    ApplyRefines(s.cfg, v.mem, v.db, p.verdict, page, !page.hasMore, true);
  }

  /** As the log grows its latest change to the row lies no further back. */
  lemma BarredGrows(s: Setup, es: seq<Entry>, es': seq<Entry>, v: Device, key: RowKey)
    requires Grows(es, es') && LogSound(s, es') && Barred(s, es, v, key)
      && WrittenAnew(es', key, v.db.rows[key].version)
    ensures Barred(s, es', v, key)
  {
    SeenGrows(es, es');
    SeenSound(s, es');
    Compaction.LastToMeans(Seen(es), key);
    Compaction.LastToMeans(Seen(es'), key);
    var last := LastTo(Seen(es), key).value;
    var i :| 0 <= i < |Seen(es)| && Seen(es)[i] == last;
    assert Seen(es')[i] == last;
  }

  /** Sound logs that only grow, each writing the row anew. */
  ghost predicate KeepsWriting(s: Setup, ps: seq<PageStep>, key: RowKey, held: nat) {
    && (forall i :: 0 <= i < |ps| ==> LogSound(s, ps[i].es) && WrittenAnew(ps[i].es, key, held))
    && (forall i :: 0 < i < |ps| ==> Grows(ps[i - 1].es, ps[i].es))
  }

  lemma WritingPrefix(s: Setup, ps: seq<PageStep>, key: RowKey, held: nat)
    requires KeepsWriting(s, ps, key, held) && |ps| > 1
    ensures var n := |ps| - 1;
      && KeepsWriting(s, ps[..n], key, held) && LogSound(s, ps[n].es) && WrittenAnew(ps[n].es, key, held)
      && Grows(ps[n - 1].es, ps[n].es) && ps[..n][0] == ps[0] && ps[..n][n - 1] == ps[n - 1]
  {
    var n := |ps| - 1;
    assert forall i :: 0 <= i < n ==> ps[..n][i] == ps[i];
  }

  /** Still barred when the last page is asked for, and so it does not finish. */
  lemma {:induction false} StillBarred(s: Setup, v: Device, ps: seq<PageStep>, key: RowKey)
    requires ps != [] && Barred(s, ps[0].es, v, key) && KeepsWriting(s, ps, key, v.db.rows[key].version)
    ensures LogSound(s, ps[|ps| - 1].es) && Barred(s, ps[|ps| - 1].es, BeforeLast(s, v, ps), key)
    ensures BeforeLast(s, v, ps).db.rows[key] == v.db.rows[key]
  {
    var n := |ps| - 1;
    if n == 0 {
      assert ps[..0] == [];
    } else {
      WritingPrefix(s, ps, key, v.db.rows[key].version);
      StillBarred(s, v, ps[..n], key);
      BarredStep(s, BeforeLast(s, v, ps[..n]), ps[n - 1], key);
      BarredGrows(s, ps[n - 1].es, ps[n].es, PagedAll(s, v, ps[..n]), key);
    }
  }

  /**
   For as long as every log a page is cut from writes the row anew, however the logs grow and
   whatever the budgets and storage do, no page finishes the bootstrap and the row stays as it was.
   */
  lemma NeverFinishes(s: Setup, v: Device, ps: seq<PageStep>, key: RowKey)
    requires ps != [] && Barred(s, ps[0].es, v, key) && KeepsWriting(s, ps, key, v.db.rows[key].version)
    ensures !Finishes(s, v, ps) && key in PagedAll(s, v, ps).db.rows
      && PagedAll(s, v, ps).db.rows[key] == v.db.rows[key]
  {
    StillBarred(s, v, ps, key);
    BarredStep(s, BeforeLast(s, v, ps), ps[|ps| - 1], key);
  }

  lemma FirstPage(s: Setup, first: Change, budget: nat)
    requires 1 <= first.seqNo && first.Consistent() && first.snapshot.Some? && Reachable(s.cfg, first)
    ensures var v := Device(FRESH_MEMORY, EMPTY_DB, {}, []);
      var w := Paged(s, v, PageStep(Story(s, [first]), budget, Commit));
      && MemoryAgrees(w.mem, w.db, s.scope) && CursorOf(s, w) == first.seqNo
      && first.key in w.db.rows && w.db.rows[first.key].version == first.version
  {
    var v := Device(FRESH_MEMORY, EMPTY_DB, {}, []);
    var p := PageStep(Story(s, [first]), budget, Commit);
    var page := PageFor(s, v, p);
    StorySeen(s, [first]);
    ServedPage(p.es, s.scope, 0, s.encode, budget, s.compressedLen);
    FirstServed([first], page, first);
    PageLandsIff(s, p.es, v.db, page, Commit);
    ApplyRefines(s.cfg, v.mem, v.db, Commit, page, !page.hasMore, true);
    FirstStored(s.cfg, first);
  }

  lemma FirstStored(cfg: Config, first: Change)
    requires first.snapshot.Some? && Reachable(cfg, first)
    ensures var rows := ReplayOnto(map[], Storable(cfg, [first]));
      first.key in rows && rows[first.key].version == first.version
  {
    var one, local := [first], [Local(cfg, first)];
    LocalKeeps(cfg, first);
    assert one[..0] == [] && local[..0] == [];
    assert Storable(cfg, one) == local;
    assert ReplayOnto(map[], local) == ReplayOne(ReplayOnto(map[], []), local[0]);
  }

  lemma FirstServed(seen: seq<Change>, page: Batch, first: Change)
    requires seen == [first] && PageOf(seen, 0, page) && first.seqNo >= 1 && first.op.Upsert?
    ensures page.changes == [first] && page.nextCursor == first.seqNo
  {
    assert LastTo(seen, first.key) == Some(first) && Sends(seen, first, 0);
    assert Compacted(seen, 1, 0) == Compacted(seen, 0, 0) + [first] == [first];
  }

  /** A device that took in the first of them is barred by any log that has gone on to write the row anew. */
  lemma FirstBars(s: Setup, v: Device, first: Change, es: seq<Entry>)
    requires MemoryAgrees(v.mem, v.db, s.scope) && CursorOf(s, v) == first.seqNo
    requires first.key in v.db.rows && v.db.rows[first.key].version == first.version
    requires ClassOf(s.cfg.registry, first.key.entity) == Some(AppendOnly)
    requires LogSound(s, es) && first in Seen(es) && WrittenAnew(es, first.key, first.version)
    ensures Barred(s, es, v, first.key)
  {
    SeenSound(s, es);
    Compaction.LastToMeans(Seen(es), first.key);
    var last := LastTo(Seen(es), first.key).value;
    var i :| 0 <= i < |Seen(es)| && Seen(es)[i] == first;
    var j :| 0 <= j < |Seen(es)| && Seen(es)[j] == last;
  }

  lemma StoryWritesAnew(s: Setup, first: Change, gone: Change, again: Change)
    requires Rewritten(s, first, gone, again)
    ensures var es := Story(s, [first, gone, again]);
      LogSound(s, es) && first in Seen(es) && WrittenAnew(es, first.key, first.version)
  {
    var seen := [first, gone, again];
    StorySeen(s, seen);
    assert LastTo(seen, first.key) == Some(again) && seen[0] == first;
  }

  /**
   A pull takes a log in which an append-only row was written, deleted and written again. A
   bootstrap whose first page went out between the two writes does not finish over that log, nor
   over any it grows into, until the row is deleted again: the delete between is not served, and a
   page that gets to the later version is refused for the one the device holds.
   */
  lemma {:induction false} AppendOnlyStuck(s: Setup, first: Change, gone: Change, again: Change, budget: nat,
                                           ps: seq<PageStep>)
    requires Rewritten(s, first, gone, again)
    requires ps != [] && Grows(Story(s, [first, gone, again]), ps[0].es)
    requires KeepsWriting(s, ps, first.key, first.version)
    ensures EngineRuns.NoOverwrite(s.cfg, map[], [first, gone, again])
    ensures WrittenAnew(Story(s, [first, gone, again]), first.key, first.version)
    ensures var v := Paged(s, Device(FRESH_MEMORY, EMPTY_DB, {}, []), PageStep(Story(s, [first]), budget, Commit));
      CursorOf(s, v) == first.seqNo && !Finishes(s, v, ps)
  {
    PullTakesThem(s, first, gone, again);
    StoryWritesAnew(s, first, gone, again);
    SeenGrows(Story(s, [first, gone, again]), ps[0].es);
    FirstPage(s, first, budget);
    var v := Paged(s, Device(FRESH_MEMORY, EMPTY_DB, {}, []), PageStep(Story(s, [first]), budget, Commit));
    FirstBars(s, v, first, ps[0].es);
    NeverFinishes(s, v, ps, first.key);
  }
}
