/**
 The change-log watermark: writers take a shared advisory lock before their first insert and
 hold it to the end of their transaction; a reader that wins the lock exclusively publishes the
 sequence's last value, and one that does not serves the last published value. Any number of
 writers and readers, interleaved at every effect on the shared database.
 */
module Watermark {

  datatype Row = Row(scope: string, content: string)

  /** An open writing transaction: whether it holds the shared lock, and its uncommitted rows by seq. */
  datatype Writer = Writer(locked: bool, pending: map<nat, Row>)

  datatype Reader =
    | Waiting                 // transaction begun, lock not yet granted
    | Holding                 // exclusive lock granted
    | Staged(value: nat)      // watermark row written, not committed
    | FallingBack             // timed out or failed: will serve the recorded value
    | Returned(value: nat)
    | Failed

  datatype Db = Db(
    open: map<nat, Writer>,   // transactions in flight
    log: map<nat, Row>,       // committed change-log rows by seq
    lastValue: nat,           // the sequence; 0 while it has never been called
    recorded: nat,            // the committed watermark row
    readers: map<nat, Reader>)

  const INITIAL := Db(map[], map[], 0, 0, map[])

  datatype Step =
    | BeginWrite(t: nat)
    | LockForWrite(t: nat)
    | Insert(t: nat, row: Row)
    | CommitWrite(t: nat)
    | AbortWrite(t: nat)
    | BeginRead(r: nat)
    | LockExclusively(r: nat)
    | LockTimeout(r: nat)
    | Establish(r: nat)
    | CommitRead(r: nat)
    | AbortRead(r: nat, fallback: bool)
    | ReadRecorded(r: nat)

  ghost predicate HoldsExclusive(db: Db, r: nat) {
    r in db.readers && (db.readers[r].Holding? || db.readers[r].Staged?)
  }

  function Max(a: nat, b: nat): nat {
    if a < b then b else a
  }

  /**
   One effect. `disciplined` says whether every writer takes the lock before inserting, as the
   host contract requires.
   */
  ghost predicate Next(db: Db, db': Db, step: Step, disciplined: bool) {
    match step
    case BeginWrite(t) => t !in db.open && db' == db.(open := db.open[t := Writer(false, map[])])
    case LockForWrite(t) =>
      && t in db.open && (forall r :: r in db.readers ==> !HoldsExclusive(db, r))
      && db' == db.(open := db.open[t := db.open[t].(locked := true)])
    case Insert(t, row) =>
      && t in db.open && (disciplined ==> db.open[t].locked)
      && var s := db.lastValue + 1;
        db' == db.(lastValue := s, open := db.open[t := db.open[t].(pending := db.open[t].pending[s := row])])
    case CommitWrite(t) =>
      t in db.open && db' == db.(open := db.open - {t}, log := db.log + db.open[t].pending)
    case AbortWrite(t) => t in db.open && db' == db.(open := db.open - {t})
    case BeginRead(r) => r !in db.readers && db' == db.(readers := db.readers[r := Waiting])
    case LockExclusively(r) =>
      && r in db.readers && db.readers[r].Waiting?
      && (forall q :: q in db.readers ==> !HoldsExclusive(db, q))
      && (forall t :: t in db.open ==> !db.open[t].locked)
      && db' == db.(readers := db.readers[r := Holding])
    case LockTimeout(r) =>
      r in db.readers && db.readers[r].Waiting? && db' == db.(readers := db.readers[r := FallingBack])
    case Establish(r) =>
      && r in db.readers && db.readers[r].Holding?
      && db' == db.(readers := db.readers[r := Staged(Max(db.recorded, db.lastValue))])
    case CommitRead(r) =>
      && r in db.readers && db.readers[r].Staged?
      && db' == db.(recorded := db.readers[r].value, readers := db.readers[r := Returned(db.readers[r].value)])
    case AbortRead(r, fallback) =>
      && r in db.readers && (db.readers[r].Waiting? || HoldsExclusive(db, r))
      && (db.readers[r].Staged? ==> !fallback)
      && db' == db.(readers := db.readers[r := if fallback then FallingBack else Failed])
    case ReadRecorded(r) =>
      && r in db.readers && db.readers[r].FallingBack?
      && db' == db.(readers := db.readers[r := Returned(db.recorded)])
  }

  ghost predicate SomeStep(db: Db, db': Db, disciplined: bool) {
    exists step :: Next(db, db', step, disciplined)
  }

  ghost predicate Run(run: seq<Db>, disciplined: bool) {
    && run != [] && run[0] == INITIAL
    && forall i :: 0 < i < |run| ==> SomeStep(run[i - 1], run[i], disciplined)
  }

  /** No transaction in flight holds a seq at or below w. */
  ghost predicate NothingInFlightBelow(db: Db, w: nat) {
    forall t, s :: t in db.open && s in db.open[t].pending ==> w < s
  }

  /** Every watermark a reader has been given is safe. */
  ghost predicate Safe(db: Db) {
    forall r :: r in db.readers && db.readers[r].Returned? ==> NothingInFlightBelow(db, db.readers[r].value)
  }

  // ----- the invariant -----

  ghost predicate Locking(db: Db) {
    && (forall r, q :: HoldsExclusive(db, r) && HoldsExclusive(db, q) ==> r == q)
    && (forall r, t :: HoldsExclusive(db, r) && t in db.open ==> !db.open[t].locked)
    && (forall t :: t in db.open && !db.open[t].locked ==> db.open[t].pending == map[])
  }

  ghost predicate Numbering(db: Db) {
    && (forall t, s :: t in db.open && s in db.open[t].pending ==> s <= db.lastValue && s !in db.log)
    && (forall s :: s in db.log ==> s <= db.lastValue)
  }

  ghost predicate Marks(db: Db) {
    && db.recorded <= db.lastValue
    && NothingInFlightBelow(db, db.recorded)
    && (forall r :: r in db.readers && db.readers[r].Staged? ==> db.recorded <= db.readers[r].value <= db.lastValue)
    && (forall r :: r in db.readers && db.readers[r].Returned? ==> db.readers[r].value <= db.recorded)
  }

  ghost predicate OwnSeqs(db: Db) {
    forall t, u, s :: t in db.open && u in db.open && t != u && s in db.open[t].pending ==> s !in db.open[u].pending
  }

  ghost predicate Inv(db: Db) {
    Locking(db) && Numbering(db) && OwnSeqs(db) && Marks(db)
  }

  lemma LockingStep(db: Db, db': Db, step: Step)
    requires Locking(db) && Next(db, db', step, true)
    ensures Locking(db')
  {
    forall r | HoldsExclusive(db', r) ensures HoldsExclusive(db, r) || step == LockExclusively(r) {}
  }

  lemma NumberingStep(db: Db, db': Db, step: Step)
    requires Numbering(db) && OwnSeqs(db) && Next(db, db', step, true)
    ensures Numbering(db') && OwnSeqs(db')
  {
    match step
    case CommitWrite(t) => CommittedNumbering(db, db', t);
    case Insert(t, row) => InsertedNumbering(db, db', t, row);
    case BeginWrite(_) => WritersNumbering(db, db');
    case LockForWrite(_) => WritersNumbering(db, db');
    case AbortWrite(_) => WritersNumbering(db, db');
    case _ => assert db'.open == db.open && db'.log == db.log && db'.lastValue == db.lastValue;
  }

  /** Writers that come, go or lock, keeping what is pending. */
  lemma WritersNumbering(db: Db, db': Db)
    requires Numbering(db) && OwnSeqs(db) && db' == db.(open := db'.open)
    requires forall t, s :: t in db'.open && s in db'.open[t].pending ==> t in db.open && s in db.open[t].pending
    ensures Numbering(db') && OwnSeqs(db')
  {
  }

  lemma CommittedNumbering(db: Db, db': Db, t: nat)
    requires Numbering(db) && OwnSeqs(db) && Next(db, db', CommitWrite(t), true)
    ensures Numbering(db') && OwnSeqs(db')
  {
    assert forall s :: s in db'.log <==> s in db.log || s in db.open[t].pending;
    assert forall u :: u in db'.open ==> u != t && u in db.open && db'.open[u] == db.open[u];
  }

  lemma InsertedNumbering(db: Db, db': Db, t: nat, row: Row)
    requires Numbering(db) && OwnSeqs(db) && Next(db, db', Insert(t, row), true)
    ensures Numbering(db') && OwnSeqs(db')
  {
  }

  lemma MarksStep(db: Db, db': Db, step: Step)
    requires Locking(db) && Numbering(db) && Marks(db) && Next(db, db', step, true)
    ensures Marks(db')
  {
    assert forall q :: q in db.readers && db.readers[q].Staged? ==> HoldsExclusive(db, q);
    match step
    case CommitRead(r) =>
      assert forall q :: q in db'.readers && db'.readers[q].Staged? ==>
        q in db.readers && db.readers[q].Staged? && q != r;
    case _ =>
  }

  ghost predicate Grows(db: Db, db': Db) {
    && db.recorded <= db'.recorded
    && (forall s :: s in db.log ==> s in db'.log && db'.log[s] == db.log[s])
    && (forall s :: s in db'.log && s <= db.recorded ==> s in db.log)
    && (forall r :: r in db.readers && db.readers[r].Returned? ==> r in db'.readers && db'.readers[r] == db.readers[r])
  }

  lemma GrowsStep(db: Db, db': Db, step: Step)
    requires Numbering(db) && Marks(db) && Next(db, db', step, true)
    ensures Grows(db, db')
  {
  }

  lemma InvStep(db: Db, db': Db, step: Step)
    requires Inv(db) && Next(db, db', step, true)
    ensures Inv(db') && Grows(db, db')
  {
    LockingStep(db, db', step);
    NumberingStep(db, db', step);
    MarksStep(db, db', step);
    GrowsStep(db, db', step);
  }

  lemma {:induction false} InvHolds(run: seq<Db>, i: nat)
    requires Run(run, true) && i < |run|
    ensures Inv(run[i])
  {
    if i > 0 {
      InvHolds(run, i - 1);
      var step :| Next(run[i - 1], run[i], step, true);
      InvStep(run[i - 1], run[i], step);
    }
  }

  /** What a query bounded by a watermark reads: one scope's committed rows in a range. */
  ghost function Page(db: Db, scope: string, after: nat, watermark: nat): map<nat, Row> {
    map s | s in db.log && after < s <= watermark && db.log[s].scope == scope :: db.log[s]
  }

  lemma PageStep(db: Db, db': Db, scope: string, after: nat, w: nat)
    requires Grows(db, db') && w <= db.recorded
    ensures Page(db', scope, after, w) == Page(db, scope, after, w)
  {
  }

  lemma {:induction false} PageFrozen(run: seq<Db>, i: nat, j: nat, w: nat, scope: string, after: nat)
    requires Run(run, true) && i <= j < |run| && w <= run[i].recorded
    ensures run[i].recorded <= run[j].recorded
    ensures Page(run[j], scope, after, w) == Page(run[i], scope, after, w)
    ensures forall r :: r in run[i].readers && run[i].readers[r].Returned? ==>
      r in run[j].readers && run[j].readers[r] == run[i].readers[r]
    decreases j - i
  {
    if i < j {
      PageFrozen(run, i, j - 1, w, scope, after);
      InvHolds(run, j - 1);
      var step :| Next(run[j - 1], run[j], step, true);
      InvStep(run[j - 1], run[j], step);
      PageStep(run[j - 1], run[j], scope, after, w);
    }
  }

  /**
   Over every interleaving: a watermark ever returned has no transaction in flight at or below
   it, then and ever after; a query bounded by it reads every row its range will ever hold, none of
   which changes again; and the recorded watermark only grows.
   */
  lemma WatermarkSafety(run: seq<Db>, i: nat, j: nat, r: nat, scope: string, after: nat)
    requires Run(run, true) && i <= j < |run|
    requires r in run[i].readers && run[i].readers[r].Returned?
    ensures var w := run[i].readers[r].value;
      && NothingInFlightBelow(run[j], w)
      && Page(run[j], scope, after, w) == Page(run[i], scope, after, w)
      && w <= run[i].recorded <= run[j].recorded
      && (forall s :: s in run[j].log && run[j].log[s].scope == scope && after < s <= w <==>
           s in Page(run[i], scope, after, w))
      && (forall s :: s in Page(run[i], scope, after, w) ==> Page(run[i], scope, after, w)[s] == run[j].log[s])
  {
    InvHolds(run, i);
    InvHolds(run, j);
    PageFrozen(run, i, j, run[i].readers[r].value, scope, after);
  }

  // ----- the contract on hosts is what carries this -----

  ghost function UnlockedRun(): seq<Db> {
    var row := Row("s", "");
    var d1 := INITIAL.(open := map[0 := Writer(false, map[])]);
    var d2 := d1.(lastValue := 1, open := map[0 := Writer(false, map[1 := row])]);
    var d3 := d2.(readers := map[0 := Waiting]);
    var d4 := d2.(readers := map[0 := Holding]);
    var d5 := d2.(readers := map[0 := Staged(1)]);
    var d6 := d2.(recorded := 1, readers := map[0 := Returned(1)]);
    [INITIAL, d1, d2, d3, d4, d5, d6]
  }

  /** A single writer that inserts without taking the lock is enough to make a returned watermark unsafe. */
  lemma UnlockedWriterIsUnsafe()
    ensures Run(UnlockedRun(), false) && !Safe(UnlockedRun()[6])
  {
    var run := UnlockedRun();
    assert Next(run[0], run[1], BeginWrite(0), false);
    assert Next(run[1], run[2], Insert(0, Row("s", "")), false);
    assert Next(run[2], run[3], BeginRead(0), false);
    assert Next(run[3], run[4], LockExclusively(0), false);
    assert Next(run[4], run[5], Establish(0), false);
    assert Next(run[5], run[6], CommitRead(0), false);
    assert 1 in run[6].open[0].pending;
    assert !NothingInFlightBelow(run[6], 1);
  }
}
