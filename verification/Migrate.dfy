/** Schema migrations: single registered up-steps, chained, never leaving a half-migrated document. */
module Migrate {
  import opened Prelude
  import opened Wire

  type MigrationFn = Document -> Result<Document, string>

  /** The host's steps, keyed by entity and source version; each advances exactly one version. */
  type Steps = map<(EntityName, nat), MigrationFn>

  datatype MigrationError =
    | NoPath(entity: EntityName, stuckAt: nat, target: nat)
    | Failed(entity: EntityName, from: nat, to: nat, reason: string)
    | Invalid(entity: EntityName)
    | Backward(from: nat, to: nat)

  /** The document after the first n steps of a chain towards `target`. */
  function Chain(steps: Steps, entity: EntityName, value: Document, from: nat, n: nat, target: nat)
    : Result<Document, MigrationError>
  {
    if n == 0 then Ok(value)
    else
      var version := from + n - 1;
      match Chain(steps, entity, value, from, n - 1, target)
      case Err(e) => Err(e)
      case Ok(current) =>
        if (entity, version) !in steps then Err(NoPath(entity, version, target))
        else
          match steps[(entity, version)](current)
          case Err(reason) => Err(Failed(entity, version, version + 1, reason))
          case Ok(next) => Ok(next)
  }

  function Migrated(steps: Steps, entity: EntityName, value: Document, from: nat, to: nat)
    : Result<Document, MigrationError>
  {
    if to < from then Err(Backward(from, to)) else Chain(steps, entity, value, from, to - from, to)
  }

  function Planned(steps: Steps, entity: EntityName, from: nat, to: nat): (r: Result<(), MigrationError>)
    ensures r.Ok? <==> from <= to && forall v :: from <= v < to ==> (entity, v) in steps
    ensures r.Err? && from <= to ==>
      && r.error.NoPath? && r.error.entity == entity && r.error.target == to
      && from <= r.error.stuckAt < to && (entity, r.error.stuckAt) !in steps
      && forall v :: from <= v < r.error.stuckAt ==> (entity, v) in steps
    decreases if from <= to then to - from else 0
  {
    if to < from then Err(Backward(from, to))
    else if from == to then Ok(())
    else if (entity, from) !in steps then Err(NoPath(entity, from, to))
    else Planned(steps, entity, from + 1, to)
  }

  class Migrations {
    var steps: Steps

    constructor ()
      ensures steps == map[]
    {
      steps := map[];
    }

    /** Registers the step from `from` to `from + 1`. */
    method Register(entity: EntityName, from: nat, f: MigrationFn)
      modifies this
      ensures (entity, from) in steps && steps[(entity, from)] == f
      ensures steps.Keys == old(steps.Keys) + {(entity, from)}
      ensures forall k :: k in old(steps) && k != (entity, from) ==> steps[k] == old(steps)[k]
    {
      steps := steps[(entity, from) := f];
    }

    method Plan(entity: EntityName, from: nat, to: nat) returns (r: Result<(), MigrationError>)
      ensures r == Planned(steps, entity, from, to)
    {
      if to < from {
        return Err(Backward(from, to));
      }
      for version := from to to
        invariant Planned(steps, entity, version, to) == Planned(steps, entity, from, to)
      {
        if (entity, version) !in steps {
          return Err(NoPath(entity, version, to));
        }
      }
      r := Ok(());
    }

    /** Runs the chain one step at a time; a failure discards the intermediate value. */
    method MigrateValue(entity: EntityName, value: Document, from: nat, to: nat)
      returns (r: Result<Document, MigrationError>)
      ensures r == Migrated(steps, entity, value, from, to)
    {
      if to < from {
        return Err(Backward(from, to));
      }
      if to == from {
        return Ok(value);
      }
      var current := value;
      for version := from to to
        invariant Chain(steps, entity, value, from, version - from, to) == Ok(current)
      {
        ErrorsStick(steps, entity, value, from, version - from + 1, to - from, to);
        if (entity, version) !in steps {
          return Err(NoPath(entity, version, to));
        }
        var next := steps[(entity, version)](current);
        if next.Err? {
          return Err(Failed(entity, version, version + 1, next.error));
        }
        current := next.value;
      }
      r := Ok(current);
    }
  }

  lemma {:induction false} ErrorsStick(steps: Steps, entity: EntityName, value: Document, from: nat, n: nat, m: nat,
                                       target: nat)
    requires n <= m
    ensures Chain(steps, entity, value, from, n, target).Err? ==>
      Chain(steps, entity, value, from, m, target) == Chain(steps, entity, value, from, n, target)
  {
    if n < m {
      ErrorsStick(steps, entity, value, from, n, m - 1, target);
    }
  }

  // ----- what a chain comes to -----

  predicate TakesOne(steps: Steps, entity: EntityName, version: nat, doc: Document, next: Document) {
    (entity, version) in steps && steps[(entity, version)](doc) == Ok(next)
  }

  /** Documents in a row, each what the host's step for its version made of the one before. */
  ghost predicate Trail(steps: Steps, entity: EntityName, from: nat, docs: seq<Document>) {
    docs != [] && forall k :: 0 < k < |docs| ==> TakesOne(steps, entity, from + k - 1, docs[k - 1], docs[k])
  }

  /** The host's own steps take a document from one version to another. */
  ghost predicate Takes(steps: Steps, entity: EntityName, value: Document, from: nat, to: nat, doc: Document) {
    from <= to && exists docs ::
      Trail(steps, entity, from, docs) && |docs| == to - from + 1 && docs[0] == value && docs[to - from] == doc
  }

  lemma TakesNowhere(steps: Steps, entity: EntityName, value: Document, from: nat, doc: Document)
    ensures Takes(steps, entity, value, from, from, doc) <==> doc == value
  {
    assert Trail(steps, entity, from, [value]);
  }

  lemma TakesFurther(steps: Steps, entity: EntityName, value: Document, from: nat, to: nat, doc: Document,
                     next: Document)
    requires Takes(steps, entity, value, from, to, doc) && TakesOne(steps, entity, to, doc, next)
    ensures Takes(steps, entity, value, from, to + 1, next)
  {
    var docs :|
      Trail(steps, entity, from, docs) && |docs| == to - from + 1 && docs[0] == value && docs[to - from] == doc;
    assert Trail(steps, entity, from, docs + [next]);
  }

  lemma TakesBack(steps: Steps, entity: EntityName, value: Document, from: nat, to: nat, next: Document)
    returns (doc: Document)
    requires from <= to && Takes(steps, entity, value, from, to + 1, next)
    ensures Takes(steps, entity, value, from, to, doc) && TakesOne(steps, entity, to, doc, next)
  {
    var n := to - from;
    var docs :| Trail(steps, entity, from, docs) && |docs| == n + 2 && docs[0] == value && docs[n + 1] == next;
    assert Trail(steps, entity, from, docs[..n + 1]);
    assert TakesOne(steps, entity, from + (n + 1) - 1, docs[n], docs[n + 1]);
    doc := docs[n];
  }

  /** One more step of a chain that has got somewhere. */
  lemma ChainOn(steps: Steps, entity: EntityName, value: Document, from: nat, n: nat, target: nat, current: Document)
    requires Chain(steps, entity, value, from, n, target) == Ok(current)
    ensures var r := Chain(steps, entity, value, from, n + 1, target);
      && (forall next :: TakesOne(steps, entity, from + n, current, next) <==> r == Ok(next))
      && (r.Err? ==>
           r.error == if (entity, from + n) !in steps then NoPath(entity, from + n, target)
             else Failed(entity, from + n, from + n + 1, steps[(entity, from + n)](current).error))
  {
  }

  lemma {:induction false} ChainTakes(steps: Steps, entity: EntityName, value: Document, from: nat, n: nat, target: nat,
                                      doc: Document)
    requires Chain(steps, entity, value, from, n, target) == Ok(doc)
    ensures Takes(steps, entity, value, from, from + n, doc)
  {
    if n == 0 {
      TakesNowhere(steps, entity, value, from, doc);
    } else {
      var current := Chain(steps, entity, value, from, n - 1, target).value;
      ChainTakes(steps, entity, value, from, n - 1, target, current);
      ChainOn(steps, entity, value, from, n - 1, target, current);
      TakesFurther(steps, entity, value, from, from + n - 1, current, doc);
    }
  }

  lemma {:induction false} TakesChain(steps: Steps, entity: EntityName, value: Document, from: nat, n: nat, target: nat,
                                      doc: Document)
    requires Takes(steps, entity, value, from, from + n, doc)
    ensures Chain(steps, entity, value, from, n, target) == Ok(doc)
  {
    if n == 0 {
      TakesNowhere(steps, entity, value, from, doc);
    } else {
      var current := TakesBack(steps, entity, value, from, from + n - 1, doc);
      TakesChain(steps, entity, value, from, n - 1, target, current);
      ChainOn(steps, entity, value, from, n - 1, target, current);
    }
  }

  /** Where a chain stops: at the first version with no step, or with a step that fails on what reached it. */
  ghost predicate StopsAt(steps: Steps, entity: EntityName, value: Document, from: nat, to: nat, target: nat,
                          e: MigrationError) {
    match e
    case NoPath(name, v, t) =>
      && name == entity && t == target && from <= v < to && (entity, v) !in steps
      && exists doc :: Takes(steps, entity, value, from, v, doc)
    case Failed(name, v, w, reason) =>
      && name == entity && from <= v < to && w == v + 1 && (entity, v) in steps
      && exists doc :: Takes(steps, entity, value, from, v, doc) && steps[(entity, v)](doc) == Err(reason)
    case _ => false
  }

  lemma {:induction false} ChainStops(steps: Steps, entity: EntityName, value: Document, from: nat, n: nat,
                                      target: nat)
    requires Chain(steps, entity, value, from, n, target).Err?
    ensures StopsAt(steps, entity, value, from, from + n, target, Chain(steps, entity, value, from, n, target).error)
  {
    var before := Chain(steps, entity, value, from, n - 1, target);
    if before.Err? {
      ChainStops(steps, entity, value, from, n - 1, target);
    } else {
      ChainTakes(steps, entity, value, from, n - 1, target, before.value);
      ChainOn(steps, entity, value, from, n - 1, target, before.value);
    }
  }

  /** One version up is the host's step and nothing else; none is the document itself. */
  lemma OneStep(steps: Steps, entity: EntityName, value: Document, v: nat)
    ensures Migrated(steps, entity, value, v, v) == Ok(value)
    ensures Migrated(steps, entity, value, v, v + 1) ==
      if (entity, v) !in steps then Err(NoPath(entity, v, v + 1))
      else match steps[(entity, v)](value)
        case Ok(u) => Ok(u)
        case Err(reason) => Err(Failed(entity, v, v + 1, reason))
  {
    assert Chain(steps, entity, value, v, 0, v + 1) == Ok(value);
  }

  /** A migration succeeds with a document if and only if the host's own steps, one a version, take the value to it. */
  lemma MigratedMeans(steps: Steps, entity: EntityName, value: Document, from: nat, to: nat, doc: Document)
    ensures Migrated(steps, entity, value, from, to) == Ok(doc) <==> Takes(steps, entity, value, from, to, doc)
  {
    if Migrated(steps, entity, value, from, to) == Ok(doc) {
      ChainTakes(steps, entity, value, from, to - from, to, doc);
    } else if Takes(steps, entity, value, from, to, doc) {
      TakesChain(steps, entity, value, from, to - from, to, doc);
    }
  }

  /** And it fails with the version asked for when that is lower, and otherwise where the chain stops. */
  lemma MigratedStops(steps: Steps, entity: EntityName, value: Document, from: nat, to: nat)
    ensures var r := Migrated(steps, entity, value, from, to);
      r.Err? ==>
        if to < from then r.error == Backward(from, to) else StopsAt(steps, entity, value, from, to, to, r.error)
  {
    if from <= to && Migrated(steps, entity, value, from, to).Err? {
      ChainStops(steps, entity, value, from, to - from, to);
    }
  }

  /** The same error, told about another final target. */
  function Retarget(e: MigrationError, target: nat): MigrationError {
    if e.NoPath? then NoPath(e.entity, e.stuckAt, target) else e
  }

  lemma {:induction false} ChainSplits(steps: Steps, entity: EntityName, value: Document, from: nat, n: nat, m: nat,
                                       mid: nat, target: nat)
    ensures Chain(steps, entity, value, from, n + m, target) ==
      match Chain(steps, entity, value, from, n, mid)
      case Ok(u) => Chain(steps, entity, u, from + n, m, target)
      case Err(e) => Err(Retarget(e, target))
    decreases n + m
  {
    if m > 0 {
      ChainSplits(steps, entity, value, from, n, m - 1, mid, target);
    } else if n > 0 {
      ChainSplits(steps, entity, value, from, n - 1, 0, mid, target);
    }
  }

  /**
   Going through an intermediate version changes nothing: a -> c succeeds exactly when
   a -> b and then b -> c do, with the same document, and otherwise fails at the same step.
   */
  lemma Composition(steps: Steps, entity: EntityName, value: Document, a: nat, b: nat, c: nat)
    requires a <= b <= c
    ensures Migrated(steps, entity, value, a, c) ==
      match Migrated(steps, entity, value, a, b)
      case Ok(u) => Migrated(steps, entity, u, b, c)
      case Err(e) => Err(Retarget(e, c))
  {
    ChainSplits(steps, entity, value, a, b - a, c - b, b, c);
  }

  /** A plan that exists can only be stopped by a host step; one that does not stops no later than it says. */
  lemma {:induction false} PlanPredictsRun(steps: Steps, entity: EntityName, value: Document, from: nat, to: nat)
    ensures var run := Migrated(steps, entity, value, from, to);
      match Planned(steps, entity, from, to)
      case Ok(_) => run.Ok? || run.error.Failed?
      case Err(e) => run.Err? && (run.error == e || (run.error.Failed? && e.NoPath? && run.error.from < e.stuckAt))
  {
    if from <= to {
      match Planned(steps, entity, from, to)
      case Ok(_) => ChainNeverStuck(steps, entity, value, from, to - from, to);
      case Err(e) =>
        var n := e.stuckAt - from;
        ChainNeverStuck(steps, entity, value, from, n, to);
        ErrorsStick(steps, entity, value, from, n, to - from, to);
        ErrorsStick(steps, entity, value, from, n + 1, to - from, to);
    }
  }

  lemma {:induction false} ChainNeverStuck(steps: Steps, entity: EntityName, value: Document, from: nat, n: nat,
                                           target: nat)
    requires forall v :: from <= v < from + n ==> (entity, v) in steps
    ensures var r := Chain(steps, entity, value, from, n, target); r.Ok? || (r.error.Failed? && r.error.from < from + n)
  {
    if n > 0 {
      ChainNeverStuck(steps, entity, value, from, n - 1, target);
    }
  }
}
