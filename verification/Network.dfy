/**
 The simulated network's two queues. Answers are lost, sent twice or held back for a step, and
 every latency is far below a step, so although a held answer is overtaken by the step's other
 answers it is never overtaken by a later step's: what is delivered arrives in the order it was
 asked for. A device asks for one pull a step, so its pull answers form a queue.
 */
module Network {

  const STEP_MS: nat := 60_000
  const MAX_LATENCY_MS: nat := 2_000
  const MAX_EXTRA_MS: nat := 500
  const MAX_HOLD_MS: nat := 900

  /** One answer on its way: who asked, in which step, and when it is due. */
  datatype Flight = Flight(device: nat, asked: nat, dueMs: nat)

  datatype Fate = Dropped | Normal(latency: nat) | Duplicated(latency: nat, extra: nat) | Reordered(hold: nat)
  {
    /** Within the ranges the fault rates draw from. */
    predicate Plausible() {
      match this
      case Dropped => true
      case Normal(latency) => 1 <= latency <= MAX_LATENCY_MS
      case Duplicated(latency, extra) => 1 <= latency <= MAX_LATENCY_MS && 1 <= extra <= MAX_EXTRA_MS
      case Reordered(hold) => 1 <= hold <= MAX_HOLD_MS
    }
  }

  predicate ByAsked(fs: seq<Flight>) {
    forall i, j :: 0 <= i < j < |fs| ==> fs[i].asked <= fs[j].asked
  }

  lemma JoinByAsked(a: seq<Flight>, b: seq<Flight>, mid: nat)
    requires ByAsked(a) && ByAsked(b)
    requires forall f :: f in a ==> f.asked <= mid
    requires forall f :: f in b ==> mid <= f.asked
    ensures ByAsked(a + b)
  {
    forall i, j | 0 <= i < j < |a + b| ensures (a + b)[i].asked <= (a + b)[j].asked {
      if i < |a| <= j {
        assert a[i] in a && b[j - |a|] in b;
      }
    }
  }

  /** What is due by a time, and what is not, each in queue order. */
  function Ready(fs: seq<Flight>, nowMs: nat): seq<Flight> {
    if fs == [] then []
    else
      var init := Ready(fs[..|fs| - 1], nowMs);
      if fs[|fs| - 1].dueMs <= nowMs then init + [fs[|fs| - 1]] else init
  }

  function Later(fs: seq<Flight>, nowMs: nat): seq<Flight> {
    if fs == [] then []
    else
      var init := Later(fs[..|fs| - 1], nowMs);
      if fs[|fs| - 1].dueMs <= nowMs then init else init + [fs[|fs| - 1]]
  }

  lemma {:induction false} PartitionKeepsOrder(fs: seq<Flight>, nowMs: nat)
    requires ByAsked(fs)
    ensures ByAsked(Ready(fs, nowMs)) && ByAsked(Later(fs, nowMs))
    ensures forall f :: f in Ready(fs, nowMs) <==> f in fs && f.dueMs <= nowMs
    ensures forall f :: f in Later(fs, nowMs) <==> f in fs && f.dueMs > nowMs
  {
    if fs != [] {
      var init, last := fs[..|fs| - 1], fs[|fs| - 1];
      PartitionKeepsOrder(init, nowMs);
      assert fs == init + [last];
      forall f | f in init ensures f.asked <= last.asked {
        var i :| 0 <= i < |init| && init[i] == f;
      }
      JoinByAsked(Ready(init, nowMs), [last], last.asked);
      JoinByAsked(Later(init, nowMs), [last], last.asked);
    }
  }

  /** What waits after a step: answers to that step and held ones from the step before, all due within two steps. */
  predicate Waits(fs: seq<Flight>, step: nat) {
    && ByAsked(fs)
    && forall f :: f in fs ==>
      (f.asked == step && step * STEP_MS < f.dueMs <= (step + 2) * STEP_MS)
      || (f.asked + 1 == step && f.dueMs <= (step + 1) * STEP_MS)
  }

  /** What a step's carrying puts on the queue: everything due in the next step, or held to the one after. */
  predicate FromStep(fs: seq<Flight>, step: nat) {
    forall f :: f in fs ==> f.asked == step && step * STEP_MS < f.dueMs <= (step + 2) * STEP_MS
  }

  class Network {
    var step: nat
    var inFlight: seq<Flight>
    ghost var delivered: seq<Flight>

    /** Everything delivered so far arrived in asking order, none of it from after what still waits. */
    ghost predicate Valid() reads this {
      && Waits(inFlight, step)
      && ByAsked(delivered) && (forall f :: f in delivered ==> f.asked + 1 <= step)
    }

    constructor ()
      ensures Valid() && step == 0 && inFlight == [] && delivered == []
    {
      step, inFlight, delivered := 0, [], [];
    }

    /** Puts a step's answers on the queue, each with its fate; held ones rejoin behind the rest. */
    method Carry(askers: seq<nat>, fates: seq<Fate>)
      requires |fates| == |askers| && forall i :: 0 <= i < |fates| ==> fates[i].Plausible()
      modifies this`inFlight
      ensures old(inFlight) <= inFlight && FromStep(inFlight[|old(inFlight)|..], step)
    {
      var nowMs := step * STEP_MS;
      var held: seq<Flight> := [];
      ghost var n := |inFlight|;
      for i := 0 to |askers|
        invariant old(inFlight) <= inFlight && FromStep(inFlight[n..], step) && FromStep(held, step)
      {
        ghost var before := inFlight;
        match fates[i] {
          case Dropped =>
          case Normal(latency) => inFlight := inFlight + [Flight(askers[i], step, nowMs + latency)];
          case Duplicated(latency, extra) =>
            inFlight :=
              inFlight + [Flight(askers[i], step, nowMs + latency + extra), Flight(askers[i], step, nowMs + latency)];
          case Reordered(hold) => held := held + [Flight(askers[i], step, nowMs + STEP_MS + hold)];
        }
        assert inFlight[n..] == before[n..] + inFlight[|before|..];
      }
      ghost var queued := inFlight;
      inFlight := inFlight + held;
      assert inFlight[n..] == queued[n..] + held;
    }

    /** Hands over everything whose time has come, in queue order. */
    method DeliverDue() returns (due: seq<Flight>)
      modifies this`inFlight, this`delivered
      ensures due == Ready(old(inFlight), step * STEP_MS) && inFlight == Later(old(inFlight), step * STEP_MS)
      ensures delivered == old(delivered) + due
    {
      var waiting: seq<Flight> := [];
      due := [];
      for i := 0 to |inFlight|
        invariant due == Ready(inFlight[..i], step * STEP_MS) && waiting == Later(inFlight[..i], step * STEP_MS)
      {
        assert inFlight[..i + 1][..i] == inFlight[..i];
        if inFlight[i].dueMs <= step * STEP_MS {
          due := due + [inFlight[i]];
        } else {
          waiting := waiting + [inFlight[i]];
        }
      }
      assert inFlight[..|inFlight|] == inFlight;
      inFlight := waiting;
      delivered := delivered + due;
    }

    /** One step of the world's network: time moves on, answers are queued, due ones are delivered. */
    method Step(askers: seq<nat>, fates: seq<Fate>) returns (due: seq<Flight>)
      requires Valid() && |fates| == |askers| && forall i :: 0 <= i < |fates| ==> fates[i].Plausible()
      modifies this
      ensures Valid() && step == old(step) + 1 && delivered == old(delivered) + due
    {
      ghost var waiting := inFlight;
      step := step + 1;
      Carry(askers, fates);
      ghost var added := inFlight[|waiting|..];
      assert inFlight == waiting + added;
      QueueInOrder(waiting, added, step);
      DueInOrder(waiting, added, delivered, step);
      due := DeliverDue();
    }
  }

  lemma QueueInOrder(waiting: seq<Flight>, added: seq<Flight>, step: nat)
    requires step > 0 && Waits(waiting, step - 1) && FromStep(added, step)
    ensures ByAsked(waiting + added)
  {
    JoinByAsked(waiting, added, step);
  }

  /** A step delivers only what was asked before it, and leaves only what may wait. */
  lemma DueInOrder(waiting: seq<Flight>, added: seq<Flight>, delivered: seq<Flight>, step: nat)
    requires step > 0 && Waits(waiting, step - 1) && FromStep(added, step) && ByAsked(waiting + added)
    requires ByAsked(delivered) && forall f :: f in delivered ==> f.asked + 1 <= step - 1
    ensures var due := Ready(waiting + added, step * STEP_MS);
      && Waits(Later(waiting + added, step * STEP_MS), step)
      && ByAsked(delivered + due) && (forall f :: f in delivered + due ==> f.asked + 1 <= step)
  {
    var all := waiting + added;
    PartitionKeepsOrder(all, step * STEP_MS);
    var due := Ready(all, step * STEP_MS);
    forall f | f in due ensures step - 2 <= f.asked <= step - 1 {
      assert f in waiting || f in added;
    }
    forall f | f in Later(all, step * STEP_MS)
      ensures (f.asked == step && step * STEP_MS < f.dueMs <= (step + 2) * STEP_MS)
        || (f.asked + 1 == step && f.dueMs <= (step + 1) * STEP_MS)
    {
      assert f in waiting || f in added;
    }
    JoinByAsked(delivered, due, if step >= 2 then step - 2 else 0);
  }
}
