/** Shedding load by silence: smaller batches and unanswered commands, never invented verdicts. */
module Pressure {
  import Rng

  const SIM_BUDGET_BYTES: nat := 2048
  const MIN_BUDGET_BYTES: nat := 256

  datatype Load = Normal | Shedding(stepsLeft: nat)

  /** The most that goes into what is offered `severity` times over, but never less than the least. */
  predicate IsShare(taken: nat, offered: nat, severity: nat, least: nat) {
    least <= taken && (taken == least || taken * severity <= offered) && offered < (taken + 1) * severity
  }

  lemma ShareIs(offered: nat, severity: nat, least: nat)
    requires 1 <= severity
    ensures var share := offered / severity;
      share <= offered && IsShare(if share < least then least else share, offered, severity, least)
  {
    var share := offered / severity;
    assert share * severity <= offered < (share + 1) * severity;
    assert share <= share * severity;
    if share < least {
      assert (share + 1) * severity <= (least + 1) * severity;
    }
  }

  class Pressure {
    var load: Load
    var severity: nat
    var deferredCommands: nat
    var episodes: nat

    ghost predicate Valid() reads this {
      1 <= severity <= 8 && (load.Normal? ==> severity == 1) && (load.Shedding? ==> 1 <= load.stepsLeft <= 30)
    }

    constructor ()
      ensures Valid() && load == Normal && deferredCommands == 0 && episodes == 0
    {
      load, severity, deferredCommands, episodes := Normal, 1, 0, 0;
    }

    method Overload(rng: Rng.Rng)
      requires Valid() && rng.Valid()
      modifies this, rng
      ensures Valid() && rng.Valid() && load.Shedding? && 3 <= load.stepsLeft && severity >= 2
      ensures episodes == old(episodes) + 1 && deferredCommands == old(deferredCommands)
    {
      severity := rng.Range(2, 8);
      var stepsLeft := rng.Range(3, 30);
      load := Shedding(stepsLeft);
      episodes := episodes + 1;
    }

    method Tick()
      requires Valid()
      modifies this
      ensures Valid() && deferredCommands == old(deferredCommands) && episodes == old(episodes)
      ensures old(load).Normal? ==> load == Normal
      ensures old(load).Shedding? ==>
        load == (if old(load).stepsLeft <= 1 then Normal else Shedding(old(load).stepsLeft - 1))
      ensures load.Shedding? ==> severity == old(severity)
    {
      if load.Shedding? {
        if load.stepsLeft <= 1 {
          load := Normal;
          severity := 1;
        } else {
          load := Shedding(load.stepsLeft - 1);
        }
      }
    }

    function BudgetBytes(): (budget: nat)
      requires Valid()
      reads this
      ensures MIN_BUDGET_BYTES <= budget <= SIM_BUDGET_BYTES
      ensures load.Normal? ==> budget == SIM_BUDGET_BYTES
      ensures load.Shedding? ==> IsShare(budget, SIM_BUDGET_BYTES, severity, MIN_BUDGET_BYTES)
    {
      match load
      case Normal => SIM_BUDGET_BYTES
      case Shedding(_) =>
        ShareIs(SIM_BUDGET_BYTES, severity, MIN_BUDGET_BYTES);
        var shrunk := SIM_BUDGET_BYTES / severity;
        if shrunk < MIN_BUDGET_BYTES then MIN_BUDGET_BYTES else shrunk
    }

    /** How many of the offered commands are looked at: at least one whenever any is offered. */
    method AcceptCount(offered: nat) returns (taken: nat)
      requires Valid()
      modifies this`deferredCommands
      ensures Valid() && taken <= offered && (offered > 0 ==> taken >= 1)
      ensures load.Normal? ==> taken == offered
      ensures load.Shedding? && offered > 0 ==> IsShare(taken, offered, severity, 1)
      ensures deferredCommands == old(deferredCommands) + (offered - taken)
    {
      if offered == 0 {
        return 0;
      }
      match load
      case Normal =>
        taken := offered;
      case Shedding(_) =>
        ShareIs(offered, severity, 1);
        var share := offered / severity;
        taken := if share < 1 then 1 else share;
      deferredCommands := deferredCommands + (offered - taken);
    }
  }
}
