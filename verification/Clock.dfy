// The divide-by-two peripheral clock and the power-on reset sequence (clocks/clock_reset.h).
module Clock {
  const RESET_CYCLES: nat := 4
  const SYS_PERIOD: nat := 10

  class ClockReset {
    var pclkState: bool
    var reset: bool
    var waited: nat         // sys_clk edges reset_seq has waited for
    const resetCycles: nat

    ghost predicate Valid()
      reads this
    {
      reset == ResetLevel(resetCycles, waited)
    }

    constructor (cycles: nat)
      ensures Valid() && !pclkState && waited == 0 && resetCycles == cycles
    {
      resetCycles, pclkState, waited, reset := cycles, false, 0, cycles > 0;
    }

    /** pclk_div: returns the level written to pclk. */
    method PclkDiv() returns (level: bool)
      requires Valid()
      modifies this`pclkState
      ensures Valid() && level == pclkState == Divided(old(pclkState), 1)
    {
      pclkState := !pclkState;
      level := pclkState;
    }

    /** reset_seq is resumed by one sys_clk edge. */
    method ResetSeq()
      requires Valid()
      modifies this`waited, this`reset
      ensures Valid() && waited == if old(reset) then old(waited) + 1 else old(waited)
    {
      if reset {
        waited := waited + 1;
        if waited >= resetCycles {
          reset := false;
        }
      }
    }
  }

  /** Reset is high until the configured number of edges has been waited for. */
  predicate ResetLevel(cycles: nat, edges: nat) {
    edges < cycles
  }

  /** pclk after n sys_clk edges. */
  predicate Divided(state: bool, n: nat) {
    if n == 0 then state else !Divided(state, n - 1)
  }

  /** How many of the next n sys_clk edges are also rising pclk edges. */
  function Rises(state: bool, n: nat): nat {
    if n == 0 then 0
    else Rises(state, n - 1) + (if !Divided(state, n - 1) && Divided(state, n) then 1 else 0)
  }

  lemma RisesGrows(state: bool, n: nat)
    requires n > 0
    ensures Rises(state, n) == if Divided(state, n - 1) then Rises(state, n - 1) else Rises(state, n - 1) + 1
  {
  }

  /** n sys_clk edges from pclk low give (n + 1) / 2 rising pclk edges, from pclk high n / 2. */
  lemma {:induction false} RisesInClosedForm(state: bool, n: nat)
    ensures Divided(state, n) == (state == (n % 2 == 0))
    ensures Rises(state, n) == if state then n / 2 else (n + 1) / 2
  {
    if n > 0 {
      RisesInClosedForm(state, n - 1);
    }
  }

  /** The first sys_clk edge that completes k + 1 rising pclk edges. */
  lemma EdgesForRises(state: bool, n: nat, k: nat)
    ensures Rises(state, n) > k <==> n >= if state then 2 * (k + 1) else 2 * (k + 1) - 1
  {
    RisesInClosedForm(state, n);
  }
}
