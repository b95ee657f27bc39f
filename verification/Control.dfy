/** The execution control context: recursion depth, instruction budget and logical clock. */
module Control {
  import opened Values

  const DEFAULT_MAX_DEPTH := 256
  const DEFAULT_MAX_INSTRUCTIONS := 1_000_000

  /** The context as a value. Whether an instruction was ever refused for a limit, and whether
      one was ever expanded by the fallback, are history variables: the program keeps neither. */
  datatype Ctl = Ctl(
    depth: nat, maxDepth: nat, tick: nat, count: nat, maxCount: nat,
    refused: bool, expanded: bool)
  {
    /** The error with which the next `enter` would fail. */
    function Refusal(): Option<Error> {
      if depth >= maxDepth then Some(DepthLimitExceeded(depth, maxDepth))
      else if count >= maxCount then Some(InstructionLimitExceeded(count, maxCount))
      else None
    }

    function Refused(): Ctl {
      this.(refused := true)
    }

    function Expanding(): Ctl {
      this.(expanded := true)
    }

    function Entered(): Ctl {
      this.(depth := depth + 1, count := count + 1)
    }

    function Exited(): Ctl {
      this.(depth := if depth == 0 then 0 else depth - 1)
    }

    function Ticked(): Ctl {
      this.(tick := tick + 1)
    }

    /** The instructions that may still be entered. */
    function Budget(): nat {
      if count <= maxCount then maxCount - count else 0
    }
  }

  /** What any stretch of execution does to the context: depth is restored, limits stay, the
      count grows up to its limit, and each tick of the clock is paid for by an instruction. */
  predicate Advances(c: Ctl, d: Ctl) {
    d.depth == c.depth && d.maxDepth == c.maxDepth && d.maxCount == c.maxCount &&
    c.count <= d.count && (c.count <= c.maxCount ==> d.count <= c.maxCount) &&
    c.tick <= d.tick && d.tick - c.tick <= d.count - c.count && (c.refused ==> d.refused) &&
    (c.expanded ==> d.expanded)
  }

  class ExecCtlCtx {
    var depth: nat
    var maxDepth: nat
    var tick: nat
    var count: nat
    var maxCount: nat
    ghost var refused: bool
    ghost var expanded: bool

    ghost function View(): Ctl
      reads this
    {
      Ctl(depth, maxDepth, tick, count, maxCount, refused, expanded)
    }

    constructor ()
      ensures View() == Ctl(0, 256, 0, 0, 1_000_000, false, false)
    {
      depth, maxDepth, tick, count, maxCount := 0, DEFAULT_MAX_DEPTH, 0, 0, DEFAULT_MAX_INSTRUCTIONS;
      refused, expanded := false, false;
    }

    /** Enters one execution level, or refuses and leaves every counter as it is. */
    method Enter() returns (refusal: Option<Error>)
      modifies this
      ensures refusal == old(View()).Refusal()
      ensures View() == if refusal.None? then old(View()).Entered() else old(View()).Refused()
      ensures refusal.None? ==> depth <= maxDepth && count <= maxCount
    {
      refused := refused || depth >= maxDepth || count >= maxCount;
      if depth >= maxDepth { return Some(DepthLimitExceeded(depth, maxDepth)); }
      if count >= maxCount { return Some(InstructionLimitExceeded(count, maxCount)); }
      depth := depth + 1;
      count := count + 1;
      refusal := None;
    }

    /** Leaves the level; at depth zero nothing is subtracted. */
    method Exit()
      modifies this
      ensures View() == old(View()).Exited()
    {
      depth := if depth == 0 then 0 else depth - 1;
    }

    /** Returns the current tick and moves the clock on. */
    method NextTick() returns (current: nat)
      modifies this
      ensures current == old(tick) && View() == old(View()).Ticked()
    {
      current := tick;
      tick := tick + 1;
    }
  }
}
