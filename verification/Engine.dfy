/** The execution engine: `execute` and the primitives that call back into it, as one
    mutually recursive interpreter over a state that carries its own instruction queue.

    The measure is the instruction budget. Only the fallback expansion of unregistered types
    recurses without spending any of it; where that does not end, the outcome is `Diverged`,
    which stands for a call that never returns.

    That every function is total with the postconditions below is the first result: depth is
    restored on every path, the instruction count grows and stays within its limit, and the
    clock moves by at most one tick per instruction.
 */
module Engine {
  import opened Values
  import opened Store
  import opened References
  import opened Control
  import opened Machine

  datatype Outcome = Done(st: State) | Failed(error: Error) | Diverged

  datatype Run = Run(out: Outcome, ctl: Ctl)

  function FromResult(r: Result<State>, c: Ctl): Run {
    Run(match r case Ok(st) => Done(st) case Err(e) => Failed(e), c)
  }

  // ------------------------------------------------------------------------
  // The fallback
  // ------------------------------------------------------------------------

  datatype Settled = Ready(st: State, instr: Instruction, primitive: Primitive) | Unready(error: Error)

  /** The fallback comes to a registered type, or is refused, within `n` expansions. */
  ghost predicate SettlesIn(env: Env, reg: Registry, st: State, instr: Instruction, n: nat)
    decreases n
  {
    match Expand(env, reg, st, instr)
    case Expanded(s, i) => n > 0 && SettlesIn(env, reg, s, i, n - 1)
    case _ => true
  }

  ghost predicate Settles(env: Env, reg: Registry, st: State, instr: Instruction) {
    exists n: nat :: SettlesIn(env, reg, st, instr, n)
  }

  ghost function SettleIn(env: Env, reg: Registry, st: State, instr: Instruction, n: nat): Settled
    requires SettlesIn(env, reg, st, instr, n)
    decreases n
  {
    match Expand(env, reg, st, instr)
    case Registered(p) => Ready(st, instr, p)
    case Refused(e) => Unready(e)
    case Expanded(s, i) => SettleIn(env, reg, s, i, n - 1)
  }

  ghost function SettleCount(env: Env, reg: Registry, st: State, instr: Instruction): (n: nat)
    requires Settles(env, reg, st, instr)
    ensures SettlesIn(env, reg, st, instr, n)
  {
    var n: nat :| SettlesIn(env, reg, st, instr, n);
    n
  }

  ghost function Settle(env: Env, reg: Registry, st: State, instr: Instruction): Settled
    requires Settles(env, reg, st, instr)
  {
    SettleIn(env, reg, st, instr, SettleCount(env, reg, st, instr))
  }

  lemma {:induction false} SettleInIsUnique(env: Env, reg: Registry, st: State, instr: Instruction, m: nat, n: nat)
    requires SettlesIn(env, reg, st, instr, m) && SettlesIn(env, reg, st, instr, n)
    ensures SettleIn(env, reg, st, instr, m) == SettleIn(env, reg, st, instr, n)
    decreases m
  {
    hide Expand;
    match Expand(env, reg, st, instr)
    case Expanded(s, i) => SettleInIsUnique(env, reg, s, i, m - 1, n - 1);
    case _ =>
  }

  lemma SettleFrom(env: Env, reg: Registry, st: State, instr: Instruction, n: nat)
    requires SettlesIn(env, reg, st, instr, n)
    ensures Settles(env, reg, st, instr) && Settle(env, reg, st, instr) == SettleIn(env, reg, st, instr, n)
  {
    hide Expand;
    SettleInIsUnique(env, reg, st, instr, n, SettleCount(env, reg, st, instr));
  }

  /** An expansion does not change where the fallback comes to. */
  lemma SettleStep(env: Env, reg: Registry, st: State, instr: Instruction)
    ensures match Expand(env, reg, st, instr)
            case Registered(p) =>
              Settles(env, reg, st, instr) && Settle(env, reg, st, instr) == Ready(st, instr, p)
            case Refused(e) => Settles(env, reg, st, instr) && Settle(env, reg, st, instr) == Unready(e)
            case Expanded(s, i) =>
              (Settles(env, reg, st, instr) <==> Settles(env, reg, s, i)) &&
              (Settles(env, reg, s, i) ==> Settle(env, reg, st, instr) == Settle(env, reg, s, i))
  {
    hide Expand, Settle;
    match Expand(env, reg, st, instr)
    case Expanded(s, i) =>
      if Settles(env, reg, st, instr) {
        assert SettlesIn(env, reg, s, i, SettleCount(env, reg, st, instr) - 1);
      }
      if Settles(env, reg, s, i) {
        var n := SettleCount(env, reg, s, i);
        SettleFrom(env, reg, s, i, n);
        SettleFrom(env, reg, st, instr, n + 1);
      }
    case _ => SettleFrom(env, reg, st, instr, 0);
  }

  /** The context once the instruction has been looked up, and expanded if need be. */
  function Looked(env: Env, reg: Registry, st: State, instr: Instruction, c: Ctl): (d: Ctl)
    ensures d == c.(expanded := d.expanded) && (c.expanded ==> d.expanded)
  {
    if Expand(env, reg, st, instr).Expanded? then c.Expanding() else c
  }

  // ------------------------------------------------------------------------
  // The interpreter
  // ------------------------------------------------------------------------

  ghost function Execute(env: Env, reg: Registry, st: State, instr: Instruction, c: Ctl): (r: Run)
    ensures Advances(c, r.ctl)
    ensures r.out.Done? ==> r.ctl.Budget() < c.Budget()
    decreases c.Budget(), 0, 0
  {
    if c.Refusal().Some? then Run(Failed(c.Refusal().value), c.Refused())
    else if !Settles(env, reg, st, instr) then Run(Diverged, c)
    else
      var d := Looked(env, reg, st, instr, c.Entered());
      match Settle(env, reg, st, instr)
      case Unready(e) => Run(Failed(e), d.Exited())
      case Ready(s, i, p) =>
        var r := RunPrimitive(env, reg, p, s, i, d);
        Run(r.out, r.ctl.Exited())
  }

  ghost function RunPrimitive(env: Env, reg: Registry, p: Primitive, st: State, instr: Instruction, c: Ctl): (r: Run)
    ensures Advances(c, r.ctl) || (r.ctl == c.Ticked())
    decreases c.Budget(), 4, 0
  {
    match p
    case Noop => Run(Done(st), c)
    case AdvanceInstruction => Run(Done(Advance(env, st)), c)
    case PushInstruction => FromResult(Push(reg, st, instr), c)
    case PushInstructionSequence => FromResult(PushSequence(reg, st, instr), c)
    case InstructionSequence =>
      var v := Object(instr.params).GetOr("instructions", EmptyList);
      if v.List? then RunAll(env, reg, st, v.items, true, c) else Run(Failed(TypeError("List", v)), c)
    case Dispatch => RunDispatch(env, reg, st, instr, c)
    case WhileLoop => Loop(env, reg, LoadLoop(st, instr), st, 0, c)
    case TraceStep =>
      if ExecOf(st).auditOn then Run(Done(PutChain(st, TracedChain(env, st, instr, c.tick))), c.Ticked())
      else Run(Done(st), c)
    case TryCatch => RunTryCatch(env, reg, st, instr, c)
    case Parallel => RunParallel(env, reg, st, instr, c)
    case Leaf(run) => FromResult(run(st, instr), c)
  }

  /** Instructions one after the other, each on the state the one before left. A sequence
      skips items without a type; a loop body does not. */
  ghost function RunAll(env: Env, reg: Registry, st: State, items: seq<Value>, skipUntyped: bool, c: Ctl): (r: Run)
    ensures Advances(c, r.ctl)
    decreases c.Budget(), 1, |items|
  {
    if items == [] then Run(Done(st), c)
    else if skipUntyped && TextOr(items[0].GetStr("type"), "") == "" then
      RunAll(env, reg, st, items[1..], skipUntyped, c)
    else
      match ParseInstruction(items[0])
      case Err(e) => Run(Failed(e), c)
      case Ok(instr) =>
        var r := Execute(env, reg, st, instr, c);
        if r.out.Done? then RunAll(env, reg, r.out.st, items[1..], skipUntyped, r.ctl) else r
  }

  ghost function RunDispatch(env: Env, reg: Registry, st: State, instr: Instruction, c: Ctl): (r: Run)
    ensures Advances(c, r.ctl)
    decreases c.Budget(), 1, 0
  {
    match PlanDispatch(env, st, instr)
    case Skip => Run(Done(st), c)
    case Reject(e) => Run(Failed(e), c)
    case RunCase(body, tag) =>
      var r := Execute(env, reg, st, body, c);
      if r.out.Done? then Run(Done(FinishDispatch(env, st, r.out.st, tag)), r.ctl) else r
  }

  /** The state with the error noted, then the catch branch on it; a failing catch branch
      leaves the state with the error. */
  ghost function RunTryCatch(env: Env, reg: Registry, st: State, instr: Instruction, c: Ctl): (r: Run)
    ensures Advances(c, r.ctl)
    decreases c.Budget(), 1, 0
  {
    match instr.Param("try")
    case None => Run(Failed(MissingParam("execute_try_catch", "try")), c)
    case Some(body) =>
      match ParseInstruction(ResolvePath(st, body))
      case Err(e) => Run(Failed(e), c)
      case Ok(attempt) =>
        var r := Execute(env, reg, st, attempt, c);
        if !r.out.Failed? then r
        else
          match SetPath(st, ErrorAttr(st, instr), Str(env.errorText(r.out.error)))
          case Err(e) => Run(Failed(e), r.ctl)
          case Ok(noted) => RunCatch(env, reg, st, noted, instr, r.ctl)
  }

  ghost function RunCatch(env: Env, reg: Registry, st: State, noted: State, instr: Instruction, c: Ctl): (r: Run)
    ensures Advances(c, r.ctl)
    decreases c.Budget(), 0, 1
  {
    match instr.Param("catch")
    case None => Run(Done(noted), c)
    case Some(handler) =>
      match ParseInstruction(ResolvePath(st, handler))
      case Err(e) => Run(Failed(e), c)
      case Ok(rescue) =>
        var r := Execute(env, reg, noted, rescue, c);
        if r.out.Failed? then Run(Done(noted), r.ctl) else r
  }

  datatype Branches = Branches(results: seq<State>, lastError: Option<Error>, diverged: bool, ctl: Ctl)

  /** Each branch runs on the initial state; the context is shared. After a failure
      "fail_fast" stops and keeps the results so far. */
  ghost function RunBranches(
      env: Env, reg: Registry, st: State, items: seq<Value>, failFast: bool, b: Branches): (r: Branches)
    ensures Advances(b.ctl, r.ctl)
    decreases b.ctl.Budget(), 1, |items|
  {
    hide ParseInstruction;
    if items == [] then b
    else
      match ParseInstruction(items[0])
      case Err(e) =>
        var next := b.(lastError := Some(e));
        if failFast then next else RunBranches(env, reg, st, items[1..], failFast, next)
      case Ok(instr) =>
        var r := Execute(env, reg, st, instr, b.ctl);
        match r.out
        case Done(s) =>
          RunBranches(env, reg, st, items[1..], failFast, b.(results := b.results + [s], ctl := r.ctl))
        case Diverged => b.(diverged := true, ctl := r.ctl)
        case Failed(e) =>
          var next := b.(lastError := Some(e), ctl := r.ctl);
          if failFast then next else RunBranches(env, reg, st, items[1..], failFast, next)
  }

  /** With at least one result the merge succeeds, whatever failed. */
  function MergeBranches(st: State, instr: Instruction, b: Branches): Run {
    if b.diverged then Run(Diverged, b.ctl)
    else if b.results == [] then
      Run(Failed(match b.lastError case Some(e) => e case None => InvalidParam("execute_parallel", "branches")), b.ctl)
    else if TextParam(st, instr, "merge", "last_wins") == "force" then
      Run(Done(ForceMerge(st, b.results)), b.ctl)
    else Run(Done(b.results[|b.results| - 1]), b.ctl)
  }

  ghost function RunParallel(env: Env, reg: Registry, st: State, instr: Instruction, c: Ctl): (r: Run)
    ensures Advances(c, r.ctl)
    decreases c.Budget(), 2, 0
  {
    match instr.Param("branches")
    case None => Run(Failed(MissingParam("execute_parallel", "branches")), c)
    case Some(v) =>
      match ResolvePath(st, v)
      case List(items) =>
        var failFast := TextParam(st, instr, "error_strategy", "fail_fast") == "fail_fast";
        MergeBranches(st, instr, RunBranches(env, reg, st, items, failFast, Branches([], None, false, c)))
      case other => Run(Failed(TypeError("List", other)), c)
  }

  /** Drains the queue: meta-instructions run until a business instruction has become
      current, or the queue is empty. */
  ghost function Drain(env: Env, reg: Registry, cfg: LoopConfig, st: State, c: Ctl): (r: Run)
    ensures Advances(c, r.ctl)
    decreases c.Budget(), 1, 0
  {
    hide PlanDrain, TraceIf;
    match PlanDrain(st, cfg.metaTypes)
    case Stop(s) => Run(Done(s), c)
    case Broken(e) => Run(Failed(e), c)
    case Land(s) => TraceIf(env, reg, cfg.auditOn, s, c)
    case Idle(s) =>
      var r := Execute(env, reg, s, ADVANCE, c);
      if r.out.Done? then TraceIf(env, reg, cfg.auditOn, r.out.st, r.ctl) else r
    case RunMeta(s, instr) =>
      var r := Execute(env, reg, s, instr, c);
      if !r.out.Done? then r
      else
        var t := TraceIf(env, reg, cfg.auditOn && cfg.metaTrace, r.out.st, r.ctl);
        if t.out.Done? then Drain(env, reg, cfg, t.out.st, t.ctl) else t
  }

  ghost function TraceIf(env: Env, reg: Registry, on: bool, st: State, c: Ctl): (r: Run)
    ensures Advances(c, r.ctl)
    decreases c.Budget(), 0, 1
  {
    if on then Execute(env, reg, st, TRACE, c) else Run(Done(st), c)
  }

  datatype Reason = ConditionFalse | NoBody | NotRunning

  datatype Turn =
    | Completed(st: State, ctl: Ctl)
    | Ended(reason: Reason, st: State, ctl: Ctl)
    | Aborted(out: Outcome, ctl: Ctl)

  /** One turn of the loop: condition, body, drain, and whether the engine still runs. */
  ghost function TakeTurn(env: Env, reg: Registry, cfg: LoopConfig, st: State, c: Ctl): (t: Turn)
    ensures Advances(c, t.ctl)
    ensures t.Aborted? ==> !t.out.Done?
    decreases c.Budget(), 2, 0
  {
    match CheckCondition(env, st, cfg.condition)
    case Err(e) => Aborted(Failed(e), c)
    case Ok(holds) =>
      if !holds then Ended(ConditionFalse, st, c)
      else
        match cfg.body
        case None => Ended(NoBody, st, c)
        case Some(body) =>
          var r := RunAll(env, reg, st, if body.List? then body.items else [body], false, c);
          if !r.out.Done? then Aborted(r.out, r.ctl)
          else
            var d := Drain(env, reg, cfg, r.out.st, r.ctl);
            if !d.out.Done? then Aborted(d.out, d.ctl)
            else if ExecOf(d.out.st).running then Completed(d.out.st, d.ctl)
            else Ended(NotRunning, d.out.st, d.ctl)
  }

  /** The loop after `steps` completed turns. */
  ghost function Loop(env: Env, reg: Registry, cfg: LoopConfig, st: State, steps: nat, c: Ctl): (r: Run)
    ensures Advances(c, r.ctl)
    decreases c.Budget(), 3, if steps <= cfg.maxSteps then cfg.maxSteps - steps else 0
  {
    if steps >= cfg.maxSteps then Run(Done(SetTruncated(st, steps > 0 && ExecOf(st).running)), c)
    else
      match TakeTurn(env, reg, cfg, st, c)
      case Completed(s, d) => Loop(env, reg, cfg, s, steps + 1, d)
      case Ended(_, s, d) => Run(Done(SetTruncated(s, false)), d)
      case Aborted(out, d) => Run(out, d)
  }

  lemma ExecuteRegistered(env: Env, reg: Registry, st: State, instr: Instruction, c: Ctl)
    requires instr.kind in reg && c.Refusal().None?
    ensures var r := RunPrimitive(env, reg, reg[instr.kind], st, instr, c.Entered());
            Execute(env, reg, st, instr, c) == Run(r.out, r.ctl.Exited())
  {
    hide RunPrimitive, Settle;
    SettleStep(env, reg, st, instr);
  }
}
