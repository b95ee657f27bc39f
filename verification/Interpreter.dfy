/** The interpreter as the program runs it, on a context that is updated in place. Each method
    does what the engine function of the same name says, wherever that comes to an end. */
module Interpreter {
  import opened Values
  import opened Store
  import opened References
  import opened Control
  import opened Audit
  import opened Machine
  import Engine
  import Merging

  method Execute(env: Env, reg: Registry, st: State, instr: Instruction, ctx: ExecCtlCtx) returns (r: Result<State>)
    requires !Engine.Execute(env, reg, st, instr, ctx.View()).out.Diverged?
    modifies ctx
    ensures Engine.FromResult(r, ctx.View()) == Engine.Execute(env, reg, st, instr, old(ctx.View()))
    decreases ctx.View().Budget(), 0, 0
  {
    hide Engine.Settles, Engine.Settle, Engine.RunPrimitive;
    var refusal := ctx.Enter();
    if refusal.Some? { return Err(refusal.value); }
    ghost var n := Engine.SettleCount(env, reg, st, instr);
    Engine.SettleFrom(env, reg, st, instr, n);
    r := ExecuteInner(env, reg, st, instr, ctx, n);
    ctx.Exit();
  }

  /** What is left to do once the fallback has come to an end. */
  ghost function Inner(env: Env, reg: Registry, st: State, instr: Instruction, n: nat, c: Ctl): Engine.Run
    requires Engine.SettlesIn(env, reg, st, instr, n)
  {
    var d := Engine.Looked(env, reg, st, instr, c);
    match Engine.SettleIn(env, reg, st, instr, n)
    case Unready(e) => Engine.Run(Engine.Failed(e), d)
    case Ready(s, i, p) => Engine.RunPrimitive(env, reg, p, s, i, d)
  }

  /** The fallback calls itself without entering a level or spending an instruction; what
      decreases is the number of expansions still to come. */
  method ExecuteInner(env: Env, reg: Registry, st: State, instr: Instruction, ctx: ExecCtlCtx, ghost n: nat)
    returns (r: Result<State>)
    requires Engine.SettlesIn(env, reg, st, instr, n)
    requires !Inner(env, reg, st, instr, n, ctx.View()).out.Diverged?
    modifies ctx
    ensures Engine.FromResult(r, ctx.View()) == Inner(env, reg, st, instr, n, old(ctx.View()))
    decreases ctx.View().Budget(), 5, n
  {
    hide Engine.RunPrimitive, ExecField, NoteInstruction, NoteMetadata, ResolveRefs, ParseInstruction, RecordExpand;
    if instr.kind in reg {
      r := RunPrimitive(env, reg, reg[instr.kind], st, instr, ctx);
      return;
    }
    match ExecField(st, "dispatch_cases")
    case Some(Object(cases)) =>
      if instr.kind !in cases { return Err(UnknownInstruction(instr.kind)); }
      var noted := NoteMetadata(NoteInstruction(st, instr.ToValue()), instr.metadata);
      var next := ParseInstruction(ResolveRefs(noted, cases[instr.kind]));
      if next.Err? { return Err(next.error); }
      if next.value.kind == "dispatch" { return Err(InvalidConfig("nested dispatch")); }
      var recorded := RecordExpansion(env, noted, instr.kind, next.value.kind);
      ctx.expanded := true;
      r := ExecuteInner(env, reg, recorded, next.value, ctx, n - 1);
    case _ => r := Err(UnknownInstruction(instr.kind));
  }

  method RunPrimitive(env: Env, reg: Registry, p: Primitive, st: State, instr: Instruction, ctx: ExecCtlCtx)
    returns (r: Result<State>)
    requires !Engine.RunPrimitive(env, reg, p, st, instr, ctx.View()).out.Diverged?
    modifies ctx
    ensures Engine.FromResult(r, ctx.View()) == Engine.RunPrimitive(env, reg, p, st, instr, old(ctx.View()))
    decreases ctx.View().Budget(), 4, 0
  {
    hide Engine.Execute, Engine.RunAll, Engine.RunDispatch, Engine.RunTryCatch, Engine.RunParallel, Engine.Loop,
         TracedChain;
    match p
    case Noop => r := Ok(st);
    case AdvanceInstruction => r := Ok(Advance(env, st));
    case PushInstruction => r := Push(reg, st, instr);
    case PushInstructionSequence => r := EnqueueAll(reg, st, instr);
    case InstructionSequence =>
      var v := Object(instr.params).GetOr("instructions", EmptyList);
      if v.List? { r := RunAll(env, reg, st, v.items, true, ctx); } else { r := Err(TypeError("List", v)); }
    case Dispatch => r := RunDispatch(env, reg, st, instr, ctx);
    case WhileLoop => r := RunLoop(env, reg, LoadLoop(st, instr), st, ctx);
    case TraceStep =>
      if ExecOf(st).auditOn {
        var next := RecordStep(env, st, instr, ctx);
        r := Ok(next);
      } else {
        r := Ok(st);
      }
    case TryCatch => r := RunTryCatch(env, reg, st, instr, ctx);
    case Parallel => r := RunParallel(env, reg, st, instr, ctx);
    case Leaf(run) => r := run(st, instr);
  }

  // ------------------------------------------------------------------------
  // Records and queue
  // ------------------------------------------------------------------------

  /** Stamps a record with the context's clock and pushes it onto the chain. */
  method RecordStep(env: Env, st: State, instr: Instruction, ctx: ExecCtlCtx) returns (next: State)
    modifies ctx
    ensures next == PutChain(st, TracedChain(env, st, instr, old(ctx.tick)))
    ensures ctx.View() == old(ctx.View()).Ticked()
  {
    hide Append, TraceHashes, TraceSummary, ChainOf, CurrentTypeName, ChainToValue;
    var params := Object(instr.params);
    var stepName := TextOr(params.GetStr("label"), "step");
    var itype := CurrentTypeName(st);
    var ruleId := TextOr(params.GetStr("rule_id"), TextOr(itype, "unknown"));
    var version := match ExecField(st, "dispatch_table_version") case Some(Str(v)) => Some(v) case _ => None;
    var summary := Some(TraceSummary(itype, version, stepName));
    var hashes := TraceHashes(env, st);
    var chain := new AuditChainState(match ChainOf(st) case Some(c) => c case None => EmptyChain);
    var tick := ctx.NextTick();
    chain.Record(env.digests, ruleId, tick, hashes.0, hashes.1, summary);
    next := PutChain(st, chain.View());
  }

  /** The fallback's record, stamped with the chain's own clock. */
  method RecordExpansion(env: Env, st: State, original: string, expanded: string) returns (next: State)
    ensures next == RecordExpand(env, st, original, expanded)
  {
    hide Append, ChainOf, StateHash, PutChain, ExecOf, RecordExpand, WellFormed, AsU64;
    ExpansionRecord(env, st, original, expanded);
    if ChainOf(st).None? || !ExecOf(st).auditOn { return st; }
    var hash := StateHash(env, st);
    var chain := new AuditChainState(ChainOf(st).value);
    var tick := chain.NextTick();
    chain.Record(env.digests, "dispatch_expand:" + original, tick, hash, hash,
                 Some("dispatch_expand: " + original + " \U{2192} " + expanded));
    next := PutChain(st, chain.View());
  }

  lemma ExpansionRecord(env: Env, st: State, original: string, expanded: string)
    ensures RecordExpand(env, st, original, expanded) ==
              if ChainOf(st).None? || !ExecOf(st).auditOn then st
              else
                var chain, hash := ChainOf(st).value, StateHash(env, st);
                PutChain(st, Append(env.digests, chain.(logicalTick := AsU64(chain.logicalTick + 1)),
                                    "dispatch_expand:" + original, chain.logicalTick, hash, hash,
                                    Some("dispatch_expand: " + original + " \U{2192} " + expanded)))
  {
    hide Append, ChainOf, ContentHash, PutChain, ExecOf, AsU64;
  }

  /** Checks every instruction before it queues the first. */
  method EnqueueAll(reg: Registry, st: State, instr: Instruction) returns (r: Result<State>)
    ensures r == PushSequence(reg, st, instr)
  {
    hide Dispatchable, SetQueue, ExecOf;
    var v := Object(instr.params).GetOr("instructions", EmptyList);
    var items := if v.List? then v.items else [v];
    for i := 0 to |items|
      invariant forall j | 0 <= j < i :: Dispatchable(reg, st, items[j])
    {
      if !Dispatchable(reg, st, items[i]) {
        assert !AllDispatchable(reg, st, items);
        return Err(InvalidConfig("push_instruction_sequence"));
      }
    }
    assert AllDispatchable(reg, st, items);
    r := Ok(SetQueue(st, QueueOf(ExecOf(st)) + items));
  }

  method RunAll(env: Env, reg: Registry, st: State, items: seq<Value>, skipUntyped: bool, ctx: ExecCtlCtx)
    returns (r: Result<State>)
    requires !Engine.RunAll(env, reg, st, items, skipUntyped, ctx.View()).out.Diverged?
    modifies ctx
    ensures Engine.FromResult(r, ctx.View()) == Engine.RunAll(env, reg, st, items, skipUntyped, old(ctx.View()))
    decreases ctx.View().Budget(), 1, 0
  {
    hide Engine.Execute, ParseInstruction;
    var current := st;
    assert items[0..] == items;
    for i := 0 to |items|
      invariant Advances(old(ctx.View()), ctx.View())
      invariant Engine.RunAll(env, reg, current, items[i..], skipUntyped, ctx.View())
             == Engine.RunAll(env, reg, st, items, skipUntyped, old(ctx.View()))
    {
      assert items[i..][0] == items[i] && items[i..][1..] == items[i + 1..];
      if skipUntyped && TextOr(items[i].GetStr("type"), "") == "" { continue; }
      var child := ParseInstruction(items[i]);
      if child.Err? { return Err(child.error); }
      var result := Execute(env, reg, current, child.value, ctx);
      if result.Err? { return result; }
      current := result.value;
    }
    assert items[|items|..] == [];
    r := Ok(current);
  }

  method RunDispatch(env: Env, reg: Registry, st: State, instr: Instruction, ctx: ExecCtlCtx) returns (r: Result<State>)
    requires !Engine.RunDispatch(env, reg, st, instr, ctx.View()).out.Diverged?
    modifies ctx
    ensures Engine.FromResult(r, ctx.View()) == Engine.RunDispatch(env, reg, st, instr, old(ctx.View()))
    decreases ctx.View().Budget(), 1, 0
  {
    hide Engine.Execute, PlanDispatch, StateHash, ExecOf, SetHashes, SetQueue;
    match PlanDispatch(env, st, instr)
    case Skip => r := Ok(st);
    case Reject(e) => r := Err(e);
    case RunCase(body, tag) =>
      var before := StateHash(env, st);
      r := Execute(env, reg, st, body, ctx);
      if r.Err? { return; }
      var after := StateHash(env, r.value);
      var noted := SetHashes(r.value, Object(map[
        "before_hash" := Str(before),
        "after_hash" := Str(after),
        "case_key" := Str(tag)]));
      if ExecOf(noted).running {
        noted := SetQueue(noted, QueueOf(ExecOf(noted)) + [AdvanceInQueue]);
      }
      r := Ok(noted);
  }

  // ------------------------------------------------------------------------
  // Errors and branches
  // ------------------------------------------------------------------------

  method RunTryCatch(env: Env, reg: Registry, st: State, instr: Instruction, ctx: ExecCtlCtx) returns (r: Result<State>)
    requires !Engine.RunTryCatch(env, reg, st, instr, ctx.View()).out.Diverged?
    modifies ctx
    ensures Engine.FromResult(r, ctx.View()) == Engine.RunTryCatch(env, reg, st, instr, old(ctx.View()))
    decreases ctx.View().Budget(), 1, 0
  {
    hide Engine.Execute, ResolvePath, ParseInstruction, SetPath, ErrorAttr;
    if instr.Param("try").None? { return Err(MissingParam("execute_try_catch", "try")); }
    var attempt := ParseInstruction(ResolvePath(st, instr.Param("try").value));
    if attempt.Err? { return Err(attempt.error); }
    r := Execute(env, reg, st, attempt.value, ctx);
    if r.Err? {
      var noted := SetPath(st, ErrorAttr(st, instr), Str(env.errorText(r.error)));
      if noted.Err? { return noted; }
      if instr.Param("catch").None? { return noted; }
      var rescue := ParseInstruction(ResolvePath(st, instr.Param("catch").value));
      if rescue.Err? { return Err(rescue.error); }
      r := Execute(env, reg, noted.value, rescue.value, ctx);
      if r.Err? { return noted; }
    }
  }

  method RunParallel(env: Env, reg: Registry, st: State, instr: Instruction, ctx: ExecCtlCtx) returns (r: Result<State>)
    requires !Engine.RunParallel(env, reg, st, instr, ctx.View()).out.Diverged?
    modifies ctx
    ensures Engine.FromResult(r, ctx.View()) == Engine.RunParallel(env, reg, st, instr, old(ctx.View()))
    decreases ctx.View().Budget(), 2, 0
  {
    hide Engine.Execute, ResolvePath, TextParam, Engine.RunBranches, Engine.MergeBranches, ForceMerge;
    if instr.Param("branches").None? { return Err(MissingParam("execute_parallel", "branches")); }
    var branches := ResolvePath(st, instr.Param("branches").value);
    var merge := TextParam(st, instr, "merge", "last_wins");
    var failFast := TextParam(st, instr, "error_strategy", "fail_fast") == "fail_fast";
    if !branches.List? { return Err(TypeError("List", branches)); }
    ghost var b := Engine.RunBranches(env, reg, st, branches.items, failFast,
      Engine.Branches([], None, false, ctx.View()));
    DivergedBranch(st, instr, b);
    var results, lastError := RunBranches(env, reg, st, branches.items, failFast, ctx);
    MergedResult(st, instr, b);
    if results == [] {
      if lastError.Some? { return Err(lastError.value); }
      return Err(InvalidParam("execute_parallel", "branches"));
    }
    if merge == "force" {
      var merged := Merging.MergeByForce(st, results);
      return Ok(merged);
    }
    r := Ok(results[|results| - 1]);
  }

  lemma DivergedBranch(st: State, instr: Instruction, b: Engine.Branches)
    requires !Engine.MergeBranches(st, instr, b).out.Diverged?
    ensures !b.diverged
  {
  }

  lemma MergedResult(st: State, instr: Instruction, b: Engine.Branches)
    requires !b.diverged
    ensures var out := Engine.MergeBranches(st, instr, b).out;
            Engine.MergeBranches(st, instr, b).ctl == b.ctl &&
            if b.results == [] then
              out == Engine.Failed(
                       match b.lastError case Some(e) => e case None => InvalidParam("execute_parallel", "branches"))
            else if TextParam(st, instr, "merge", "last_wins") == "force" then
              out == Engine.Done(ForceMerge(st, b.results))
            else out == Engine.Done(b.results[|b.results| - 1])
  {
    hide TextParam, ForceMerge;
  }

  method RunBranches(env: Env, reg: Registry, st: State, items: seq<Value>, failFast: bool, ctx: ExecCtlCtx)
    returns (results: seq<State>, lastError: Option<Error>)
    requires !Engine.RunBranches(env, reg, st, items, failFast, Engine.Branches([], None, false, ctx.View())).diverged
    modifies ctx
    ensures Engine.Branches(results, lastError, false, ctx.View())
         == Engine.RunBranches(env, reg, st, items, failFast, Engine.Branches([], None, false, old(ctx.View())))
    decreases ctx.View().Budget(), 1, 0
  {
    hide Engine.Execute, ParseInstruction;
    results, lastError := [], None;
    assert items[0..] == items;
    for i := 0 to |items|
      invariant Advances(old(ctx.View()), ctx.View())
      invariant Engine.RunBranches(env, reg, st, items[i..], failFast,
                Engine.Branches(results, lastError, false, ctx.View()))
             == Engine.RunBranches(env, reg, st, items, failFast, Engine.Branches([], None, false, old(ctx.View())))
    {
      assert items[i..][0] == items[i] && items[i..][1..] == items[i + 1..];
      var branch := ParseInstruction(items[i]);
      if branch.Err? {
        lastError := Some(branch.error);
        if failFast { return; }
        continue;
      }
      var result := Execute(env, reg, st, branch.value, ctx);
      if result.Ok? {
        results := results + [result.value];
      } else {
        lastError := Some(result.error);
        if failFast { return; }
      }
    }
    assert items[|items|..] == [];
  }

  // ------------------------------------------------------------------------
  // The loop and its drain
  // ------------------------------------------------------------------------

  method TraceIf(env: Env, reg: Registry, on: bool, st: State, ctx: ExecCtlCtx) returns (r: Result<State>)
    requires !Engine.TraceIf(env, reg, on, st, ctx.View()).out.Diverged?
    modifies ctx
    ensures Engine.FromResult(r, ctx.View()) == Engine.TraceIf(env, reg, on, st, old(ctx.View()))
    decreases ctx.View().Budget(), 0, 1
  {
    hide Engine.Execute;
    if on { r := Execute(env, reg, st, TRACE, ctx); } else { r := Ok(st); }
  }

  method Drain(env: Env, reg: Registry, cfg: LoopConfig, st: State, ctx: ExecCtlCtx) returns (r: Result<State>)
    requires !Engine.Drain(env, reg, cfg, st, ctx.View()).out.Diverged?
    modifies ctx
    ensures Engine.FromResult(r, ctx.View()) == Engine.Drain(env, reg, cfg, st, old(ctx.View()))
    decreases ctx.View().Budget(), 1, 0
  {
    hide Engine.Execute, Engine.TraceIf, PlanDrain;
    var current := st;
    while true
      invariant Advances(old(ctx.View()), ctx.View())
      invariant Engine.Drain(env, reg, cfg, current, ctx.View()) == Engine.Drain(env, reg, cfg, st, old(ctx.View()))
      decreases ctx.View().Budget()
    {
      match PlanDrain(current, cfg.metaTypes)
      case Stop(s) => return Ok(s);
      case Broken(e) => return Err(e);
      case Land(s) =>
        r := TraceIf(env, reg, cfg.auditOn, s, ctx);
        return;
      case Idle(s) =>
        r := Execute(env, reg, s, ADVANCE, ctx);
        if r.Ok? { r := TraceIf(env, reg, cfg.auditOn, r.value, ctx); }
        return;
      case RunMeta(s, instr) =>
        r := Execute(env, reg, s, instr, ctx);
        if r.Err? { return; }
        r := TraceIf(env, reg, cfg.auditOn && cfg.metaTrace, r.value, ctx);
        if r.Err? { return; }
        current := r.value;
    }
  }

  /** The loop, with the bookkeeping by which it tells whether it was cut off. */
  method RunLoop(env: Env, reg: Registry, cfg: LoopConfig, st: State, ctx: ExecCtlCtx) returns (r: Result<State>)
    requires !Engine.Loop(env, reg, cfg, st, 0, ctx.View()).out.Diverged?
    modifies ctx
    ensures Engine.FromResult(r, ctx.View()) == Engine.Loop(env, reg, cfg, st, 0, old(ctx.View()))
    decreases ctx.View().Budget(), 3, 0
  {
    hide Engine.RunAll, Engine.Drain, CheckCondition, ExecOf, SetTruncated, Engine.Loop, Engine.TakeTurn;
    var current, lastStep, holdsAtExit := st, 0, false;
    var step := 0;
    while step < cfg.maxSteps
      invariant step <= cfg.maxSteps && Advances(old(ctx.View()), ctx.View())
      invariant Engine.Loop(env, reg, cfg, current, step, ctx.View()) ==
                Engine.Loop(env, reg, cfg, st, 0, old(ctx.View()))
      invariant holdsAtExit == (step > 0) && (step > 0 ==> lastStep == step - 1)
      decreases cfg.maxSteps - step
    {
      TurnOfLoop(env, reg, cfg, current, step, ctx.View());
      PartsOfTurn(env, reg, cfg, current, ctx.View());
      lastStep := step;
      var check := CheckCondition(env, current, cfg.condition);
      if check.Err? { return Err(check.error); }
      if !check.value || cfg.body.None? {
        holdsAtExit := false;
        break;
      }
      var body := cfg.body.value;
      r := RunAll(env, reg, current, if body.List? then body.items else [body], false, ctx);
      if r.Err? { return; }
      r := Drain(env, reg, cfg, r.value, ctx);
      if r.Err? { return; }
      current := r.value;
      if !ExecOf(current).running {
        holdsAtExit := false;
        break;
      }
      holdsAtExit := true;
      step := step + 1;
    }
    if step == cfg.maxSteps { EndOfLoop(env, reg, cfg, current, ctx.View()); }
    var truncated := lastStep == cfg.maxSteps - 1 && holdsAtExit && ExecOf(current).running;
    r := Ok(SetTruncated(current, truncated));
  }

  lemma TurnOfLoop(env: Env, reg: Registry, cfg: LoopConfig, st: State, step: nat, c: Ctl)
    requires step < cfg.maxSteps
    ensures Engine.Loop(env, reg, cfg, st, step, c) ==
              match Engine.TakeTurn(env, reg, cfg, st, c)
              case Completed(s, d) => Engine.Loop(env, reg, cfg, s, step + 1, d)
              case Ended(_, s, d) => Engine.Run(Engine.Done(SetTruncated(s, false)), d)
              case Aborted(out, d) => Engine.Run(out, d)
  {
    hide Engine.TakeTurn, SetTruncated;
  }

  lemma EndOfLoop(env: Env, reg: Registry, cfg: LoopConfig, st: State, c: Ctl)
    ensures Engine.Loop(env, reg, cfg, st, cfg.maxSteps, c)
         == Engine.Run(Engine.Done(SetTruncated(st, cfg.maxSteps > 0 && ExecOf(st).running)), c)
  {
    hide Engine.TakeTurn, SetTruncated, ExecOf;
  }

  lemma PartsOfTurn(env: Env, reg: Registry, cfg: LoopConfig, st: State, c: Ctl)
    ensures Engine.TakeTurn(env, reg, cfg, st, c) ==
              match CheckCondition(env, st, cfg.condition)
              case Err(e) => Engine.Aborted(Engine.Failed(e), c)
              case Ok(holds) =>
                if !holds then Engine.Ended(Engine.ConditionFalse, st, c)
                else if cfg.body.None? then Engine.Ended(Engine.NoBody, st, c)
                else
                  var body := cfg.body.value;
                  var r := Engine.RunAll(env, reg, st, if body.List? then body.items else [body], false, c);
                  if !r.out.Done? then Engine.Aborted(r.out, r.ctl)
                  else
                    var d := Engine.Drain(env, reg, cfg, r.out.st, r.ctl);
                    if !d.out.Done? then Engine.Aborted(d.out, d.ctl)
                    else if ExecOf(d.out.st).running then Engine.Completed(d.out.st, d.ctl)
                    else Engine.Ended(Engine.NotRunning, d.out.st, d.ctl)
  {
    hide Engine.RunAll, Engine.Drain, CheckCondition, ExecOf;
  }
}
