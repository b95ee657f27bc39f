/** What every run of the engine keeps: the configuration, an append-only well-formed audit
    chain with increasing timestamps; and when the fallback always comes to an end.

    The hypotheses: leaf primitives keep off the engine's own two fields, and no value of
    state and program names one of these as the place for an error message.
 */
module Soundness {
  import opened Values
  import opened Store
  import opened References
  import opened Control
  import opened Audit
  import opened Machine
  import opened Guards
  import opened Steps
  import opened Engine
  import opened Fallback
  import ExecContext

  // ------------------------------------------------------------------------
  // Hypotheses
  // ------------------------------------------------------------------------

  /** A primitive that leaves the configuration and the chain alone. */
  ghost predicate LeafKeeps(g: Guard, run: (State, Instruction) -> Result<State>) {
    forall st, instr | Healthy(g, st) && SaneInstruction(g, instr) && run(st, instr).Ok? ::
      var next := run(st, instr).value;
      Healthy(g, next) && SameConfig(ExecOf(st), ExecOf(next)) && ChainIn(next) == ChainIn(st)
  }

  ghost predicate LeavesKeep(reg: Registry, g: Guard) {
    forall name | name in reg && reg[name].Leaf? :: LeafKeeps(g, reg[name].run)
  }

  /** Every type with a case is registered, so that nothing is ever expanded. */
  ghost predicate NoFallback(reg: Registry, cases: Fields) {
    forall k | k in cases :: k in reg
  }

  ghost predicate Fit(reg: Registry, g: Guard, st: State) {
    AttrGuard(g) && LeavesKeep(reg, g) && Healthy(g, st)
  }

  /** Whatever is executed with this table in place, the fallback comes to an end. */
  ghost predicate AlwaysSettles(env: Env, reg: Registry, g: Guard, cases: Fields) {
    forall st, instr | Healthy(g, st) && SaneInstruction(g, instr) && CasesOf(st) == cases ::
      Settles(env, reg, st, instr)
  }

  // ------------------------------------------------------------------------
  // Every run is a step
  // ------------------------------------------------------------------------

  /** A step from one context to another, timed as long as nothing was expanded. */
  ghost predicate Leads(env: Env, g: Guard, st: State, c: Ctl, next: State, d: Ctl) {
    Step(env, g, !d.expanded, st, c.tick, next, d.tick)
  }

  /** The history of expansions: it is kept, and nothing is added to it where every type with
      a case is registered. */
  ghost predicate KeepsHistory(reg: Registry, st: State, c: Ctl, d: Ctl) {
    (c.expanded ==> d.expanded) && (NoFallback(reg, CasesOf(st)) && !c.expanded ==> !d.expanded)
  }

  /** What holds of every run: its result is a step from where it began, and it comes to an
      end if the fallback always does. */
  ghost predicate Sound(env: Env, reg: Registry, g: Guard, st: State, c: Ctl, r: Run) {
    (r.out.Done? ==> Leads(env, g, st, c, r.out.st, r.ctl)) && KeepsHistory(reg, st, c, r.ctl) &&
    (AlwaysSettles(env, reg, g, CasesOf(st)) ==> !r.out.Diverged?)
  }

  lemma FitAfter(env: Env, reg: Registry, g: Guard, st: State, c: Ctl, next: State, d: Ctl)
    requires Fit(reg, g, st) && Leads(env, g, st, c, next, d)
    ensures Fit(reg, g, next) && CasesOf(next) == CasesOf(st)
  {
    hide ExecContext.Parse, ExecOf, AttrGuard, LeavesKeep, Healthy, Extends, KeepsTime, KeepsClocks;
  }

  lemma LeadsThen(env: Env, g: Guard, st: State, c: Ctl, mid: State, d: Ctl, next: State, e: Ctl)
    requires Leads(env, g, st, c, mid, d) && Leads(env, g, mid, d, next, e) && (d.expanded ==> e.expanded)
    ensures Leads(env, g, st, c, next, e)
  {
    hide Step;
    WidenStep(env, g, !d.expanded, !e.expanded, st, mid, c.tick, c.tick, d.tick, d.tick);
    StepThen(env, g, !e.expanded, st, c.tick, mid, d.tick, next, e.tick);
  }

  lemma SoundThen(env: Env, reg: Registry, g: Guard, st: State, c: Ctl, mid: State, d: Ctl, r: Run)
    requires Fit(reg, g, st) && Leads(env, g, st, c, mid, d) && KeepsHistory(reg, st, c, d)
    requires Sound(env, reg, g, mid, d, r)
    ensures Sound(env, reg, g, st, c, r)
  {
    hide Fit, Leads, AlwaysSettles, NoFallback, CasesOf;
    FitAfter(env, reg, g, st, c, mid, d);
    if r.out.Done? { LeadsThen(env, g, st, c, mid, d, r.out.st, r.ctl); }
  }

  lemma FitIsGuarded(reg: Registry, g: Guard, st: State)
    requires Fit(reg, g, st)
    ensures AttrGuard(g) && IsGuard(g) && Healthy(g, st)
  {
    hide LeavesKeep, IsGuard, Healthy;
  }

  lemma SettleSteps(env: Env, reg: Registry, g: Guard, st: State, instr: Instruction, n: nat, c: Ctl)
    requires Fit(reg, g, st) && SaneInstruction(g, instr) && SettlesIn(env, reg, st, instr, n)
    ensures KeepsHistory(reg, st, c, Looked(env, reg, st, instr, c))
    ensures match SettleIn(env, reg, st, instr, n)
            case Ready(s, i, p) =>
              Leads(env, g, st, c, s, Looked(env, reg, st, instr, c)) && SaneInstruction(g, i) && i.kind in reg &&
                reg[i.kind] == p
            case Unready(_) => true
  {
    hide Step, Fit, SaneInstruction, Expand, NoFallback, CasesOf;
    FitIsGuarded(reg, g, st);
    match Expand(env, reg, st, instr)
    case Registered(p) =>
      StepFromSelf(env, g, !c.expanded, st, c.tick, c.tick);
      RegisteredIsInRegistry(env, reg, st, instr);
    case Refused(e) =>
    case Expanded(s, i) =>
      ExpandingSettles(env, reg, g, st, instr, n, c.tick);
      NothingToExpand(env, reg, st, instr);
  }

  lemma {:induction false} ExpandingSettles(env: Env, reg: Registry, g: Guard, st: State, instr: Instruction, n: nat,
                                            tick: nat)
    requires Fit(reg, g, st) && SaneInstruction(g, instr) && SettlesIn(env, reg, st, instr, n)
    ensures match SettleIn(env, reg, st, instr, n)
            case Ready(s, i, p) =>
              Step(env, g, false, st, tick, s, tick) && SaneInstruction(g, i) && i.kind in reg && reg[i.kind] == p
            case Unready(_) => true
    decreases n
  {
    hide Step, Fit, SaneInstruction, Expand;
    FitIsGuarded(reg, g, st);
    match Expand(env, reg, st, instr)
    case Registered(p) =>
      StepFromSelf(env, g, false, st, tick, tick);
      RegisteredIsInRegistry(env, reg, st, instr);
    case Refused(e) =>
    case Expanded(s, i) =>
      ExpandSteps(env, g, reg, st, tick, instr);
      FitStill(env, reg, g, st, tick, s);
      ExpandingSettles(env, reg, g, s, i, n - 1, tick);
      var r := SettleIn(env, reg, s, i, n - 1);
      if r.Ready? { StepThen(env, g, false, st, tick, s, tick, r.st, tick); }
  }

  lemma FitStill(env: Env, reg: Registry, g: Guard, st: State, tick: nat, next: State)
    requires Fit(reg, g, st) && Step(env, g, false, st, tick, next, tick)
    ensures Fit(reg, g, next) && CasesOf(next) == CasesOf(st)
  {
    hide ExecContext.Parse, ExecOf, AttrGuard, LeavesKeep, Healthy, Extends, KeepsClocks;
  }

  lemma RegisteredIsInRegistry(env: Env, reg: Registry, st: State, instr: Instruction)
    requires Expand(env, reg, st, instr).Registered?
    ensures instr.kind in reg && Expand(env, reg, st, instr) == Registered(reg[instr.kind])
  {
    hide NoteInstruction, NoteMetadata, ResolveRefs, RecordExpand;
  }

  lemma NothingToExpand(env: Env, reg: Registry, st: State, instr: Instruction)
    requires Expand(env, reg, st, instr).Expanded?
    ensures !NoFallback(reg, CasesOf(st))
  {
    hide NoteInstruction, NoteMetadata, ResolveRefs, RecordExpand, CasesOf;
    CasesField(st);
  }

  lemma ExecuteIsSound(env: Env, reg: Registry, g: Guard, st: State, instr: Instruction, c: Ctl)
    requires Fit(reg, g, st) && SaneInstruction(g, instr)
    ensures Sound(env, reg, g, st, c, Execute(env, reg, st, instr, c))
    decreases c.Budget(), 0, 0
  {
    hide Fit, SaneInstruction, Step, CasesOf, SettleIn, SettlesIn, RunPrimitive, NoFallback, Looked;
    if c.Refusal().None? && Settles(env, reg, st, instr) {
      var n := SettleCount(env, reg, st, instr);
      SettleFrom(env, reg, st, instr, n);
      var d := Looked(env, reg, st, instr, c.Entered());
      SettleSteps(env, reg, g, st, instr, n, c.Entered());
      match Settle(env, reg, st, instr)
      case Unready(_) =>
      case Ready(s, i, p) =>
        FitAfter(env, reg, g, st, c.Entered(), s, d);
        PrimitiveIsSound(env, reg, g, p, s, i, d);
        SoundThen(env, reg, g, st, c.Entered(), s, d, RunPrimitive(env, reg, p, s, i, d));
    } else if AlwaysSettles(env, reg, g, CasesOf(st)) {
      FitIsGuarded(reg, g, st);
    }
  }

  lemma PrimitiveIsSound(env: Env, reg: Registry, g: Guard, p: Primitive, st: State, instr: Instruction, c: Ctl)
    requires Fit(reg, g, st) && SaneInstruction(g, instr) && instr.kind in reg && reg[instr.kind] == p
    ensures Sound(env, reg, g, st, c, RunPrimitive(env, reg, p, st, instr, c))
    decreases c.Budget(), 4, 0
  {
    hide Fit, SaneInstruction, Leads, KeepsHistory, AlwaysSettles, Execute, RunDispatch, RunTryCatch, RunParallel, Loop,
         RunAll, LoadLoop, Advance, Push, PushSequence, PutChain, TracedChain, ExecOf, CasesOf;
    match p
    case InstructionSequence =>
      ScalarsAreSane(g);
      ParamIsSane(g, instr, "instructions");
      var v := Object(instr.params).GetOr("instructions", EmptyList);
      if v.List? {
        RunAllIsSound(env, reg, g, st, v.items, true, c);
      } else {
        StaysTheSame(reg, st, c);
      }
    case Dispatch => DispatchIsSound(env, reg, g, st, instr, c);
    case WhileLoop =>
      BodyIsSane(g, st, instr);
      LoopIsSound(env, reg, g, LoadLoop(st, instr), st, 0, c);
    case TryCatch => TryCatchIsSound(env, reg, g, st, instr, c);
    case Parallel => ParallelIsSound(env, reg, g, st, instr, c);
    case _ => SimplePrimitiveIsSound(env, reg, g, p, st, instr, c);
  }

  lemma StaysTheSame(reg: Registry, st: State, c: Ctl)
    ensures KeepsHistory(reg, st, c, c)
  {
    hide NoFallback, CasesOf;
  }

  lemma SameHistory(reg: Registry, st: State, c: Ctl)
    ensures KeepsHistory(reg, st, c, c.Ticked())
  {
    hide NoFallback, CasesOf;
  }

  /** The primitives that run no other. */
  lemma SimplePrimitiveIsSound(env: Env, reg: Registry, g: Guard, p: Primitive, st: State, instr: Instruction, c: Ctl)
    requires Fit(reg, g, st) && SaneInstruction(g, instr) && instr.kind in reg && reg[instr.kind] == p
    requires !p.InstructionSequence? && !p.Dispatch? && !p.WhileLoop? && !p.TryCatch? && !p.Parallel?
    ensures Sound(env, reg, g, st, c, RunPrimitive(env, reg, p, st, instr, c))
  {
    hide Fit, SaneInstruction, Step, CasesOf, KeepsHistory, AlwaysSettles, Execute, Advance, Push, PushSequence,
         PutChain, TracedChain, ExecOf, AttrGuard, IsGuard, Healthy, RunDispatch, RunTryCatch, RunParallel, Loop,
         RunAll, LoadLoop;
    FitIsGuarded(reg, g, st);
    StaysTheSame(reg, st, c);
    SameHistory(reg, st, c);
    match p
    case Noop => StepFromSelf(env, g, !c.expanded, st, c.tick, c.tick);
    case AdvanceInstruction => AdvanceSteps(env, g, !c.expanded, st, c.tick);
    case PushInstruction => PushSteps(env, g, !c.expanded, reg, st, c.tick, instr);
    case PushInstructionSequence => PushSteps(env, g, !c.expanded, reg, st, c.tick, instr);
    case TraceStep =>
      if ExecOf(st).auditOn { TraceSteps(env, g, !c.expanded, st, instr, c.tick); }
      else { StepFromSelf(env, g, !c.expanded, st, c.tick, c.tick); }
    case Leaf(run) => LeafIsSound(env, reg, g, st, instr, c);
  }

  lemma LeafIsSound(env: Env, reg: Registry, g: Guard, st: State, instr: Instruction, c: Ctl)
    requires Fit(reg, g, st) && SaneInstruction(g, instr) && instr.kind in reg && reg[instr.kind].Leaf?
    ensures var r := reg[instr.kind].run(st, instr); r.Ok? ==> Leads(env, g, st, c, r.value, c)
  {
    hide Step, Healthy, SaneInstruction, AttrGuard, ExecOf, ChainIn;
    assert LeafKeeps(g, reg[instr.kind].run);
    var r := reg[instr.kind].run(st, instr);
    if r.Ok? { QuietStep(env, g, !c.expanded, st, c.tick, r.value); }
  }

  ghost predicate SaneConfig(g: Guard, cfg: LoopConfig) {
    cfg.body.Some? ==> Sane(g, cfg.body.value)
  }

  lemma BodyIsSane(g: Guard, st: State, instr: Instruction)
    requires SaneInstruction(g, instr)
    ensures SaneConfig(g, LoadLoop(st, instr))
  {
    hide ExecOf, Sane, MetaTypes, MaxSteps;
    ParamIsSane(g, instr, "body");
  }

  lemma {:induction false} RunAllIsSound(env: Env, reg: Registry, g: Guard, st: State, items: seq<Value>, skip: bool,
                                         c: Ctl)
    requires Fit(reg, g, st) && Sane(g, List(items))
    ensures Sound(env, reg, g, st, c, RunAll(env, reg, st, items, skip, c))
    decreases c.Budget(), 1, |items|
  {
    hide Fit, SaneInstruction, Step, CasesOf, NoFallback, AlwaysSettles, Execute, ParseInstruction;
    FitIsGuarded(reg, g, st);
    if items == [] {
      StepFromSelf(env, g, !c.expanded, st, c.tick, c.tick);
    } else {
      TailIsSane(g, items);
      if skip && TextOr(items[0].GetStr("type"), "") == "" {
        RunAllIsSound(env, reg, g, st, items[1..], skip, c);
      } else {
        ParsedIsSane(g, items[0]);
        match ParseInstruction(items[0])
        case Err(_) =>
        case Ok(instr) =>
          ExecuteIsSound(env, reg, g, st, instr, c);
          var r := Execute(env, reg, st, instr, c);
          if r.out.Done? {
            FitAfter(env, reg, g, st, c, r.out.st, r.ctl);
            RunAllIsSound(env, reg, g, r.out.st, items[1..], skip, r.ctl);
            SoundThen(env, reg, g, st, c, r.out.st, r.ctl, RunAll(env, reg, r.out.st, items[1..], skip, r.ctl));
          }
      }
    }
  }

  lemma TailIsSane(g: Guard, items: seq<Value>)
    requires Sane(g, List(items)) && items != []
    ensures Sane(g, items[0]) && Sane(g, List(items[1..]))
  {
  }

  lemma DispatchIsSound(env: Env, reg: Registry, g: Guard, st: State, instr: Instruction, c: Ctl)
    requires Fit(reg, g, st) && SaneInstruction(g, instr)
    ensures Sound(env, reg, g, st, c, RunDispatch(env, reg, st, instr, c))
    decreases c.Budget(), 1, 0
  {
    hide Fit, SaneInstruction, Step, CasesOf, NoFallback, AlwaysSettles, Execute, PlanDispatch, FinishDispatch;
    FitIsGuarded(reg, g, st);
    PlanIsSane(env, g, st, instr);
    match PlanDispatch(env, st, instr)
    case Skip => StepFromSelf(env, g, !c.expanded, st, c.tick, c.tick);
    case Reject(_) =>
    case RunCase(body, tag) =>
      ExecuteIsSound(env, reg, g, st, body, c);
      var r := Execute(env, reg, st, body, c);
      if r.out.Done? {
        StepIsHealthy(env, g, !r.ctl.expanded, st, c.tick, r.out.st, r.ctl.tick);
        FinishDispatchSteps(env, g, !r.ctl.expanded, st, r.out.st, r.ctl.tick, tag);
        LeadsThen(env, g, st, c, r.out.st, r.ctl, FinishDispatch(env, st, r.out.st, tag), r.ctl);
      }
  }

  lemma TryCatchIsSound(env: Env, reg: Registry, g: Guard, st: State, instr: Instruction, c: Ctl)
    requires Fit(reg, g, st) && SaneInstruction(g, instr)
    ensures Sound(env, reg, g, st, c, RunTryCatch(env, reg, st, instr, c))
    decreases c.Budget(), 1, 0
  {
    hide Fit, SaneInstruction, Step, CasesOf, NoFallback, AlwaysSettles, Execute, ResolvePath, ParseInstruction,
         SetPath, ErrorAttr, RunCatch;
    FitIsGuarded(reg, g, st);
    ParamIsSane(g, instr, "try");
    if instr.Param("try").Some? {
      ResolvePathIsSane(g, st, instr.Param("try").value);
      var body := ResolvePath(st, instr.Param("try").value);
      ParsedIsSane(g, body);
      match ParseInstruction(body)
      case Err(_) =>
      case Ok(attempt) =>
        ExecuteIsSound(env, reg, g, st, attempt, c);
        var r := Execute(env, reg, st, attempt, c);
        if r.out.Failed? {
          var attr, text := ErrorAttr(st, instr), env.errorText(r.out.error);
          ErrorAttrIsSafe(g, st, instr);
          NoteErrorSteps(env, g, !r.ctl.expanded, st, r.ctl.tick, attr, text);
          var w := SetPath(st, attr, Str(text));
          if w.Ok? {
            CatchIsSound(env, reg, g, st, w.value, instr, r.ctl);
            SoundFromEarlier(env, reg, g, st, c, r.ctl, RunCatch(env, reg, st, w.value, instr, r.ctl));
          }
        }
    }
  }

  lemma LeadsLonger(env: Env, g: Guard, st: State, b: Ctl, c: Ctl, next: State, d: Ctl, e: Ctl)
    requires Leads(env, g, st, c, next, d) && b.tick <= c.tick && d.tick <= e.tick && (d.expanded ==> e.expanded)
    ensures Leads(env, g, st, b, next, e)
  {
    hide Step;
    WidenStep(env, g, !d.expanded, !e.expanded, st, next, b.tick, c.tick, d.tick, e.tick);
  }

  lemma SoundFromEarlier(env: Env, reg: Registry, g: Guard, st: State, c: Ctl, d: Ctl, r: Run)
    requires Sound(env, reg, g, st, d, r) && c.tick <= d.tick && KeepsHistory(reg, st, c, d)
    ensures Sound(env, reg, g, st, c, r)
  {
    hide Leads, CasesOf, NoFallback, AlwaysSettles;
    if r.out.Done? { LeadsLonger(env, g, st, c, d, r.out.st, r.ctl, r.ctl); }
  }

  lemma CatchIsSound(env: Env, reg: Registry, g: Guard, st: State, noted: State, instr: Instruction, c: Ctl)
    requires Fit(reg, g, st) && SaneInstruction(g, instr) && Leads(env, g, st, c, noted, c)
    ensures Sound(env, reg, g, st, c, RunCatch(env, reg, st, noted, instr, c))
    decreases c.Budget(), 0, 1
  {
    hide Fit, SaneInstruction, Step, CasesOf, NoFallback, AlwaysSettles, Execute, ResolvePath, ParseInstruction;
    FitIsGuarded(reg, g, st);
    FitAfter(env, reg, g, st, c, noted, c);
    ParamIsSane(g, instr, "catch");
    if instr.Param("catch").Some? {
      ResolvePathIsSane(g, st, instr.Param("catch").value);
      var handler := ResolvePath(st, instr.Param("catch").value);
      ParsedIsSane(g, handler);
      match ParseInstruction(handler)
      case Err(_) =>
      case Ok(rescue) =>
        ExecuteIsSound(env, reg, g, noted, rescue, c);
        var r := Execute(env, reg, noted, rescue, c);
        SoundThen(env, reg, g, st, c, noted, c, r);
        LeadsLonger(env, g, st, c, c, noted, c, r.ctl);
    }
  }

  /** Every branch so far is a step from the initial state. */
  ghost predicate SoundBranches(env: Env, reg: Registry, g: Guard, st: State, c: Ctl, b: Branches) {
    (forall i | 0 <= i < |b.results| :: Leads(env, g, st, c, b.results[i], b.ctl)) && KeepsHistory(reg, st, c, b.ctl) &&
    (AlwaysSettles(env, reg, g, CasesOf(st)) ==> !b.diverged) && c.tick <= b.ctl.tick
  }

  lemma NextBranchIsSound(env: Env, reg: Registry, g: Guard, st: State, c: Ctl, b: Branches, r: Run)
    requires SoundBranches(env, reg, g, st, c, b)
    requires Sound(env, reg, g, st, b.ctl, r) && b.ctl.tick <= r.ctl.tick
    ensures r.out.Done? ==> SoundBranches(env, reg, g, st, c, b.(results := b.results + [r.out.st], ctl := r.ctl))
    ensures r.out.Diverged? ==> SoundBranches(env, reg, g, st, c, b.(diverged := true, ctl := r.ctl))
    ensures r.out.Failed? ==> SoundBranches(env, reg, g, st, c, b.(lastError := Some(r.out.error), ctl := r.ctl))
  {
    hide Leads, CasesOf, NoFallback, AlwaysSettles;
    forall i | 0 <= i < |b.results| ensures Leads(env, g, st, c, b.results[i], r.ctl) {
      LeadsLonger(env, g, st, c, c, b.results[i], b.ctl, r.ctl);
    }
    if r.out.Done? { LeadsLonger(env, g, st, c, b.ctl, r.out.st, r.ctl, r.ctl); }
  }

  lemma {:induction false} BranchesAreSound(env: Env, reg: Registry, g: Guard, st: State, items: seq<Value>,
                                            failFast: bool, b: Branches, c: Ctl)
    requires Fit(reg, g, st) && Sane(g, List(items)) && SoundBranches(env, reg, g, st, c, b)
    ensures SoundBranches(env, reg, g, st, c, RunBranches(env, reg, st, items, failFast, b))
    decreases b.ctl.Budget(), 1, |items|
  {
    hide Fit, SaneInstruction, Step, CasesOf, NoFallback, AlwaysSettles, Execute, ParseInstruction, Sound;
    if items != [] {
      TailIsSane(g, items);
      ParsedIsSane(g, items[0]);
      match ParseInstruction(items[0])
      case Err(e) =>
        if !failFast { BranchesAreSound(env, reg, g, st, items[1..], failFast, b.(lastError := Some(e)), c); }
      case Ok(instr) =>
        ExecuteIsSound(env, reg, g, st, instr, b.ctl);
        var r := Execute(env, reg, st, instr, b.ctl);
        NextBranchIsSound(env, reg, g, st, c, b, r);
        match r.out
        case Done(s) =>
          BranchesAreSound(env, reg, g, st, items[1..], failFast, b.(results := b.results + [s], ctl := r.ctl), c);
        case Diverged =>
        case Failed(e) =>
          if !failFast {
            BranchesAreSound(env, reg, g, st, items[1..], failFast, b.(lastError := Some(e), ctl := r.ctl), c);
          }
    }
  }

  lemma MergeIsSound(env: Env, reg: Registry, g: Guard, st: State, instr: Instruction, c: Ctl, b: Branches)
    requires IsGuard(g) && Healthy(g, st) && SoundBranches(env, reg, g, st, c, b)
    ensures Sound(env, reg, g, st, c, MergeBranches(st, instr, b))
  {
    hide IsGuard, Healthy, Step, CasesOf, NoFallback, AlwaysSettles, ForceMerge, TextParam;
    forall i | 0 <= i < |b.results| ensures Healthy(g, b.results[i]) {
      StepIsHealthy(env, g, !b.ctl.expanded, st, c.tick, b.results[i], b.ctl.tick);
    }
    MergeSteps(env, g, !c.expanded, st, c.tick, b.results);
    LeadsLonger(env, g, st, c, c, ForceMerge(st, b.results), c, b.ctl);
  }

  lemma ParallelIsSound(env: Env, reg: Registry, g: Guard, st: State, instr: Instruction, c: Ctl)
    requires Fit(reg, g, st) && SaneInstruction(g, instr)
    ensures Sound(env, reg, g, st, c, RunParallel(env, reg, st, instr, c))
    decreases c.Budget(), 2, 0
  {
    hide Fit, SaneInstruction, Step, CasesOf, NoFallback, AlwaysSettles, ResolvePath, TextParam, MergeBranches,
         RunBranches;
    FitIsGuarded(reg, g, st);
    ParamIsSane(g, instr, "branches");
    if instr.Param("branches").Some? {
      ResolvePathIsSane(g, st, instr.Param("branches").value);
      match ResolvePath(st, instr.Param("branches").value)
      case List(items) =>
        var failFast := TextParam(st, instr, "error_strategy", "fail_fast") == "fail_fast";
        var start := Branches([], None, false, c);
        BranchesAreSound(env, reg, g, st, items, failFast, start, c);
        MergeIsSound(env, reg, g, st, instr, c, RunBranches(env, reg, st, items, failFast, start));
      case _ =>
    }
  }

  lemma {:induction false} DrainIsSound(env: Env, reg: Registry, g: Guard, cfg: LoopConfig, st: State, c: Ctl)
    requires Fit(reg, g, st)
    ensures Sound(env, reg, g, st, c, Drain(env, reg, cfg, st, c))
    decreases c.Budget(), 1, 0
  {
    hide Fit, SaneInstruction, Step, CasesOf, NoFallback, AlwaysSettles, Execute, PlanDrain, TraceIf;
    FitIsGuarded(reg, g, st);
    PlanDrainSteps(env, g, !c.expanded, st, c.tick, cfg.metaTypes);
    InstructionValuesAreSane(g);
    var plan := PlanDrain(st, cfg.metaTypes);
    FitAfter(env, reg, g, st, c, DrainState(plan, st), c);
    match plan
    case Stop(s) =>
    case Broken(_) =>
    case Land(s) =>
      TraceIsSound(env, reg, g, cfg.auditOn, s, c);
      SoundThen(env, reg, g, st, c, s, c, TraceIf(env, reg, cfg.auditOn, s, c));
    case Idle(s) =>
      ExecuteIsSound(env, reg, g, s, ADVANCE, c);
      var r := Execute(env, reg, s, ADVANCE, c);
      SoundThen(env, reg, g, st, c, s, c, r);
      if r.out.Done? {
        FitAfter(env, reg, g, st, c, r.out.st, r.ctl);
        TraceIsSound(env, reg, g, cfg.auditOn, r.out.st, r.ctl);
        SoundThen(env, reg, g, st, c, r.out.st, r.ctl, TraceIf(env, reg, cfg.auditOn, r.out.st, r.ctl));
      }
    case RunMeta(s, instr) =>
      ExecuteIsSound(env, reg, g, s, instr, c);
      var r := Execute(env, reg, s, instr, c);
      SoundThen(env, reg, g, st, c, s, c, r);
      if r.out.Done? {
        FitAfter(env, reg, g, st, c, r.out.st, r.ctl);
        TraceIsSound(env, reg, g, cfg.auditOn && cfg.metaTrace, r.out.st, r.ctl);
        var t := TraceIf(env, reg, cfg.auditOn && cfg.metaTrace, r.out.st, r.ctl);
        SoundThen(env, reg, g, st, c, r.out.st, r.ctl, t);
        if t.out.Done? {
          FitAfter(env, reg, g, st, c, t.out.st, t.ctl);
          DrainIsSound(env, reg, g, cfg, t.out.st, t.ctl);
          SoundThen(env, reg, g, st, c, t.out.st, t.ctl, Drain(env, reg, cfg, t.out.st, t.ctl));
        }
      }
  }

  lemma TraceIsSound(env: Env, reg: Registry, g: Guard, on: bool, st: State, c: Ctl)
    requires Fit(reg, g, st)
    ensures Sound(env, reg, g, st, c, TraceIf(env, reg, on, st, c))
    decreases c.Budget(), 0, 1
  {
    hide Fit, SaneInstruction, Step, CasesOf, NoFallback, AlwaysSettles, Execute;
    FitIsGuarded(reg, g, st);
    InstructionValuesAreSane(g);
    if on { ExecuteIsSound(env, reg, g, st, TRACE, c); }
    else { StepFromSelf(env, g, !c.expanded, st, c.tick, c.tick); }
  }

  /** A turn as the run it would be if the loop ended with it. */
  function TurnRun(t: Turn): Run {
    match t
    case Completed(s, d) => Run(Done(s), d)
    case Ended(_, s, d) => Run(Done(s), d)
    case Aborted(out, d) => Run(out, d)
  }

  lemma TurnIsSound(env: Env, reg: Registry, g: Guard, cfg: LoopConfig, st: State, c: Ctl)
    requires Fit(reg, g, st) && SaneConfig(g, cfg)
    ensures Sound(env, reg, g, st, c, TurnRun(TakeTurn(env, reg, cfg, st, c)))
    decreases c.Budget(), 2, 0
  {
    hide Fit, SaneInstruction, Step, CasesOf, NoFallback, AlwaysSettles, RunAll, Drain, CheckCondition, ExecOf;
    FitIsGuarded(reg, g, st);
    StepFromSelf(env, g, !c.expanded, st, c.tick, c.tick);
    match CheckCondition(env, st, cfg.condition)
    case Err(_) =>
    case Ok(holds) =>
      if holds && cfg.body.Some? {
        var body := cfg.body.value;
        OneItemIsSane(g, body);
        var items := if body.List? then body.items else [body];
        RunAllIsSound(env, reg, g, st, items, false, c);
        var r := RunAll(env, reg, st, items, false, c);
        if r.out.Done? {
          FitAfter(env, reg, g, st, c, r.out.st, r.ctl);
          DrainIsSound(env, reg, g, cfg, r.out.st, r.ctl);
          SoundThen(env, reg, g, st, c, r.out.st, r.ctl, Drain(env, reg, cfg, r.out.st, r.ctl));
        }
      }
  }

  lemma CutIsSound(env: Env, reg: Registry, g: Guard, st: State, c: Ctl, s: State, d: Ctl, cut: bool)
    requires Fit(reg, g, st) && Leads(env, g, st, c, s, d) && KeepsHistory(reg, st, c, d)
    ensures Sound(env, reg, g, st, c, Run(Done(SetTruncated(s, cut)), d))
  {
    hide Fit, Step, CasesOf, NoFallback, AlwaysSettles, SetTruncated;
    FitIsGuarded(reg, g, st);
    StepIsHealthy(env, g, !d.expanded, st, c.tick, s, d.tick);
    SetFlagsSteps(env, g, !d.expanded, s, d.tick, true, "", cut);
    LeadsThen(env, g, st, c, s, d, SetTruncated(s, cut), d);
  }

  lemma {:induction false} LoopIsSound(env: Env, reg: Registry, g: Guard, cfg: LoopConfig, st: State, steps: nat,
                                       c: Ctl)
    requires Fit(reg, g, st) && SaneConfig(g, cfg)
    ensures Sound(env, reg, g, st, c, Loop(env, reg, cfg, st, steps, c))
    decreases c.Budget(), 3, if steps <= cfg.maxSteps then cfg.maxSteps - steps else 0
  {
    hide Fit, Step, CasesOf, NoFallback, AlwaysSettles, TakeTurn, ExecOf, SetTruncated, SaneConfig, IsGuard, AttrGuard,
         Healthy;
    FitIsGuarded(reg, g, st);
    StepFromSelf(env, g, !c.expanded, st, c.tick, c.tick);
    if steps >= cfg.maxSteps {
      CutIsSound(env, reg, g, st, c, st, c, steps > 0 && ExecOf(st).running);
    } else {
      TurnIsSound(env, reg, g, cfg, st, c);
      match TakeTurn(env, reg, cfg, st, c)
      case Completed(s, d) =>
        FitAfter(env, reg, g, st, c, s, d);
        LoopIsSound(env, reg, g, cfg, s, steps + 1, d);
        SoundThen(env, reg, g, st, c, s, d, Loop(env, reg, cfg, s, steps + 1, d));
      case Ended(_, s, d) => CutIsSound(env, reg, g, st, c, s, d, false);
      case Aborted(_, _) =>
    }
  }

  // ------------------------------------------------------------------------
  // Main results
  // ------------------------------------------------------------------------

  /** Programs and states in which no error message is aimed at the engine's own fields, with
      leaf primitives that keep off these. */
  ghost predicate Orderly(reg: Registry, g: Guard, st: State, instr: Instruction) {
    Fit(reg, g, st) && SaneInstruction(g, instr)
  }

  /** Whatever an instruction does, nested loops, branches and error handling included, it
      only appends to the audit chain: every new record verifies and links to the one before
      it, whether or not the chain before was well formed; and the configuration stays. */
  lemma ChainIsAppendOnly(env: Env, reg: Registry, g: Guard, st: State, instr: Instruction, c: Ctl)
    requires Orderly(reg, g, st, instr)
    ensures match Execute(env, reg, st, instr, c).out
            case Done(next) =>
              Extends(env.digests, ChainIn(st), ChainIn(next)) &&
              (WellFormed(env.digests, ChainIn(st)) ==> WellFormed(env.digests, ChainIn(next))) &&
              SameConfig(ExecOf(st), ExecOf(next))
            case _ => true
  {
    hide Execute, Fit, WellFormed, ExecOf, ChainIn, CasesOf, Extends, AlwaysSettles, NoFallback;
    ExecuteIsSound(env, reg, g, st, instr, c);
    match Execute(env, reg, st, instr, c).out
    case Done(next) =>
      if WellFormed(env.digests, ChainIn(st)) { ExtensionIsWellFormed(env.digests, ChainIn(st), ChainIn(next)); }
    case _ =>
  }

  /** In a run in which nothing is expanded, timestamps strictly increase and stay below the
      context's clock. */
  lemma TimestampsIncrease(env: Env, reg: Registry, g: Guard, st: State, instr: Instruction, c: Ctl)
    requires Orderly(reg, g, st, instr) && Timed(ChainIn(st).records, c.tick)
    requires var d := Execute(env, reg, st, instr, c).ctl; d.tick <= TICK_LIMIT && !d.expanded
    ensures match Execute(env, reg, st, instr, c).out
            case Done(next) => Timed(ChainIn(next).records, Execute(env, reg, st, instr, c).ctl.tick)
            case _ => true
  {
    hide Execute, Fit, ExecOf, ChainIn, CasesOf, Timed, Extends, AlwaysSettles, NoFallback;
    ExecuteIsSound(env, reg, g, st, instr, c);
  }

  /** Nothing is expanded in any run under a table of registered types. */
  lemma RegisteredTableNeverExpands(env: Env, reg: Registry, g: Guard, st: State, instr: Instruction, c: Ctl)
    requires Orderly(reg, g, st, instr) && NoFallback(reg, CasesOf(st)) && !c.expanded
    ensures !Execute(env, reg, st, instr, c).ctl.expanded
  {
    hide Execute, Fit, CasesOf, Step, AlwaysSettles, NoFallback;
    ExecuteIsSound(env, reg, g, st, instr, c);
  }

  /** In any run each record is stamped by one of two clocks, the context's or, for an
      expansion, the chain's; the records of each clock strictly increase among themselves,
      those that were there before included. */
  lemma EachClockIncreases(env: Env, reg: Registry, g: Guard, st: State, instr: Instruction, c: Ctl, clocks: seq<Clock>)
    requires Orderly(reg, g, st, instr) && Stamped(ChainIn(st), clocks, c.tick)
    ensures var r := Execute(env, reg, st, instr, c);
            match r.out
            case Done(next) =>
              r.ctl.tick <= TICK_LIMIT && LatestTick(st, next) <= TICK_LIMIT ==>
                exists more :: Stamped(ChainIn(next), clocks + more, r.ctl.tick)
            case _ => true
  {
    hide Execute, Fit, ExecOf, ChainIn, CasesOf, Stamped, Extends, AlwaysSettles, NoFallback;
    ExecuteIsSound(env, reg, g, st, instr, c);
    var r := Execute(env, reg, st, instr, c);
    match r.out
    case Done(next) =>
      assert KeepsClocks(st, c.tick, next, r.ctl.tick);
      if r.ctl.tick <= TICK_LIMIT && LatestTick(st, next) <= TICK_LIMIT {
        assert Stampable(ChainIn(next), clocks, r.ctl.tick);
      }
    case _ =>
  }

  /** Whatever the table: all instructions come to an end in all states that have it, nested
      execution included, exactly when the fallback by itself always does. */
  lemma AllRunsEndExactly(env: Env, reg: Registry, g: Guard, cases: Fields)
    requires AttrGuard(g) && LeavesKeep(reg, g)
    ensures (forall st, instr, c | Orderly(reg, g, st, instr) && CasesOf(st) == cases ::
               !Execute(env, reg, st, instr, c).out.Diverged?) <==>
            AlwaysSettles(env, reg, g, cases)
  {
    hide Healthy, LeavesKeep, CasesOf, SaneInstruction, Execute, AttrGuard, Settles, Leads, NoFallback;
    if AlwaysSettles(env, reg, g, cases) {
      forall st, instr, c | Orderly(reg, g, st, instr) && CasesOf(st) == cases
        ensures !Execute(env, reg, st, instr, c).out.Diverged?
      {
        ExecuteIsSound(env, reg, g, st, instr, c);
      }
    }
    if !AlwaysSettles(env, reg, g, cases) {
      var st, instr :| Healthy(g, st) && SaneInstruction(g, instr) && CasesOf(st) == cases &&
        !Settles(env, reg, st, instr);
      var c := Ctl(0, 1, 0, 0, 1, false, false);
      UnsettledDiverges(env, reg, st, instr, c);
      assert Orderly(reg, g, st, instr);
    }
  }

  /** With the types of the cases written out, that is when the table of cases leads from
      every type to an end, and a single state decides it. */
  lemma EveryRunEndsExactly(env: Env, reg: Registry, g: Guard, st: State, c: Ctl)
    requires Literal(CasesOf(st)) && c.Refusal().None? && Fit(reg, g, st)
    ensures (forall instr | SaneInstruction(g, instr) :: !Execute(env, reg, st, instr, c).out.Diverged?) <==>
            TableSettles(reg, CasesOf(st))
  {
    hide Fit, CasesOf, Literal, WalkEnds, SaneInstruction, Execute, Leads, NoFallback, Settles, Healthy, KindsFixed,
         KindsIn, LiteralKinds;
    var cases := CasesOf(st);
    if TableSettles(reg, cases) {
      forall s, i | Healthy(g, s) && SaneInstruction(g, i) && CasesOf(s) == cases ensures Settles(env, reg, s, i) {
        LiteralIsFixed(s);
        FallbackEndsExactly(env, reg, s, i);
      }
      forall instr | SaneInstruction(g, instr) ensures !Execute(env, reg, st, instr, c).out.Diverged? {
        ExecuteIsSound(env, reg, g, st, instr, c);
      }
    }
    if forall instr | SaneInstruction(g, instr) :: !Execute(env, reg, st, instr, c).out.Diverged? {
      LiteralIsFixed(st);
      forall t ensures WalkEnds(reg, LiteralKinds(cases), t, |cases|) {
        SimpleIsSane(g, t);
        if !Settles(env, reg, st, Simple(t)) { UnsettledDiverges(env, reg, st, Simple(t), c); }
        FallbackEndsExactly(env, reg, st, Simple(t));
      }
    }
  }

  lemma SimpleIsSane(g: Guard, t: string)
    ensures SaneInstruction(g, Simple(t)) && Simple(t).kind == t
  {
  }

  lemma UnsettledDiverges(env: Env, reg: Registry, st: State, instr: Instruction, c: Ctl)
    requires c.Refusal().None? && !Settles(env, reg, st, instr)
    ensures Execute(env, reg, st, instr, c).out.Diverged?
  {
    hide Settles;
  }
}
