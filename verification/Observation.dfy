/** Auditing is observation only: a run with auditing and the same run without it make the
    same decisions step for step, and leave the same state but for the chain, the flag and
    the version.

    The audited run spends more instructions, on trace steps. Where it was never refused one
    for a limit, the other was not either, and the two agree; so the hypothesis is about the
    audited run alone.
 */
module Observation {
  import opened Values
  import opened Store
  import opened References
  import opened Control
  import opened Audit
  import opened Machine
  import opened Guards
  import opened Steps
  import opened Engine
  import opened Fallback
  import opened Soundness
  import opened Twins
  import Merging
  import ExecContext

  // ------------------------------------------------------------------------
  // Hypotheses
  // ------------------------------------------------------------------------

  /** A leaf primitive that cannot tell states alike from each other. */
  ghost predicate LeafBlind(g: Guard, run: (State, Instruction) -> Result<State>) {
    forall a, b, instr | Healthy(g, a) && Healthy(g, b) && Alike(a, b) && SaneInstruction(g, instr) ::
      AlikeResults(run(a, instr), run(b, instr))
  }

  ghost predicate Blind(reg: Registry, g: Guard) {
    ReadGuard(g) && LeavesKeep(reg, g) && "trace_step" in reg && reg["trace_step"].TraceStep? &&
    forall name | name in reg && reg[name].Leaf? :: LeafBlind(g, reg[name].run)
  }

  /** Two states alike, the second without auditing. */
  ghost predicate Pair(g: Guard, a: State, b: State) {
    Healthy(g, a) && Healthy(g, b) && Alike(a, b) && !ExecOf(b).auditOn
  }

  /** The second context is nowhere ahead of the first, and has refused nothing. */
  predicate Behind(c: Ctl, d: Ctl) {
    c.depth == d.depth && c.maxDepth == d.maxDepth && c.maxCount == d.maxCount && d.count <= c.count && !d.refused
  }

  /** Unless the first was refused something, both end alike. */
  ghost predicate Agree(g: Guard, r: Run, s: Run) {
    !r.ctl.refused ==>
      Behind(r.ctl, s.ctl) &&
      match (r.out, s.out)
      case (Done(x), Done(y)) => Pair(g, x, y)
      case (Failed(e), Failed(f)) => e == f
      case (Diverged, Diverged) => true
      case _ => false
  }

  // ------------------------------------------------------------------------
  // Pairs
  // ------------------------------------------------------------------------

  lemma PairFits(reg: Registry, g: Guard, a: State, b: State)
    requires Blind(reg, g) && Pair(g, a, b)
    ensures Fit(reg, g, a) && Fit(reg, g, b) && IsGuard(g) && AttrGuard(g) && ReadGuard(g)
    ensures Healthy(g, a) && Healthy(g, b) && Alike(a, b)
  {
    hide LeavesKeep, IsGuard, Healthy, Alike, LeafBlind;
  }

  lemma PairAfter(env: Env, g: Guard, a: State, b: State, x: State, y: State, p: bool, q: bool, s: nat, t: nat, u: nat,
                  v: nat)
    requires Pair(g, a, b) && Alike(x, y)
    requires Step(env, g, p, a, s, x, t) && Step(env, g, q, b, u, y, v)
    ensures Pair(g, x, y)
  {
    hide ExecOf, Alike, Healthy, Extends, KeepsClocks;
  }

  lemma AgreeAfter(env: Env, reg: Registry, g: Guard, a: State, b: State, c: Ctl, d: Ctl, r: Run, s: Run)
    requires Pair(g, a, b)
    requires Sound(env, reg, g, a, c, r) && Sound(env, reg, g, b, d, s)
    requires !r.ctl.refused ==> Behind(r.ctl, s.ctl)
    requires !r.ctl.refused ==>
               match (r.out, s.out)
               case (Done(x), Done(y)) => Alike(x, y)
               case (Failed(e), Failed(f)) => e == f
               case (Diverged, Diverged) => true
               case _ => false
    ensures Agree(g, r, s)
  {
    hide Pair, Step, Alike, AlwaysSettles, NoFallback;
    if !r.ctl.refused && r.out.Done? {
      PairAfter(env, g, a, b, r.out.st, s.out.st, !r.ctl.expanded, !s.ctl.expanded, c.tick, r.ctl.tick, d.tick,
        s.ctl.tick);
    }
  }

  // ------------------------------------------------------------------------
  // The fallback
  // ------------------------------------------------------------------------

  ghost predicate SameSettled(g: Guard, x: Settled, y: Settled) {
    match (x, y)
    case (Ready(s, i, p), Ready(t, j, q)) =>
      Pair(g, s, t) && i == j && p == q && SaneInstruction(g, i)
    case (Unready(e), Unready(f)) => e == f
    case _ => false
  }

  lemma {:induction false} SettleAlike(env: Env, reg: Registry, g: Guard, a: State, b: State, instr: Instruction,
                                       n: nat)
    requires Blind(reg, g) && Pair(g, a, b) && SaneInstruction(g, instr)
    ensures SettlesIn(env, reg, a, instr, n) <==> SettlesIn(env, reg, b, instr, n)
    ensures SettlesIn(env, reg, a, instr, n) ==>
              SameSettled(g, SettleIn(env, reg, a, instr, n), SettleIn(env, reg, b, instr, n))
    decreases n
  {
    hide Blind, Pair, SaneInstruction, Expand;
    PairFits(reg, g, a, b);
    ExpandAlike(env, reg, g, a, b, instr);
    ExpandSteps(env, g, reg, a, 0, instr);
    ExpandSteps(env, g, reg, b, 0, instr);
    match Expand(env, reg, a, instr)
    case Expanded(s, i) =>
      var t := Expand(env, reg, b, instr).st;
      PairAfter(env, g, a, b, s, t, false, false, 0, 0, 0, 0);
      if n > 0 { SettleAlike(env, reg, g, s, t, i, n - 1); }
    case _ =>
  }

  lemma SettlesAlike(env: Env, reg: Registry, g: Guard, a: State, b: State, instr: Instruction)
    requires Blind(reg, g) && Pair(g, a, b) && SaneInstruction(g, instr)
    ensures Settles(env, reg, a, instr) <==> Settles(env, reg, b, instr)
    ensures Settles(env, reg, a, instr) ==> SameSettled(g, Settle(env, reg, a, instr), Settle(env, reg, b, instr))
  {
    hide Blind, Pair, SaneInstruction, SettlesIn, SettleIn, SameSettled, Settle;
    if Settles(env, reg, a, instr) {
      var n := SettleCount(env, reg, a, instr);
      SettleAlike(env, reg, g, a, b, instr, n);
      SettleFrom(env, reg, a, instr, n);
      SettleFrom(env, reg, b, instr, n);
    } else if Settles(env, reg, b, instr) {
      SettleAlike(env, reg, g, a, b, instr, SettleCount(env, reg, b, instr));
    }
  }

  lemma SettledIsRegistered(env: Env, reg: Registry, g: Guard, st: State, instr: Instruction)
    requires Fit(reg, g, st) && SaneInstruction(g, instr) && Settles(env, reg, st, instr)
    ensures match Settle(env, reg, st, instr)
            case Ready(_, i, p) => i.kind in reg && reg[i.kind] == p
            case _ => true
  {
    hide Fit, SaneInstruction, SettlesIn, SettleIn, Step, Expand;
    ExpandingSettles(env, reg, g, st, instr, SettleCount(env, reg, st, instr), 0);
  }

  // ------------------------------------------------------------------------
  // The interpreter
  // ------------------------------------------------------------------------

  lemma ExecutesAlike(env: Env, reg: Registry, g: Guard, a: State, b: State, instr: Instruction, c: Ctl, d: Ctl)
    requires Blind(reg, g) && Pair(g, a, b) && SaneInstruction(g, instr) && Behind(c, d)
    ensures Agree(g, Execute(env, reg, a, instr, c), Execute(env, reg, b, instr, d))
    decreases c.Budget(), 0, 0
  {
    hide Blind, Pair, SaneInstruction, RunPrimitive, Settle, Settles, Fit, Looked;
    if c.Refusal().None? {
      SettlesAlike(env, reg, g, a, b, instr);
      if Settles(env, reg, a, instr) {
        match (Settle(env, reg, a, instr), Settle(env, reg, b, instr))
        case (Ready(s, i, p), Ready(t, _, _)) =>
          PairFits(reg, g, a, b);
          SettledIsRegistered(env, reg, g, a, instr);
          PrimitivesAlike(env, reg, g, p, s, t, i, Looked(env, reg, a, instr, c.Entered()),
            Looked(env, reg, b, instr, d.Entered()));
        case _ =>
      }
    }
  }

  lemma PrimitivesAlike(env: Env, reg: Registry, g: Guard, p: Primitive, a: State, b: State, instr: Instruction, c: Ctl,
                        d: Ctl)
    requires Blind(reg, g) && Pair(g, a, b) && SaneInstruction(g, instr) && Behind(c, d)
    requires instr.kind in reg && reg[instr.kind] == p
    ensures Agree(g, RunPrimitive(env, reg, p, a, instr, c), RunPrimitive(env, reg, p, b, instr, d))
    decreases c.Budget(), 4, 0
  {
    hide Blind, Pair, SaneInstruction, Execute, RunDispatch, RunTryCatch, RunParallel, Loop, RunAll, LoadLoop, Alike,
         Advance, Push, PushSequence, PutChain, TracedChain, ExecOf, Sound, Fit, RunPrimitive;
    PairFits(reg, g, a, b);
    match p
    case InstructionSequence =>
      ScalarsAreSane(g);
      ParamIsSane(g, instr, "instructions");
      var v := Object(instr.params).GetOr("instructions", EmptyList);
      SequencesAlike(env, reg, g, a, b, instr, c, d);
    case Dispatch =>
      DispatchesAlike(env, reg, g, a, b, instr, c, d);
      Unfolds(env, reg, a, b, instr, c, d);
    case WhileLoop =>
      LoadedAlike(reg, g, a, b, instr);
      LoopsAlike(env, reg, g, LoadLoop(a, instr), LoadLoop(b, instr), a, b, 0, c, d);
      Unfolds(env, reg, a, b, instr, c, d);
    case TryCatch =>
      TryCatchesAlike(env, reg, g, a, b, instr, c, d);
      Unfolds(env, reg, a, b, instr, c, d);
    case Parallel =>
      ParallelsAlike(env, reg, g, a, b, instr, c, d);
      Unfolds(env, reg, a, b, instr, c, d);
    case _ =>
      PrimitiveIsSound(env, reg, g, p, a, instr, c);
      PrimitiveIsSound(env, reg, g, p, b, instr, d);
      SimplePrimitivesAlike(env, reg, g, p, a, b, instr, c, d);
      AgreeAfter(env, reg, g, a, b, c, d, RunPrimitive(env, reg, p, a, instr, c),
        RunPrimitive(env, reg, p, b, instr, d));
  }

  lemma Unfolds(env: Env, reg: Registry, a: State, b: State, instr: Instruction, c: Ctl, d: Ctl)
    ensures RunPrimitive(env, reg, Dispatch, a, instr, c) == RunDispatch(env, reg, a, instr, c)
    ensures RunPrimitive(env, reg, Dispatch, b, instr, d) == RunDispatch(env, reg, b, instr, d)
    ensures RunPrimitive(env, reg, WhileLoop, a, instr, c) == Loop(env, reg, LoadLoop(a, instr), a, 0, c)
    ensures RunPrimitive(env, reg, WhileLoop, b, instr, d) == Loop(env, reg, LoadLoop(b, instr), b, 0, d)
    ensures RunPrimitive(env, reg, TryCatch, a, instr, c) == RunTryCatch(env, reg, a, instr, c)
    ensures RunPrimitive(env, reg, TryCatch, b, instr, d) == RunTryCatch(env, reg, b, instr, d)
    ensures RunPrimitive(env, reg, Parallel, a, instr, c) == RunParallel(env, reg, a, instr, c)
    ensures RunPrimitive(env, reg, Parallel, b, instr, d) == RunParallel(env, reg, b, instr, d)
  {
    hide RunDispatch, Loop, RunTryCatch, RunParallel, LoadLoop;
  }

  lemma SequencesAlike(env: Env, reg: Registry, g: Guard, a: State, b: State, instr: Instruction, c: Ctl, d: Ctl)
    requires Blind(reg, g) && Pair(g, a, b) && Behind(c, d)
    requires Sane(g, Object(instr.params).GetOr("instructions", EmptyList))
    ensures Agree(g, RunPrimitive(env, reg, InstructionSequence, a, instr, c),
            RunPrimitive(env, reg, InstructionSequence, b, instr, d))
    decreases c.Budget(), 3, 0
  {
    hide Blind, Pair, RunAll;
    var v := Object(instr.params).GetOr("instructions", EmptyList);
    if v.List? { SequenceAlike(env, reg, g, a, b, v.items, true, c, d); }
  }

  /** The primitives that run no other. */
  lemma SimplePrimitivesAlike(env: Env, reg: Registry, g: Guard, p: Primitive, a: State, b: State, instr: Instruction,
                              c: Ctl, d: Ctl)
    requires Blind(reg, g) && Pair(g, a, b) && SaneInstruction(g, instr) && Behind(c, d)
    requires instr.kind in reg && reg[instr.kind] == p
    requires !p.InstructionSequence? && !p.Dispatch? && !p.WhileLoop? && !p.TryCatch? && !p.Parallel?
    ensures var r, s := RunPrimitive(env, reg, p, a, instr, c), RunPrimitive(env, reg, p, b, instr, d);
            Behind(r.ctl, s.ctl) &&
            match (r.out, s.out)
            case (Done(x), Done(y)) => Alike(x, y)
            case (Failed(e), Failed(f)) => e == f
            case _ => false
  {
    hide Blind, Pair, SaneInstruction, Alike, Advance, Push, PushSequence, PutChain, ExecOf, Healthy, TracedChain, Fit,
         ReadGuard, AttrGuard, IsGuard;
    PairFits(reg, g, a, b);
    match p
    case Noop =>
    case AdvanceInstruction => AdvanceAlike(env, g, a, b);
    case PushInstruction => PushAlike(reg, a, b, instr);
    case PushInstructionSequence => PushSequenceAlike(reg, a, b, instr);
    case TraceStep =>
      PairIsQuiet(g, a, b);
      PutChainAlike(a, TracedChain(env, a, instr, c.tick));
      AlikeTransitive(PutChain(a, TracedChain(env, a, instr, c.tick)), a, b);
    case Leaf(run) => LeafAlike(reg, g, a, b, instr);
  }

  lemma PairIsQuiet(g: Guard, a: State, b: State)
    requires Pair(g, a, b)
    ensures !ExecOf(b).auditOn
  {
  }

  lemma LeafAlike(reg: Registry, g: Guard, a: State, b: State, instr: Instruction)
    requires Blind(reg, g) && Pair(g, a, b) && SaneInstruction(g, instr) && instr.kind in reg && reg[instr.kind].Leaf?
    ensures AlikeResults(reg[instr.kind].run(a, instr), reg[instr.kind].run(b, instr))
  {
    hide ReadGuard, LeavesKeep, Healthy, Alike, SaneInstruction;
    assert LeafBlind(g, reg[instr.kind].run);
  }

  lemma {:induction false} SequenceAlike(env: Env, reg: Registry, g: Guard, a: State, b: State, items: seq<Value>,
                                         skip: bool, c: Ctl, d: Ctl)
    requires Blind(reg, g) && Pair(g, a, b) && Sane(g, List(items)) && Behind(c, d)
    ensures Agree(g, RunAll(env, reg, a, items, skip, c), RunAll(env, reg, b, items, skip, d))
    decreases c.Budget(), 1, |items|
  {
    hide Blind, Pair, Execute, ParseInstruction, SaneInstruction, Sane;
    if items != [] {
      TailIsSane(g, items);
      if skip && TextOr(items[0].GetStr("type"), "") == "" {
        SequenceAlike(env, reg, g, a, b, items[1..], skip, c, d);
      } else {
        ParsedIsSane(g, items[0]);
        match ParseInstruction(items[0])
        case Err(_) =>
        case Ok(instr) =>
          ExecutesAlike(env, reg, g, a, b, instr, c, d);
          var r, s := Execute(env, reg, a, instr, c), Execute(env, reg, b, instr, d);
          if r.out.Done? && !r.ctl.refused {
            SequenceAlike(env, reg, g, r.out.st, s.out.st, items[1..], skip, r.ctl, s.ctl);
          }
      }
    }
  }

  lemma DispatchesAlike(env: Env, reg: Registry, g: Guard, a: State, b: State, instr: Instruction, c: Ctl, d: Ctl)
    requires Blind(reg, g) && Pair(g, a, b) && SaneInstruction(g, instr) && Behind(c, d)
    ensures Agree(g, RunDispatch(env, reg, a, instr, c), RunDispatch(env, reg, b, instr, d))
    decreases c.Budget(), 1, 0
  {
    hide Blind, Pair, Execute, SaneInstruction, PlanDispatch, FinishDispatch, Fit, Sound, Alike, Healthy;
    PairFits(reg, g, a, b);
    PlanDispatchAlike(env, g, a, b, instr);
    PlanIsSane(env, g, a, instr);
    match PlanDispatch(env, a, instr)
    case RunCase(body, tag) =>
      ExecutesAlike(env, reg, g, a, b, body, c, d);
      var r, s := Execute(env, reg, a, body, c), Execute(env, reg, b, body, d);
      if r.out.Done? && !r.ctl.refused {
        PairFits(reg, g, r.out.st, s.out.st);
        FinishAlike(env, a, b, r.out.st, s.out.st, tag);
      }
      DispatchIsSound(env, reg, g, a, instr, c);
      DispatchIsSound(env, reg, g, b, instr, d);
      AgreeAfter(env, reg, g, a, b, c, d, RunDispatch(env, reg, a, instr, c), RunDispatch(env, reg, b, instr, d));
    case _ =>
  }

  lemma TryCatchesAlike(env: Env, reg: Registry, g: Guard, a: State, b: State, instr: Instruction, c: Ctl, d: Ctl)
    requires Blind(reg, g) && Pair(g, a, b) && SaneInstruction(g, instr) && Behind(c, d)
    ensures Agree(g, RunTryCatch(env, reg, a, instr, c), RunTryCatch(env, reg, b, instr, d))
    decreases c.Budget(), 1, 0
  {
    hide Blind, Pair, Execute, SaneInstruction, ResolvePath, ParseInstruction, SetPath, ErrorAttr, RunCatch, Alike,
         Healthy, SafeAttr, Sane, Fit, IsGuard, AttrGuard, ReadGuard;
    PairFits(reg, g, a, b);
    ParamIsSane(g, instr, "try");
    if instr.Param("try").Some? {
      var v := instr.Param("try").value;
      ResolvePathAlike(g, a, b, v);
      ResolvePathIsSane(g, a, v);
      ParsedIsSane(g, ResolvePath(a, v));
      match ParseInstruction(ResolvePath(a, v))
      case Err(_) =>
      case Ok(attempt) =>
        ExecutesAlike(env, reg, g, a, b, attempt, c, d);
        var r, s := Execute(env, reg, a, attempt, c), Execute(env, reg, b, attempt, d);
        if r.out.Failed? && !r.ctl.refused {
          NotesAlike(env, reg, g, a, b, instr, Str(env.errorText(r.out.error)));
          var attr := ErrorAttr(a, instr);
          match SetPath(a, attr, Str(env.errorText(r.out.error)))
          case Err(_) =>
          case Ok(x) =>
            var y := SetPath(b, attr, Str(env.errorText(r.out.error))).value;
            CatchesAlike(env, reg, g, a, b, x, y, instr, r.ctl, s.ctl);
        }
    }
  }

  /** The error is noted in the same place on both. */
  lemma NotesAlike(env: Env, reg: Registry, g: Guard, a: State, b: State, instr: Instruction, text: Value)
    requires Blind(reg, g) && Pair(g, a, b) && SaneInstruction(g, instr) && text.Str?
    ensures ErrorAttr(a, instr) == ErrorAttr(b, instr)
    ensures match (SetPath(a, ErrorAttr(a, instr), text), SetPath(b, ErrorAttr(a, instr), text))
            case (Ok(x), Ok(y)) => Pair(g, x, y)
            case (Err(e), Err(f)) => e == f
            case _ => false
  {
    hide Blind, Pair, SaneInstruction, SetPath, TextParam, Alike, Healthy, SafeAttr, Step, KeyLedPlace;
    PairFits(reg, g, a, b);
    TextAlike(g, a, b, instr, "error_attr", "__error__");
    ErrorAttrIsSafe(g, a, instr);
    ErrorAttrIsKeyLed(g, a, instr);
    var attr := ErrorAttr(a, instr);
    FewerKeysAreSafe(g.keys, attr);
    NoteErrorAlike(a, b, attr, text);
    NoteErrorSteps(env, g, false, a, 0, attr, text.s);
    NoteErrorSteps(env, g, false, b, 0, attr, text.s);
    if SetPath(a, attr, text).Ok? {
      PairAfter(env, g, a, b, SetPath(a, attr, text).value, SetPath(b, attr, text).value, false, false, 0, 0, 0, 0);
    }
  }

  lemma FewerKeysAreSafe(keys: set<string>, path: string)
    requires SafeAttr(keys, path)
    ensures SafeAttr({}, path)
  {
  }

  lemma ErrorAttrIsKeyLed(g: Guard, st: State, instr: Instruction)
    requires ReadGuard(g) && SaneInstruction(g, instr) && Healthy(g, st)
    ensures KeyLedPlace(ErrorAttr(st, instr))
  {
    hide KeyLedPlace, Healthy, SaneInstruction, IsGuard, RestrictsTo;
    DefaultPlaceIsKeyLed();
    ParamIsSane(g, instr, "error_attr");
    match instr.Param("error_attr")
    case Some(v) => NamedPlace(g, st, v, "error_attr", KeyLedPlace);
    case None =>
  }

  lemma DefaultPlaceIsKeyLed()
    ensures KeyLedPlace("__error__")
  {
    SplitFromPlain("__error__", "", "");
    assert "__error__" + "" == "__error__" && "" + "__error__" == "__error__";
    assert SplitPath("__error__") == ["__error__"];
  }

  lemma CatchesAlike(env: Env, reg: Registry, g: Guard, a: State, b: State, x: State, y: State, instr: Instruction,
                     c: Ctl, d: Ctl)
    requires Blind(reg, g) && Pair(g, a, b) && Pair(g, x, y) && SaneInstruction(g, instr) && Behind(c, d)
    ensures Agree(g, RunCatch(env, reg, a, x, instr, c), RunCatch(env, reg, b, y, instr, d))
    decreases c.Budget(), 0, 1
  {
    hide Blind, Pair, Execute, SaneInstruction, ResolvePath, ParseInstruction, Alike, Healthy, Sane;
    PairFits(reg, g, a, b);
    ParamIsSane(g, instr, "catch");
    if instr.Param("catch").Some? {
      var v := instr.Param("catch").value;
      ResolvePathAlike(g, a, b, v);
      ResolvePathIsSane(g, a, v);
      ParsedIsSane(g, ResolvePath(a, v));
      match ParseInstruction(ResolvePath(a, v))
      case Err(_) =>
      case Ok(rescue) => ExecutesAlike(env, reg, g, x, y, rescue, c, d);
    }
  }

  ghost predicate AgreeBranches(x: Branches, y: Branches) {
    !x.ctl.refused ==>
      AllAlike(x.results, y.results) && x.lastError == y.lastError && x.diverged == y.diverged && Behind(x.ctl, y.ctl)
  }

  lemma OneMoreAlike(xs: seq<State>, ys: seq<State>, s: State, t: State)
    requires AllAlike(xs, ys) && Alike(s, t)
    ensures AllAlike(xs + [s], ys + [t])
  {
    hide Alike;
  }

  lemma {:induction false} BranchesAlike(env: Env, reg: Registry, g: Guard, a: State, b: State, items: seq<Value>,
                                         failFast: bool, x: Branches, y: Branches)
    requires Blind(reg, g) && Pair(g, a, b) && Sane(g, List(items)) && AgreeBranches(x, y) && !x.ctl.refused
    ensures AgreeBranches(RunBranches(env, reg, a, items, failFast, x), RunBranches(env, reg, b, items, failFast, y))
    decreases x.ctl.Budget(), 1, |items|
  {
    hide Blind, Pair, Execute, ParseInstruction, SaneInstruction, Sane, AllAlike, Fit, IsGuard, AttrGuard, ReadGuard;
    if items != [] {
      TailIsSane(g, items);
      ParsedIsSane(g, items[0]);
      match ParseInstruction(items[0])
      case Err(e) =>
        if !failFast {
          BranchesAlike(env, reg, g, a, b, items[1..], failFast, x.(lastError := Some(e)), y.(lastError := Some(e)));
        }
      case Ok(instr) =>
        ExecutesAlike(env, reg, g, a, b, instr, x.ctl, y.ctl);
        var r, s := Execute(env, reg, a, instr, x.ctl), Execute(env, reg, b, instr, y.ctl);
        if !r.ctl.refused {
          match r.out
          case Done(p) =>
            PairFits(reg, g, p, s.out.st);
            OneMoreAlike(x.results, y.results, p, s.out.st);
            BranchesAlike(env, reg, g, a, b, items[1..], failFast,
                          x.(results := x.results + [p], ctl := r.ctl),
                            y.(results := y.results + [s.out.st], ctl := s.ctl));
          case Diverged =>
          case Failed(e) =>
            if !failFast {
              BranchesAlike(env, reg, g, a, b, items[1..], failFast,
                            x.(lastError := Some(e), ctl := r.ctl), y.(lastError := Some(e), ctl := s.ctl));
            }
        }
    }
  }

  lemma MergeAlike(a: State, b: State, xs: seq<State>, ys: seq<State>)
    requires Alike(a, b) && AllAlike(xs, ys)
    ensures Alike(ForceMerge(a, xs), ForceMerge(b, ys))
  {
    hide Alike, ForceMerge, ChangedKeys, Merging.MergedSoFar, Merging.SourcesFrom;
    ChangedAlike(a, b, xs, ys);
    var changed := ChangedKeys(a, xs);
    Merging.MergeIsComplete(a, xs);
    Merging.MergeIsComplete(b, ys);
    forall k | k in changed ensures k !in MERGE_SYSTEM_FIELDS { Merging.ChangedExactly(a, xs, k); }
    OverlayAlike(a, b, xs, ys, changed);
    var sources := Merging.SourcesFrom(a, xs, changed);
    SetAlike(Merging.MergedSoFar(a, xs, changed), Merging.MergedSoFar(b, ys, changed), PROVENANCE, Object(sources));
  }

  lemma ChangedAlike(a: State, b: State, xs: seq<State>, ys: seq<State>)
    requires Alike(a, b) && AllAlike(xs, ys)
    ensures ChangedKeys(a, xs) == ChangedKeys(b, ys)
  {
    hide Alike, ChangedKeys, Changes;
    forall k ensures k in ChangedKeys(a, xs) <==> k in ChangedKeys(b, ys) {
      Merging.ChangedExactly(a, xs, k);
      Merging.ChangedExactly(b, ys, k);
      if k !in MERGE_SYSTEM_FIELDS {
        forall i | 0 <= i < |xs| ensures Changes(a, xs[i], k) == Changes(b, ys[i], k) {
          ChangesAlike(a, b, xs[i], ys[i], k);
        }
      }
    }
  }

  lemma ValueAlike(a: State, b: State, xs: seq<State>, ys: seq<State>, k: string)
    requires Alike(a, b) && AllAlike(xs, ys) && k !in MERGE_SYSTEM_FIELDS
    ensures Merging.ValueFrom(a, xs, k) == Merging.ValueFrom(b, ys, k)
    ensures Merging.SourceFrom(a, xs, k) == Merging.SourceFrom(b, ys, k)
  {
    hide Alike, LastWriter;
    WriterAlike(a, b, xs, ys, k);
    match LastWriter(a, xs, k)
    case Some(i) => SameFields(xs[i], ys[i], k);
    case None =>
  }

  lemma OverlayAlike(a: State, b: State, xs: seq<State>, ys: seq<State>, done: set<string>)
    requires Alike(a, b) && AllAlike(xs, ys) && forall k | k in done :: k !in MERGE_SYSTEM_FIELDS
    ensures Alike(Merging.MergedSoFar(a, xs, done), Merging.MergedSoFar(b, ys, done))
    ensures Merging.SourcesFrom(a, xs, done) == Merging.SourcesFrom(b, ys, done)
  {
    hide Merging.ValueFrom, Merging.SourceFrom, SameBut;
    forall k | k in done
      ensures Merging.ValueFrom(a, xs, k) == Merging.ValueFrom(b, ys, k) &&
              Merging.SourceFrom(a, xs, k) == Merging.SourceFrom(b, ys, k)
    {
      ValueAlike(a, b, xs, ys, k);
    }
    var vals := Merging.ValuesFrom(a, xs, done);
    assert vals == Merging.ValuesFrom(b, ys, done);
    assert EXEC !in done && AUDIT_CHAIN !in done;
    assert Business(Merging.MergedSoFar(a, xs, done)) == Business(a) + vals;
    assert Business(Merging.MergedSoFar(b, ys, done)) == Business(b) + vals;
  }

  lemma MergedBranchesAlike(g: Guard, a: State, b: State, instr: Instruction, x: Branches, y: Branches)
    requires ReadGuard(g) && Alike(a, b) && SaneInstruction(g, instr) && AgreeBranches(x, y) && !x.ctl.refused
    ensures var r, s := MergeBranches(a, instr, x), MergeBranches(b, instr, y);
            r.ctl == x.ctl && s.ctl == y.ctl &&
            match (r.out, s.out)
            case (Done(p), Done(q)) => Alike(p, q)
            case (Failed(e), Failed(f)) => e == f
            case (Diverged, Diverged) => true
            case _ => false
  {
    hide Alike, ForceMerge, TextParam, SaneInstruction, ReadGuard;
    TextAlike(g, a, b, instr, "merge", "last_wins");
    MergeAlike(a, b, x.results, y.results);
  }

  lemma ParallelsAlike(env: Env, reg: Registry, g: Guard, a: State, b: State, instr: Instruction, c: Ctl, d: Ctl)
    requires Blind(reg, g) && Pair(g, a, b) && SaneInstruction(g, instr) && Behind(c, d)
    ensures Agree(g, RunParallel(env, reg, a, instr, c), RunParallel(env, reg, b, instr, d))
    decreases c.Budget(), 2, 0
  {
    hide Blind, Pair, SaneInstruction, ResolvePath, TextParam, MergeBranches, RunBranches, Fit, Sound, Alike, Healthy,
         AllAlike, Sane;
    PairFits(reg, g, a, b);
    ParamIsSane(g, instr, "branches");
    if instr.Param("branches").Some? && !c.refused {
      var v := instr.Param("branches").value;
      ResolvePathAlike(g, a, b, v);
      ResolvePathIsSane(g, a, v);
      match ResolvePath(a, v)
      case List(items) =>
        TextAlike(g, a, b, instr, "error_strategy", "fail_fast");
        var failFast := TextParam(a, instr, "error_strategy", "fail_fast") == "fail_fast";
        var p, q := Branches([], None, false, c), Branches([], None, false, d);
        assert AllAlike([], []) by { NoneAlike(); }
        BranchesAlike(env, reg, g, a, b, items, failFast, p, q);
        var x, y := RunBranches(env, reg, a, items, failFast, p), RunBranches(env, reg, b, items, failFast, q);
        if !x.ctl.refused { MergedBranchesAlike(g, a, b, instr, x, y); }
        ParallelIsSound(env, reg, g, a, instr, c);
        ParallelIsSound(env, reg, g, b, instr, d);
        assert MergeBranches(a, instr, x).ctl == x.ctl by { MergeKeepsContext(a, instr, x); }
        AgreeAfter(env, reg, g, a, b, c, d, RunParallel(env, reg, a, instr, c), RunParallel(env, reg, b, instr, d));
      case _ =>
    }
  }

  lemma NoneAlike()
    ensures AllAlike([], [])
  {
  }

  lemma MergeKeepsContext(st: State, instr: Instruction, b: Branches)
    ensures MergeBranches(st, instr, b).ctl == b.ctl
  {
    hide ForceMerge, TextParam;
  }

  /** The audited side may take a trace step that the other leaves out. */
  lemma TracesAlike(env: Env, reg: Registry, g: Guard, on: bool, a: State, b: State, c: Ctl, d: Ctl)
    requires Blind(reg, g) && Pair(g, a, b) && Behind(c, d)
    ensures Agree(g, TraceIf(env, reg, on, a, c), TraceIf(env, reg, false, b, d))
  {
    hide Execute, Pair, Step, PutChain, TracedChain, RunPrimitive, ReadGuard, LeafBlind, LeavesKeep;
    if on && c.Refusal().None? {
      TracedAlike(env, reg, g, a, b, c);
    } else if on {
      RefusedIsNoted(env, reg, a, TRACE, c);
    }
  }

  lemma RefusedIsNoted(env: Env, reg: Registry, st: State, instr: Instruction, c: Ctl)
    requires c.Refusal().Some?
    ensures Execute(env, reg, st, instr, c).ctl.refused
  {
  }

  lemma TracedAlike(env: Env, reg: Registry, g: Guard, a: State, b: State, c: Ctl)
    requires Blind(reg, g) && Pair(g, a, b) && c.Refusal().None?
    ensures var r := Execute(env, reg, a, TRACE, c);
            r.out.Done? && Pair(g, r.out.st, b) && r.ctl.count == c.count + 1
  {
    hide Execute, Pair, Step, PutChain, TracedChain, ReadGuard, LeafBlind, LeavesKeep, Alike, Healthy, ExecOf, IsGuard,
         Fit, AttrGuard, ChainIn;
    PairFits(reg, g, a, b);
    ExecuteRegistered(env, reg, a, TRACE, c);
    if ExecOf(a).auditOn {
      var chain := TracedChain(env, a, TRACE, c.tick);
      PutChainAlike(a, chain);
      AlikeTransitive(PutChain(a, chain), a, b);
      TraceSteps(env, g, false, a, TRACE, c.tick);
      StepFromSelf(env, g, false, b, 0, 0);
      PairAfter(env, g, a, b, PutChain(a, chain), b, false, false, c.tick, c.tick + 1, 0, 0);
    }
  }

  ghost predicate SameConfigs(g: Guard, x: LoopConfig, y: LoopConfig) {
    x.(auditOn := false) == y && (x.condition.Some? ==> Sane(g, x.condition.value)) && SaneConfig(g, x)
  }

  lemma LoadedAlike(reg: Registry, g: Guard, a: State, b: State, instr: Instruction)
    requires Blind(reg, g) && Pair(g, a, b) && SaneInstruction(g, instr)
    ensures SameConfigs(g, LoadLoop(a, instr), LoadLoop(b, instr))
  {
    hide Blind, SaneInstruction, Alike, Healthy, ExecOf, MaxSteps, Sane;
    SameExec(a, b);
    ParamIsSane(g, instr, "condition");
    ParamIsSane(g, instr, "body");
  }

  lemma {:induction false} DrainsAlike(env: Env, reg: Registry, g: Guard, x: LoopConfig, y: LoopConfig, a: State,
                                       b: State, c: Ctl, d: Ctl)
    requires Blind(reg, g) && Pair(g, a, b) && SameConfigs(g, x, y) && Behind(c, d)
    ensures Agree(g, Drain(env, reg, x, a, c), Drain(env, reg, y, b, d))
    decreases c.Budget(), 1, 0
  {
    hide Blind, Pair, SaneInstruction, Execute, PlanDrain, TraceIf, Alike, Healthy, SaneConfig, Sane, Agree, Behind,
         Step, Fit, IsGuard, ReadGuard, AttrGuard;
    PairFits(reg, g, a, b);
    PlanDrainAlike(a, b, x.metaTypes);
    PlanDrainSteps(env, g, false, a, 0, x.metaTypes);
    PlanDrainSteps(env, g, false, b, 0, x.metaTypes);
    InstructionValuesAreSane(g);
    var p, q := PlanDrain(a, x.metaTypes), PlanDrain(b, x.metaTypes);
    var s, t := DrainState(p, a), DrainState(q, b);
    PairAfter(env, g, a, b, s, t, false, false, 0, 0, 0, 0);
    match p
    case Stop(_) => EndsAgree(g, Done(s), Done(t), c, d);
    case Broken(e) => EndsAgree(g, Failed(e), Failed(e), c, d);
    case Land(_) => TracesAlike(env, reg, g, x.auditOn, s, t, c, d);
    case Idle(_) => IdlesAlike(env, reg, g, x, y, s, t, c, d);
    case RunMeta(_, instr) => MetasAlike(env, reg, g, x, y, s, t, instr, c, d);
  }

  lemma EndsAgree(g: Guard, x: Outcome, y: Outcome, c: Ctl, d: Ctl)
    requires Behind(c, d)
    requires match (x, y) case (Done(s), Done(t)) => Pair(g, s, t) case (Failed(e), Failed(f)) => e == f case _ => false
    ensures Agree(g, Run(x, c), Run(y, d))
  {
    hide Pair;
  }

  lemma IdlesAlike(env: Env, reg: Registry, g: Guard, x: LoopConfig, y: LoopConfig, s: State, t: State, c: Ctl, d: Ctl)
    requires Blind(reg, g) && Pair(g, s, t) && SameConfigs(g, x, y) && Behind(c, d)
    ensures Agree(g, IdleRun(env, reg, x, s, c), IdleRun(env, reg, y, t, d))
    decreases c.Budget(), 0, 1
  {
    hide Blind, Pair, SaneInstruction, Execute, TraceIf, SaneConfig, Sane, ReadGuard, IsGuard, Alike, Healthy, Fit;
    PairFits(reg, g, s, t);
    InstructionValuesAreSane(g);
    ExecutesAlike(env, reg, g, s, t, ADVANCE, c, d);
    var r, r' := Execute(env, reg, s, ADVANCE, c), Execute(env, reg, t, ADVANCE, d);
    if r.out.Done? && !r.ctl.refused { TracesAlike(env, reg, g, x.auditOn, r.out.st, r'.out.st, r.ctl, r'.ctl); }
  }

  /** The advance with which the drain of an empty queue ends. */
  ghost function IdleRun(env: Env, reg: Registry, cfg: LoopConfig, s: State, c: Ctl): Run {
    var r := Execute(env, reg, s, ADVANCE, c);
    if r.out.Done? then TraceIf(env, reg, cfg.auditOn, r.out.st, r.ctl) else r
  }

  lemma MetasAlike(env: Env, reg: Registry, g: Guard, x: LoopConfig, y: LoopConfig, s: State, t: State,
                   instr: Instruction, c: Ctl, d: Ctl)
    requires Blind(reg, g) && Pair(g, s, t) && SameConfigs(g, x, y) && Behind(c, d) && SaneInstruction(g, instr)
    ensures Agree(g, MetaRun(env, reg, x, s, instr, c), MetaRun(env, reg, y, t, instr, d))
    decreases c.Budget(), 0, 1
  {
    hide Blind, Pair, SaneInstruction, Execute, TraceIf, SaneConfig, Sane, Drain;
    ExecutesAlike(env, reg, g, s, t, instr, c, d);
    var r, r' := Execute(env, reg, s, instr, c), Execute(env, reg, t, instr, d);
    if r.out.Done? && !r.ctl.refused {
      var on := x.auditOn && x.metaTrace;
      TracesAlike(env, reg, g, on, r.out.st, r'.out.st, r.ctl, r'.ctl);
      var u, u' := TraceIf(env, reg, on, r.out.st, r.ctl), TraceIf(env, reg, false, r'.out.st, r'.ctl);
      if u.out.Done? && !u.ctl.refused { DrainsAlike(env, reg, g, x, y, u.out.st, u'.out.st, u.ctl, u'.ctl); }
    }
  }

  /** A meta-instruction and the rest of the drain. */
  ghost function MetaRun(env: Env, reg: Registry, cfg: LoopConfig, s: State, instr: Instruction, c: Ctl): Run {
    var r := Execute(env, reg, s, instr, c);
    if !r.out.Done? then r
    else
      var t := TraceIf(env, reg, cfg.auditOn && cfg.metaTrace, r.out.st, r.ctl);
      if t.out.Done? then Drain(env, reg, cfg, t.out.st, t.ctl) else t
  }

  ghost predicate AgreeTurns(g: Guard, x: Turn, y: Turn) {
    !x.ctl.refused ==>
      Behind(x.ctl, y.ctl) &&
      match (x, y)
      case (Completed(s, _), Completed(t, _)) => Pair(g, s, t)
      case (Ended(_, s, _), Ended(_, t, _)) => Pair(g, s, t)
      case (Aborted(Failed(e), _), Aborted(Failed(f), _)) => e == f
      case (Aborted(Diverged, _), Aborted(Diverged, _)) => true
      case _ => false
  }

  /** The part of a turn after its condition. */
  ghost function BodyTurn(env: Env, reg: Registry, cfg: LoopConfig, work: Value, st: State, c: Ctl): Turn {
    var r := RunAll(env, reg, st, if work.List? then work.items else [work], false, c);
    if !r.out.Done? then Aborted(r.out, r.ctl)
    else
      var d := Drain(env, reg, cfg, r.out.st, r.ctl);
      if !d.out.Done? then Aborted(d.out, d.ctl)
      else if ExecOf(d.out.st).running then Completed(d.out.st, d.ctl)
      else Ended(NotRunning, d.out.st, d.ctl)
  }

  lemma BodyTurnsAlike(env: Env, reg: Registry, g: Guard, x: LoopConfig, y: LoopConfig, work: Value, a: State, b: State,
                       c: Ctl, d: Ctl)
    requires Blind(reg, g) && Pair(g, a, b) && SameConfigs(g, x, y) && Behind(c, d) && Sane(g, work)
    ensures AgreeTurns(g, BodyTurn(env, reg, x, work, a, c), BodyTurn(env, reg, y, work, b, d))
    decreases c.Budget(), 2, 0
  {
    hide Blind, Pair, RunAll, Drain, ExecOf, Alike, Healthy, Sane, Fit, ReadGuard, AttrGuard, IsGuard, SameConfigs;
    OneItemIsSane(g, work);
    var items := if work.List? then work.items else [work];
    SequenceAlike(env, reg, g, a, b, items, false, c, d);
    var r, s := RunAll(env, reg, a, items, false, c), RunAll(env, reg, b, items, false, d);
    if r.out.Done? && !r.ctl.refused {
      DrainsAlike(env, reg, g, x, y, r.out.st, s.out.st, r.ctl, s.ctl);
      var u, v := Drain(env, reg, x, r.out.st, r.ctl), Drain(env, reg, y, s.out.st, s.ctl);
      if u.out.Done? && !u.ctl.refused {
        PairFits(reg, g, u.out.st, v.out.st);
        SameExec(u.out.st, v.out.st);
      }
    }
  }

  lemma TurnsAlike(env: Env, reg: Registry, g: Guard, x: LoopConfig, y: LoopConfig, a: State, b: State, c: Ctl, d: Ctl)
    requires Blind(reg, g) && Pair(g, a, b) && SameConfigs(g, x, y) && Behind(c, d)
    ensures AgreeTurns(g, TakeTurn(env, reg, x, a, c), TakeTurn(env, reg, y, b, d))
    decreases c.Budget(), 2, 1
  {
    hide Blind, Pair, RunAll, Drain, CheckCondition, ExecOf, Alike, Healthy, Sane, Fit, ReadGuard, AttrGuard, IsGuard;
    PairFits(reg, g, a, b);
    ConditionAlike(env, g, a, b, x.condition);
    match CheckCondition(env, a, x.condition)
    case Err(_) =>
    case Ok(holds) =>
      if holds && x.body.Some? {
        BodyTurnsAlike(env, reg, g, x, y, x.body.value, a, b, c, d);
        assert TakeTurn(env, reg, x, a, c) == BodyTurn(env, reg, x, x.body.value, a, c);
        assert TakeTurn(env, reg, y, b, d) == BodyTurn(env, reg, y, x.body.value, b, d);
      }
  }

  lemma CutsAlike(env: Env, reg: Registry, g: Guard, a: State, b: State, cut: bool)
    requires Blind(reg, g) && Pair(g, a, b)
    ensures Pair(g, SetTruncated(a, cut), SetTruncated(b, cut)) && ExecOf(a).running == ExecOf(b).running
  {
    hide Blind, Pair, ExecOf, Alike, Healthy, SetTruncated, Step, IsGuard;
    PairFits(reg, g, a, b);
    SameExec(a, b);
    SettersAlike(a, b, [], Null, cut, "");
    SetFlagsSteps(env, g, false, a, 0, true, "", cut);
    SetFlagsSteps(env, g, false, b, 0, true, "", cut);
    PairAfter(env, g, a, b, SetTruncated(a, cut), SetTruncated(b, cut), false, false, 0, 0, 0, 0);
  }

  lemma {:induction false} LoopsAlike(env: Env, reg: Registry, g: Guard, x: LoopConfig, y: LoopConfig, a: State,
                                      b: State, steps: nat, c: Ctl, d: Ctl)
    requires Blind(reg, g) && Pair(g, a, b) && SameConfigs(g, x, y) && Behind(c, d)
    ensures Agree(g, Loop(env, reg, x, a, steps, c), Loop(env, reg, y, b, steps, d))
    decreases c.Budget(), 3, if steps <= x.maxSteps then x.maxSteps - steps else 0
  {
    hide Blind, Pair, TakeTurn, ExecOf, SetTruncated, SaneConfig, Sane;
    if steps >= x.maxSteps {
      CutsAlike(env, reg, g, a, b, steps > 0 && ExecOf(a).running);
    } else {
      TurnsAlike(env, reg, g, x, y, a, b, c, d);
      var t, u := TakeTurn(env, reg, x, a, c), TakeTurn(env, reg, y, b, d);
      if !t.ctl.refused {
        match t
        case Completed(s, _) => LoopsAlike(env, reg, g, x, y, s, u.st, steps + 1, t.ctl, u.ctl);
        case Ended(_, s, _) => CutsAlike(env, reg, g, s, u.st, false);
        case Aborted(_, _) =>
      }
    }
  }

  // ------------------------------------------------------------------------
  // Main result
  // ------------------------------------------------------------------------

  function WithAudit(st: State, on: bool): State {
    PutExec(st, ExecOf(st).(auditOn := on))
  }

  lemma AuditPair(g: Guard, st: State)
    requires IsGuard(g) && Healthy(g, st)
    ensures Pair(g, WithAudit(st, true), WithAudit(st, false))
  {
    hide ExecContext.Parse, ExecContext.ToValue, Healthy, IsGuard, Alike, SaneContext;
    ExecIsSane(g, st);
    assert SaneContext(g, ExecOf(st).(auditOn := true)) && SaneContext(g, ExecOf(st).(auditOn := false)) by {
      FlagIsSane(g, ExecOf(st), true);
      FlagIsSane(g, ExecOf(st), false);
    }
    PutExecIsHealthy(g, st, ExecOf(st).(auditOn := true));
    PutExecIsHealthy(g, st, ExecOf(st).(auditOn := false));
    assert Alike(st, st) by { ItselfAlike(st); }
    PutExecAlike(st, st, ExecOf(st).(auditOn := true), ExecOf(st).(auditOn := false));
    ExecContext.RoundTrip(ExecOf(st).(auditOn := false));
  }

  lemma FlagIsSane(g: Guard, x: ExecContext.Context, on: bool)
    requires SaneContext(g, x)
    ensures SaneContext(g, x.(auditOn := on))
  {
    hide Sane;
  }

  lemma ItselfAlike(st: State)
    ensures Alike(st, st)
  {
  }

  /** Switching auditing on or off makes no difference to the outcome of any instruction, nor
      to any field but the chain and the flag, as long as the audited run meets no limit; the
      run without it meets none then either. */
  lemma AuditingIsObservationOnly(env: Env, reg: Registry, g: Guard, st: State, instr: Instruction, c: Ctl)
    requires Blind(reg, g) && Healthy(g, st) && SaneInstruction(g, instr) && !c.refused
    ensures var r, s :=
              Execute(env, reg, WithAudit(st, true), instr, c), Execute(env, reg, WithAudit(st, false), instr, c);
            !r.ctl.refused ==>
              !s.ctl.refused && s.ctl.count <= r.ctl.count &&
              match (r.out, s.out)
              case (Done(x), Done(y)) => Business(x) == Business(y) && SameButAudit(ExecOf(x), ExecOf(y))
              case (Failed(e), Failed(f)) => e == f
              case (Diverged, Diverged) => true
              case _ => false
  {
    hide Execute, Pair, WithAudit, Healthy, SaneInstruction, ExecOf, Alike, IsGuard, LeavesKeep, LeafBlind;
    AuditPair(g, st);
    var a, b := WithAudit(st, true), WithAudit(st, false);
    ExecutesAlike(env, reg, g, a, b, instr, c, c);
    var r, s := Execute(env, reg, a, instr, c), Execute(env, reg, b, instr, c);
    if !r.ctl.refused && r.out.Done? {
      PairFits(reg, g, r.out.st, s.out.st);
      SameExec(r.out.st, s.out.st);
      SameBusiness(r.out.st, s.out.st);
    }
  }

  lemma SameBusiness(a: State, b: State)
    requires Alike(a, b)
    ensures Business(a) == Business(b)
  {
  }
}
