/** What an expansion by the fallback does to the order of timestamps. Its record is stamped
    with the chain's own clock, which no trace step moves. */
module Timestamps {
  import opened Values
  import opened Store
  import opened References
  import opened Control
  import opened Audit
  import opened Machine
  import opened Steps
  import opened Engine
  import opened Fallback
  import opened Traces
  import ExecContext

  ghost predicate Increasing(records: seq<AuditRecord>) {
    forall i, j | 0 <= i < j < |records| :: records[i].timestamp < records[j].timestamp
  }

  /** The record of an expansion keeps timestamps increasing exactly when the chain's own
      clock is past the last of them; no trace step moves that clock. */
  lemma ExpansionKeepsOrderExactly(env: Env, st: State, original: string, expanded: string)
    requires ChainOf(st).Some? && ExecOf(st).auditOn && Increasing(ChainIn(st).records)
    ensures var records := ChainIn(st).records;
            Increasing(ChainIn(RecordExpand(env, st, original, expanded)).records) <==>
            records == [] || records[|records| - 1].timestamp < AsI64(ChainIn(st).logicalTick)
  {
    hide ExecOf, ExpandedChain, AsI64, AsU64, RecordExpand, PutChain, ParseChain, Extends;
    var e := ExpandedChain(env, st, original, expanded);
    var records := ChainIn(st).records;
    RecordedExpansion(env, st, original, expanded);
    ExpandedChainExtends(env, st, original, expanded);
    PutChainIsRead(st, e);
    OneMoreIncreasing(records, e.records);
  }

  /** The state after a trace step at a given tick. */
  function Traced(env: Env, st: State, trace: Instruction, tick: nat): State {
    PutChain(st, TracedChain(env, st, trace, tick))
  }

  lemma OneMoreIncreasing(records: seq<AuditRecord>, more: seq<AuditRecord>)
    requires |more| == |records| + 1 && more[..|records|] == records && Increasing(records)
    ensures Increasing(more) <==>
            records == [] || records[|records| - 1].timestamp < more[|records|].timestamp
  {
    forall i | 0 <= i < |records| ensures more[i] == records[i] {
      assert more[i] == more[..|records|][i];
    }
  }

  /** The record of a trace step keeps timestamps increasing exactly when the clock of the
      context is past the last of them, which an expansion may have stamped. */
  lemma TraceKeepsOrderExactly(env: Env, st: State, instr: Instruction, tick: nat)
    requires Increasing(ChainIn(st).records)
    ensures var records := ChainIn(st).records;
            Increasing(ChainIn(Traced(env, st, instr, tick)).records) <==>
            records == [] || records[|records| - 1].timestamp < AsI64(tick)
  {
    hide TracedChain, ChainIn, PutChain, Increasing, AsI64, Verifies, TraceHashes;
    PutChainIsRead(st, TracedChain(env, st, instr, tick));
    RecordIsAppended(env, st, instr, tick);
    OneMoreIncreasing(ChainIn(st).records, TracedChain(env, st, instr, tick).records);
  }

  lemma TraceMovesNoChainClock(env: Env, st: State, instr: Instruction, tick: nat)
    ensures var next := Traced(env, st, instr, tick);
            ChainIn(next).logicalTick == ChainIn(st).logicalTick &&
            |ChainIn(next).records| == |ChainIn(st).records| + 1 &&
            ChainIn(next).records[|ChainIn(st).records|].timestamp == AsI64(tick)
  {
    hide ParseChain, ChainToValue, PutChain, Append, TraceSummary, TraceHashes, CurrentTypeName, ExecField, AsI64;
    PutChainIsRead(st, TracedChain(env, st, instr, tick));
    var params := Object(instr.params);
    var name := TextOr(params.GetStr("label"), "step");
    var itype := CurrentTypeName(st);
    var ruleId := TextOr(params.GetStr("rule_id"), TextOr(itype, "unknown"));
    var version := match ExecField(st, "dispatch_table_version") case Some(Str(v)) => Some(v) case _ => None;
    var hashes := TraceHashes(env, st);
    AppendAddsOne(env.digests, ChainIn(st), ruleId, tick, hashes.0, hashes.1, Some(TraceSummary(itype, version, name)));
  }

  /** Dispatching a type that is not registered, to a case that is a registered leaf, expands
      nothing: timestamps go on increasing under a table of such aliases. */
  lemma DispatchedAliasIsNotExpanded(env: Env, reg: Registry, st: State, instr: Instruction, c: Ctl)
    requires PlanDispatch(env, st, instr).RunCase?
    requires var body := PlanDispatch(env, st, instr).instr; body.kind in reg && reg[body.kind].Leaf?
    ensures RunDispatch(env, reg, st, instr, c).ctl.expanded == c.expanded
  {
    hide PlanDispatch, Execute, FinishDispatch, Settles, Settle;
    var body := PlanDispatch(env, st, instr).instr;
    if c.Refusal().None? {
      ExecuteRegistered(env, reg, st, body, c);
    } else {
      RefusalExpandsNothing(env, reg, st, body, c);
    }
  }

  lemma RefusalExpandsNothing(env: Env, reg: Registry, st: State, instr: Instruction, c: Ctl)
    requires c.Refusal().Some?
    ensures Execute(env, reg, st, instr, c).ctl.expanded == c.expanded
  {
  }

  lemma AliasExpands(env: Env, reg: Registry, st: State, name: string, target: string)
    requires name !in reg && target != "dispatch" && name in CasesOf(st)
    requires CasesOf(st)[name] == Object(map["type" := Str(target)])
    ensures Expand(env, reg, st, Simple(name))
         == Expanded(RecordExpand(env, NoteInstruction(st, Simple(name).ToValue()), name, target), Simple(target))
  {
    hide CasesOf, NoteInstruction, RecordExpand, ParseInstruction, ResolveRefs;
    CasesField(st);
    var noted := NoteInstruction(st, Simple(name).ToValue());
    assert NoteMetadata(noted, EmptyObject) == noted;
    PlainCaseParses(noted, target);
  }

  /** An unregistered type whose case is a plain noop leaves nothing but the expansion. */
  lemma AliasOfNoopRuns(env: Env, reg: Registry, st: State, name: string, c: Ctl)
    requires name !in reg && "noop" in reg && reg["noop"].Noop? && c.Refusal().None?
    requires name in CasesOf(st) && CasesOf(st)[name] == Object(map["type" := Str("noop")])
    ensures var r := Execute(env, reg, st, Simple(name), c);
            r.out == Done(RecordExpand(env, NoteInstruction(st, Simple(name).ToValue()), name, "noop")) &&
              r.ctl.expanded
  {
    hide CasesOf, NoteInstruction, RecordExpand, Expand, Settles, Settle;
    AliasExpands(env, reg, st, name, "noop");
    var s := RecordExpand(env, NoteInstruction(st, Simple(name).ToValue()), name, "noop");
    SettleStep(env, reg, st, Simple(name));
    SettleStep(env, reg, s, Simple("noop"));
    NoopIsRegistered(env, reg, s);
  }

  lemma NoopIsRegistered(env: Env, reg: Registry, st: State)
    requires "noop" in reg
    ensures Expand(env, reg, st, Simple("noop")) == Registered(reg["noop"])
  {
  }

  /** A run that leaves `n` records whose timestamps do not increase. */
  ghost predicate OutOfOrder(out: Outcome, n: nat) {
    out.Done? && |ChainIn(out.st).records| == n && !Increasing(ChainIn(out.st).records)
  }

  ghost predicate TimedUpTo(st: State, tick: nat) {
    Timed(ChainIn(st).records, tick + 1)
  }

  /** One trace step and then one expansion break the order, for whatever state and clock: a
      chain that a trace step began still has its own clock at zero. */
  lemma TracedThenExpanded(env: Env, reg: Registry, st: State, name: string, trace: Instruction, tick: nat, c: Ctl)
    requires name !in reg && "noop" in reg && reg["noop"].Noop? && c.Refusal().None? && tick < TICK_LIMIT
    requires name in CasesOf(st) && CasesOf(st)[name] == Object(map["type" := Str("noop")])
    requires ChainOf(st).None? && ExecOf(st).auditOn
    ensures var traced := Traced(env, st, trace, tick);
            TimedUpTo(traced, tick) && OutOfOrder(Execute(env, reg, traced, Simple(name), c).out, 2)
  {
    hide CasesOf, ExecOf, ParseChain, NoteInstruction, RecordExpand, PutChain, TracedChain, Execute, AsI64;
    var traced := Traced(env, st, trace, tick);
    var noted := NoteInstruction(traced, Simple(name).ToValue());
    TraceMovesNoChainClock(env, st, trace, tick);
    SmallTimestamps(tick);
    TraceKeepsCases(st, TracedChain(env, st, trace, tick));
    AliasOfNoopRuns(env, reg, traced, name, c);
    NotingIsQuiet(traced, Simple(name).ToValue());
    ExpansionKeepsOrderExactly(env, noted, name, "noop");
    ExpansionAddsOne(env, noted, name, "noop");
  }

  lemma ExpansionAddsOne(env: Env, st: State, original: string, expanded: string)
    requires ChainOf(st).Some? && ExecOf(st).auditOn
    ensures var next := RecordExpand(env, st, original, expanded);
            |ChainIn(next).records| == |ChainIn(st).records| + 1 &&
            ChainIn(next).records[|ChainIn(st).records|].timestamp == AsI64(ChainIn(st).logicalTick) &&
            ExecOf(next) == ExecOf(st)
  {
    hide ExecOf, ExpandedChain, AsI64, AsU64, RecordExpand, PutChain, ParseChain, Extends;
    var e := ExpandedChain(env, st, original, expanded);
    RecordedExpansion(env, st, original, expanded);
    ExpandedChainExtends(env, st, original, expanded);
    PutChainIsRead(st, e);
    TraceKeepsCases(st, e);
  }

  /** One expansion that begins a chain, and then one trace step, break the order wherever the
      clock of the context is not past the chain's own. */
  lemma ExpandedThenTraced(env: Env, reg: Registry, st: State, name: string, trace: Instruction, tick: nat, c: Ctl)
    requires name !in reg && "noop" in reg && reg["noop"].Noop? && c.Refusal().None?
    requires name in CasesOf(st) && CasesOf(st)[name] == Object(map["type" := Str("noop")])
    requires ChainOf(st).Some? && ChainIn(st).records == [] && ExecOf(st).auditOn
    requires AsI64(tick) <= AsI64(ChainIn(st).logicalTick)
    ensures var expanded := RecordExpand(env, NoteInstruction(st, Simple(name).ToValue()), name, "noop");
            Execute(env, reg, st, Simple(name), c).out == Done(expanded) && ExecOf(expanded).auditOn &&
            Increasing(ChainIn(expanded).records) &&
            OutOfOrder(Done(Traced(env, expanded, trace, tick)), 2)
  {
    hide CasesOf, ExecOf, ParseChain, NoteInstruction, RecordExpand, PutChain, TracedChain, Execute, AsI64;
    var noted := NoteInstruction(st, Simple(name).ToValue());
    var expanded := RecordExpand(env, noted, name, "noop");
    AliasOfNoopRuns(env, reg, st, name, c);
    NotingIsQuiet(st, Simple(name).ToValue());
    ExpansionAddsOne(env, noted, name, "noop");
    TraceMovesNoChainClock(env, expanded, trace, tick);
    TraceKeepsOrderExactly(env, expanded, trace, tick);
  }

  lemma SmallTimestamps(tick: nat)
    requires tick < TICK_LIMIT
    ensures AsI64(tick) == tick && AsI64(0) == 0
  {
  }

  lemma TraceKeepsCases(st: State, c: AuditChain)
    ensures CasesOf(PutChain(st, c)) == CasesOf(st) && ExecOf(PutChain(st, c)) == ExecOf(st) &&
            ChainOf(PutChain(st, c)) == Some(c)
  {
    hide ExecContext.Parse, ChainToValue, ParseChain;
    assert PutChain(st, c).Get(EXEC) == st.Get(EXEC);
    ChainRoundTrip(c);
  }

  lemma NotingIsQuiet(st: State, v: Value)
    ensures ChainOf(NoteInstruction(st, v)) == ChainOf(st) && ChainIn(NoteInstruction(st, v)) == ChainIn(st)
    ensures ExecOf(NoteInstruction(st, v)).auditOn == ExecOf(st).auditOn
  {
    hide ExecOf, ParseChain;
    NotedExec(st, v);
    assert NoteInstruction(st, v).Get(AUDIT_CHAIN) == st.Get(AUDIT_CHAIN);
  }

  /** A concrete state: one unregistered alias of a noop in the table, and no chain yet. */
  const AliasState: State :=
    State(map[EXEC := Object(map["dispatch_cases" := Object(map["alias" := Object(map["type" := Str("noop")])])])], 0)

  const NoopAndTrace: Registry := map["noop" := Noop, "trace_step" := TraceStep]

  /** A fresh context, and what a trace step and an expansion leave of it. */
  const START := Ctl(0, 256, 0, 0, 1_000_000, false, false)
  const AFTER_TRACE := START.(tick := 1, count := 1)
  const AFTER_EXPANSION := START.(count := 1, expanded := true)

  lemma AliasStateIsAnExample(env: Env)
    ensures var traced := Traced(env, AliasState, TRACE, 0);
            Execute(env, NoopAndTrace, AliasState, TRACE, START).out == Done(traced) && TimedUpTo(traced, 0) &&
            OutOfOrder(Execute(env, NoopAndTrace, traced, Simple("alias"), AFTER_TRACE).out, 2)
  {
    hide Execute, TracedChain, PutChain, RunPrimitive, CasesOf, ExecOf, ChainIn, ChainOf, OutOfOrder, TimedUpTo;
    AliasStateIs();
    AuditedTraceRuns(env, NoopAndTrace, AliasState, START);
    TracedThenExpanded(env, NoopAndTrace, AliasState, "alias", TRACE, 0, AFTER_TRACE);
  }

  /** The same state with an empty chain in place, where the expansion comes first. */
  const EmptyChainState: State := PutChain(AliasState, EmptyChain)

  lemma EmptyChainStateIsAnExample(env: Env)
    ensures var r := Execute(env, NoopAndTrace, EmptyChainState, Simple("alias"), START);
            r.out.Done? && Increasing(ChainIn(r.out.st).records) &&
            OutOfOrder(Execute(env, NoopAndTrace, r.out.st, TRACE, AFTER_EXPANSION).out, 2)
  {
    hide Execute, TracedChain, PutChain, RunPrimitive, CasesOf, ExecOf, ParseChain, OutOfOrder, NoteInstruction,
         RecordExpand, Increasing;
    AliasStateIs();
    TraceKeepsCases(AliasState, EmptyChain);
    SmallTimestamps(0);
    ExpandedThenTraced(env, NoopAndTrace, EmptyChainState, "alias", TRACE, 0, START);
    var expanded := RecordExpand(env, NoteInstruction(EmptyChainState, Simple("alias").ToValue()), "alias", "noop");
    AuditedTraceRuns(env, NoopAndTrace, expanded, AFTER_EXPANSION);
  }

  lemma AuditedTraceRuns(env: Env, reg: Registry, st: State, c: Ctl)
    requires "trace_step" in reg && reg["trace_step"].TraceStep? && c.Refusal().None? && ExecOf(st).auditOn
    ensures Execute(env, reg, st, TRACE, c).out == Done(Traced(env, st, TRACE, c.tick))
  {
    hide Execute, TracedChain, PutChain, ExecOf;
    ExecuteRegistered(env, reg, st, TRACE, c);
  }

  lemma AliasStateIs()
    ensures CasesOf(AliasState) == map["alias" := Object(map["type" := Str("noop")])]
    ensures ChainOf(AliasState) == None && ExecOf(AliasState).auditOn
  {
  }
}
