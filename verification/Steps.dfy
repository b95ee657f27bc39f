/** What the primitives do to a state: they keep the engine's configuration, and they only
    ever append to the audit chain. */
module Steps {
  import opened Values
  import opened Store
  import opened References
  import opened Control
  import opened Audit
  import opened Machine
  import opened Guards
  import ExecContext
  import Domains

  // ------------------------------------------------------------------------
  // Error attributes
  // ------------------------------------------------------------------------

  /** A place for error messages outside the engine's own two fields and the guarded ones. */
  predicate SafeAttr(keys: set<string>, path: string) {
    path == "" ||
    var parts := SplitPath(path);
    parts == [] || (parts[0] != EXEC && parts[0] != AUDIT_CHAIN && forall k | k in parts :: k !in keys)
  }

  function SafePlaces(keys: set<string>): string -> bool {
    path => SafeAttr(keys, path)
  }

  ghost predicate AttrGuard(g: Guard) {
    IsGuard(g) && RestrictsTo(g, "error_attr", SafePlaces(g.keys))
  }

  // ------------------------------------------------------------------------
  // The relation
  // ------------------------------------------------------------------------

  /** Nothing but instruction, queue, running flag, hashes, source and truncation differs. */
  ghost predicate SameConfig(a: ExecContext.Context, b: ExecContext.Context) {
    b == a.(instruction := b.instruction, queue := b.queue, running := b.running,
            dispatchHashes := b.dispatchHashes, traceSource := b.traceSource,
            terminatedByMaxSteps := b.terminatedByMaxSteps)
  }

  function ChainIn(st: State): AuditChain {
    match ChainOf(st) case Some(c) => c case None => EmptyChain
  }

  const TICK_LIMIT := 0x8000_0000_0000_0000

  /** Timestamps strictly increase and stay below the clock. */
  ghost predicate Timed(records: seq<AuditRecord>, tick: nat) {
    (forall i | 0 <= i < |records| :: records[i].timestamp < tick) &&
    (forall i, j | 0 <= i < j < |records| :: records[i].timestamp < records[j].timestamp)
  }

  ghost predicate KeepsTime(st: State, tick: nat, next: State, later: nat) {
    tick <= later &&
    (later <= TICK_LIMIT && Timed(ChainIn(st).records, tick) ==> Timed(ChainIn(next).records, later))
  }

  /** Which of the two clocks a record was stamped by: that of the context, or the chain's own,
      which only the fallback uses. */
  datatype Clock = ContextClock | ChainClock

  const EXPANSION := "dispatch_expand:"

  /** The records of each clock strictly increase among themselves and stay below that clock;
      those of the chain's are expansions. */
  ghost predicate Stamped(c: AuditChain, clocks: seq<Clock>, tick: nat) {
    |clocks| == |c.records| &&
    (forall i | 0 <= i < |clocks| ::
       c.records[i].timestamp < (if clocks[i].ContextClock? then tick else c.logicalTick) &&
       (clocks[i].ChainClock? ==> EXPANSION <= c.records[i].ruleId)) &&
    (forall i, j | 0 <= i < j < |clocks| && clocks[i] == clocks[j] :: c.records[i].timestamp < c.records[j].timestamp)
  }

  /** What the chain's own clock can have come to. */
  function LatestTick(st: State, next: State): int {
    ChainIn(st).logicalTick + |ChainIn(next).records| - |ChainIn(st).records|
  }

  ghost predicate Stampable(c: AuditChain, clocks: seq<Clock>, tick: nat) {
    exists more :: Stamped(c, clocks + more, tick)
  }

  /** As long as neither clock runs over, further records are stamped by one clock or other. */
  ghost predicate KeepsClocks(st: State, tick: nat, next: State, later: nat) {
    tick <= later && ChainIn(next).logicalTick <= LatestTick(st, next) &&
    (later <= TICK_LIMIT && LatestTick(st, next) <= TICK_LIMIT ==>
       forall clocks | Stamped(ChainIn(st), clocks, tick) :: Stampable(ChainIn(next), clocks, later))
  }

  /** What every stretch of execution does to a state; `timed` where nothing was expanded. */
  ghost predicate Step(env: Env, g: Guard, timed: bool, st: State, tick: nat, next: State, later: nat) {
    Healthy(g, next) && SameConfig(ExecOf(st), ExecOf(next)) && Extends(env.digests, ChainIn(st), ChainIn(next)) &&
    (timed ==> KeepsTime(st, tick, next, later)) && KeepsClocks(st, tick, next, later)
  }

  lemma StampedLater(c: AuditChain, clocks: seq<Clock>, tick: nat, later: nat)
    requires Stamped(c, clocks, tick) && tick <= later
    ensures Stamped(c, clocks, later)
  {
  }

  lemma {:induction false} SameChainKeepsClocks(st: State, tick: nat, next: State, later: nat)
    requires ChainIn(next) == ChainIn(st) && tick <= later
    ensures KeepsClocks(st, tick, next, later)
  {
    hide ChainIn;
    forall clocks | Stamped(ChainIn(st), clocks, tick) ensures Stampable(ChainIn(next), clocks, later) {
      StampedLater(ChainIn(st), clocks, tick, later);
      assert clocks + [] == clocks;
    }
  }

  lemma StepFromSelf(env: Env, g: Guard, timed: bool, st: State, tick: nat, later: nat)
    requires Healthy(g, st) && tick <= later
    ensures Step(env, g, timed, st, tick, st, later)
  {
    hide Healthy, ExecOf, Extends, KeepsClocks;
    ExtendsItself(env.digests, ChainIn(st));
    SameChainKeepsClocks(st, tick, st, later);
  }

  lemma ClocksThen(a: State, s: nat, b: State, t: nat, c: State, u: nat)
    requires KeepsClocks(a, s, b, t) && KeepsClocks(b, t, c, u)
    requires |ChainIn(a).records| <= |ChainIn(b).records| <= |ChainIn(c).records|
    ensures KeepsClocks(a, s, c, u)
  {
    hide ChainIn, Stamped;
    if u <= TICK_LIMIT && LatestTick(a, c) <= TICK_LIMIT {
      forall clocks | Stamped(ChainIn(a), clocks, s) ensures Stampable(ChainIn(c), clocks, u) {
        assert Stampable(ChainIn(b), clocks, t);
        var more :| Stamped(ChainIn(b), clocks + more, t);
        assert Stampable(ChainIn(c), clocks + more, u);
        var rest :| Stamped(ChainIn(c), clocks + more + rest, u);
        assert clocks + more + rest == clocks + (more + rest);
      }
    }
  }

  lemma StepThen(env: Env, g: Guard, timed: bool, a: State, s: nat, b: State, t: nat, c: State, u: nat)
    requires Step(env, g, timed, a, s, b, t) && Step(env, g, timed, b, t, c, u)
    ensures Step(env, g, timed, a, s, c, u)
  {
    hide Healthy, Extends, ExecOf, ChainIn, Timed, KeepsClocks;
    ExtendsThen(env.digests, ChainIn(a), ChainIn(b), ChainIn(c));
    assert |ChainIn(a).records| <= |ChainIn(b).records| <= |ChainIn(c).records| by {
      ExtensionIsLonger(env.digests, ChainIn(a), ChainIn(b));
      ExtensionIsLonger(env.digests, ChainIn(b), ChainIn(c));
    }
    ClocksThen(a, s, b, t, c, u);
  }

  lemma ExtensionIsLonger(d: Digests, c: AuditChain, e: AuditChain)
    requires Extends(d, c, e)
    ensures |c.records| <= |e.records|
  {
  }

  /** A step between given times is one over any longer time, and may be taken for one in
      which something was expanded. */
  lemma WidenStep(env: Env, g: Guard, timed: bool, narrow: bool, st: State, next: State, a: nat, b: nat, c: nat, d: nat)
    requires Step(env, g, timed, st, b, next, c) && a <= b && c <= d && (narrow ==> timed)
    ensures Step(env, g, narrow, st, a, next, d)
  {
    hide Healthy, Extends, ExecOf, ChainIn, KeepsClocks;
    ClocksWiden(st, next, a, b, c, d);
  }

  lemma ClocksWiden(st: State, next: State, a: nat, b: nat, c: nat, d: nat)
    requires KeepsClocks(st, b, next, c) && a <= b && c <= d
    ensures KeepsClocks(st, a, next, d)
  {
    hide ChainIn;
    if d <= TICK_LIMIT && LatestTick(st, next) <= TICK_LIMIT {
      forall clocks | Stamped(ChainIn(st), clocks, a) ensures Stampable(ChainIn(next), clocks, d) {
        StampedLater(ChainIn(st), clocks, a, b);
        assert Stampable(ChainIn(next), clocks, c);
        var more :| Stamped(ChainIn(next), clocks + more, c);
        StampedLater(ChainIn(next), clocks + more, c, d);
      }
    }
  }

  /** A write that the chain and the `__exec__` record are not affected by. */
  lemma QuietStep(env: Env, g: Guard, timed: bool, st: State, tick: nat, next: State)
    requires Healthy(g, next) && SameConfig(ExecOf(st), ExecOf(next)) && ChainIn(next) == ChainIn(st)
    ensures Step(env, g, timed, st, tick, next, tick)
  {
    hide ExecOf, ChainIn, Healthy, Extends, KeepsClocks;
    ExtendsItself(env.digests, ChainIn(st));
    SameChainKeepsClocks(st, tick, next, tick);
  }

  /** Neither of the engine's own fields is touched. */
  lemma UntouchedStep(env: Env, g: Guard, timed: bool, st: State, tick: nat, next: State)
    requires Healthy(g, next) && next.Get(EXEC) == st.Get(EXEC) && next.Get(AUDIT_CHAIN) == st.Get(AUDIT_CHAIN)
    ensures Step(env, g, timed, st, tick, next, tick)
  {
    hide ExecContext.Parse, ParseChain, Healthy, Step;
    QuietStep(env, g, timed, st, tick, next);
  }

  lemma PutExecSteps(env: Env, g: Guard, timed: bool, st: State, tick: nat, c: ExecContext.Context)
    requires IsGuard(g) && Healthy(g, st) && SaneContext(g, c) && SameConfig(ExecOf(st), c)
    ensures Step(env, g, timed, st, tick, PutExec(st, c), tick)
    ensures ExecOf(PutExec(st, c)) == c
  {
    hide ExecContext.Parse, ExecContext.ToValue, ParseChain, Healthy, SaneContext, IsGuard, Step;
    PutExecIsHealthy(g, st, c);
    ExecContext.RoundTrip(c);
    assert PutExec(st, c).Get(AUDIT_CHAIN) == st.Get(AUDIT_CHAIN);
    QuietStep(env, g, timed, st, tick, PutExec(st, c));
  }

  // ------------------------------------------------------------------------
  // Single updates of `__exec__`
  // ------------------------------------------------------------------------

  lemma SetQueueSteps(env: Env, g: Guard, timed: bool, st: State, tick: nat, queue: seq<Value>)
    requires IsGuard(g) && Healthy(g, st) && Sane(g, List(queue))
    ensures Step(env, g, timed, st, tick, SetQueue(st, queue), tick)
    ensures ExecOf(SetQueue(st, queue)) == ExecOf(st).(queue := List(queue))
  {
    hide ExecContext.Parse, ExecContext.ToValue, Sane, IsGuard, Healthy, Step, ExecOf, PutExec;
    ExecIsSane(g, st);
    PutExecSteps(env, g, timed, st, tick, ExecOf(st).(queue := List(queue)));
  }

  lemma SetCurrentSteps(env: Env, g: Guard, timed: bool, st: State, tick: nat, instr: Value)
    requires IsGuard(g) && Healthy(g, st) && Sane(g, instr)
    ensures Step(env, g, timed, st, tick, SetCurrent(st, instr), tick)
    ensures ExecOf(SetCurrent(st, instr)) == ExecOf(st).(instruction := instr)
  {
    hide ExecContext.Parse, ExecContext.ToValue, Sane, IsGuard, Healthy, Step, ExecOf, PutExec;
    ExecIsSane(g, st);
    PutExecSteps(env, g, timed, st, tick, ExecOf(st).(instruction := instr));
  }

  /** Running flag, trace source and truncation flag. */
  lemma SetFlagsSteps(env: Env, g: Guard, timed: bool, st: State, tick: nat, running: bool, source: string, cut: bool)
    requires IsGuard(g) && Healthy(g, st)
    ensures Step(env, g, timed, st, tick, SetRunning(st, running), tick)
    ensures Step(env, g, timed, st, tick, SetSource(st, source), tick)
    ensures Step(env, g, timed, st, tick, SetTruncated(st, cut), tick)
  {
    hide ExecContext.Parse, ExecContext.ToValue, Sane, IsGuard, Healthy, Step, ExecOf, PutExec;
    ExecIsSane(g, st);
    ScalarsAreSane(g);
    PutExecSteps(env, g, timed, st, tick, ExecOf(st).(running := running));
    PutExecSteps(env, g, timed, st, tick, ExecOf(st).(traceSource := Str(source)));
    PutExecSteps(env, g, timed, st, tick, ExecOf(st).(terminatedByMaxSteps := cut));
  }

  lemma SetHashesSteps(env: Env, g: Guard, timed: bool, st: State, tick: nat, hashes: Value)
    requires IsGuard(g) && Healthy(g, st) && Sane(g, hashes)
    ensures Step(env, g, timed, st, tick, SetHashes(st, hashes), tick)
  {
    hide ExecContext.Parse, ExecContext.ToValue, Sane, IsGuard, Healthy, Step, ExecOf, PutExec;
    ExecIsSane(g, st);
    PutExecSteps(env, g, timed, st, tick, ExecOf(st).(dispatchHashes := hashes));
  }

  lemma StepIsHealthy(env: Env, g: Guard, timed: bool, st: State, tick: nat, next: State, later: nat)
    requires Step(env, g, timed, st, tick, next, later)
    ensures Healthy(g, next)
  {
  }

  lemma QueueIsSane(g: Guard, st: State)
    requires Healthy(g, st)
    ensures Sane(g, List(QueueOf(ExecOf(st))))
    ensures QueueOf(ExecOf(st)) != [] ==> Sane(g, QueueOf(ExecOf(st))[0]) && Sane(g, List(QueueOf(ExecOf(st))[1..]))
  {
    hide ExecContext.Parse, ExecOf, Healthy;
    ExecIsSane(g, st);
  }

  // ------------------------------------------------------------------------
  // Queue primitives
  // ------------------------------------------------------------------------

  lemma QueueItemsSteps(env: Env, g: Guard, timed: bool, st: State, tick: nat, items: seq<Value>)
    requires IsGuard(g) && Healthy(g, st) && Sane(g, List(items))
    ensures Step(env, g, timed, st, tick, SetQueue(st, QueueOf(ExecOf(st)) + items), tick)
  {
    hide ExecContext.Parse, ExecOf, Healthy, IsGuard, Step, SetQueue;
    QueueIsSane(g, st);
    SetQueueSteps(env, g, timed, st, tick, QueueOf(ExecOf(st)) + items);
  }

  lemma PushSteps(env: Env, g: Guard, timed: bool, reg: Registry, st: State, tick: nat, instr: Instruction)
    requires IsGuard(g) && Healthy(g, st) && SaneInstruction(g, instr)
    ensures Push(reg, st, instr).Ok? ==> Step(env, g, timed, st, tick, Push(reg, st, instr).value, tick)
    ensures PushSequence(reg, st, instr).Ok? ==> Step(env, g, timed, st, tick, PushSequence(reg, st, instr).value, tick)
  {
    hide ExecContext.Parse, ExecOf, Healthy, IsGuard, Step, SetQueue, Dispatchable;
    ScalarsAreSane(g);
    var one := Object(instr.params).GetOr("instruction", EmptyObject);
    ParamIsSane(g, instr, "instruction");
    QueueItemsSteps(env, g, timed, st, tick, [one]);
    var many := Object(instr.params).GetOr("instructions", EmptyList);
    ParamIsSane(g, instr, "instructions");
    QueueItemsSteps(env, g, timed, st, tick, if many.List? then many.items else [many]);
  }

  lemma InstructionValuesAreSane(g: Guard)
    requires IsGuard(g)
    ensures Sane(g, NoopInstruction) && Sane(g, AdvanceInQueue)
    ensures SaneInstruction(g, TRACE) && SaneInstruction(g, ADVANCE)
  {
    FreeName(g, "type", Null);
    FreeName(g, "params", Null);
  }

  lemma AdvanceSteps(env: Env, g: Guard, timed: bool, st: State, tick: nat)
    requires IsGuard(g) && Healthy(g, st)
    ensures Step(env, g, timed, st, tick, Advance(env, st), tick)
  {
    hide ExecContext.Parse, ExecOf, Healthy, IsGuard, Sane, Step, SetQueue, SetCurrent, SetRunning, Terminates;
    ExecIsSane(g, st);
    InstructionValuesAreSane(g);
    QueueIsSane(g, st);
    var queue := QueueOf(ExecOf(st));
    if queue == [] {
      var injected := match ExecField(st, "default_instruction") case Some(v) => v case None => NoopInstruction;
      var next := SetCurrent(st, injected);
      SetCurrentSteps(env, g, timed, st, tick, injected);
      StepIsHealthy(env, g, timed, st, tick, next, tick);
      SetFlagsSteps(env, g, timed, next, tick, false, "", false);
      StepThen(env, g, timed, st, tick, next, tick, SetRunning(next, false), tick);
    } else {
      var next := SetQueue(st, queue[1..]);
      SetQueueSteps(env, g, timed, st, tick, queue[1..]);
      StepIsHealthy(env, g, timed, st, tick, next, tick);
      SetCurrentSteps(env, g, timed, next, tick, queue[0]);
      StepThen(env, g, timed, st, tick, next, tick, SetCurrent(next, queue[0]), tick);
    }
  }

  // ------------------------------------------------------------------------
  // Dispatch and drain
  // ------------------------------------------------------------------------

  lemma PlanIsSane(env: Env, g: Guard, st: State, instr: Instruction)
    requires IsGuard(g) && Healthy(g, st) && SaneInstruction(g, instr)
    ensures PlanDispatch(env, st, instr).RunCase? ==> SaneInstruction(g, PlanDispatch(env, st, instr).instr)
  {
    hide Healthy, IsGuard, PlanCase, ResolvePath, DispatchKey, ExecField, Sane, SaneInstruction, SaneContext, ExecOf;
    ExecIsSane(g, st);
    ScalarsAreSane(g);
    ParamIsSane(g, instr, "cases");
    ParamIsSane(g, instr, "default");
    forall body, tag | Sane(g, body) && PlanCase(st, body, tag).RunCase?
      ensures SaneInstruction(g, PlanCase(st, body, tag).instr)
    {
      PlanCaseIsSane(g, st, body, tag);
    }
    forall m: Fields, key | Sane(g, Object(m)) && key in m ensures Sane(g, m[key]) {
      FieldIsSane(g, m, key);
    }
  }

  lemma PlanCaseIsSane(g: Guard, st: State, body: Value, tag: string)
    requires IsGuard(g) && Healthy(g, st) && Sane(g, body) && PlanCase(st, body, tag).RunCase?
    ensures SaneInstruction(g, PlanCase(st, body, tag).instr)
  {
    hide Healthy, IsGuard, ResolveRefs, ParseInstruction, Sane, SaneInstruction;
    CaseIsSane(g, st, body);
  }

  lemma HashesAreSane(g: Guard, before: string, after: string, tag: string)
    requires IsGuard(g)
    ensures Sane(g, Object(map["before_hash" := Str(before), "after_hash" := Str(after), "case_key" := Str(tag)]))
  {
    FreeName(g, "before_hash", Null);
    FreeName(g, "after_hash", Null);
    FreeName(g, "case_key", Null);
  }

  lemma FinishDispatchSteps(env: Env, g: Guard, timed: bool, before: State, after: State, tick: nat, tag: string)
    requires IsGuard(g) && Healthy(g, after)
    ensures Step(env, g, timed, after, tick, FinishDispatch(env, before, after, tag), tick)
  {
    hide ExecContext.Parse, ExecOf, Healthy, IsGuard, Sane, Step, SetQueue, SetHashes, StateHash;
    var hashes := Object(map[
      "before_hash" := Str(StateHash(env, before)),
      "after_hash" := Str(StateHash(env, after)),
      "case_key" := Str(tag)]);
    HashesAreSane(g, StateHash(env, before), StateHash(env, after), tag);
    var noted := SetHashes(after, hashes);
    SetHashesSteps(env, g, timed, after, tick, hashes);
    StepIsHealthy(env, g, timed, after, tick, noted, tick);
    InstructionValuesAreSane(g);
    assert Sane(g, List([AdvanceInQueue])) by { OneItemIsSane(g, AdvanceInQueue); }
    QueueItemsSteps(env, g, timed, noted, tick, [AdvanceInQueue]);
    StepThen(env, g, timed, after, tick, noted, tick, SetQueue(noted, QueueOf(ExecOf(noted)) + [AdvanceInQueue]), tick);
  }

  lemma OneItemIsSane(g: Guard, v: Value)
    requires Sane(g, v)
    ensures Sane(g, List([v]))
  {
  }

  function DrainState(d: DrainStep, default: State): State {
    match d case Broken(_) => default case Stop(s) => s case RunMeta(s, _) => s case Land(s) => s case Idle(s) => s
  }

  lemma PlanDrainSteps(env: Env, g: Guard, timed: bool, st: State, tick: nat, metaTypes: seq<string>)
    requires IsGuard(g) && Healthy(g, st)
    ensures Step(env, g, timed, st, tick, DrainState(PlanDrain(st, metaTypes), st), tick)
    ensures PlanDrain(st, metaTypes).RunMeta? ==> SaneInstruction(g, PlanDrain(st, metaTypes).instr)
  {
    hide ExecContext.Parse, ExecOf, Healthy, IsGuard, Sane, Step, SetQueue, SetCurrent, SetSource, SaneInstruction;
    StepFromSelf(env, g, timed, st, tick, tick);
    SetFlagsSteps(env, g, timed, st, tick, true, "advance", true);
    QueueIsSane(g, st);
    var queue := QueueOf(ExecOf(st));
    if queue != [] {
      var popped := SetQueue(st, queue[1..]);
      SetQueueSteps(env, g, timed, st, tick, queue[1..]);
      StepIsHealthy(env, g, timed, st, tick, popped, tick);
      ParsedIsSane(g, queue[0]);
      var source := "drain_meta:" + TextOr(queue[0].GetStr("type"), "");
      SetFlagsSteps(env, g, timed, popped, tick, true, source, true);
      StepThen(env, g, timed, st, tick, popped, tick, SetSource(popped, source), tick);
      var landed := SetCurrent(popped, queue[0]);
      SetCurrentSteps(env, g, timed, popped, tick, queue[0]);
      StepThen(env, g, timed, st, tick, popped, tick, landed, tick);
      StepIsHealthy(env, g, timed, st, tick, landed, tick);
      SetFlagsSteps(env, g, timed, landed, tick, true, "queue_pop", true);
      StepThen(env, g, timed, st, tick, landed, tick, SetSource(landed, "queue_pop"), tick);
    }
  }

  // ------------------------------------------------------------------------
  // Audit records
  // ------------------------------------------------------------------------

  lemma PutChainSteps(env: Env, g: Guard, timed: bool, st: State, tick: nat, c: AuditChain, later: nat)
    requires IsGuard(g) && Healthy(g, st) && Extends(env.digests, ChainIn(st), c)
    requires timed ==>
               tick <= later &&
               (later <= TICK_LIMIT && Timed(ChainIn(st).records, tick) ==> Timed(c.records, later))
    requires ChainIn(PutChain(st, c)) == c ==> KeepsClocks(st, tick, PutChain(st, c), later)
    ensures Step(env, g, timed, st, tick, PutChain(st, c), later)
    ensures ChainIn(PutChain(st, c)) == c
  {
    hide ExecContext.Parse, ParseChain, ChainToValue, Healthy, IsGuard, Extends, Timed, KeepsClocks;
    PutChainIsHealthy(g, st, c);
    ChainRoundTrip(c);
    assert PutChain(st, c).Get(EXEC) == st.Get(EXEC);
    assert ChainIn(PutChain(st, c)) == c;
  }

  lemma AppendAddsOne(d: Digests, c: AuditChain, ruleId: string, tick: nat, before: string, after: string,
                      summary: Option<string>)
    ensures var e := Append(d, c, ruleId, tick, before, after, summary);
            |e.records| == |c.records| + 1 && e.records[..|c.records|] == c.records && e.logicalTick == c.logicalTick &&
            e.records[|c.records|].timestamp == AsI64(tick) && e.records[|c.records|].ruleId == ruleId
  {
    hide NewRecord;
    NewRecordVerifies(d, ruleId, tick, before, after, summary, c.latestHash);
  }

  lemma AppendKeepsTime(d: Digests, c: AuditChain, ruleId: string, tick: nat, before: string, after: string,
                        summary: Option<string>)
    requires Timed(c.records, tick) && tick < TICK_LIMIT
    ensures Timed(Append(d, c, ruleId, tick, before, after, summary).records, tick + 1)
  {
    hide Append;
    AppendAddsOne(d, c, ruleId, tick, before, after, summary);
    var e := Append(d, c, ruleId, tick, before, after, summary);
    forall i | 0 <= i < |c.records| ensures e.records[i] == c.records[i] {
      assert e.records[i] == e.records[..|c.records|][i];
    }
  }

  /** One more record, stamped by a clock at its present time. */
  lemma OneMoreStamped(c: AuditChain, e: AuditChain, clocks: seq<Clock>, clock: Clock, tick: nat, later: nat)
    requires Stamped(c, clocks, tick) && tick <= later && c.logicalTick <= e.logicalTick
    requires |e.records| == |c.records| + 1 && e.records[..|c.records|] == c.records
    requires e.records[|c.records|].timestamp == (if clock.ContextClock? then tick else c.logicalTick)
    requires clock.ContextClock? ==> tick < later
    requires clock.ChainClock? ==> c.logicalTick < e.logicalTick && EXPANSION <= e.records[|c.records|].ruleId
    ensures Stamped(e, clocks + [clock], later)
  {
    forall i | 0 <= i < |c.records| ensures e.records[i] == c.records[i] {
      assert e.records[i] == e.records[..|c.records|][i];
    }
  }

  lemma TraceKeepsClocks(d: Digests, st: State, tick: nat, next: State, ruleId: string, before: string, after: string,
                         summary: Option<string>)
    requires ChainIn(next) == Append(d, ChainIn(st), ruleId, tick, before, after, summary)
    ensures KeepsClocks(st, tick, next, tick + 1)
  {
    hide ChainIn, Append, Stamped;
    AppendAddsOne(d, ChainIn(st), ruleId, tick, before, after, summary);
    if tick < TICK_LIMIT {
      forall clocks | Stamped(ChainIn(st), clocks, tick) ensures Stampable(ChainIn(next), clocks, tick + 1) {
        OneMoreStamped(ChainIn(st), ChainIn(next), clocks, ContextClock, tick, tick + 1);
      }
    }
  }

  /** `trace_step` appends one record, stamped with the clock it moves on. */
  lemma TraceSteps(env: Env, g: Guard, timed: bool, st: State, instr: Instruction, tick: nat)
    requires IsGuard(g) && Healthy(g, st)
    ensures Step(env, g, timed, st, tick, PutChain(st, TracedChain(env, st, instr, tick)), tick + 1)
    ensures |TracedChain(env, st, instr, tick).records| == |ChainIn(st).records| + 1
    ensures ChainIn(PutChain(st, TracedChain(env, st, instr, tick))) == TracedChain(env, st, instr, tick)
  {
    hide ExecContext.Parse, ParseChain, ChainToValue, Healthy, IsGuard, Extends, Timed, PutChain, Append, Step,
         KeepsClocks, TraceSummary, TraceHashes, CurrentTypeName, ExecField;
    var params := Object(instr.params);
    var name := TextOr(params.GetStr("label"), "step");
    var itype := CurrentTypeName(st);
    var ruleId := TextOr(params.GetStr("rule_id"), TextOr(itype, "unknown"));
    var version := match ExecField(st, "dispatch_table_version") case Some(Str(v)) => Some(v) case _ => None;
    var hashes := TraceHashes(env, st);
    var summary := Some(TraceSummary(itype, version, name));
    var chain := ChainIn(st);
    var next := Append(env.digests, chain, ruleId, tick, hashes.0, hashes.1, summary);
    assert next == TracedChain(env, st, instr, tick);
    AppendAddsOne(env.digests, chain, ruleId, tick, hashes.0, hashes.1, summary);
    AppendExtends(env.digests, chain, chain.logicalTick, ruleId, tick, hashes.0, hashes.1, summary);
    assert chain.(logicalTick := chain.logicalTick) == chain;
    if tick < TICK_LIMIT && Timed(chain.records, tick) {
      AppendKeepsTime(env.digests, chain, ruleId, tick, hashes.0, hashes.1, summary);
    }
    if ChainIn(PutChain(st, next)) == next {
      TraceKeepsClocks(env.digests, st, tick, PutChain(st, next), ruleId, hashes.0, hashes.1, summary);
    }
    PutChainSteps(env, g, timed, st, tick, next, tick + 1);
  }

  /** The chain as the fallback's record leaves it. */
  function ExpandedChain(env: Env, st: State, original: string, expanded: string): AuditChain {
    var chain, hash := ChainIn(st), StateHash(env, st);
    Append(env.digests, chain.(logicalTick := AsU64(chain.logicalTick + 1)), EXPANSION + original, chain.logicalTick,
           hash, hash, Some("dispatch_expand: " + original + " \U{2192} " + expanded))
  }

  lemma RecordedExpansion(env: Env, st: State, original: string, expanded: string)
    ensures RecordExpand(env, st, original, expanded) ==
              if ChainOf(st).None? || !ExecOf(st).auditOn then st
              else PutChain(st, ExpandedChain(env, st, original, expanded))
  {
    hide Append, ChainOf, ContentHash, PutChain, ExecOf, AsU64;
  }

  lemma ExpandedChainExtends(env: Env, st: State, original: string, expanded: string)
    ensures var e := ExpandedChain(env, st, original, expanded);
            Extends(env.digests, ChainIn(st), e) &&
            |e.records| == |ChainIn(st).records| + 1 && e.records[..|ChainIn(st).records|] == ChainIn(st).records &&
            e.logicalTick == AsU64(ChainIn(st).logicalTick + 1) &&
            e.records[|ChainIn(st).records|].timestamp == AsI64(ChainIn(st).logicalTick) &&
            e.records[|ChainIn(st).records|].ruleId == EXPANSION + original
  {
    hide Append, ChainIn, Extends, StateHash, AsI64, AsU64;
    var chain, hash := ChainIn(st), StateHash(env, st);
    var later := AsU64(chain.logicalTick + 1);
    var summary := Some("dispatch_expand: " + original + " \U{2192} " + expanded);
    AppendExtends(env.digests, chain, later, EXPANSION + original, chain.logicalTick, hash, hash, summary);
    AppendAddsOne(env.digests, chain.(logicalTick := later), EXPANSION + original, chain.logicalTick, hash, hash,
      summary);
  }

  lemma ExpansionKeepsClocks(env: Env, st: State, tick: nat, next: State, original: string, expanded: string)
    requires ChainIn(next) == ExpandedChain(env, st, original, expanded)
    ensures KeepsClocks(st, tick, next, tick)
  {
    hide ChainIn, ExpandedChain, Stamped, Extends;
    ExpandedChainExtends(env, st, original, expanded);
    if ChainIn(st).logicalTick < TICK_LIMIT {
      forall clocks | Stamped(ChainIn(st), clocks, tick) ensures Stampable(ChainIn(next), clocks, tick) {
        assert EXPANSION <= EXPANSION + original;
        OneMoreStamped(ChainIn(st), ChainIn(next), clocks, ChainClock, tick, tick);
      }
    }
  }

  lemma RecordExpandSteps(env: Env, g: Guard, st: State, tick: nat, original: string, expanded: string)
    requires IsGuard(g) && Healthy(g, st)
    ensures Step(env, g, false, st, tick, RecordExpand(env, st, original, expanded), tick)
  {
    hide ExecOf, ChainOf, ChainIn, Healthy, IsGuard, Extends, PutChain, Step, KeepsClocks, ExpandedChain, RecordExpand;
    RecordedExpansion(env, st, original, expanded);
    StepFromSelf(env, g, false, st, tick, tick);
    if ChainOf(st).Some? && ExecOf(st).auditOn {
      var e := ExpandedChain(env, st, original, expanded);
      ExpandedChainExtends(env, st, original, expanded);
      if ChainIn(PutChain(st, e)) == e { ExpansionKeepsClocks(env, st, tick, PutChain(st, e), original, expanded); }
      PutChainSteps(env, g, false, st, tick, e, tick);
    }
  }

  // ------------------------------------------------------------------------
  // The fallback
  // ------------------------------------------------------------------------

  lemma NoteInstructionSteps(env: Env, g: Guard, timed: bool, st: State, tick: nat, v: Value)
    requires IsGuard(g) && Healthy(g, st) && Sane(g, v)
    ensures Step(env, g, timed, st, tick, NoteInstruction(st, v), tick)
  {
    hide ExecContext.Parse, ExecOf, ParseChain, IsGuard, Step;
    NotedExec(st, v);
    NotedIsHealthy(g, st, v);
    assert NoteInstruction(st, v).Get(AUDIT_CHAIN) == st.Get(AUDIT_CHAIN);
    QuietStep(env, g, timed, st, tick, NoteInstruction(st, v));
  }

  lemma NotedExec(st: State, v: Value)
    ensures ExecOf(NoteInstruction(st, v)) == ExecOf(st).(instruction := v)
  {
    hide ExecContext.Parse;
    var fields := match st.Get(EXEC) case Some(Object(m)) => m case _ => map[];
    NotedFields(fields, v);
    match st.Get(EXEC)
    case Some(w) => if !w.Object? { NotAnObject(w); }
    case None =>
  }

  lemma NotedIsHealthy(g: Guard, st: State, v: Value)
    requires IsGuard(g) && Healthy(g, st) && Sane(g, v)
    ensures Healthy(g, NoteInstruction(st, v))
  {
    hide IsGuard;
    var fields := match st.Get(EXEC) case Some(Object(m)) => m case _ => map[];
    assert Sane(g, Object(fields)) by {
      if st.Get(EXEC).Some? { assert Sane(g, st.Get(EXEC).value); }
    }
    FreeName(g, "instruction", v);
    FreeName(g, EXEC, Object(fields["instruction" := v]));
    UpdateIsSane(g, fields, "instruction", v);
    SetIsHealthy(g, st, EXEC, Object(fields["instruction" := v]));
  }

  lemma NotedFields(fields: Fields, v: Value)
    ensures ExecContext.Parse(Object(fields["instruction" := v])) ==
            ExecContext.Parse(Object(fields)).(instruction := v)
  {
  }

  lemma NotAnObject(v: Value)
    requires !v.Object?
    ensures ExecContext.Parse(v) == ExecContext.Parse(Object(map[]))
  {
  }

  lemma NoteMetadataSteps(env: Env, g: Guard, st: State, tick: nat, metadata: Value)
    requires IsGuard(g) && Healthy(g, st)
    ensures Step(env, g, false, st, tick, NoteMetadata(st, metadata), tick)
  {
    hide ExecContext.Parse, ExecOf, IsGuard, Healthy, Step, PutExec;
    StepFromSelf(env, g, false, st, tick, tick);
    ExecIsSane(g, st);
    PutExecSteps(env, g, false, st, tick, ExecOf(st));
  }

  lemma ExpandSteps(env: Env, g: Guard, reg: Registry, st: State, tick: nat, instr: Instruction)
    requires IsGuard(g) && Healthy(g, st) && SaneInstruction(g, instr)
    ensures match Expand(env, reg, st, instr)
            case Expanded(next, i) => Step(env, g, false, st, tick, next, tick) && SaneInstruction(g, i)
            case _ => true
  {
    hide ExecContext.Parse, ExecOf, IsGuard, Healthy, Step, NoteInstruction, NoteMetadata, RecordExpand, ResolveRefs,
         SaneInstruction;
    if Expand(env, reg, st, instr).Expanded? {
      var cases := ExecField(st, "dispatch_cases").value.fields;
      var a := NoteInstruction(st, instr.ToValue());
      var b := NoteMetadata(a, instr.metadata);
      InstructionValueIsSane(g, instr);
      NoteInstructionSteps(env, g, false, st, tick, instr.ToValue());
      StepIsHealthy(env, g, false, st, tick, a, tick);
      NoteMetadataSteps(env, g, a, tick, instr.metadata);
      StepThen(env, g, false, st, tick, a, tick, b, tick);
      StepIsHealthy(env, g, false, st, tick, b, tick);
      ExecIsSane(g, st);
      assert Sane(g, cases[instr.kind]);
      CaseIsSane(g, b, cases[instr.kind]);
      var i := Expand(env, reg, st, instr).instr;
      RecordExpandSteps(env, g, b, tick, instr.kind, i.kind);
      StepThen(env, g, false, st, tick, b, tick, RecordExpand(env, b, instr.kind, i.kind), tick);
    }
  }

  // ------------------------------------------------------------------------
  // Errors and merges
  // ------------------------------------------------------------------------

  lemma DefaultAttrIsSafe(keys: set<string>)
    requires Restrictable(keys)
    ensures SafeAttr(keys, "__error__")
  {
    var name := "__error__";
    SplitFromPlain(name, "", "");
    assert name + "" == name && "" + name == name;
    assert SplitPath(name) == [name];
    assert IsEngineName(name) && name != EXEC && name != AUDIT_CHAIN;
  }

  lemma ErrorAttrIsSafe(g: Guard, st: State, instr: Instruction)
    requires AttrGuard(g) && SaneInstruction(g, instr) && Healthy(g, st)
    ensures SafeAttr(g.keys, ErrorAttr(st, instr))
  {
    hide SafeAttr, Healthy, SaneInstruction;
    DefaultAttrIsSafe(g.keys);
    ParamIsSane(g, instr, "error_attr");
    match instr.Param("error_attr")
    case Some(v) => NamedPlace(g, st, v, "error_attr", SafePlaces(g.keys));
    case None =>
  }

  lemma WriteTouchesHeadOnly(m: Fields, parts: seq<string>, value: Value, key: string)
    requires parts != [] && ParseIndex(parts[0]).None? && key != parts[0]
    ensures key in Updated(m, parts, value) <==> key in m
    ensures key in m ==> Updated(m, parts, value)[key] == m[key]
  {
    assert Updated(m, parts, value) == (match SetIn(m, parts, value) case Some(w) => w case None => m);
  }

  /** A write led by an index goes into the only list among the fields, and leaves a list. */
  lemma IndexWriteKeepsEngine(st: State, parts: seq<string>, value: Value, next: State)
    requires parts != [] && ParseIndex(parts[0]).Some? && parts[0] != EXEC && parts[0] != AUDIT_CHAIN
    requires next.data == Updated(st.data, parts, value)
    ensures ExecOf(next) == ExecOf(st) && ChainIn(next) == ChainIn(st)
  {
    hide ExecContext.Parse, ParseChain, Padded, SetElement;
    var index := ParseIndex(parts[0]).value;
    assert next.data == (match SetIn(st.data, parts, value) case Some(w) => w case None => st.data);
    SetElementEffect(st.data, index, value, |parts| == 1);
    forall key | key in {EXEC, AUDIT_CHAIN}
      ensures next.Get(key) == st.Get(key) ||
              (st.Get(key).Some? && next.Get(key).Some? && st.Get(key).value.List? && next.Get(key).value.List?)
    {
    }
    ListsAreNothing(st.Get(EXEC), next.Get(EXEC));
    ListsAreNoChain(st.Get(AUDIT_CHAIN), next.Get(AUDIT_CHAIN));
  }

  lemma ListsAreNothing(a: Option<Value>, b: Option<Value>)
    ensures a.Some? && b.Some? && a.value.List? && b.value.List? ==>
              ExecContext.Parse(a.value) == ExecContext.Parse(b.value)
  {
  }

  lemma ListsAreNoChain(a: Option<Value>, b: Option<Value>)
    ensures a.Some? && b.Some? && a.value.List? && b.value.List? ==>
            ParseChain(a.value) == None && ParseChain(b.value) == None
  {
  }

  /** A write to a safe place leaves the engine's own fields what they are. */
  lemma SafeWriteKeeps(g: Guard, st: State, path: string, v: Value)
    requires IsGuard(g) && Healthy(g, st) && SafeAttr(g.keys, path) && Sane(g, v)
    ensures SetPath(st, path, v).Ok? ==>
              var next := SetPath(st, path, v).value;
              Healthy(g, next) && ExecOf(next) == ExecOf(st) && ChainIn(next) == ChainIn(st)
  {
    hide IsGuard, SplitPath, Healthy, ExecOf, ChainIn, ParseIndex;
    var parts := SplitPath(path);
    if path == "" {
      FreeName(g, "", v);
      SetIsHealthy(g, st, "", v);
      UntouchedIsSame(st, st.Set("", v));
    } else if |parts| == 1 {
      assert parts[0] in parts;
      FreeField(g, parts[0], v);
      SetIsHealthy(g, st, parts[0], v);
      UntouchedIsSame(st, st.Set(parts[0], v));
    } else if 2 <= |parts| <= MAX_PATH_DEPTH {
      SetPathWrites(st, path, v);
      var next := SetPath(st, path, v).value;
      FieldsOfHealthy(g, st);
      FieldsOfHealthy(g, next);
      WriteIsSane(g, st.data, parts, v);
      if ParseIndex(parts[0]).Some? {
        IndexWriteKeepsEngine(st, parts, v, next);
      } else {
        WriteTouchesHeadOnly(st.data, parts, v, EXEC);
        WriteTouchesHeadOnly(st.data, parts, v, AUDIT_CHAIN);
        UntouchedIsSame(st, next);
      }
    }
  }

  lemma UntouchedIsSame(st: State, next: State)
    requires next.Get(EXEC) == st.Get(EXEC) && next.Get(AUDIT_CHAIN) == st.Get(AUDIT_CHAIN)
    ensures ExecOf(next) == ExecOf(st) && ChainIn(next) == ChainIn(st)
  {
    hide ExecContext.Parse, ParseChain;
  }

  lemma FieldsOfHealthy(g: Guard, st: State)
    ensures Healthy(g, st) <==> Sane(g, Object(st.data))
  {
  }

  lemma NoteErrorSteps(env: Env, g: Guard, timed: bool, st: State, tick: nat, path: string, text: string)
    requires IsGuard(g) && Healthy(g, st) && SafeAttr(g.keys, path)
    ensures SetPath(st, path, Str(text)).Ok? ==> Step(env, g, timed, st, tick, SetPath(st, path, Str(text)).value, tick)
  {
    hide Step, IsGuard, SafeAttr, Healthy, SetPath, ExecOf, ChainIn;
    ScalarsAreSane(g);
    SafeWriteKeeps(g, st, path, Str(text));
    if SetPath(st, path, Str(text)).Ok? { QuietStep(env, g, timed, st, tick, SetPath(st, path, Str(text)).value); }
  }

  lemma MergeSteps(env: Env, g: Guard, timed: bool, st: State, tick: nat, results: seq<State>)
    requires IsGuard(g) && Healthy(g, st) && forall i | 0 <= i < |results| :: Healthy(g, results[i])
    ensures Step(env, g, timed, st, tick, ForceMerge(st, results), tick)
  {
    hide Step, IsGuard, ExecOf;
    StepFromSelf(env, g, timed, st, tick, tick);
    if ChangedKeys(st, results) != {} {
      MergedIsHealthy(g, st, results);
      UntouchedStep(env, g, timed, st, tick, ForceMerge(st, results));
    }
  }

  lemma ProvenanceIsSane(g: Guard, branch: nat, total: nat)
    requires IsGuard(g)
    ensures Sane(g, ProvenanceOf(branch, total)) && forall k :: g.ok(k, ProvenanceOf(branch, total))
  {
    FreeName(g, "branch", Null);
    FreeName(g, "total_branches", Null);
    var v := ProvenanceOf(branch, total);
    assert REF !in v.fields && PASS !in v.fields;
    forall k ensures g.ok(k, v) {
      assert v == Object(v.fields);
    }
  }

  lemma MergedIsHealthy(g: Guard, st: State, results: seq<State>)
    requires IsGuard(g) && Healthy(g, st) && forall i | 0 <= i < |results| :: Healthy(g, results[i])
    requires ChangedKeys(st, results) != {}
    ensures Healthy(g, ForceMerge(st, results))
  {
    hide ForceMerge, ChangedKeys, IsGuard;
    var merged := ForceMerge(st, results);
    forall k | k in merged.data ensures g.ok(k, merged.data[k]) && Sane(g, merged.data[k]) {
      if k == PROVENANCE {
        MergedSourcesAreSane(g, st, results);
        FreeName(g, PROVENANCE, merged.data[k]);
      } else {
        var from := MergedFieldComesFrom(st, results, k);
      }
    }
  }

  /** A merged field comes from a branch or from the initial state. */
  lemma MergedFieldComesFrom(st: State, results: seq<State>, k: string) returns (from: State)
    requires k != PROVENANCE && k in ForceMerge(st, results).data
    ensures (from == st || from in results) && k in from.data && ForceMerge(st, results).data[k] == from.data[k]
  {
    hide ProvenanceOf, ChangedKeys, LastWriter;
    var changed := ChangedKeys(st, results);
    if k in changed {
      ChangedHasWriter(st, results, k);
      from := results[LastWriter(st, results, k).value];
    } else {
      from := st;
    }
  }

  lemma ChangedHasWriter(st: State, results: seq<State>, k: string)
    requires k in ChangedKeys(st, results)
    ensures LastWriter(st, results, k).Some? && k !in MERGE_SYSTEM_FIELDS
  {
  }

  lemma MergedSourcesAreSane(g: Guard, st: State, results: seq<State>)
    requires IsGuard(g) && ChangedKeys(st, results) != {}
    ensures Sane(g, ForceMerge(st, results).data[PROVENANCE])
  {
    hide ProvenanceOf, ChangedKeys, IsGuard;
    var sources := ForceMerge(st, results).data[PROVENANCE].fields;
    forall j | j in sources ensures exists branch: nat :: sources[j] == ProvenanceOf(branch, |results|) {
      ChangedHasWriter(st, results, j);
      assert sources[j] == ProvenanceOf(LastWriter(st, results, j).value, |results|);
    }
    SourcesAreSane(g, sources, |results|);
  }

  lemma SourcesAreSane(g: Guard, sources: Fields, total: nat)
    requires IsGuard(g) && forall k | k in sources :: exists branch: nat :: sources[k] == ProvenanceOf(branch, total)
    ensures Sane(g, Object(sources))
  {
    hide ProvenanceOf, IsGuard;
    forall k | k in sources ensures g.ok(k, sources[k]) && Sane(g, sources[k]) {
      var branch: nat :| sources[k] == ProvenanceOf(branch, total);
      ProvenanceIsSane(g, branch, total);
    }
  }
}
