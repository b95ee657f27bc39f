/** The drain of the self-driving loop: on a queue of advances and business instructions it does
    what the queue machine says, and other meta-instructions ahead of these run once, in order.
 */
module Drains {
  import opened Values
  import opened Store
  import opened References
  import opened Control
  import opened Audit
  import opened Machine
  import opened Engine
  import opened Steps
  import opened QueueMachine
  import opened Traces
  import ExecContext

  predicate Room(c: Ctl, levels: nat, instructions: nat) {
    c.depth + levels <= c.maxDepth && c.count + instructions <= c.maxCount
  }

  predicate Standard(reg: Registry) {
    "trace_step" in reg && reg["trace_step"].TraceStep? &&
    "advance_instruction" in reg && reg["advance_instruction"].AdvanceInstruction? &&
    "dispatch" in reg && reg["dispatch"].Dispatch? &&
    "while_loop" in reg && reg["while_loop"].WhileLoop?
  }

  // ------------------------------------------------------------------------
  // What the setters leave alone
  // ------------------------------------------------------------------------

  /** The record has been written by the engine, with all fifteen fields. */
  ghost predicate Typed(st: State) {
    st.Get(EXEC) == Some(ExecContext.ToValue(ExecOf(st)))
  }

  /** The hashes on the records of the chain, in order. */
  function PairsIn(st: State): seq<(string, string)> {
    HashesOn(ChainIn(st).records)
  }

  function HashesOn(records: seq<AuditRecord>): (r: seq<(string, string)>)
    ensures |r| == |records|
  {
    seq(|records|, i requires 0 <= i < |records| => (records[i].beforeHash, records[i].afterHash))
  }

  function PairOf(hashes: Value): (string, string) {
    (TextOr(hashes.GetStr("before_hash"), ""), TextOr(hashes.GetStr("after_hash"), ""))
  }

  function Repeat<T>(x: T, k: nat): (r: seq<T>)
    ensures |r| == k && forall i | 0 <= i < k :: r[i] == x
  {
    seq(k, _ => x)
  }

  lemma PutExecEffect(st: State, c: ExecContext.Context)
    ensures ExecOf(PutExec(st, c)) == c && Business(PutExec(st, c)) == Business(st)
    ensures PairsIn(PutExec(st, c)) == PairsIn(st) && Typed(PutExec(st, c))
  {
    hide ExecContext.Parse, ExecContext.ToValue, ParseChain;
    ExecContext.RoundTrip(c);
    assert PutExec(st, c).Get(AUDIT_CHAIN) == st.Get(AUDIT_CHAIN);
  }

  lemma TypedFields(st: State)
    requires Typed(st)
    ensures ExecField(st, "__running") == Some(Bool(ExecOf(st).running))
    ensures ExecField(st, "last_dispatch_hashes") == Some(ExecOf(st).dispatchHashes)
  {
    hide ExecContext.Parse, ExecContext.ToValue;
    ExecContext.CoreFields(ExecOf(st));
    ExecContext.DispatchFields(ExecOf(st));
  }

  /** No business field differs, and the chain has `k` more records of the hashes noted by
      the last dispatch. */
  ghost predicate Continues(st: State, next: State, k: nat) {
    Business(next) == Business(st) && ExecOf(next).dispatchHashes == ExecOf(st).dispatchHashes &&
    (Typed(st) ==>
       Typed(next) && PairsIn(next) == PairsIn(st) + Repeat(PairOf(ExecOf(st).dispatchHashes), k))
  }

  lemma ContinuesThen(a: State, b: State, c: State, k: nat, n: nat)
    requires Continues(a, b, k) && Continues(b, c, n)
    ensures Continues(a, c, k + n)
  {
    hide ExecOf, Typed, PairsIn, Business;
    var pair := PairOf(ExecOf(a).dispatchHashes);
    assert Repeat(pair, k) + Repeat(pair, n) == Repeat(pair, k + n);
  }

  lemma ContinuesItself(st: State)
    ensures Continues(st, st, 0)
  {
    hide ExecOf, Typed, PairsIn, Business;
    var pair := PairOf(ExecOf(st).dispatchHashes);
    assert PairsIn(st) + Repeat(pair, 0) == PairsIn(st);
  }

  lemma PutExecContinues(st: State, c: ExecContext.Context)
    requires c.dispatchHashes == ExecOf(st).dispatchHashes
    ensures Continues(st, PutExec(st, c), 0) && ExecOf(PutExec(st, c)) == c && Typed(PutExec(st, c))
  {
    hide ExecOf, Typed, PairsIn, Business, PutExec;
    PutExecEffect(st, c);
    ContinuesItself(st);
  }

  // ------------------------------------------------------------------------
  // Trace steps
  // ------------------------------------------------------------------------

  /** A run that is over, touched nothing of the engine's, and turned the business fields
      into `fields` within `w` instructions. */
  ghost predicate Quiet(st: State, c: Ctl, r: Run, fields: Fields, w: nat) {
    r.out.Done? && r.out.st.Get(EXEC) == st.Get(EXEC) && Business(r.out.st) == fields && r.ctl.count <= c.count + w
  }

  /** Such a run that recorded the hashes of the last dispatch `k` times. */
  ghost predicate Records(st: State, c: Ctl, r: Run, k: nat, w: nat) {
    Quiet(st, c, r, Business(st), w) && Continues(st, r.out.st, k)
  }

  /** Records are only made while auditing is on. */
  function Recorded(on: bool, k: nat): nat {
    if on then k else 0
  }

  lemma HashesOnMore(records: seq<AuditRecord>, more: seq<AuditRecord>)
    requires |more| == |records| + 1 && more[..|records|] == records
    ensures HashesOn(more) == HashesOn(records) + [(more[|records|].beforeHash, more[|records|].afterHash)]
  {
    forall i | 0 <= i < |records| ensures more[i] == records[i] {
      assert more[i] == more[..|records|][i];
    }
  }

  lemma NextPairs(env: Env, st: State, instr: Instruction, tick: nat)
    ensures HashesOn(TracedChain(env, st, instr, tick).records) == PairsIn(st) + [TraceHashes(env, st)]
  {
    hide TracedChain, ChainIn, TraceHashes, Verifies, HashesOn;
    RecordIsAppended(env, st, instr, tick);
    HashesOnMore(ChainIn(st).records, TracedChain(env, st, instr, tick).records);
  }

  lemma NotedHashes(env: Env, st: State)
    requires Typed(st)
    ensures TraceHashes(env, st) == PairOf(ExecOf(st).dispatchHashes)
  {
    hide ExecOf, Typed, ExecField;
    TypedFields(st);
  }

  lemma TraceContinues(env: Env, st: State, instr: Instruction, tick: nat)
    ensures Continues(st, PutChain(st, TracedChain(env, st, instr, tick)), 1)
  {
    hide TracedChain, ChainToValue, ChainIn, ExecContext.Parse, ExecContext.ToValue, HashesOn, TraceHashes;
    var chain := TracedChain(env, st, instr, tick);
    var next := PutChain(st, chain);
    PutChainIsRead(st, chain);
    NextPairs(env, st, instr, tick);
    assert next.Get(EXEC) == st.Get(EXEC) && Business(next) == Business(st);
    if Typed(st) {
      NotedHashes(env, st);
      var pair := PairOf(ExecOf(st).dispatchHashes);
      assert Repeat(pair, 1) == [pair];
    }
  }

  lemma TraceRuns(env: Env, reg: Registry, st: State, instr: Instruction, c: Ctl)
    requires Standard(reg) && instr.kind == "trace_step" && Room(c, 1, 1)
    ensures Records(st, c, Execute(env, reg, st, instr, c), Recorded(ExecOf(st).auditOn, 1), 1)
  {
    hide TracedChain, ChainToValue, ExecOf, Execute, Continues;
    ExecuteRegistered(env, reg, st, instr, c);
    TraceContinues(env, st, instr, c.tick);
    ContinuesItself(st);
  }

  lemma TraceIfRuns(env: Env, reg: Registry, on: bool, st: State, c: Ctl)
    requires Standard(reg) && Room(c, 1, 1)
    ensures Records(st, c, TraceIf(env, reg, on, st, c), Recorded(ExecOf(st).auditOn, if on then 1 else 0), 1)
  {
    hide Execute, Continues;
    ContinuesItself(st);
    if on { TraceRuns(env, reg, st, TRACE, c); }
  }

  predicate TracesOnly(items: seq<Value>) {
    forall i | 0 <= i < |items| ::
      ParseInstruction(items[i]).Ok? && ParseInstruction(items[i]).value.kind == "trace_step"
  }

  lemma {:induction false} TracesRun(env: Env, reg: Registry, st: State, items: seq<Value>, c: Ctl)
    requires Standard(reg) && TracesOnly(items) && Room(c, 1, |items|)
    ensures Records(st, c, RunAll(env, reg, st, items, false, c), Recorded(ExecOf(st).auditOn, |items|), |items|)
    decreases |items|
  {
    hide Execute, ParseInstruction, Continues, ExecContext.Parse;
    if items == [] {
      ContinuesItself(st);
    } else {
      var instr := ParseInstruction(items[0]).value;
      TraceRuns(env, reg, st, instr, c);
      var r := Execute(env, reg, st, instr, c);
      TracesRun(env, reg, r.out.st, items[1..], r.ctl);
      var on := ExecOf(st).auditOn;
      var s := RunAll(env, reg, r.out.st, items[1..], false, r.ctl);
      ContinuesThen(st, r.out.st, s.out.st, Recorded(on, 1), Recorded(on, |items| - 1));
    }
  }

  // ------------------------------------------------------------------------
  // Where a run stands
  // ------------------------------------------------------------------------

  /** The engine runs with the configuration of `x`, `b` current and `queue` queued. */
  ghost predicate Stands(st: State, x: ExecContext.Context, b: Value, queue: seq<Value>) {
    SameConfig(x, ExecOf(st)) && ExecOf(st).running && ExecOf(st).instruction == b && ExecOf(st).queue == List(queue)
  }

  /** The engine has come to an end with nothing left to do. */
  ghost predicate Rests(st: State, x: ExecContext.Context) {
    SameConfig(x, ExecOf(st)) && !ExecOf(st).running && ExecOf(st).instruction == x.defaultInstruction &&
    ExecOf(st).queue == List([])
  }

  lemma QuietStands(st: State, c: Ctl, r: Run, fields: Fields, w: nat, x: ExecContext.Context, b: Value,
                    queue: seq<Value>)
    requires Quiet(st, c, r, fields, w)
    ensures Stands(st, x, b, queue) ==> Stands(r.out.st, x, b, queue)
    ensures Rests(st, x) ==> Rests(r.out.st, x)
  {
    hide ExecContext.Parse;
  }

  // ------------------------------------------------------------------------
  // Advances
  // ------------------------------------------------------------------------

  /** The injected instruction is one the engine stops at. */
  ghost predicate StopsWhenIdle(env: Env, x: ExecContext.Context) {
    x.defaultInstruction.GetStr("type") == Some("noop") && "noop" in MetaTypes(x) &&
      "advance_instruction" in MetaTypes(x) &&
    forall st | ExecOf(st).instruction.GetStr("type") == Some("noop") :: Terminates(env, x.terminationDomain, st)
  }

  lemma AdvancePops(env: Env, st: State, x: ExecContext.Context, b: Value, queue: seq<Value>)
    requires Stands(st, x, b, queue) && queue != []
    ensures Stands(Advance(env, st), x, queue[0], queue[1..]) && Continues(st, Advance(env, st), 0)
  {
    hide ExecOf, PutExec, Continues, ExecField, Terminates;
    PutExecContinues(st, ExecOf(st).(queue := List(queue[1..])));
    var popped := SetQueue(st, queue[1..]);
    PutExecContinues(popped, ExecOf(popped).(instruction := queue[0]));
    ContinuesThen(st, popped, SetCurrent(popped, queue[0]), 0, 0);
  }

  lemma AdvanceInjects(env: Env, st: State, x: ExecContext.Context)
    requires SameConfig(x, ExecOf(st)) && ExecOf(st).queue == List([]) && StopsWhenIdle(env, x)
    ensures Rests(Advance(env, st), x) && Continues(st, Advance(env, st), 0)
  {
    hide ExecOf, PutExec, Continues, ExecField, Terminates, MetaTypes;
    DefaultIsRead(st);
    PutExecContinues(st, ExecOf(st).(instruction := x.defaultInstruction));
    var next := SetCurrent(st, x.defaultInstruction);
    PutExecContinues(next, ExecOf(next).(running := false));
    ContinuesThen(st, next, SetRunning(next, false), 0, 0);
  }

  lemma DefaultIsRead(st: State)
    requires ExecOf(st).defaultInstruction.GetStr("type").Some?
    ensures ExecField(st, "default_instruction") == Some(ExecOf(st).defaultInstruction)
  {
  }

  /** With no default instruction configured the fallback to a noop is taken only as long as
      `__exec__` has not been rewritten: any rewrite puts a null there, which is injected. */
  lemma RewritingDisablesDefault(env: Env, st: State, source: string)
    requires QueueOf(ExecOf(st)) == [] && ExecField(st, "default_instruction").None?
    ensures ExecOf(Advance(env, st)).instruction == NoopInstruction
    ensures ExecOf(Advance(env, SetSource(st, source))).instruction == Null
  {
    hide ExecOf, PutExec, Terminates, ExecField;
    var next := SetCurrent(st, NoopInstruction);
    PutExecEffect(st, ExecOf(st).(instruction := NoopInstruction));
    PutExecEffect(next, ExecOf(next).(running := false));
    var s := SetSource(st, source);
    PutExecEffect(st, ExecOf(st).(traceSource := Str(source)));
    NullDefault(st, ExecOf(st).(traceSource := Str(source)));
    PutExecEffect(s, ExecOf(s).(instruction := Null));
    var last := SetCurrent(s, Null);
    PutExecEffect(last, ExecOf(last).(running := false));
  }

  lemma NullDefault(st: State, c: ExecContext.Context)
    requires ExecField(st, "default_instruction").None? && c.defaultInstruction == ExecOf(st).defaultInstruction
    ensures ExecField(PutExec(st, c), "default_instruction") == Some(Null)
  {
    hide ExecContext.ToValue;
    ExecContext.CoreFields(c);
  }

  lemma AdvanceRuns(env: Env, reg: Registry, st: State, instr: Instruction, c: Ctl)
    requires Standard(reg) && instr.kind == "advance_instruction" && Room(c, 1, 1)
    ensures var r := Execute(env, reg, st, instr, c); r.out == Done(Advance(env, st)) && r.ctl.count <= c.count + 1
  {
    hide Execute, Advance;
    ExecuteRegistered(env, reg, st, instr, c);
  }

  lemma SourceIsSet(st: State, source: string)
    ensures ExecOf(SetSource(st, source)) == ExecOf(st).(traceSource := Str(source))
    ensures Continues(st, SetSource(st, source), 0)
  {
    hide ExecOf, PutExec, Continues, ExecField;
    PutExecContinues(st, ExecOf(st).(traceSource := Str(source)));
  }

  // ------------------------------------------------------------------------
  // The drain and the queue machine
  // ------------------------------------------------------------------------

  /** The loop has been set up with the configuration of `x`. */
  predicate SetUp(cfg: LoopConfig, x: ExecContext.Context) {
    cfg.metaTypes == MetaTypes(x) && cfg.auditOn == x.auditOn && cfg.metaTrace == x.drainMetaTrace
  }

  /** A run that is over after `k` records, with `b` current and `queue` queued. */
  ghost predicate Lands(x: ExecContext.Context, st: State, c: Ctl, r: Run, b: Value, queue: seq<Value>, k: nat,
                        w: nat) {
    r.out.Done? && Stands(r.out.st, x, b, queue) && Continues(st, r.out.st, k) && r.ctl.count <= c.count + w
  }

  /** One after which the engine is at rest. */
  ghost predicate Stops(x: ExecContext.Context, st: State, c: Ctl, r: Run, k: nat, w: nat) {
    r.out.Done? && Rests(r.out.st, x) && Continues(st, r.out.st, k) && r.ctl.count <= c.count + w
  }

  /** With the queue empty and no business instruction current the drain injects the default
      instruction and comes to rest. */
  lemma IdleDrains(env: Env, reg: Registry, cfg: LoopConfig, st: State, c: Ctl, x: ExecContext.Context)
    requires Standard(reg) && StopsWhenIdle(env, x) && SetUp(cfg, x) && Room(c, 1, 2)
    requires SameConfig(x, ExecOf(st)) && ExecOf(st).queue == List([])
    requires TextOr(ExecOf(st).instruction.GetStr("type"), "") in cfg.metaTypes
    ensures Stops(x, st, c, Drain(env, reg, cfg, st, c), Recorded(x.auditOn, 1), 2)
  {
    hide Execute, ExecOf, SetSource, Continues, ExecField, Terminates, MetaTypes, Advance, TraceIf, Business;
    SourceIsSet(st, "advance");
    var s := SetSource(st, "advance");
    assert PlanDrain(st, cfg.metaTypes) == Idle(s);
    AdvanceInjects(env, s, x);
    AdvanceRuns(env, reg, s, ADVANCE, c);
    var r := Execute(env, reg, s, ADVANCE, c);
    ContinuesThen(st, s, r.out.st, 0, 0);
    var t := TraceIf(env, reg, cfg.auditOn, r.out.st, r.ctl);
    TraceIfRuns(env, reg, cfg.auditOn, r.out.st, r.ctl);
    QuietStands(r.out.st, r.ctl, t, Business(r.out.st), 1, x, Null, []);
    ContinuesThen(st, r.out.st, t.out.st, 0, Recorded(x.auditOn, 1));
  }

  /** A business instruction that is current with nothing queued stays so. */
  lemma CurrentStays(env: Env, reg: Registry, cfg: LoopConfig, st: State, c: Ctl, x: ExecContext.Context, b: Value)
    requires Standard(reg) && SetUp(cfg, x) && Stands(st, x, b, []) && Room(c, 1, 1)
    requires TextOr(b.GetStr("type"), "") !in cfg.metaTypes + [""]
    ensures Lands(x, st, c, Drain(env, reg, cfg, st, c), b, [], Recorded(x.auditOn, 1), 1)
  {
    hide Execute, ExecOf, Continues, ExecField, MetaTypes, TraceIf, Business;
    assert PlanDrain(st, cfg.metaTypes) == Land(st);
    TraceIfRuns(env, reg, cfg.auditOn, st, c);
    QuietStands(st, c, TraceIf(env, reg, cfg.auditOn, st, c), Business(st), 1, x, b, []);
  }

  lemma PlanMeta(st: State, first: Value, rest: seq<Value>, metaTypes: seq<string>, instr: Instruction)
    requires ExecOf(st).running && ExecOf(st).queue == List([first] + rest)
    requires ParseInstruction(first) == Ok(instr) && instr.kind in metaTypes
    ensures PlanDrain(st, metaTypes).RunMeta? && PlanDrain(st, metaTypes).instr == instr
    ensures var s := PlanDrain(st, metaTypes).st;
            Continues(st, s, 0) &&
            ExecOf(s) == ExecOf(st).(queue := List(rest), traceSource := Str("drain_meta:" + instr.kind))
  {
    hide ExecOf, PutExec, Continues, ExecField, SetSource;
    assert ([first] + rest)[1..] == rest;
    PutExecContinues(st, ExecOf(st).(queue := List(rest)));
    SourceIsSet(SetQueue(st, rest), "drain_meta:" + instr.kind);
    ContinuesThen(st, SetQueue(st, rest), SetSource(SetQueue(st, rest), "drain_meta:" + instr.kind), 0, 0);
  }

  lemma PlanMetaStands(st: State, x: ExecContext.Context, b: Value, first: Value, rest: seq<Value>,
                       metaTypes: seq<string>, instr: Instruction)
    requires Stands(st, x, b, [first] + rest) && ParseInstruction(first) == Ok(instr) && instr.kind in metaTypes
    ensures PlanDrain(st, metaTypes).RunMeta? && PlanDrain(st, metaTypes).instr == instr
    ensures Stands(PlanDrain(st, metaTypes).st, x, b, rest) && Continues(st, PlanDrain(st, metaTypes).st, 0)
  {
    hide ExecOf, PlanDrain, ParseInstruction, Continues;
    PlanMeta(st, first, rest, metaTypes, instr);
  }

  lemma PlanLanding(st: State, first: Value, rest: seq<Value>, metaTypes: seq<string>)
    requires ExecOf(st).running && ExecOf(st).queue == List([first] + rest)
    requires TextOr(first.GetStr("type"), "") !in metaTypes
    ensures PlanDrain(st, metaTypes).Land? && Continues(st, PlanDrain(st, metaTypes).st, 0)
    ensures ExecOf(PlanDrain(st, metaTypes).st) ==
            ExecOf(st).(instruction := first, queue := List(rest), traceSource := Str("queue_pop"))
  {
    hide ExecOf, PutExec, Continues, ExecField;
    assert ([first] + rest)[1..] == rest;
    PutExecContinues(st, ExecOf(st).(queue := List(rest)));
    var popped := SetQueue(st, rest);
    PutExecContinues(popped, ExecOf(popped).(instruction := first));
    var landed := SetCurrent(popped, first);
    PutExecContinues(landed, ExecOf(landed).(traceSource := Str("queue_pop")));
    ContinuesThen(st, popped, landed, 0, 0);
    ContinuesThen(st, landed, SetSource(landed, "queue_pop"), 0, 0);
  }

  /** Landing on a business instruction. */
  lemma LandingDrains(env: Env, reg: Registry, cfg: LoopConfig, st: State, c: Ctl, x: ExecContext.Context,
                      b: Value, first: Value, rest: seq<Value>)
    requires Standard(reg) && SetUp(cfg, x) && Stands(st, x, b, [first] + rest) && Room(c, 1, 1)
    requires TextOr(first.GetStr("type"), "") !in cfg.metaTypes
    ensures Lands(x, st, c, Drain(env, reg, cfg, st, c), first, rest, Recorded(x.auditOn, 1), 1)
  {
    hide Execute, ExecOf, Business, ExecField, PlanDrain, TraceIf, Continues, MetaTypes;
    PlanLanding(st, first, rest, cfg.metaTypes);
    var s := PlanDrain(st, cfg.metaTypes).st;
    var t := TraceIf(env, reg, cfg.auditOn, s, c);
    TraceIfRuns(env, reg, cfg.auditOn, s, c);
    QuietStands(s, c, t, Business(s), 1, x, first, rest);
    ContinuesThen(st, s, t.out.st, 0, Recorded(x.auditOn, 1));
  }

  /** What may stand in the queue: an advance, or an instruction the drain leaves to dispatch. */
  predicate Queued(x: ExecContext.Context, v: Value) {
    if IsAdvance(v) then ParseInstruction(v).Ok? else TextOr(v.GetStr("type"), "") !in MetaTypes(x) + [""]
  }

  lemma AdvanceParses(v: Value)
    requires IsAdvance(v) && ParseInstruction(v).Ok?
    ensures ParseInstruction(v).value.kind == "advance_instruction"
  {
  }

  function TracedMetas(x: ExecContext.Context, n: nat): nat {
    Recorded(x.auditOn, if x.drainMetaTrace then n else 0)
  }

  /** An advance at the head of the queue makes the next one current, or brings the default
      instruction if there is none, and the drain goes on. */
  lemma AdvanceDrains(env: Env, reg: Registry, cfg: LoopConfig, st: State, c: Ctl, x: ExecContext.Context, b: Value,
                      first: Value, rest: seq<Value>) returns (t: Run)
    requires Standard(reg) && StopsWhenIdle(env, x) && SetUp(cfg, x) && Room(c, 1, 2)
    requires Stands(st, x, b, [first] + rest) && IsAdvance(first) && Queued(x, first)
    ensures t.out.Done? && Drain(env, reg, cfg, st, c) == Drain(env, reg, cfg, t.out.st, t.ctl)
    ensures rest == [] ==> Stops(x, st, c, t, TracedMetas(x, 1), 2)
    ensures rest != [] ==> Lands(x, st, c, t, rest[0], rest[1..], TracedMetas(x, 1), 2)
    ensures Advances(c, t.ctl)
  {
    hide Execute, ExecOf, Business, ExecField, PlanDrain, TraceIf, ParseInstruction, MetaTypes, Advance, Continues,
         Terminates, IsAdvance;
    var instr := ParseInstruction(first).value;
    AdvanceParses(first);
    PlanMetaStands(st, x, b, first, rest, cfg.metaTypes, instr);
    var s := PlanDrain(st, cfg.metaTypes).st;
    AdvanceRuns(env, reg, s, instr, c);
    if rest == [] { AdvanceInjects(env, s, x); } else { AdvancePops(env, s, x, b, rest); }
    var r := Execute(env, reg, s, instr, c);
    ContinuesThen(st, s, r.out.st, 0, 0);
    var on := cfg.auditOn && cfg.metaTrace;
    t := TraceIf(env, reg, on, r.out.st, r.ctl);
    TraceIfRuns(env, reg, on, r.out.st, r.ctl);
    QuietStands(r.out.st, r.ctl, t, Business(r.out.st), 1, x, if rest == [] then b else rest[0],
      if rest == [] then [] else rest[1..]);
    ContinuesThen(st, r.out.st, t.out.st, 0, TracedMetas(x, 1));
  }

  lemma BusinessIsNoMeta(x: ExecContext.Context, v: Value)
    requires Queued(x, v) && !IsAdvance(v)
    ensures TextOr(v.GetStr("type"), "") !in MetaTypes(x) && TextOr(v.GetStr("type"), "") !in MetaTypes(x) + [""]
  {
  }

  lemma AdvanceIsMeta(env: Env, x: ExecContext.Context, v: Value)
    requires StopsWhenIdle(env, x) && IsAdvance(v)
    ensures TextOr(v.GetStr("type"), "") in MetaTypes(x)
  {
    hide MetaTypes;
  }

  lemma DefaultIsMeta(env: Env, x: ExecContext.Context)
    requires StopsWhenIdle(env, x)
    ensures TextOr(x.defaultInstruction.GetStr("type"), "") in MetaTypes(x)
  {
    hide MetaTypes;
  }

  /** A drain that ends where the queue machine says. */
  ghost predicate DrainsTo(x: ExecContext.Context, st: State, c: Ctl, r: Run, b: Value, queue: seq<Value>) {
    var k := Recorded(x.auditOn, 1) + TracedMetas(x, AdvancesRun(queue));
    var w := 2 * AdvancesRun(queue) + 2;
    match DrainOf(b, queue)
    case Landed(next, rest) => Lands(x, st, c, r, next, rest, k, w)
    case AtRest => Stops(x, st, c, r, k, w)
  }

  lemma DrainGoesOn(x: ExecContext.Context, st: State, c: Ctl, s: State, d: Ctl, r: Run, b: Value, queue: seq<Value>)
    requires |queue| > 1 && IsAdvance(queue[0])
    requires Continues(st, s, TracedMetas(x, 1)) && d.count <= c.count + 2
    requires DrainsTo(x, s, d, r, queue[1], queue[2..])
    ensures DrainsTo(x, st, c, r, b, queue)
  {
    hide Stands, Rests, Continues, IsAdvance;
    var ran := AdvancesRun(queue[2..]);
    ContinuesThen(st, s, r.out.st, TracedMetas(x, 1), Recorded(x.auditOn, 1) + TracedMetas(x, ran));
  }

  lemma DrainEnds(x: ExecContext.Context, st: State, c: Ctl, s: State, d: Ctl, r: Run, b: Value, queue: seq<Value>)
    requires |queue| == 1 && IsAdvance(queue[0])
    requires Continues(st, s, TracedMetas(x, 1)) && d.count <= c.count + 2
    requires Stops(x, s, d, r, Recorded(x.auditOn, 1), 2)
    ensures DrainsTo(x, st, c, r, b, queue)
  {
    hide Rests, Continues, IsAdvance;
    ContinuesThen(st, s, r.out.st, TracedMetas(x, 1), Recorded(x.auditOn, 1));
  }

  /** On any queue of advances and business instructions the drain ends where the queue machine
      says, changes no business field, and records the hashes of the dispatch before it once,
      or once more for each advance it ran. */
  lemma {:induction false} DrainRuns(env: Env, reg: Registry, cfg: LoopConfig, st: State, c: Ctl,
                                     x: ExecContext.Context, b: Value, queue: seq<Value>)
    requires Standard(reg) && StopsWhenIdle(env, x) && SetUp(cfg, x) && Room(c, 1, 2 * AdvancesRun(queue) + 2)
    requires Stands(st, x, b, queue) && Queued(x, b) && forall v | v in queue :: Queued(x, v)
    ensures DrainsTo(x, st, c, Drain(env, reg, cfg, st, c), b, queue)
    decreases |queue|
  {
    hide Drain, Stands, Rests, SetUp, StopsWhenIdle, Continues, Queued, IsAdvance, MetaTypes, ExecOf;
    MetaTypesOf(cfg, x);
    if queue == [] {
      if IsAdvance(b) {
        AdvanceIsMeta(env, x, b);
        IdleStands(st, x, b);
        IdleDrains(env, reg, cfg, st, c, x);
      } else {
        BusinessIsNoMeta(x, b);
        CurrentStays(env, reg, cfg, st, c, x, b);
      }
    } else if !IsAdvance(queue[0]) {
      assert queue == [queue[0]] + queue[1..];
      BusinessIsNoMeta(x, queue[0]);
      LandingDrains(env, reg, cfg, st, c, x, b, queue[0], queue[1..]);
    } else {
      PastAdvance(env, reg, cfg, st, c, x, b, queue);
    }
  }

  lemma {:induction false} PastAdvance(env: Env, reg: Registry, cfg: LoopConfig, st: State, c: Ctl,
                                       x: ExecContext.Context, b: Value, queue: seq<Value>)
    requires Standard(reg) && StopsWhenIdle(env, x) && SetUp(cfg, x) && Room(c, 1, 2 * AdvancesRun(queue) + 2)
    requires Stands(st, x, b, queue) && forall v | v in queue :: Queued(x, v)
    requires queue != [] && IsAdvance(queue[0])
    ensures DrainsTo(x, st, c, Drain(env, reg, cfg, st, c), b, queue)
    decreases |queue|, 0
  {
    hide Drain, Stands, Rests, SetUp, StopsWhenIdle, Continues, Queued, IsAdvance, MetaTypes, ExecOf, DrainsTo;
    MetaTypesOf(cfg, x);
    assert queue == [queue[0]] + queue[1..];
    var t := AdvanceDrains(env, reg, cfg, st, c, x, b, queue[0], queue[1..]);
    var r := Drain(env, reg, cfg, st, c);
    if |queue| == 1 {
      DefaultIsMeta(env, x);
      IdleRests(t.out.st, x);
      IdleDrains(env, reg, cfg, t.out.st, t.ctl, x);
      DrainEnds(x, st, c, t.out.st, t.ctl, r, b, queue);
    } else {
      assert queue[1..][0] == queue[1] && queue[1..][1..] == queue[2..];
      DrainRuns(env, reg, cfg, t.out.st, t.ctl, x, queue[1], queue[2..]);
      DrainGoesOn(x, st, c, t.out.st, t.ctl, r, b, queue);
    }
  }

  lemma MetaTypesOf(cfg: LoopConfig, x: ExecContext.Context)
    requires SetUp(cfg, x)
    ensures cfg.metaTypes == MetaTypes(x)
  {
  }

  lemma IdleStands(st: State, x: ExecContext.Context, b: Value)
    requires Stands(st, x, b, [])
    ensures SameConfig(x, ExecOf(st)) && ExecOf(st).queue == List([]) && ExecOf(st).instruction == b
  {
    hide ExecOf;
  }

  lemma IdleRests(st: State, x: ExecContext.Context)
    requires Rests(st, x)
    ensures SameConfig(x, ExecOf(st)) && ExecOf(st).queue == List([]) && ExecOf(st).instruction == x.defaultInstruction
  {
    hide ExecOf;
  }

  ghost predicate StandsAfter(r: Run, x: ExecContext.Context, b: Value, queue: seq<Value>) {
    r.out.Done? && Stands(r.out.st, x, b, queue)
  }

  /** Where the queue machine lands is where the engine stands. */
  lemma StandsWhereLanded(x: ExecContext.Context, st: State, c: Ctl, r: Run, b: Value, queue: seq<Value>, next: Value,
                          rest: seq<Value>)
    requires DrainsTo(x, st, c, r, b, queue)
    ensures StandsAfter(r, x, next, rest) <==> DrainOf(b, queue) == Landed(next, rest)
  {
    hide ExecOf, DrainOf, Continues, AdvancesRun, SameConfig;
  }

  /** Behind pending advances, the first business instruction becomes current with the rest
      queued exactly when the advances are even in number or nothing comes after it. */
  lemma DrainTakesNextExactly(env: Env, reg: Registry, cfg: LoopConfig, st: State, c: Ctl, x: ExecContext.Context,
                              b: Value, ahead: seq<Value>, first: Value, rest: seq<Value>)
    requires Standard(reg) && StopsWhenIdle(env, x) && SetUp(cfg, x)
    requires Stands(st, x, b, ahead + ([first] + rest)) && Queued(x, b)
    requires AllAdvances(ahead) && !IsAdvance(first)
    requires forall v | v in ahead + ([first] + rest) :: Queued(x, v)
    requires Room(c, 1, 2 * AdvancesRun(ahead + ([first] + rest)) + 2)
    ensures StandsAfter(Drain(env, reg, cfg, st, c), x, first, rest) <==> |ahead| % 2 == 0 || rest == []
  {
    hide Drain, SetUp, StopsWhenIdle, Queued, IsAdvance, Stands, DrainOf, AllAdvances, DrainsTo, StandsAfter;
    var queue := ahead + ([first] + rest);
    TakesNextExactly(b, ahead, first, rest);
    DrainRuns(env, reg, cfg, st, c, x, b, queue);
    StandsWhereLanded(x, st, c, Drain(env, reg, cfg, st, c), b, queue, first, rest);
  }

  // ------------------------------------------------------------------------
  // Other meta-instructions
  // ------------------------------------------------------------------------

  /** A run that is over and, with `b` current and `queue` queued, did just the deed. */
  ghost predicate Does(x: ExecContext.Context, st: State, c: Ctl, r: Run, b: Value, queue: seq<Value>, d: Deed,
                       w: nat) {
    r.out.Done? && Stands(r.out.st, x, b, queue + d.enqueued) && Business(r.out.st) == d.fields &&
    r.ctl.count <= c.count + w
  }

  /** A queued meta-instruction that does what `eff` says to the business fields and the end
      of the queue, and nothing else. */
  ghost predicate MetaDoes(env: Env, reg: Registry, x: ExecContext.Context, m: Value, eff: Effect, h: nat, w: nat) {
    ParseInstruction(m).Ok? && ParseInstruction(m).value.kind in MetaTypes(x) &&
    forall st, c, b, queue | Stands(st, x, b, queue) && Room(c, h, w) && eff(m, Business(st)).Some? ::
      Does(x, st, c, Execute(env, reg, st, ParseInstruction(m).value, c), b, queue, eff(m, Business(st)).value, w)
  }

  ghost predicate AllMeta(env: Env, reg: Registry, x: ExecContext.Context, ms: seq<Value>, eff: Effect, h: nat,
                          w: nat) {
    forall i | 0 <= i < |ms| :: MetaDoes(env, reg, x, ms[i], eff, h, w)
  }

  /** All deeds together: the fields after the last, and what was enqueued by any. */
  function DeedsOf(eff: Effect, ms: seq<Value>, fields: Fields): Option<Deed> {
    if ms == [] then Some(Deed(fields, []))
    else
      match eff(ms[0], fields)
      case None => None
      case Some(d) =>
        match DeedsOf(eff, ms[1..], d.fields)
        case None => None
        case Some(e) => Some(Deed(e.fields, d.enqueued + e.enqueued))
  }

  lemma MetaRuns(env: Env, reg: Registry, cfg: LoopConfig, st: State, c: Ctl, x: ExecContext.Context, b: Value,
                 m: Value, rest: seq<Value>, eff: Effect, d: Deed, h: nat, w: nat) returns (t: Run)
    requires Standard(reg) && SetUp(cfg, x) && MetaDoes(env, reg, x, m, eff, h, w) && h > 0
    requires Stands(st, x, b, [m] + rest) && Room(c, h, w + 1) && eff(m, Business(st)) == Some(d)
    ensures t.out.Done? && Drain(env, reg, cfg, st, c) == Drain(env, reg, cfg, t.out.st, t.ctl)
    ensures Does(x, st, c, t, b, rest, d, w + 1)
    ensures Advances(c, t.ctl)
  {
    hide Execute, ExecOf, Business, PlanDrain, TraceIf, ParseInstruction, MetaTypes, Stands, Rests, Typed, PairsIn;
    var instr := ParseInstruction(m).value;
    PlanMetaStands(st, x, b, m, rest, cfg.metaTypes, instr);
    var s := PlanDrain(st, cfg.metaTypes).st;
    var r := Execute(env, reg, s, instr, c);
    assert Does(x, s, c, r, b, rest, d, w);
    var on := cfg.auditOn && cfg.metaTrace;
    t := TraceIf(env, reg, on, r.out.st, r.ctl);
    TraceIfRuns(env, reg, on, r.out.st, r.ctl);
    QuietStands(r.out.st, r.ctl, t, Business(r.out.st), 1, x, b, rest + d.enqueued);
  }

  /** The drain runs the meta-instructions at the head of the queue, each once and in order,
      and goes on with the rest of it and what they enqueued. */
  lemma {:induction false} MetaPrefixRuns(env: Env, reg: Registry, cfg: LoopConfig, st: State, c: Ctl,
                                          x: ExecContext.Context, b: Value, ms: seq<Value>, rest: seq<Value>,
                                          eff: Effect, d: Deed, h: nat, w: nat)
    returns (t: Run)
    requires Standard(reg) && SetUp(cfg, x) && AllMeta(env, reg, x, ms, eff, h, w) && h > 0
    requires Stands(st, x, b, ms + rest) && Room(c, h, |ms| * (w + 1)) && DeedsOf(eff, ms, Business(st)) == Some(d)
    ensures t.out.Done? && Drain(env, reg, cfg, st, c) == Drain(env, reg, cfg, t.out.st, t.ctl)
    ensures Does(x, st, c, t, b, rest, d, |ms| * (w + 1)) && Advances(c, t.ctl)
    decreases |ms|
  {
    hide Drain, Business, Stands, MetaDoes, SetUp;
    if ms == [] {
      assert ms + rest == rest && rest + [] == rest;
      t := Run(Done(st), c);
    } else {
      assert ms + rest == [ms[0]] + (ms[1..] + rest);
      assert |ms| * (w + 1) == (w + 1) + |ms[1..]| * (w + 1);
      var first := eff(ms[0], Business(st)).value;
      var later := DeedsOf(eff, ms[1..], first.fields).value;
      var s := MetaRuns(env, reg, cfg, st, c, x, b, ms[0], ms[1..] + rest, eff, first, h, w);
      assert ms[1..] + rest + first.enqueued == ms[1..] + (rest + first.enqueued);
      t := MetaPrefixRuns(env, reg, cfg, s.out.st, s.ctl, x, b, ms[1..], rest + first.enqueued, eff, later, h, w);
      assert rest + first.enqueued + later.enqueued == rest + (first.enqueued + later.enqueued);
    }
  }

  /** The drain executes exactly the meta-instructions ahead of the first business one, which
      becomes current, with what comes after it, and what they enqueued, left queued. */
  lemma DrainStopsAtFirstBusiness(env: Env, reg: Registry, cfg: LoopConfig, st: State, c: Ctl, x: ExecContext.Context,
                                  b: Value, ms: seq<Value>, first: Value, rest: seq<Value>, eff: Effect, d: Deed,
                                  h: nat, w: nat)
    requires Standard(reg) && SetUp(cfg, x) && AllMeta(env, reg, x, ms, eff, h, w) && h > 0
    requires Stands(st, x, b, ms + ([first] + rest)) && TextOr(first.GetStr("type"), "") !in cfg.metaTypes
    requires Room(c, h, |ms| * (w + 1) + 1) && DeedsOf(eff, ms, Business(st)) == Some(d)
    ensures Does(x, st, c, Drain(env, reg, cfg, st, c), first, rest, d, |ms| * (w + 1) + 1)
  {
    hide Drain, Business, Stands, MetaDoes, MetaTypes, DeedsOf, SetUp;
    var t := MetaPrefixRuns(env, reg, cfg, st, c, x, b, ms, [first] + rest, eff, d, h, w);
    assert [first] + rest + d.enqueued == [first] + (rest + d.enqueued);
    LandingDrains(env, reg, cfg, t.out.st, t.ctl, x, b, first, rest + d.enqueued);
  }

  /** With nothing but meta-instructions queued that enqueue nothing, a business instruction
      that is already current stays so. */
  lemma DrainKeepsCurrentBusiness(env: Env, reg: Registry, cfg: LoopConfig, st: State, c: Ctl, x: ExecContext.Context,
                                  b: Value, ms: seq<Value>, eff: Effect, d: Deed, h: nat, w: nat)
    requires Standard(reg) && SetUp(cfg, x) && AllMeta(env, reg, x, ms, eff, h, w) && h > 0
    requires Stands(st, x, b, ms) && TextOr(b.GetStr("type"), "") !in cfg.metaTypes + [""]
    requires Room(c, h, |ms| * (w + 1) + 1) && DeedsOf(eff, ms, Business(st)) == Some(d) && d.enqueued == []
    ensures Does(x, st, c, Drain(env, reg, cfg, st, c), b, [], d, |ms| * (w + 1) + 1)
  {
    hide Drain, Business, Stands, MetaDoes, MetaTypes, DeedsOf, SetUp;
    var none: seq<Value> := [];
    assert ms + none == ms && none + none == none;
    var t := MetaPrefixRuns(env, reg, cfg, st, c, x, b, ms, none, eff, d, h, w);
    CurrentStays(env, reg, cfg, t.out.st, t.ctl, x, b);
  }
}
