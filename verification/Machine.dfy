/** The engine's primitives on the state: what each of them reads, decides and writes, apart
    from executing further instructions. */
module Machine {
  import opened Values
  import opened Store
  import opened References
  import opened Control
  import opened ExecContext
  import opened Audit
  import Domains

  /** What the engine takes from outside: digests, float comparisons, error messages, and
      the text of dispatch keys that are floats, byte strings or collections. */
  datatype Env = Env(
    digests: Digests,
    floats: Domains.FloatOps,
    errorText: Error -> string,
    keyText: Value -> string)

  /** The executor functions a registry maps instruction types to. `Leaf` stands for any
      primitive that runs no further instructions. */
  datatype Primitive =
    | Noop
    | AdvanceInstruction
    | PushInstruction
    | PushInstructionSequence
    | InstructionSequence
    | Dispatch
    | WhileLoop
    | TraceStep
    | TryCatch
    | Parallel
    | Leaf(run: (State, Instruction) -> Result<State>)

  type Registry = map<string, Primitive>

  // ------------------------------------------------------------------------
  // The `__exec__` record in the state
  // ------------------------------------------------------------------------

  function ExecOf(st: State): Context {
    ExecContext.Parse(match st.Get(EXEC) case Some(v) => v case None => EmptyObject)
  }

  function PutExec(st: State, c: Context): State {
    st.Set(EXEC, ExecContext.ToValue(c))
  }

  /** A field of `__exec__` as it stands in the state, before any default. */
  function ExecField(st: State, key: string): Option<Value> {
    match st.Get(EXEC) case Some(v) => v.Get(key) case None => None
  }

  /** The fields the engine does not keep for itself. */
  function Business(st: State): Fields {
    st.data - {EXEC, AUDIT_CHAIN}
  }

  function QueueOf(c: Context): seq<Value> {
    if c.queue.List? then c.queue.items else []
  }

  function SetQueue(st: State, queue: seq<Value>): State {
    PutExec(st, ExecOf(st).(queue := List(queue)))
  }

  function SetCurrent(st: State, instr: Value): State {
    PutExec(st, ExecOf(st).(instruction := instr))
  }

  function SetRunning(st: State, running: bool): State {
    PutExec(st, ExecOf(st).(running := running))
  }

  function SetSource(st: State, source: string): State {
    PutExec(st, ExecOf(st).(traceSource := Str(source)))
  }

  function SetHashes(st: State, hashes: Value): State {
    PutExec(st, ExecOf(st).(dispatchHashes := hashes))
  }

  function SetTruncated(st: State, truncated: bool): State {
    PutExec(st, ExecOf(st).(terminatedByMaxSteps := truncated))
  }

  /** The instruction types `while_loop` runs straight from the queue. */
  function MetaTypes(c: Context): seq<string> {
    if c.metaTypes.List? then Names(c.metaTypes.items) else []
  }

  function Names(items: seq<Value>): seq<string> {
    if items == [] then []
    else (if items[0].Str? then [items[0].s] else []) + Names(items[1..])
  }

  // ------------------------------------------------------------------------
  // Audit records
  // ------------------------------------------------------------------------

  const TRACE := Simple("trace_step")
  const ADVANCE := Simple("advance_instruction")

  function ChainOf(st: State): Option<AuditChain> {
    match st.Get(AUDIT_CHAIN) case Some(v) => ParseChain(v) case None => None
  }

  function PutChain(st: State, c: AuditChain): State {
    st.Set(AUDIT_CHAIN, ChainToValue(c))
  }

  function CurrentTypeName(st: State): Option<string> {
    match Domains.CurrentType(st) case Some(Str(t)) => Some(t) case _ => None
  }

  function TraceSummary(itype: Option<string>, version: Option<string>, step: string): string {
    match (itype, version)
    case (Some(t), Some(v)) => if t != step then "[" + t + "] " + step + " @" + v else step
    case (Some(t), None) => if t != step then "[" + t + "] " + step else step
    case (None, Some(v)) => step + " @" + v
    case (None, None) => step
  }

  function TextOr(s: Option<string>, default: string): string {
    match s case Some(t) => t case None => default
  }

  /** The hashes dispatch left behind; failing those, the hash of the state as it is. Once
      `__exec__` has been rewritten the field is there, null at least, and the fallback is
      never taken again. */
  function TraceHashes(env: Env, st: State): (string, string) {
    match ExecField(st, "last_dispatch_hashes")
    case Some(h) => (TextOr(h.GetStr("before_hash"), ""), TextOr(h.GetStr("after_hash"), ""))
    case None =>
      var hash := ContentHash(env.digests, [Object(st.data - {EXEC, AUDIT_CHAIN, PROVENANCE})]);
      (hash, hash)
  }

  function TracedChain(env: Env, st: State, instr: Instruction, tick: nat): AuditChain {
    var params := Object(instr.params);
    var step := TextOr(params.GetStr("label"), "step");
    var itype := CurrentTypeName(st);
    var ruleId := TextOr(params.GetStr("rule_id"), TextOr(itype, "unknown"));
    var version := match ExecField(st, "dispatch_table_version") case Some(Str(v)) => Some(v) case _ => None;
    var chain := match ChainOf(st) case Some(c) => c case None => EmptyChain;
    var hashes := TraceHashes(env, st);
    Append(env.digests, chain, ruleId, tick, hashes.0, hashes.1, Some(TraceSummary(itype, version, step)))
  }

  /** The fallback's own record, which runs on the chain's clock and not on the context's. */
  function RecordExpand(env: Env, st: State, original: string, expanded: string): State {
    match ChainOf(st)
    case None => st
    case Some(chain) =>
      if !ExecOf(st).auditOn then st
      else
        var hash := ContentHash(env.digests, [st.BusinessSnapshot()]);
        var ticked := chain.(logicalTick := AsU64(chain.logicalTick + 1));
        PutChain(st, Append(env.digests, ticked, "dispatch_expand:" + original, chain.logicalTick, hash, hash,
                            Some("dispatch_expand: " + original + " \U{2192} " + expanded)))
  }

  // ------------------------------------------------------------------------
  // Queue primitives
  // ------------------------------------------------------------------------

  const NoopInstruction: Value := Object(map["type" := Str("noop"), "params" := EmptyObject])
  const AdvanceInQueue: Value := Object(map["type" := Str("advance_instruction"), "params" := EmptyObject])

  /** The termination domain, asked about a state; a domain that does not parse is never met. */
  predicate Terminates(env: Env, domain: Value, st: State) {
    match Domains.ParseDomain(domain)
    case Ok(d) => Domains.Holds(env.floats, d, st)
    case Err(_) => false
  }

  /** Pops the queue into the current instruction. An empty queue injects the default
      instruction instead, and stops the engine if that meets the termination domain. */
  function Advance(env: Env, st: State): State {
    var exec := ExecOf(st);
    var queue := QueueOf(exec);
    if queue == [] then
      var injected := match ExecField(st, "default_instruction") case Some(v) => v case None => NoopInstruction;
      var next := SetCurrent(st, injected);
      if Terminates(env, exec.terminationDomain, next) then SetRunning(next, false) else next
    else SetCurrent(SetQueue(st, queue[1..]), queue[0])
  }

  /** Whether an instruction may be queued: with a dispatch table in place its type must be
      registered or in the table. */
  predicate Dispatchable(reg: Registry, st: State, v: Value) {
    match (ExecField(st, "dispatch_cases"), v.GetStr("type"))
    case (Some(Object(cases)), Some(t)) => t in reg || t in cases
    case _ => true
  }

  function Push(reg: Registry, st: State, instr: Instruction): Result<State> {
    var v := Object(instr.params).GetOr("instruction", EmptyObject);
    if Dispatchable(reg, st, v) then Ok(SetQueue(st, QueueOf(ExecOf(st)) + [v]))
    else Err(InvalidConfig("push_instruction"))
  }

  predicate AllDispatchable(reg: Registry, st: State, items: seq<Value>) {
    forall i | 0 <= i < |items| :: Dispatchable(reg, st, items[i])
  }

  function PushSequence(reg: Registry, st: State, instr: Instruction): Result<State> {
    var v := Object(instr.params).GetOr("instructions", EmptyList);
    var items := if v.List? then v.items else [v];
    if AllDispatchable(reg, st, items) then Ok(SetQueue(st, QueueOf(ExecOf(st)) + items))
    else Err(InvalidConfig("push_instruction_sequence"))
  }

  // ------------------------------------------------------------------------
  // Dispatch
  // ------------------------------------------------------------------------

  function DispatchKey(env: Env, v: Value): string {
    match v
    case Bool(b) => if b then "true" else "false"
    case Str(s) => s
    case Null => "null"
    case Integer(i) => SignedDecimal(i)
    case _ => env.keyText(v)
  }

  datatype DispatchPlan = Skip | Reject(error: Error) | RunCase(instr: Instruction, tag: string)

  function PlanCase(st: State, body: Value, tag: string): DispatchPlan {
    match ParseInstruction(ResolveRefs(st, body))
    case Ok(instr) => RunCase(instr, tag)
    case Err(e) => Reject(e)
  }

  /** Cases given with the instruction take the place of the system table, even when empty. */
  function PlanDispatch(env: Env, st: State, instr: Instruction): DispatchPlan {
    match instr.Param("key")
    case None => Skip
    case Some(keyValue) =>
      var key := DispatchKey(env, ResolvePath(st, keyValue));
      var own := "cases" in instr.params;
      var cases := if own then instr.params["cases"] else ObjectOr(ExecField(st, "dispatch_cases"));
      var default := if own then instr.Param("default") else ExecField(st, "dispatch_default");
      if !cases.Object? then Skip
      else if key in cases.fields then PlanCase(st, cases.fields[key], key)
      else match default case Some(body) => PlanCase(st, body, "default:" + key) case None => Skip
  }

  function ObjectOr(v: Option<Value>): Value {
    match v case Some(w) => w case None => EmptyObject
  }

  function StateHash(env: Env, st: State): string {
    ContentHash(env.digests, [st.BusinessSnapshot()])
  }

  /** Notes the hashes around the case body and, while running, queues an advance. */
  function FinishDispatch(env: Env, before: State, after: State, tag: string): State {
    var hashes := Object(map[
      "before_hash" := Str(StateHash(env, before)),
      "after_hash" := Str(StateHash(env, after)),
      "case_key" := Str(tag)]);
    var noted := SetHashes(after, hashes);
    if ExecOf(noted).running then SetQueue(noted, QueueOf(ExecOf(noted)) + [AdvanceInQueue]) else noted
  }

  // ------------------------------------------------------------------------
  // The fallback expansion of unregistered types
  // ------------------------------------------------------------------------

  datatype Expansion =
    | Registered(primitive: Primitive)
    | Refused(error: Error)
    | Expanded(st: State, instr: Instruction)

  /** `__exec__.instruction` set in place; the other fields stay as they are, unparsed. */
  function NoteInstruction(st: State, instr: Value): State {
    var fields := match st.Get(EXEC) case Some(Object(m)) => m case _ => map[];
    st.Set(EXEC, Object(fields["instruction" := instr]))
  }

  /** Metadata is written to a field that does not exist in the typed record, so that all
      this does is to rewrite `__exec__` in its typed form. */
  function NoteMetadata(st: State, metadata: Value): State {
    if metadata.Null? || metadata.IsEmpty() then st else PutExec(st, ExecOf(st))
  }

  function Expand(env: Env, reg: Registry, st: State, instr: Instruction): Expansion {
    if instr.kind in reg then Registered(reg[instr.kind])
    else
      match ExecField(st, "dispatch_cases")
      case Some(Object(cases)) =>
        if instr.kind !in cases then Refused(UnknownInstruction(instr.kind))
        else
          var noted := NoteMetadata(NoteInstruction(st, instr.ToValue()), instr.metadata);
          (match ParseInstruction(ResolveRefs(noted, cases[instr.kind]))
           case Err(e) => Refused(e)
           case Ok(next) =>
             if next.kind == "dispatch" then Refused(InvalidConfig("nested dispatch"))
             else Expanded(RecordExpand(env, noted, instr.kind, next.kind), next))
      case _ => Refused(UnknownInstruction(instr.kind))
  }

  // ------------------------------------------------------------------------
  // The loop
  // ------------------------------------------------------------------------

  /** Integers above 100000 are cut off; a negative one is cast to an unsigned word. */
  function MaxSteps(instr: Instruction): nat {
    var n := match Object(instr.params).GetInteger("max_steps") case Some(i) => i case None => 10000;
    AsU64(if n > 100000 then 100000 else n)
  }

  datatype LoopConfig = LoopConfig(
    condition: Option<Value>,
    maxSteps: nat,
    body: Option<Value>,
    metaTypes: seq<string>,
    auditOn: bool,
    metaTrace: bool)

  function LoadLoop(st: State, instr: Instruction): LoopConfig {
    var exec := ExecOf(st);
    LoopConfig(instr.Param("condition"), MaxSteps(instr), instr.Param("body"), MetaTypes(exec),
               exec.auditOn, exec.drainMetaTrace)
  }

  function CheckCondition(env: Env, st: State, condition: Option<Value>): Result<bool> {
    match condition
    case None => Ok(ExecOf(st).running)
    case Some(v) =>
      if v.Object? && REF in v.fields then Ok(ResolveRefs(st, v).Truthy())
      else if v.Object? && "type" in v.fields then
        var d :- Domains.ParseDomain(v);
        Ok(Domains.Holds(env.floats, d, st))
      else Ok(v.Truthy())
  }

  datatype DrainStep =
    | Stop(st: State)
    | Broken(error: Error)
    | RunMeta(st: State, instr: Instruction)
    | Land(st: State)
    | Idle(st: State)

  /** One turn of the drain: a meta-instruction is run and the drain goes on; a business
      instruction becomes current and ends it; with an empty queue a business instruction
      that is already current is left to dispatch, and anything else is advanced past. */
  function PlanDrain(st: State, metaTypes: seq<string>): DrainStep {
    var exec := ExecOf(st);
    if !exec.queue.List? then Stop(st)
    else if exec.queue.items != [] then
      if !exec.running then Stop(st)
      else
        var first := exec.queue.items[0];
        var popped := SetQueue(st, exec.queue.items[1..]);
        var kind := TextOr(first.GetStr("type"), "");
        if kind in metaTypes then
          match ParseInstruction(first)
          case Ok(instr) => RunMeta(SetSource(popped, "drain_meta:" + kind), instr)
          case Err(e) => Broken(e)
        else Land(SetSource(SetCurrent(popped, first), "queue_pop"))
    else
      var kind := TextOr(exec.instruction.GetStr("type"), "");
      if kind != "" && kind !in metaTypes then Land(st)
      else Idle(SetSource(st, "advance"))
  }

  // ------------------------------------------------------------------------
  // Try-catch and parallel execution
  // ------------------------------------------------------------------------

  /** A parameter that must be a string after following one reference. */
  function TextParam(st: State, instr: Instruction, key: string, default: string): string {
    match instr.Param(key)
    case Some(v) => (match ResolvePath(st, v) case Str(s) => s case _ => default)
    case None => default
  }

  function ErrorAttr(st: State, instr: Instruction): string {
    TextParam(st, instr, "error_attr", "__error__")
  }

  const MERGE_SYSTEM_FIELDS: set<string> := {
    EXEC, "__universe_rules__", "__domain_result__", AUDIT_CHAIN, AUDIT_TRACE, PROVENANCE}

  /** Branch `r` left field `k` with a value that differs from the initial one. */
  predicate Changes(st: State, r: State, k: string) {
    k in r.data && !(k in st.data && SameValue(st.data[k], r.data[k]))
  }

  /** The last branch to change `k`, if any. */
  function LastWriter(st: State, results: seq<State>, k: string): (w: Option<nat>)
    ensures w.Some? ==> w.value < |results| && Changes(st, results[w.value], k)
  {
    if results == [] then None
    else if Changes(st, results[|results| - 1], k) then Some(|results| - 1)
    else LastWriter(st, results[..|results| - 1], k)
  }

  function AllKeys(results: seq<State>): set<string> {
    if results == [] then {} else results[0].data.Keys + AllKeys(results[1..])
  }

  function ChangedKeys(st: State, results: seq<State>): set<string> {
    set k | k in AllKeys(results) && k !in MERGE_SYSTEM_FIELDS && LastWriter(st, results, k).Some?
  }

  function ProvenanceOf(branch: nat, total: nat): Value {
    Object(map["branch" := Integer(AsI64(branch)), "total_branches" := Integer(AsI64(total))])
  }

  /** The force merge: each changed field from its last writer, and where it came from. */
  function ForceMerge(st: State, results: seq<State>): State {
    var changed := ChangedKeys(st, results);
    var values := map k | k in changed :: results[LastWriter(st, results, k).value].data[k];
    if changed == {} then st
    else
      var sources := map k | k in changed :: ProvenanceOf(LastWriter(st, results, k).value, |results|);
      State((st.data + values)[PROVENANCE := Object(sources)], st.version + |changed| + 1)
  }
}
