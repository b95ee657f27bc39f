/** The usual aliases as cases of a self-driving loop, and the usual loop: they meet the
    hypotheses of the results on whole runs. */
module Aliases {
  import opened Values
  import opened Store
  import opened References
  import opened Control
  import opened Machine
  import opened Engine
  import opened Steps
  import opened QueueMachine
  import opened Loops
  import opened Drains
  import opened Fifo
  import opened Programs
  import ExecContext

  // ------------------------------------------------------------------------
  // Parameters taken from the instruction that is dispatched
  // ------------------------------------------------------------------------

  lemma ParamIsRead(st: State, field: string, v: Value)
    requires PlainSegment(field)
    requires var b := ExecOf(st).instruction; b.Get("params").Some? && b.Get("params").value.Get(field) == Some(v)
    ensures ResolvePath(st, ParamRef(field)) == v
  {
    hide SplitPath;
    SplitParams(field);
    var b := ExecOf(st).instruction;
    var exec := st.Get(EXEC).value;
    assert exec.Get("instruction") == Some(b);
    var parts := ["__exec__", "instruction", "params", field];
    WalkField(b.Get("params").value, [field], v);
    WalkField(b, ["params", field], b.Get("params").value);
    WalkField(exec, ["instruction", "params", field], b);
    WalkField(st.ToValue(), parts, exec);
    assert Walk(v, []) == Some(v);
    assert parts[1..] == ["instruction", "params", field] && parts[1..][1..] == ["params", field];
    assert parts[1..][1..][1..] == [field] && [field][1..] == [];
  }

  lemma WalkField(v: Value, parts: seq<string>, w: Value)
    requires parts != [] && v.Get(parts[0]) == Some(w)
    ensures Walk(v, parts) == Walk(w, parts[1..])
  {
  }

  /** A parameter that holds no references is taken as it is. */
  lemma ParamResolves(st: State, field: string, v: Value, depth: nat)
    requires PlainSegment(field) && depth < MAX_REF_DEPTH && Resolved(v, depth + 1)
    requires var b := ExecOf(st).instruction; b.Get("params").Some? && b.Get("params").value.Get(field) == Some(v)
    ensures ResolveAt(st, ParamRef(field), depth) == v
  {
    hide ResolvePath, Resolved;
    ParamIsRead(st, field, v);
    assert IsRef(ParamRef(field));
    NormalFormsAreFixed(st, v, depth + 1);
  }

  lemma TextResolves(st: State, s: string, depth: nat)
    requires depth <= MAX_REF_DEPTH
    ensures ResolveAt(st, Str(s), depth) == Str(s)
  {
  }

  lemma TwoFieldsResolve(st: State, a: string, x: Value, b: string, y: Value, depth: nat)
    requires a != b && depth <= MAX_REF_DEPTH
    ensures ResolveAt(st, Object(map[a := x, b := y]), depth)
         == Object(map[a := ResolveAt(st, x, depth + 1), b := ResolveAt(st, y, depth + 1)])
  {
    var m := map[a := x, b := y];
    assert m.Keys == {a, b} && |m| == |m.Keys| == 2;
    assert !IsRef(Object(m)) && !IsPass(Object(m));
  }

  lemma OneFieldResolves(st: State, a: string, x: Value, depth: nat)
    requires a != REF && a != PASS && depth <= MAX_REF_DEPTH
    ensures ResolveAt(st, Object(map[a := x]), depth) == Object(map[a := ResolveAt(st, x, depth + 1)])
  {
    var m := map[a := x];
    assert REF !in m && PASS !in m;
  }

  // ------------------------------------------------------------------------
  // Assignments
  // ------------------------------------------------------------------------

  /** A plain name outside the engine's own two fields, and a value without references. */
  ghost predicate Assigns(b: Value, name: string, v: Value) {
    b.Get("params").Some? && b.Get("params").value.Get("attr") == Some(Str(name)) &&
    b.Get("params").value.Get("value") == Some(v) && Resolved(v, 3) && v.GetStr(REF) == None &&
    SplitPath(name) == [name] && name != EXEC && name != AUDIT_CHAIN
  }

  /** What dispatching an assignment does. */
  ghost function Assigned(b: Value, fields: Fields): Option<Deed> {
    match b.Get("params")
    case Some(p) =>
      (match (p.Get("attr"), p.Get("value"))
       case (Some(Str(name)), Some(v)) => if Assigns(b, name, v) then Some(Deed(fields[name := v], [])) else None
       case _ => None)
    case None => None
  }

  function SetInstruction(name: string, v: Value): Instruction {
    Instruction("state_set", map["attr" := Str(name), "value" := v], EmptyObject)
  }

  lemma SetCaseParses(st: State, name: string, v: Value, t: string)
    requires Assigns(ExecOf(st).instruction, name, v)
    ensures PlanCase(st, SetCase, t) == RunCase(SetInstruction(name, v), t)
  {
    hide ExecOf, ParamRef, SplitPath, ResolveAt, ParseInstruction;
    ParamResolves(st, "attr", Str(name), 2);
    ParamResolves(st, "value", v, 2);
    var params := Object(map["attr" := ParamRef("attr"), "value" := ParamRef("value")]);
    TwoFieldsResolve(st, "attr", ParamRef("attr"), "value", ParamRef("value"), 1);
    TwoFieldsResolve(st, "type", Str("state_set"), "params", params, 0);
    TextResolves(st, "state_set", 1);
    SetInstructionParses(name, v);
  }

  lemma SetInstructionParses(name: string, v: Value)
    ensures ParseInstruction(Object(map["type" := Str("state_set"),
            "params" := Object(map["attr" := Str(name), "value" := v])]))
         == Ok(SetInstruction(name, v))
  {
  }

  lemma AssignmentIsDone(st: State, name: string, v: Value)
    requires v.GetStr(REF) == None && SplitPath(name) == [name] && name != EXEC && name != AUDIT_CHAIN
    ensures StateSet(st, SetInstruction(name, v)) == Ok(st.Set(name, v))
    ensures st.Set(name, v).Get(EXEC) == st.Get(EXEC) && st.Set(name, v).Get(AUDIT_CHAIN) == st.Get(AUDIT_CHAIN)
    ensures Business(st.Set(name, v)) == Business(st)[name := v]
  {
    hide SplitPath;
    assert ResolvePath(st, Str(name)) == Str(name) && ResolvePath(st, v) == v;
    assert Business(st.Set(name, v)) == Business(st)[name := v];
  }

  /** In any loop over the `set` alias each dispatch assigns what its instruction names. */
  lemma SetCaseDoes(p: Program, t: string, b: Value)
    requires "state_set" in p.reg && p.reg["state_set"] == Leaf(StateSet) && p.levels > 0 && p.work > 0
    requires forall fields | p.eff(b, fields).Some? :: p.eff(b, fields) == Assigned(b, fields)
    ensures CaseDoes(p, SetCase, t, b)
  {
    hide ExecOf, StateSet, PlanCase, SameConfig, Business, SplitPath;
    forall st | SameConfig(p.x, ExecOf(st)) && ExecOf(st).instruction == b && p.eff(b, Business(st)).Some?
      ensures LeafDoes(p, st, PlanCase(st, SetCase, t), p.eff(b, Business(st)).value)
    {
      var q := b.Get("params").value;
      var name, v := q.Get("attr").value.s, q.Get("value").value;
      assert Assigns(b, name, v);
      SetCaseParses(st, name, v, t);
      AssignmentIsDone(st, name, v);
    }
    LeafCaseDoes(p, SetCase, t, b);
  }

  // ------------------------------------------------------------------------
  // Sequences
  // ------------------------------------------------------------------------

  /** The case of the usual `sequence` alias, which enqueues the list in its instruction. */
  const SequenceCase: Value :=
    Object(map["type" := Str("push_instruction_sequence"),
      "params" := Object(map["instructions" := ParamRef("subtransforms")])])

  /** Nothing stands against queueing `v` under the table of `x`. */
  predicate Known(reg: Registry, x: ExecContext.Context, v: Value) {
    match (x.dispatchCases, v.GetStr("type"))
    case (Object(cases), Some(t)) => t in reg || t in cases
    case _ => true
  }

  /** A list of known instructions without references. */
  ghost predicate Sequences(reg: Registry, x: ExecContext.Context, b: Value, items: seq<Value>) {
    b.Get("params").Some? && b.Get("params").value.Get("subtransforms") == Some(List(items)) &&
    Resolved(List(items), 3) && forall i | 0 <= i < |items| :: Known(reg, x, items[i])
  }

  /** What dispatching a sequence does. */
  ghost function Sequenced(reg: Registry, x: ExecContext.Context, b: Value, fields: Fields): Option<Deed> {
    match b.Get("params")
    case Some(p) =>
      (match p.Get("subtransforms")
       case Some(List(items)) => if Sequences(reg, x, b, items) then Some(Deed(fields, items)) else None
       case _ => None)
    case None => None
  }

  function SequenceInstruction(items: seq<Value>): Instruction {
    Instruction("push_instruction_sequence", map["instructions" := List(items)], EmptyObject)
  }

  lemma SequenceCaseParses(reg: Registry, x: ExecContext.Context, st: State, items: seq<Value>, t: string)
    requires Sequences(reg, x, ExecOf(st).instruction, items)
    ensures PlanCase(st, SequenceCase, t) == RunCase(SequenceInstruction(items), t)
  {
    hide ExecOf, ParamRef, SplitPath, ResolveAt, ParseInstruction, Resolved;
    SubtransformsIsPlain();
    ParamResolves(st, "subtransforms", List(items), 2);
    var params := Object(map["instructions" := ParamRef("subtransforms")]);
    OneFieldResolves(st, "instructions", ParamRef("subtransforms"), 1);
    TwoFieldsResolve(st, "type", Str("push_instruction_sequence"), "params", params, 0);
    TextResolves(st, "push_instruction_sequence", 1);
    SequenceInstructionParses(items);
  }

  lemma SubtransformsIsPlain()
    ensures PlainSegment("subtransforms") && "instructions" != REF && "instructions" != PASS
  {
  }

  lemma SequenceInstructionParses(items: seq<Value>)
    ensures ParseInstruction(Object(map["type" := Str("push_instruction_sequence"),
            "params" := Object(map["instructions" := List(items)])]))
         == Ok(SequenceInstruction(items))
  {
  }

  lemma KnownIsDispatchable(reg: Registry, st: State, x: ExecContext.Context, v: Value)
    requires SameConfig(x, ExecOf(st)) && Known(reg, x, v)
    ensures Dispatchable(reg, st, v)
  {
    CasesAreParsed(st);
    hide ExecOf;
  }

  lemma CasesAreParsed(st: State)
    ensures ExecField(st, "dispatch_cases").Some? ==> ExecField(st, "dispatch_cases").value == ExecOf(st).dispatchCases
  {
  }

  lemma KnownSequenceIsPushed(reg: Registry, st: State, x: ExecContext.Context, queue: seq<Value>, items: seq<Value>)
    requires SameConfig(x, ExecOf(st)) && ExecOf(st).queue == List(queue)
    requires forall i | 0 <= i < |items| :: Known(reg, x, items[i])
    ensures PushSequence(reg, st, SequenceInstruction(items)) == Ok(SetQueue(st, queue + items))
  {
    hide ExecOf, SetQueue, Dispatchable, Known, SameConfig;
    forall i | 0 <= i < |items| ensures Dispatchable(reg, st, items[i]) {
      KnownIsDispatchable(reg, st, x, items[i]);
    }
  }

  lemma SequenceIsQueued(p: Program, st: State, c: Ctl, b: Value, queue: seq<Value>, items: seq<Value>)
    requires Stands(st, p.x, b, queue) && Sequences(p.reg, p.x, b, items)
    requires "push_instruction_sequence" in p.reg && p.reg["push_instruction_sequence"].PushInstructionSequence?
    requires Room(c, 1, 1) && p.work > 0
    ensures Performs(p, st, c, Execute(p.env, p.reg, st, SequenceInstruction(items), c), b, queue,
                     Deed(Business(st), items))
  {
    hide Execute, ExecOf, Business, PutExec, PairsIn, Resolved, Known, SameConfig, PushSequence;
    PutExecEffect(st, ExecOf(st).(queue := List(queue + items)));
    KnownSequenceIsPushed(p.reg, st, p.x, queue, items);
    ExecuteRegistered(p.env, p.reg, st, SequenceInstruction(items), c);
    StandsWithQueue(st, p.x, b, queue, queue + items);
  }

  lemma StandsWithQueue(st: State, x: ExecContext.Context, b: Value, queue: seq<Value>, more: seq<Value>)
    requires Stands(st, x, b, queue)
    ensures Stands(SetQueue(st, more), x, b, more)
  {
    hide ExecOf, PutExec;
    PutExecEffect(st, ExecOf(st).(queue := List(more)));
  }

  /** In any loop over the `sequence` alias each dispatch enqueues the list in its instruction:
      an effect to which the results on enqueuing cases apply. */
  lemma SequenceCaseDoes(p: Program, t: string, b: Value)
    requires "push_instruction_sequence" in p.reg && p.reg["push_instruction_sequence"].PushInstructionSequence?
    requires p.levels > 0 && p.work > 0
    requires forall fields | p.eff(b, fields).Some? :: p.eff(b, fields) == Sequenced(p.reg, p.x, b, fields)
    ensures CaseDoes(p, SequenceCase, t, b)
  {
    hide ExecOf, PlanCase, SameConfig, Business, Execute, Performs, Resolved, Known;
    forall st, c, queue | Stands(st, p.x, b, queue) && Room(c, p.levels, p.work) && p.eff(b, Business(st)).Some?
      ensures PlanCase(st, SequenceCase, t).RunCase?
      ensures Performs(p, st, c, Execute(p.env, p.reg, st, PlanCase(st, SequenceCase, t).instr, c), b, queue,
                p.eff(b, Business(st)).value)
    {
      var items := b.Get("params").value.Get("subtransforms").value.items;
      assert Sequences(p.reg, p.x, b, items);
      SequenceCaseParses(p.reg, p.x, st, items, t);
      SequenceIsQueued(p, st, c, b, queue, items);
    }
  }

  // ------------------------------------------------------------------------
  // The usual loop
  // ------------------------------------------------------------------------

  const MATCHED := "__matched_case__"

  const UsualLead: Value :=
    Object(map["type" := Str("state_set"), "params" := Object(map["attr" := Str(MATCHED), "value" := CURRENT_TYPE])])

  const UsualDispatch: Value :=
    Object(map["type" := Str("dispatch"), "params" := Object(map["key" := CURRENT_TYPE])])

  const UsualTrace: Value :=
    Object(map["type" := Str("trace_step"), "params" := Object(map["record_hash" := Bool(true)])])

  const UsualLoop: Instruction :=
    Instruction("while_loop",
                map["condition" := STILL_RUNNING, "max_steps" := Integer(10000),
                    "body" := List([UsualLead, UsualDispatch, UsualTrace])],
                EmptyObject)

  lemma UsualStepsParse()
    ensures ParseInstruction(UsualLead)
         == Ok(Instruction("state_set", map["attr" := Str(MATCHED), "value" := CURRENT_TYPE], EmptyObject))
    ensures ParseInstruction(UsualDispatch) == Ok(Instruction("dispatch", map["key" := CURRENT_TYPE], EmptyObject))
    ensures ParseInstruction(UsualTrace)
         == Ok(Instruction("trace_step", map["record_hash" := Bool(true)], EmptyObject))
  {
  }

  /** The main loop as documented is self-driving: it notes the current type, dispatches on it
      under the engine's table and takes a trace step. */
  lemma UsualLoopIsSelfDriving(p: Program, st: State)
    requires Standard(p.reg) && StopsWhenIdle(p.env, p.x) && p.x == ExecOf(st) && p.cfg == LoadLoop(st, UsualLoop)
    requires p.lead == [UsualLead] && p.dispatch == UsualDispatch && p.traces == [UsualTrace]
    requires p.x.dispatchCases == Object(p.cases)
    ensures SelfDriving(p) && p.cfg.maxSteps == 10000
  {
    hide ParseInstruction, ExecOf, StopsWhenIdle, MetaTypes;
    UsualStepsParse();
  }

  lemma MatchedIsPlain()
    ensures SplitPath(MATCHED) == [MATCHED] && MATCHED != EXEC && MATCHED != AUDIT_CHAIN
  {
    SplitFromPlain(MATCHED, "", "");
    assert MATCHED + "" == MATCHED && "" + MATCHED == MATCHED;
  }

  lemma MatchedIsSet(st: State, t: string)
    requires ExecOf(st).instruction.GetStr("type") == Some(t)
    ensures StateSet(st, Instruction("state_set", map["attr" := Str(MATCHED), "value" := CURRENT_TYPE], EmptyObject))
         == Ok(st.Set(MATCHED, Str(t)))
  {
    hide ExecOf, SplitPath;
    CurrentTypeIsRead(st, t);
    MatchedIsPlain();
    assert ResolvePath(st, Str(MATCHED)) == Str(MATCHED);
  }

  lemma MatchedDoes(p: Program, st: State, b: Value, t: string)
    requires "state_set" in p.reg && p.reg["state_set"] == Leaf(StateSet)
    requires ExecOf(st).instruction == b && b.GetStr("type") == Some(t)
    ensures LeafDoes(p, st, RunCase(ParseInstruction(UsualLead).value, ""), Deed(Business(st)[MATCHED := Str(t)], []))
  {
    hide ParseInstruction, ExecOf, StateSet, SplitPath;
    UsualStepsParse();
    MatchedIsPlain();
    MatchedIsSet(st, t);
    assert Business(st.Set(MATCHED, Str(t))) == Business(st)[MATCHED := Str(t)];
  }

  /** Its first step notes the type of the current instruction, and nothing else. */
  lemma UsualLeadDoes(p: Program, b: Value, t: string)
    requires "state_set" in p.reg && p.reg["state_set"] == Leaf(StateSet) && p.levels > 0 && p.work > 0
    requires p.lead == [UsualLead] && b.GetStr("type") == Some(t)
    requires forall fields :: p.before(b, fields) == Some(fields[MATCHED := Str(t)])
    ensures LeadDoes(p, b)
  {
    hide ParseInstruction, ExecOf, StateSet, SameConfig, LeafDoes, LeadDoes, Business;
    UsualStepsParse();
    forall st | Stands(st, p.x, b, QueueOf(ExecOf(st))) && p.before(b, Business(st)).Some?
      ensures LeafDoes(p, st, RunCase(ParseInstruction(UsualLead).value, ""),
                Deed(p.before(b, Business(st)).value, []))
    {
      MatchedDoes(p, st, b, t);
    }
    LeafLeadDoes(p, UsualLead, b);
  }
}
