/** What a dispatch does, whatever its key: the case it selects, its default, and what it leaves
    behind. */
module Dispatching {
  import opened Values
  import opened Store
  import opened References
  import opened Control
  import opened Audit
  import opened Machine
  import opened Engine
  import opened Programs
  import opened Aliases
  import opened Attempts
  import opened Expansions
  import ExecContext

  /** The name under which a key selects a case. Floats, byte strings and collections have
      texts that come from outside. */
  function NameOf(env: Env, key: Value): string {
    match key
    case Str(s) => s
    case Bool(true) => "true"
    case Bool(false) => "false"
    case Null => "null"
    case Integer(i) => SignedDecimal(i)
    case _ => env.keyText(key)
  }

  /** Cases and default come with the instruction if it has cases of its own, though they be
      none, and from the engine's table otherwise. */
  predicate Offers(st: State, instr: Instruction, cases: Fields, default: Option<Value>) {
    if "cases" in instr.params then instr.params["cases"] == Object(cases) && default == instr.Param("default")
    else
      default == ExecField(st, "dispatch_default") &&
      match ExecField(st, "dispatch_cases") case Some(v) => v == Object(cases) case None => cases == map[]
  }

  /** What a dispatch leaves of the state its case ended in: the hashes of the business fields
      before and after it are noted with its name, and while the engine runs one advance is
      queued; nothing else differs. */
  ghost predicate Noted(env: Env, before: State, after: State, tag: string, next: State) {
    var system := {EXEC, AUDIT_CHAIN, AUDIT_TRACE, PROVENANCE};
    var hashes := Object(map[
      "before_hash" := Str(ContentHash(env.digests, [Object(before.data - system)])),
      "after_hash" := Str(ContentHash(env.digests, [Object(after.data - system)])),
      "case_key" := Str(tag)]);
    var exec := ExecOf(after);
    var waiting := if exec.queue.List? then exec.queue.items else [];
    var advance := Object(map["type" := Str("advance_instruction"), "params" := Object(map[])]);
    next.data - {EXEC} == after.data - {EXEC} &&
    ExecOf(next) == exec.(dispatchHashes := hashes,
                          queue := if exec.running then List(waiting + [advance]) else exec.queue)
  }

  /** The dispatch executes `body`, its references resolved, one level down; if that succeeds it
      leaves the state noted under `tag`. */
  ghost predicate RunsCase(env: Env, reg: Registry, st: State, instr: Instruction, body: Value, tag: string, c: Ctl) {
    var q := Execute(env, reg, st, instr, c);
    match ParseInstruction(ResolveRefs(st, body))
    case Err(e) => q == Run(Failed(e), c.(count := c.count + 1))
    case Ok(i) =>
      var r := Execute(env, reg, st, i, c.Entered());
      q.ctl == r.ctl.(depth := c.depth) &&
      match r.out case Done(s) => q.out.Done? && Noted(env, st, s, tag, q.out.st) case _ => q.out == r.out
  }

  lemma CaseIsNoted(env: Env, before: State, after: State, tag: string)
    ensures Noted(env, before, after, tag, FinishDispatch(env, before, after, tag))
  {
    hide ExecContext.Parse, ExecContext.ToValue, ContentHash;
    var hashes := Object(map[
      "before_hash" := Str(StateHash(env, before)),
      "after_hash" := Str(StateHash(env, after)),
      "case_key" := Str(tag)]);
    var exec := ExecOf(after);
    var noted := SetHashes(after, hashes);
    ExecIsPut(after, exec.(dispatchHashes := hashes));
    ExecIsPut(noted, ExecOf(noted).(queue := List(QueueOf(ExecOf(noted)) + [AdvanceInQueue])));
  }

  lemma ExecIsPut(st: State, x: ExecContext.Context)
    ensures ExecOf(PutExec(st, x)) == x && PutExec(st, x).data - {EXEC} == st.data - {EXEC}
  {
    hide ExecContext.Parse, ExecContext.ToValue;
    ExecContext.RoundTrip(x);
  }

  lemma KeySelects(env: Env, st: State, instr: Instruction, cases: Fields, default: Option<Value>)
    requires instr.Param("key").Some? && Offers(st, instr, cases, default)
    ensures var name := NameOf(env, ResolvePath(st, instr.params["key"]));
            PlanDispatch(env, st, instr) ==
            if name in cases then PlanCase(st, cases[name], name)
            else match default case Some(body) => PlanCase(st, body, "default:" + name) case None => Skip
  {
    hide ResolvePath, PlanCase, SignedDecimal, ExecField;
  }

  /** A dispatch runs the case that its key names, or else its default, or else does nothing. */
  lemma DispatchRunsNamedCase(env: Env, reg: Registry, st: State, instr: Instruction, cases: Fields,
                              default: Option<Value>, c: Ctl)
    requires instr.kind in reg && reg[instr.kind].Dispatch? && c.Refusal().None?
    requires instr.Param("key").Some? && Offers(st, instr, cases, default)
    ensures var name := NameOf(env, ResolvePath(st, instr.params["key"]));
            if name in cases then RunsCase(env, reg, st, instr, cases[name], name, c)
            else if default.Some? then RunsCase(env, reg, st, instr, default.value, "default:" + name, c)
            else Execute(env, reg, st, instr, c) == Run(Done(st), c.(count := c.count + 1))
  {
    hide Execute, PlanDispatch, ResolvePath, NameOf, RunsCase, Offers, PlanCase;
    KeySelects(env, st, instr, cases, default);
    var name := NameOf(env, ResolvePath(st, instr.params["key"]));
    if name in cases {
      PlannedCaseRuns(env, reg, st, instr, cases[name], name, c);
    } else if default.Some? {
      PlannedCaseRuns(env, reg, st, instr, default.value, "default:" + name, c);
    } else {
      ExecuteRegistered(env, reg, st, instr, c);
    }
  }

  lemma PlannedCaseRuns(env: Env, reg: Registry, st: State, instr: Instruction, body: Value, tag: string, c: Ctl)
    requires instr.kind in reg && reg[instr.kind].Dispatch? && c.Refusal().None?
    requires PlanDispatch(env, st, instr) == PlanCase(st, body, tag)
    ensures RunsCase(env, reg, st, instr, body, tag, c)
  {
    hide Execute, PlanDispatch, ResolveRefs, ParseInstruction, FinishDispatch, Noted;
    ExecuteRegistered(env, reg, st, instr, c);
    match ParseInstruction(ResolveRefs(st, body))
    case Ok(i) =>
      var r := Execute(env, reg, st, i, c.Entered());
      if r.out.Done? { CaseIsNoted(env, st, r.out.st, tag); }
    case Err(_) =>
  }

  /** Without a key, or with cases that are no table, nothing is dispatched. */
  lemma NothingToDispatch(env: Env, reg: Registry, st: State, instr: Instruction, c: Ctl)
    requires instr.kind in reg && reg[instr.kind].Dispatch? && c.Refusal().None?
    requires instr.Param("key") == None || ("cases" in instr.params && !instr.params["cases"].Object?)
    ensures Execute(env, reg, st, instr, c) == Run(Done(st), c.(count := c.count + 1))
  {
    hide Execute, ResolvePath, PlanCase;
    ExecuteRegistered(env, reg, st, instr, c);
  }

  // ------------------------------------------------------------------------
  // A flag as the key
  // ------------------------------------------------------------------------

  function OnFlag(flag: string, name: string, v: Value, w: Value): Instruction {
    Instruction("dispatch",
                map["key" := Object(map[REF := Str(flag)]),
                    "cases" := Object(map["true" := Assignment(name, v), "false" := Assignment(name, w)])],
                EmptyObject)
  }

  /** A dispatch on a Boolean field assigns what the case of that name says. */
  lemma FlagSelects(env: Env, reg: Registry, st: State, flag: string, b: bool, name: string, v: Value, w: Value, c: Ctl)
    requires "dispatch" in reg && reg["dispatch"].Dispatch? && "state_set" in reg && reg["state_set"] == Leaf(StateSet)
    requires c.Refusal().None? && c.Entered().Refusal().None?
    requires flag != "" && GetPath(st, flag) == Some(Bool(b))
    requires SplitPath(name) == [name] && name != EXEC && name != AUDIT_CHAIN
    requires Resolved(v, 2) && Resolved(w, 2) && v.GetStr(REF) == None && w.GetStr(REF) == None
    ensures var out := Execute(env, reg, st, OnFlag(flag, name, v, w), c).out;
            out.Done? && GetPath(out.st, name) == Some(if b then v else w)
  {
    hide Execute, StateSet, SplitPath, Resolved, Noted, ParseInstruction, ResolveRefs, Business, ExecOf;
    var instr, text := OnFlag(flag, name, v, w), if b then "true" else "false";
    var cases := map["true" := Assignment(name, v), "false" := Assignment(name, w)];
    assert instr.params["key"].GetStr(REF) == Some(flag);
    DispatchRunsNamedCase(env, reg, st, instr, cases, None, c);
    var x := if b then v else w;
    assert cases[text] == Assignment(name, x);
    AssignmentResolves(st, name, x);
    AssignmentRuns(env, reg, st, name, x, c.Entered());
    var out := Execute(env, reg, st, instr, c).out;
    NotedReadsAlike(env, st, st.Set(name, x), text, out.st, name);
  }

  lemma AssignmentResolves(st: State, name: string, v: Value)
    requires Resolved(v, 2)
    ensures ParseInstruction(ResolveRefs(st, Assignment(name, v))) == Ok(SetInstruction(name, v))
  {
    hide ParseInstruction, ResolveAt, Resolved;
    TwoFieldsResolve(st, "attr", Str(name), "value", v, 1);
    TextResolves(st, name, 2);
    NormalFormsAreFixed(st, v, 2);
    TwoFieldsResolve(st, "type", Str("state_set"),
      "params", Object(map["attr" := Str(name), "value" := v]), 0);
    TextResolves(st, "state_set", 1);
    SetInstructionParses(name, v);
  }

  lemma NotedReadsAlike(env: Env, before: State, after: State, tag: string, next: State, name: string)
    requires Noted(env, before, after, tag, next) && SplitPath(name) == [name] && name != EXEC
    ensures GetPath(next, name) == GetPath(after, name)
  {
    hide SplitPath, ExecOf, ContentHash;
    NameIsNotEmpty(name);
    assert name in next.data <==> name in next.data - {EXEC};
    assert name in after.data <==> name in after.data - {EXEC};
  }
}
