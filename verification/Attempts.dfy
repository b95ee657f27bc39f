/** Try-catch as a whole: what it does where the attempt succeeds, and what the handler sees. */
module Attempts {
  import opened Values
  import opened Store
  import opened References
  import opened Control
  import opened Machine
  import opened Engine
  import opened Messages
  import opened Programs
  import opened Aliases
  import opened Expansions
  import ExecContext

  /** A try-catch primitive with a well-formed attempt, within the limits. */
  ghost predicate Tries(reg: Registry, st: State, instr: Instruction, attempt: Instruction, c: Ctl) {
    instr.kind in reg && reg[instr.kind].TryCatch? && instr.Param("try").Some? &&
    ParseInstruction(ResolvePath(st, instr.params["try"])) == Ok(attempt) && c.Refusal().None?
  }

  /** Where the attempt succeeds, try-catch is the attempt, one level down: it ends in the very
      state in which the attempt ends, after one more entry, whatever handler and place for
      errors it has. */
  lemma SuccessIsTheAttempt(env: Env, reg: Registry, st: State, instr: Instruction, attempt: Instruction, c: Ctl)
    requires Tries(reg, st, instr, attempt, c) && Execute(env, reg, st, attempt, c.Entered()).out.Done?
    ensures var r := Execute(env, reg, st, attempt, c.Entered());
            Execute(env, reg, st, instr, c) == Run(r.out, r.ctl.(depth := c.depth))
  {
    hide Execute, ResolvePath, ParseInstruction, SetPath, ErrorAttr, RunCatch;
    ExecuteRegistered(env, reg, st, instr, c);
  }

  /** The instruction of a `state_set` that is attempted. */
  function Assignment(name: string, v: Value): Value {
    Object(map["type" := Str("state_set"), "params" := Object(map["attr" := Str(name), "value" := v])])
  }

  lemma AssignmentRuns(env: Env, reg: Registry, st: State, name: string, v: Value, c: Ctl)
    requires "state_set" in reg && reg["state_set"] == Leaf(StateSet) && c.Refusal().None?
    requires SplitPath(name) == [name] && name != EXEC && name != AUDIT_CHAIN && v.GetStr(REF) == None
    ensures Execute(env, reg, st, SetInstruction(name, v), c) == Run(Done(st.Set(name, v)), c.Entered().Exited())
    ensures GetPath(st.Set(name, v), name) == Some(v) && Business(st.Set(name, v)) == Business(st)[name := v]
  {
    hide Execute, StateSet, SplitPath;
    ExecuteRegistered(env, reg, st, SetInstruction(name, v), c);
    AssignmentIsDone(st, name, v);
    NameIsNotEmpty(name);
    NameReadsBack(st, name, v);
  }

  /** What an attempt writes is read back after the try-catch. */
  lemma AttemptedIsReadBack(env: Env, reg: Registry, st: State, instr: Instruction, name: string, v: Value, c: Ctl)
    requires instr.kind in reg && reg[instr.kind].TryCatch? && c.Refusal().None? && c.Entered().Refusal().None?
    requires "state_set" in reg && reg["state_set"] == Leaf(StateSet)
    requires instr.Param("try") == Some(Assignment(name, v)) && v.GetStr(REF) == None
    requires SplitPath(name) == [name] && name != EXEC && name != AUDIT_CHAIN
    ensures var r := Execute(env, reg, st, instr, c);
            r.out.Done? && GetPath(r.out.st, name) == Some(v) && Business(r.out.st) == Business(st)[name := v] &&
            r.ctl == c.(count := c.count + 2)
  {
    hide Execute, StateSet, SplitPath, Business;
    AssignmentParses(st, name, v);
    AssignmentRuns(env, reg, st, name, v, c.Entered());
    SuccessIsTheAttempt(env, reg, st, instr, SetInstruction(name, v), c);
  }

  lemma AssignmentParses(st: State, name: string, v: Value)
    ensures ParseInstruction(ResolvePath(st, Assignment(name, v))) == Ok(SetInstruction(name, v))
  {
    assert Assignment(name, v).GetStr(REF) == None;
    SetInstructionParses(name, v);
  }

  lemma NameIsNotEmpty(name: string)
    requires SplitPath(name) == [name]
    ensures name != ""
  {
    assert SplitPath("") == [];
  }

  lemma ErrorIsNoted(env: Env, reg: Registry, st: State, instr: Instruction, attempt: Instruction, noted: State, c: Ctl)
    requires Tries(reg, st, instr, attempt, c) && Execute(env, reg, st, attempt, c.Entered()).out.Failed?
    requires var a := Execute(env, reg, st, attempt, c.Entered());
             SetPath(st, ErrorAttr(st, instr), Str(env.errorText(a.out.error))) == Ok(noted)
    ensures var a := Execute(env, reg, st, attempt, c.Entered());
            var r := RunCatch(env, reg, st, noted, instr, a.ctl);
            Execute(env, reg, st, instr, c) == Run(r.out, r.ctl.(depth := c.depth))
  {
    hide Execute, ResolvePath, ParseInstruction, SetPath, ErrorAttr, RunCatch;
    ExecuteRegistered(env, reg, st, instr, c);
  }

  lemma RescueRuns(env: Env, reg: Registry, st: State, noted: State, instr: Instruction, c: Ctl)
    ensures instr.Param("catch") == None ==> RunCatch(env, reg, st, noted, instr, c) == Run(Done(noted), c)
    ensures match instr.Param("catch")
            case Some(v) =>
              (match ParseInstruction(ResolvePath(st, v))
               case Ok(rescue) =>
                 var r := Execute(env, reg, noted, rescue, c);
                 RunCatch(env, reg, st, noted, instr, c) == Run(if r.out.Failed? then Done(noted) else r.out, r.ctl)
               case Err(_) => true)
            case None => true
  {
    hide Execute, ResolvePath, ParseInstruction;
  }

  /** Where the attempt fails, the handler is executed on the initial state with nothing but the
      message added, and where it succeeds its result is that of the try-catch. */
  lemma HandlerSeesMessage(env: Env, reg: Registry, st: State, instr: Instruction, attempt: Instruction,
                           rescue: Instruction, name: string, c: Ctl)
    requires Tries(reg, st, instr, attempt, c) && Execute(env, reg, st, attempt, c.Entered()).out.Failed?
    requires instr.Param("catch").Some? && ParseInstruction(ResolvePath(st, instr.params["catch"])) == Ok(rescue)
    requires NamesErrors(instr, name) && SplitPath(name) == [name]
    ensures var a := Execute(env, reg, st, attempt, c.Entered());
            var noted := st.Set(name, Str(env.errorText(a.out.error)));
            var r := Execute(env, reg, noted, rescue, a.ctl);
            Execute(env, reg, st, instr, c) ==
              Run(if r.out.Failed? then Done(noted) else r.out, r.ctl.(depth := c.depth))
  {
    hide Execute, ResolvePath, ParseInstruction, SetPath, ErrorAttr, SplitPath, RunCatch, Tries;
    ErrorsAreNamed(st, instr, name);
    var a := Execute(env, reg, st, attempt, c.Entered());
    var noted := st.Set(name, Str(env.errorText(a.out.error)));
    PlainNameIsSet(st, name, Str(env.errorText(a.out.error)));
    ErrorIsNoted(env, reg, st, instr, attempt, noted, c);
    RescueRuns(env, reg, st, noted, instr, a.ctl);
  }

  /** Messages go to `name`: it is written out under "error_attr", or is the usual place where
      nothing is. */
  predicate NamesErrors(instr: Instruction, name: string) {
    match instr.Param("error_attr") case Some(v) => v == Str(name) case None => name == "__error__"
  }

  lemma ErrorsAreNamed(st: State, instr: Instruction, name: string)
    requires NamesErrors(instr, name)
    ensures ErrorAttr(st, instr) == name
  {
  }

  /** Without a handler the state with the message is the result. */
  lemma MessageIsReadBack(env: Env, reg: Registry, st: State, instr: Instruction, attempt: Instruction, name: string,
                          c: Ctl)
    requires Tries(reg, st, instr, attempt, c) && Execute(env, reg, st, attempt, c.Entered()).out.Failed?
    requires instr.Param("catch") == None && NamesErrors(instr, name) && SplitPath(name) == [name]
    ensures var a := Execute(env, reg, st, attempt, c.Entered());
            var r := Execute(env, reg, st, instr, c);
            r == Run(Done(st.Set(name, Str(env.errorText(a.out.error)))), a.ctl.(depth := c.depth)) &&
            GetPath(r.out.st, name) == Some(Str(env.errorText(a.out.error)))
  {
    hide Execute, ResolvePath, ParseInstruction, SetPath, ErrorAttr, SplitPath, RunCatch, Tries;
    ErrorsAreNamed(st, instr, name);
    var a := Execute(env, reg, st, attempt, c.Entered());
    var noted := st.Set(name, Str(env.errorText(a.out.error)));
    PlainNameIsSet(st, name, Str(env.errorText(a.out.error)));
    ErrorIsNoted(env, reg, st, instr, attempt, noted, c);
    RescueRuns(env, reg, st, noted, instr, a.ctl);
    NameIsNotEmpty(name);
    NameReadsBack(st, name, Str(env.errorText(a.out.error)));
  }

  /** Without an attempt, or with one that is no instruction, nothing is executed and the call
      fails. */
  lemma NoAttemptFails(env: Env, reg: Registry, st: State, instr: Instruction, c: Ctl)
    requires instr.kind in reg && reg[instr.kind].TryCatch? && c.Refusal().None?
    ensures instr.Param("try") == None ==>
              Execute(env, reg, st, instr, c) ==
              Run(Failed(MissingParam("execute_try_catch", "try")), c.(count := c.count + 1))
    ensures instr.Param("try").Some? && ParseInstruction(ResolvePath(st, instr.params["try"])).Err? ==>
              Execute(env, reg, st, instr, c) ==
              Run(Failed(ParseInstruction(ResolvePath(st, instr.params["try"])).error), c.(count := c.count + 1))
  {
    hide Execute, ResolvePath, ParseInstruction;
    ExecuteRegistered(env, reg, st, instr, c);
  }

  /** A handler that is no instruction makes the call fail although the error was caught. */
  lemma MalformedHandlerFails(env: Env, reg: Registry, st: State, instr: Instruction, attempt: Instruction,
                              name: string, c: Ctl)
    requires Tries(reg, st, instr, attempt, c) && Execute(env, reg, st, attempt, c.Entered()).out.Failed?
    requires instr.Param("catch").Some? && ParseInstruction(ResolvePath(st, instr.params["catch"])).Err?
    requires NamesErrors(instr, name) && SplitPath(name) == [name]
    ensures var a := Execute(env, reg, st, attempt, c.Entered());
            Execute(env, reg, st, instr, c) ==
            Run(Failed(ParseInstruction(ResolvePath(st, instr.params["catch"])).error), a.ctl.(depth := c.depth))
  {
    hide Execute, ResolvePath, ParseInstruction, SetPath, ErrorAttr, SplitPath, Tries;
    ErrorsAreNamed(st, instr, name);
    var a := Execute(env, reg, st, attempt, c.Entered());
    var noted := st.Set(name, Str(env.errorText(a.out.error)));
    PlainNameIsSet(st, name, Str(env.errorText(a.out.error)));
    ErrorIsNoted(env, reg, st, instr, attempt, noted, c);
  }
}
