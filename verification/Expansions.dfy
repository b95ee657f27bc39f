/** What an instruction of an unregistered type does: it runs its case from the engine's table,
    with the parameters of the case as written, or taken from the instruction itself where the
    case refers to them.
 */
module Expansions {
  import opened Values
  import opened Store
  import opened References
  import opened Control
  import opened Audit
  import opened Machine
  import opened Engine
  import opened Steps
  import opened Fallback
  import opened Programs
  import opened Aliases
  import ExecContext

  // ------------------------------------------------------------------------
  // Parameters
  // ------------------------------------------------------------------------

  /** What a parameter of a case stands for when `instr` is executed: a value without references
      for itself, a reference to a parameter of the current instruction for the value that
      `instr` has under that name, and for null if it has none. */
  ghost predicate StandsFor(instr: Instruction, v: Value, w: Value) {
    (Resolved(v, 2) && w == v) ||
    exists field ::
      PlainSegment(field) && v == ParamRef(field) &&
      if field in instr.params then w == instr.params[field] && Resolved(w, 3) else w == Null
  }

  ghost predicate FilledIn(instr: Instruction, ps: Fields, given: Fields) {
    given.Keys == ps.Keys && forall k | k in ps :: StandsFor(instr, ps[k], given[k])
  }

  /** The case of a type, with its own type and parameters written out. */
  function CaseWith(kind: string, ps: Fields): Value {
    Object(map["type" := Str(kind), "params" := Object(ps)])
  }

  lemma CurrentParams(st: State, instr: Instruction)
    requires ExecOf(st).instruction == instr.ToValue()
    ensures st.Get(EXEC).Some? && st.Get(EXEC).value.Get("instruction") == Some(instr.ToValue())
    ensures instr.ToValue().Get("params") == if instr.params == map[] then None else Some(Object(instr.params))
  {
    assert instr.ToValue().Get("type") == Some(Str(instr.kind));
  }

  lemma GivenParamResolves(st: State, instr: Instruction, field: string, depth: nat)
    requires ExecOf(st).instruction == instr.ToValue() && PlainSegment(field) && field in instr.params
    requires depth < MAX_REF_DEPTH && Resolved(instr.params[field], depth + 1)
    ensures ResolveAt(st, ParamRef(field), depth) == instr.params[field]
  {
    hide ExecOf, Resolved, ResolveAt;
    CurrentParams(st, instr);
    ParamResolves(st, field, instr.params[field], depth);
  }

  lemma MissingParamResolves(st: State, instr: Instruction, field: string, depth: nat)
    requires ExecOf(st).instruction == instr.ToValue() && PlainSegment(field) && field !in instr.params
    requires depth < MAX_REF_DEPTH
    ensures ResolveAt(st, ParamRef(field), depth) == Null
  {
    hide ExecOf, SplitPath;
    CurrentParams(st, instr);
    SplitParams(field);
    var parts := ["__exec__", "instruction", "params", field];
    var exec := st.Get(EXEC).value;
    WalkField(st.ToValue(), parts, exec);
    WalkField(exec, parts[1..], instr.ToValue());
    assert parts[1..][1..] == ["params", field];
    if instr.params == map[] {
      assert Walk(instr.ToValue(), ["params", field]) == None;
    } else {
      WalkField(instr.ToValue(), ["params", field], Object(instr.params));
      assert ["params", field][1..] == [field];
      assert Walk(Object(instr.params), [field]) == None;
    }
    assert Walk(st.ToValue(), parts) == None;
    assert ResolvePath(st, ParamRef(field)) == Null;
    assert IsRef(ParamRef(field)) && ResolveAt(st, Null, depth + 1) == Null;
  }

  lemma ParamIsFilledIn(st: State, instr: Instruction, v: Value, w: Value)
    requires ExecOf(st).instruction == instr.ToValue() && StandsFor(instr, v, w)
    ensures ResolveAt(st, v, 2) == w
  {
    hide ExecOf, Resolved, ResolveAt, ParamRef;
    if Resolved(v, 2) && w == v {
      NormalFormsAreFixed(st, v, 2);
    } else {
      var field :| PlainSegment(field) && v == ParamRef(field) &&
        if field in instr.params then w == instr.params[field] && Resolved(w, 3) else w == Null;
      if field in instr.params {
        GivenParamResolves(st, instr, field, 2);
      } else {
        MissingParamResolves(st, instr, field, 2);
      }
    }
  }

  lemma ParamsAreFilledIn(st: State, instr: Instruction, ps: Fields, given: Fields)
    requires ExecOf(st).instruction == instr.ToValue() && FilledIn(instr, ps, given) && REF !in ps && PASS !in ps
    ensures ResolveAt(st, Object(ps), 1) == Object(given)
  {
    hide ExecOf, StandsFor;
    forall k | k in ps ensures ResolveAt(st, ps[k], 2) == given[k] {
      ParamIsFilledIn(st, instr, ps[k], given[k]);
    }
  }

  lemma CaseIsFilledIn(st: State, instr: Instruction, kind: string, ps: Fields, given: Fields)
    requires ExecOf(st).instruction == instr.ToValue() && FilledIn(instr, ps, given) && REF !in ps && PASS !in ps
    ensures ParseInstruction(ResolveRefs(st, CaseWith(kind, ps))) == Ok(Instruction(kind, given, EmptyObject))
  {
    hide ExecOf, FilledIn, ResolveAt, ParseInstruction;
    ParamsAreFilledIn(st, instr, ps, given);
    TwoFieldsResolve(st, "type", Str(kind), "params", Object(ps), 0);
    TextResolves(st, kind, 1);
    CaseParses(kind, given);
  }

  lemma CaseParses(kind: string, params: Fields)
    ensures ParseInstruction(CaseWith(kind, params)) == Ok(Instruction(kind, params, EmptyObject))
  {
  }

  // ------------------------------------------------------------------------
  // Executing an unregistered type
  // ------------------------------------------------------------------------

  /** `s` differs from `st` in that `instr` is current, and in the record of the expansion that
      an audited chain has more. */
  ghost predicate Expanding(env: Env, st: State, instr: Instruction, kind: string, s: State) {
    Business(s) == Business(st) && ExecOf(s) == ExecOf(st).(instruction := instr.ToValue()) && Reworded(st, instr, s) &&
    if ChainOf(st).None? || !ExecOf(st).auditOn then s.Get(AUDIT_CHAIN) == st.Get(AUDIT_CHAIN)
    else
      var records, more := ChainIn(st).records, ChainIn(s).records;
      |more| == |records| + 1 && more[..|records|] == records &&
      Notes(env, st, instr.kind, kind, more[|records|])
  }

  /** Without metadata the engine's record is not rewritten: its other fields stay as they stand,
      present or not. With metadata it takes its full form. */
  ghost predicate Reworded(st: State, instr: Instruction, s: State) {
    if instr.metadata in {Null, Object(map[]), Str(""), List([]), Bytes([])} then
      forall key | key != "instruction" :: ExecField(s, key) == ExecField(st, key)
    else s.Get(EXEC) == Some(ExecContext.ToValue(ExecOf(st).(instruction := instr.ToValue())))
  }

  /** The record names both types, and holds the hash of the business fields twice. */
  ghost predicate Notes(env: Env, st: State, original: string, expanded: string, r: AuditRecord) {
    var hash := ContentHash(env.digests, [Object(st.data - {EXEC, AUDIT_CHAIN, AUDIT_TRACE, PROVENANCE})]);
    r.ruleId == "dispatch_expand:" + original && r.beforeHash == hash && r.afterHash == hash &&
    r.changeSummary == Some("dispatch_expand: " + original + " \U{2192} " + expanded) &&
    r.executionResult == Success && r.errorMessage == None && r.timestamp == AsI64(ChainIn(st).logicalTick) &&
    r.previousHash == ChainIn(st).latestHash && Verifies(env.digests, r)
  }

  lemma ExpansionIsNoted(env: Env, st: State, instr: Instruction, kind: string)
    ensures Expanding(env, st, instr, kind,
                      RecordExpand(env, NoteMetadata(NoteInstruction(st, instr.ToValue()), instr.metadata),
                                   instr.kind, kind))
  {
    hide ExecOf, ParseChain, RecordExpand, PutChain, NoteInstruction, NoteMetadata, Notes, StateHash, ContentHash;
    var noted := NoteMetadata(NoteInstruction(st, instr.ToValue()), instr.metadata);
    NotedQuietly(st, instr);
    RecordStaysRaw(st, instr);
    RecordedExpansion(env, noted, instr.kind, kind);
    ExpandedChainExtends(env, noted, instr.kind, kind);
    var e := ExpandedChain(env, noted, instr.kind, kind);
    ChainIsPut(noted, e);
    RecordIsNoted(env, st, noted, instr.kind, kind);
  }

  lemma NotedQuietly(st: State, instr: Instruction)
    ensures var noted := NoteMetadata(NoteInstruction(st, instr.ToValue()), instr.metadata);
            Business(noted) == Business(st) && ExecOf(noted) == ExecOf(st).(instruction := instr.ToValue()) &&
            noted.Get(AUDIT_CHAIN) == st.Get(AUDIT_CHAIN)
  {
    hide ExecContext.Parse, ExecContext.ToValue;
    var noted := NoteInstruction(st, instr.ToValue());
    NotedExec(st, instr.ToValue());
    ExecContext.RoundTrip(ExecOf(noted));
    assert Business(noted) == Business(st) && Business(PutExec(noted, ExecOf(noted))) == Business(st);
  }

  lemma RecordStaysRaw(st: State, instr: Instruction)
    ensures Reworded(st, instr, NoteMetadata(NoteInstruction(st, instr.ToValue()), instr.metadata))
  {
    hide ExecContext.Parse, ExecContext.ToValue;
    NotedExec(st, instr.ToValue());
  }

  lemma ChainIsPut(st: State, c: AuditChain)
    ensures ChainIn(PutChain(st, c)) == c && Business(PutChain(st, c)) == Business(st)
    ensures ExecOf(PutChain(st, c)) == ExecOf(st) && PutChain(st, c).Get(EXEC) == st.Get(EXEC)
  {
    hide ParseChain, ChainToValue, ExecContext.Parse;
    ChainRoundTrip(c);
    assert PutChain(st, c).Get(EXEC) == st.Get(EXEC);
    assert Business(PutChain(st, c)) == Business(st);
  }

  lemma RecordIsNoted(env: Env, st: State, noted: State, original: string, expanded: string)
    requires Business(noted) == Business(st) && noted.Get(AUDIT_CHAIN) == st.Get(AUDIT_CHAIN)
    ensures var records := ExpandedChain(env, noted, original, expanded).records;
            |records| == |ChainIn(st).records| + 1 &&
            Notes(env, st, original, expanded, records[|ChainIn(st).records|])
  {
    hide ParseChain, ContentHash, ComputeHash, DeriveId, DeriveNonce, AsU64;
    var system := {EXEC, AUDIT_CHAIN, AUDIT_TRACE, PROVENANCE};
    assert noted.data - system == Business(noted) - system && st.data - system == Business(st) - system;
    NewRecordVerifies(env.digests, "dispatch_expand:" + original, ChainIn(st).logicalTick, StateHash(env, noted),
                      StateHash(env, noted), Some("dispatch_expand: " + original + " \U{2192} " + expanded),
                      ChainIn(st).latestHash);
  }

  /** Executing an instruction of an unregistered type is executing its case with the parameters
      filled in, whatever was current before: in the state in which the instruction is current
      and its expansion recorded, on the same level and for the same one instruction. */
  lemma ExecutesItsCase(env: Env, reg: Registry, st: State, instr: Instruction, c: Ctl, kind: string, ps: Fields,
                        given: Fields) returns (s: State)
    requires instr.kind !in reg && instr.kind in CasesOf(st) && CasesOf(st)[instr.kind] == CaseWith(kind, ps)
    requires kind != "dispatch" && REF !in ps && PASS !in ps && FilledIn(instr, ps, given) && c.Refusal().None?
    ensures Expanding(env, st, instr, kind, s)
    ensures var r := Execute(env, reg, st, instr, c);
            var q := Execute(env, reg, s, Instruction(kind, given, EmptyObject), c.Expanding());
            r.out == q.out && (!r.out.Diverged? ==> r == q)
  {
    hide CasesOf, ExecOf, FilledIn, NoteInstruction, NoteMetadata, RecordExpand, ParseInstruction, ResolveRefs,
         RunPrimitive, Settle, Settles, CaseWith, Expanding;
    var noted := NoteMetadata(NoteInstruction(st, instr.ToValue()), instr.metadata);
    s := RecordExpand(env, noted, instr.kind, kind);
    var next := Instruction(kind, given, EmptyObject);
    CasesField(st);
    NotedQuietly(st, instr);
    CaseIsFilledIn(noted, instr, kind, ps, given);
    ExpansionIsNoted(env, st, instr, kind);
    assert Expand(env, reg, st, instr) == Expanded(s, next);
    SettleStep(env, reg, st, instr);
  }

  /** A case of a registered leaf type runs that leaf, once, with the parameters filled in. */
  lemma LeafRunsFilledIn(env: Env, reg: Registry, st: State, instr: Instruction, c: Ctl, kind: string, ps: Fields,
                         given: Fields) returns (s: State)
    requires instr.kind !in reg && instr.kind in CasesOf(st) && CasesOf(st)[instr.kind] == CaseWith(kind, ps)
    requires kind in reg && reg[kind].Leaf? && kind != "dispatch" && REF !in ps && PASS !in ps
    requires FilledIn(instr, ps, given) && c.Refusal().None?
    ensures Expanding(env, st, instr, kind, s)
    ensures var r := Execute(env, reg, st, instr, c);
            FromResult(reg[kind].run(s, Instruction(kind, given, EmptyObject)),
                       c.(count := c.count + 1, expanded := true)) == r
  {
    hide CasesOf, FilledIn, Execute, CaseWith, Expanding;
    s := ExecutesItsCase(env, reg, st, instr, c, kind, ps, given);
    ExecuteRegistered(env, reg, s, Instruction(kind, given, EmptyObject), c.Expanding());
  }

  /** A type that is neither registered nor in the table is unknown, and one whose case is a
      dispatch is refused. */
  lemma UnknownAndNestedFail(env: Env, reg: Registry, st: State, instr: Instruction, c: Ctl, ps: Fields)
    requires instr.kind !in reg && c.Refusal().None?
    ensures instr.kind !in CasesOf(st) ==>
              Execute(env, reg, st, instr, c) == Run(Failed(UnknownInstruction(instr.kind)), c.Entered().Exited())
    ensures instr.kind in CasesOf(st) && CasesOf(st)[instr.kind] == CaseWith("dispatch", ps) &&
            FilledIn(instr, ps, ps) && REF !in ps && PASS !in ps ==>
              Execute(env, reg, st, instr, c) == Run(Failed(InvalidConfig("nested dispatch")), c.Entered().Exited())
  {
    hide CasesOf, ExecOf, FilledIn, NoteInstruction, NoteMetadata, RecordExpand, ParseInstruction, ResolveRefs,
         RunPrimitive, Settle, Settles, CaseWith;
    CasesField(st);
    SettleStep(env, reg, st, instr);
    if instr.kind in CasesOf(st) && CasesOf(st)[instr.kind] == CaseWith("dispatch", ps) && FilledIn(instr, ps, ps) &&
      REF !in ps && PASS !in ps
    {
      NotedQuietly(st, instr);
      CaseIsFilledIn(NoteMetadata(NoteInstruction(st, instr.ToValue()), instr.metadata), instr, "dispatch", ps, ps);
    }
  }

  // ------------------------------------------------------------------------
  // The usual alias
  // ------------------------------------------------------------------------

  /** `set`, executed by itself: afterwards the state reads the value at the name, and no other
      business field differs. */
  lemma SetIsReadBack(env: Env, reg: Registry, st: State, name: string, v: Value, metadata: Value, c: Ctl)
    requires "set" !in reg && "state_set" in reg && reg["state_set"] == Leaf(StateSet) && c.Refusal().None?
    requires "set" in CasesOf(st) && CasesOf(st)["set"] == SetCase
    requires SplitPath(name) == [name] && name != "" && name != EXEC && name != AUDIT_CHAIN
    requires Resolved(v, 3) && v.GetStr(REF) == None
    ensures var instr := Instruction("set", map["attr" := Str(name), "value" := v], metadata);
            var out := Execute(env, reg, st, instr, c).out;
            out.Done? && GetPath(out.st, name) == Some(v) && Business(out.st) == Business(st)[name := v]
  {
    hide CasesOf, Execute, StateSet, SplitPath, Resolved, ParamRef, Expanding, FilledIn;
    var instr := Instruction("set", map["attr" := Str(name), "value" := v], metadata);
    var ps := map["attr" := ParamRef("attr"), "value" := ParamRef("value")];
    var given := map["attr" := Str(name), "value" := v];
    SetIsFilledIn(instr, name, v);
    var s := LeafRunsFilledIn(env, reg, st, instr, c, "state_set", ps, given);
    AssignmentIsDone(s, name, v);
    NameReadsBack(s, name, v);
    SameBusinessAfter(env, st, instr, s);
  }

  lemma SameBusinessAfter(env: Env, st: State, instr: Instruction, s: State)
    requires Expanding(env, st, instr, "state_set", s)
    ensures Business(s) == Business(st)
  {
    hide ExecOf, Notes, ChainOf, Business;
  }

  lemma SetIsFilledIn(instr: Instruction, name: string, v: Value)
    requires instr.params == map["attr" := Str(name), "value" := v] && Resolved(v, 3)
    ensures FilledIn(instr, map["attr" := ParamRef("attr"), "value" := ParamRef("value")], instr.params)
    ensures SetCase == CaseWith("state_set", map["attr" := ParamRef("attr"), "value" := ParamRef("value")])
    ensures REF != "attr" && REF != "value" && PASS != "attr" && PASS != "value"
  {
    FreeNames();
    hide ParamRef;
    assert Resolved(Str(name), 3);
    assert StandsFor(instr, ParamRef("attr"), Str(name));
    assert StandsFor(instr, ParamRef("value"), v);
  }

  lemma NameReadsBack(st: State, name: string, v: Value)
    requires SplitPath(name) == [name] && name != ""
    ensures GetPath(st.Set(name, v), name) == Some(v)
  {
    hide SplitPath;
    assert [name][1..] == [] && Walk(v, []) == Some(v);
  }
}
