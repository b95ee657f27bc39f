/** What it says about its condition that a loop was cut off. The condition is not looked at
    again after the last turn, so a loop can be flagged although it no longer holds; for every
    condition that is not a domain it is decided here when that cannot happen.
 */
module Conditions {
  import opened Values
  import opened Store
  import opened References
  import opened Control
  import opened Machine
  import opened Engine
  import opened Loops
  import ExecContext

  /** A run of a loop that is flagged as cut off leaves a state in which its condition holds. */
  ghost predicate StillHolds(env: Env, condition: Option<Value>, out: Outcome) {
    out.Done? && ExecField(out.st, TRUNCATED) == Some(Bool(true)) ==>
      CheckCondition(env, out.st, condition) == Ok(true)
  }

  /** That is so of all runs, under any registry, from any state. */
  ghost predicate AlwaysStillHolds(env: Env, condition: Option<Value>) {
    forall reg: Registry, st: State, instr: Instruction, c: Ctl |
      "while_loop" in reg && reg["while_loop"].WhileLoop? && instr.kind == "while_loop" &&
      instr.Param("condition") == condition && MaxSteps(instr) > 0 && c.Refusal().None? ::
      StillHolds(env, condition, Execute(env, reg, st, instr, c).out)
  }

  // ------------------------------------------------------------------------
  // Conditions that still hold
  // ------------------------------------------------------------------------

  /** What is known of a loop that is flagged: its condition held at first, and the state it
      leaves has been written by the engine, running and flagged. */
  lemma FlaggedRun(env: Env, reg: Registry, st: State, instr: Instruction, c: Ctl) returns (p: Point)
    requires "while_loop" in reg && reg["while_loop"].WhileLoop? && instr.kind == "while_loop" && MaxSteps(instr) > 0
    requires c.Refusal().None? && Execute(env, reg, st, instr, c).out.Done?
    requires ExecField(Execute(env, reg, st, instr, c).out.st, TRUNCATED) == Some(Bool(true))
    ensures CheckCondition(env, st, instr.Param("condition")) == Ok(true)
    ensures Execute(env, reg, st, instr, c).out == Done(SetTruncated(p.st, true)) && ExecOf(p.st).running
  {
    hide Execute, Loop, Turns, SetTruncated, TakeTurn, ExecField, ExecOf, MaxSteps;
    var cfg := LoadLoop(st, instr);
    var from := Point(st, c.Entered());
    ExecuteRegistered(env, reg, st, instr, c);
    FlagMeansAllTurnsCompleted(env, reg, cfg, from);
    var n, t := LoopEnds(env, reg, cfg, from, 0);
    p := Turns(env, reg, cfg, from, cfg.maxSteps).value;
    TurnsLeaveRunning(env, reg, cfg, from, cfg.maxSteps);
    FirstTurn(env, reg, cfg, from, cfg.maxSteps);
  }

  lemma FirstTurn(env: Env, reg: Registry, cfg: LoopConfig, from: Point, n: nat)
    requires n > 0 && Turns(env, reg, cfg, from, n).Some?
    ensures CheckCondition(env, from.st, cfg.condition) == Ok(true)
  {
    hide RunAll, Drain, ExecOf, CheckCondition;
  }

  /** A condition whose value depends on no state, or holds of every state that a loop leaves
      running and flagged. */
  ghost predicate Steady(env: Env, condition: Option<Value>) {
    (forall a, b :: CheckCondition(env, a, condition) == CheckCondition(env, b, condition)) ||
    (forall st | ExecOf(st).running :: CheckCondition(env, SetTruncated(st, true), condition) == Ok(true))
  }

  lemma SteadyStillHolds(env: Env, condition: Option<Value>)
    requires Steady(env, condition)
    ensures AlwaysStillHolds(env, condition)
  {
    hide Execute, ExecField, ExecOf, CheckCondition, SetTruncated, MaxSteps;
    forall reg: Registry, st: State, instr: Instruction, c: Ctl |
      "while_loop" in reg && reg["while_loop"].WhileLoop? && instr.kind == "while_loop" &&
      instr.Param("condition") == condition && MaxSteps(instr) > 0 && c.Refusal().None?
      ensures StillHolds(env, condition, Execute(env, reg, st, instr, c).out)
    {
      var out := Execute(env, reg, st, instr, c).out;
      if out.Done? && ExecField(out.st, TRUNCATED) == Some(Bool(true)) {
        var p := FlaggedRun(env, reg, st, instr, c);
        assert CheckCondition(env, out.st, condition) == Ok(true);
      }
    }
  }

  // ------------------------------------------------------------------------
  // Conditions that need not hold
  // ------------------------------------------------------------------------

  /** A state with next to nothing in it: the queue is no list, so that the drain leaves it. */
  const Blank: State := State(map[EXEC := Object(map["queue" := Null, "audit_on" := Bool(false)])], 0)

  /** A leaf that throws everything away. */
  function Wipe(st: State, instr: Instruction): Result<State> {
    Ok(Blank)
  }

  function OneTurn(condition: Value): Instruction {
    Instruction("while_loop",
                map["condition" := condition, "max_steps" := Integer(1), "body" := Object(map["type" := Str("wipe")])],
                EmptyObject)
  }

  const Wiping: Registry := map["while_loop" := WhileLoop, "wipe" := Leaf(Wipe)]

  const START := Ctl(0, 256, 0, 0, 1_000_000, false, false)

  lemma LoopIsWiped(env: Env, condition: Value, st: State)
    requires CheckCondition(env, st, Some(condition)) == Ok(true)
    ensures Execute(env, Wiping, st, OneTurn(condition), START).out == Done(SetTruncated(Blank, true))
  {
    hide Execute, Loop, SetTruncated, TakeTurn, ExecField, ExecOf, CheckCondition, Drain, RunAll;
    var instr := OneTurn(condition);
    OneTurnLoads(st, condition);
    var cfg := LoadLoop(st, instr);
    WipeRuns(env, st, START.Entered());
    BlankStays(env, cfg, START.Entered().(count := 2));
    OneTurnIsCut(env, cfg, st, START.Entered(), START.Entered().(count := 2));
    ExecuteRegistered(env, Wiping, st, instr, START);
  }

  /** A condition that holds of some state, but not of the blank one once that is flagged: a
      loop of one turn is cut off with it false. */
  lemma CutOffWithConditionFalse(env: Env, condition: Value, st: State)
    requires CheckCondition(env, st, Some(condition)) == Ok(true)
    requires CheckCondition(env, SetTruncated(Blank, true), Some(condition)) == Ok(false)
    ensures var out := Execute(env, Wiping, st, OneTurn(condition), START).out;
            out == Done(SetTruncated(Blank, true)) && ExecField(out.st, TRUNCATED) == Some(Bool(true)) &&
            !StillHolds(env, Some(condition), out)
    ensures !AlwaysStillHolds(env, Some(condition))
  {
    hide Execute, SetTruncated, ExecField, ExecOf, CheckCondition, MaxSteps;
    OneTurnLoads(st, condition);
    LoopIsWiped(env, condition, st);
    TruncationIsWritten(Blank, true);
    assert !StillHolds(env, Some(condition), Execute(env, Wiping, st, OneTurn(condition), START).out);
  }

  lemma OneTurnLoads(st: State, condition: Value)
    ensures OneTurn(condition).Param("condition") == Some(condition) && MaxSteps(OneTurn(condition)) == 1
    ensures LoadLoop(st, OneTurn(condition)).body == Some(Object(map["type" := Str("wipe")]))
  {
    hide ExecOf, MetaTypes;
  }

  lemma WipeRuns(env: Env, st: State, c: Ctl)
    requires c.Refusal().None?
    ensures RunAll(env, Wiping, st, [Object(map["type" := Str("wipe")])], false, c)
         == Run(Done(Blank), c.Entered().Exited())
  {
    hide Execute, ExecOf;
    var body := Object(map["type" := Str("wipe")]);
    assert ParseInstruction(body) == Ok(Simple("wipe"));
    ExecuteRegistered(env, Wiping, st, Simple("wipe"), c);
    var d := c.Entered().Exited();
    assert [body][1..] == [];
    assert RunAll(env, Wiping, Blank, [], false, d) == Run(Done(Blank), d);
  }

  lemma BlankIs()
    ensures ExecOf(Blank) ==
            ExecContext.Context(EmptyObject, Null, true, EmptyObject, Null, Null, EmptyList, false, false,
                                EmptyObject, EmptyObject, Str(""), Null, Null, false)
  {
  }

  lemma BlankStays(env: Env, cfg: LoopConfig, c: Ctl)
    ensures Drain(env, Wiping, cfg, Blank, c) == Run(Done(Blank), c) && ExecOf(Blank).running
  {
    hide ExecOf, Execute;
    BlankIs();
    assert PlanDrain(Blank, cfg.metaTypes) == Stop(Blank);
  }

  lemma OneTurnIsCut(env: Env, cfg: LoopConfig, st: State, c: Ctl, d: Ctl)
    requires cfg.maxSteps == 1 && cfg.body.Some? && !cfg.body.value.List?
    requires CheckCondition(env, st, cfg.condition) == Ok(true)
    requires RunAll(env, Wiping, st, [cfg.body.value], false, c) == Run(Done(Blank), d)
    requires Drain(env, Wiping, cfg, Blank, d) == Run(Done(Blank), d) && ExecOf(Blank).running
    ensures Loop(env, Wiping, cfg, st, 0, c).out == Done(SetTruncated(Blank, true))
  {
    hide ExecOf, SetTruncated, CheckCondition, Drain, RunAll;
    assert TakeTurn(env, Wiping, cfg, st, c) == Completed(Blank, d);
    assert Loop(env, Wiping, cfg, Blank, 1, d).out == Done(SetTruncated(Blank, true));
  }

  // ------------------------------------------------------------------------
  // References
  // ------------------------------------------------------------------------

  function RefTo(path: string): Value {
    Object(map[REF := Str(path)])
  }

  lemma RefIsChecked(env: Env, st: State, path: string)
    ensures CheckCondition(env, st, Some(RefTo(path))) == Ok(ResolveAt(st, ResolveRefPath(st, path), 1).Truthy())
  {
    hide ExecOf, ResolveRefPath;
    var v := RefTo(path);
    assert IsRef(v) && ResolvePath(st, v) == ResolveRefPath(st, path);
    assert ResolveRefs(st, v) == ResolveAt(st, ResolvePath(st, v), 1);
  }

  lemma BoolResolves(st: State, b: bool)
    ensures ResolveAt(st, Bool(b), 1) == Bool(b)
  {
  }

  /** An object with some field other than a reference or a pass is true. */
  lemma ObjectIsTrue(st: State, m: Fields, key: string)
    requires key in m && key != REF && key != PASS
    ensures ResolveAt(st, Object(m), 1).Truthy()
  {
    var r := ResolveAt(st, Object(m), 1);
    if |m| == 1 {
      assert m.Keys == {key} by { OneKey(m.Keys, key); }
    }
    assert key in r.fields;
  }

  lemma OneKey(keys: set<string>, key: string)
    requires key in keys && |keys| == 1
    ensures keys == {key}
  {
    assert |keys - {key}| == 0;
  }

  /** The record of a loop that was cut off while running. */
  lemma CutRecord(st: State)
    requires ExecOf(st).running
    ensures var cut := SetTruncated(st, true);
            cut.Get(EXEC) == Some(ExecContext.ToValue(ExecOf(st).(terminatedByMaxSteps := true))) &&
            ExecField(cut, "__running") == Some(Bool(true)) && ExecField(cut, TRUNCATED) == Some(Bool(true))
  {
    hide ExecContext.Parse, ExecContext.ToValue;
    var c := ExecOf(st).(terminatedByMaxSteps := true);
    ExecContext.CoreFields(c);
    ExecContext.DispatchFields(c);
  }

  /** Paths to what a cut-off loop always leaves true: its record, and two flags in it. */
  predicate Fixed(parts: seq<string>) {
    parts == [EXEC] || parts == [EXEC, "__running"] || parts == [EXEC, TRUNCATED]
  }

  lemma FixedHolds(env: Env, st: State, path: string)
    requires ExecOf(st).running && (path == "" || Fixed(SplitPath(path)))
    ensures CheckCondition(env, SetTruncated(st, true), Some(RefTo(path))) == Ok(true)
  {
    hide ExecOf, SplitPath, ExecContext.ToValue, SetTruncated, CheckCondition, ResolveAt;
    var cut := SetTruncated(st, true);
    CutRecord(st);
    RefIsChecked(env, cut, path);
    var record := ExecContext.ToValue(ExecOf(st).(terminatedByMaxSteps := true));
    ExecContext.FieldNames(ExecOf(st).(terminatedByMaxSteps := true));
    ReservedNames();
    if path == "" {
      ObjectIsTrue(cut, cut.data, EXEC);
    } else {
      var parts := SplitPath(path);
      assert Walk(cut.ToValue(), parts) == Walk(record, parts[1..]);
      if parts == [EXEC] {
        assert Walk(record, []) == Some(record);
        ObjectIsTrue(cut, record.fields, "queue");
      } else {
        assert record.Get(parts[1]) == Some(Bool(true)) && parts[1..][1..] == [];
        assert Walk(record, parts[1..]) == Walk(Bool(true), []) == Some(Bool(true));
        BoolResolves(cut, true);
      }
    }
  }

  lemma ReservedNames()
    ensures EXEC != REF && EXEC != PASS && "queue" != REF && "queue" != PASS && "queue" in ExecContext.CORE
  {
  }

  // ------------------------------------------------------------------------
  // The blank state has nothing at any other path
  // ------------------------------------------------------------------------

  /** Values that are false and hold nothing. */
  predicate Hollow(v: Value) {
    v in {Null, Bool(false), Str(""), EmptyObject, EmptyList}
  }

  lemma HollowIsFalse(st: State, v: Value)
    requires Hollow(v)
    ensures !ResolveAt(st, v, 1).Truthy()
  {
  }

  lemma HollowHoldsNothing(v: Value, parts: seq<string>)
    requires Hollow(v) || (v.Bool? && parts != [])
    ensures Walk(v, parts) == None || (parts == [] && Walk(v, parts) == Some(v))
  {
  }

  lemma BlankRecord(key: string)
    ensures var record := SetTruncated(Blank, true).Get(EXEC).value;
            record.Object? &&
            match record.Get(key)
            case Some(v) => if key in {"__running", TRUNCATED} then v == Bool(true) else Hollow(v)
            case None => true
  {
    hide ExecOf, ExecContext.Parse, ExecContext.ToValue;
    BlankIs();
    CutRecord(Blank);
    var c := ExecOf(Blank).(terminatedByMaxSteps := true);
    ExecContext.FieldNames(c);
    ExecContext.CoreFields(c);
    ExecContext.ConfigurationFields(c);
    ExecContext.DispatchFields(c);
  }

  lemma BlankFields(st: State)
    requires st == SetTruncated(Blank, true)
    ensures st.data.Keys == {EXEC}
  {
    hide ExecContext.Parse, ExecContext.ToValue;
  }

  /** Where a path that is not one of the fixed leads in the blank state, cut off. */
  lemma NothingThere(env: Env, path: string)
    requires path != "" && !Fixed(SplitPath(path))
    ensures CheckCondition(env, SetTruncated(Blank, true), Some(RefTo(path))) == Ok(false)
  {
    hide ExecOf, SplitPath, SetTruncated, CheckCondition, ResolveAt, Hollow;
    var cut, parts := SetTruncated(Blank, true), SplitPath(path);
    RefIsChecked(env, cut, path);
    BlankFields(cut);
    NullIsHollow();
    HollowIsFalse(cut, Null);
    if parts != [] && parts[0] == EXEC {
      var record := cut.Get(EXEC).value;
      assert Walk(cut.ToValue(), parts) == Walk(record, parts[1..]);
      var key := parts[1];
      BlankRecord(key);
      match record.Get(key)
      case Some(v) =>
        HollowHoldsNothing(v, parts[2..]);
        assert parts[1..][1..] == parts[2..];
        assert parts[2..] == [] ==> parts == [EXEC, key];
        if Hollow(v) { HollowIsFalse(cut, v); }
      case None =>
    }
  }

  lemma NullIsHollow()
    ensures Hollow(Null)
  {
  }

  function Nest(parts: seq<string>, v: Value): Value {
    if parts == [] then v else Object(map[parts[0] := Nest(parts[1..], v)])
  }

  lemma {:induction false} NestIsWalked(parts: seq<string>, v: Value)
    ensures Walk(Nest(parts, v), parts) == Some(v)
    decreases |parts|
  {
    if parts != [] { NestIsWalked(parts[1..], v); }
  }

  /** A state in which the reference is true. */
  lemma SomethingThere(env: Env, path: string)
    requires path != "" && SplitPath(path) != []
    ensures CheckCondition(env, State(Nest(SplitPath(path), Bool(true)).fields, 0), Some(RefTo(path))) == Ok(true)
  {
    hide SplitPath, CheckCondition, ResolveAt;
    var parts := SplitPath(path);
    var st := State(Nest(parts, Bool(true)).fields, 0);
    RefIsChecked(env, st, path);
    NestIsWalked(parts, Bool(true));
    assert st.ToValue() == Nest(parts, Bool(true));
    BoolResolves(st, true);
  }

  // ------------------------------------------------------------------------
  // All conditions but domains
  // ------------------------------------------------------------------------

  /** A condition that is evaluated as a domain. */
  predicate IsDomain(v: Value) {
    v.Object? && REF !in v.fields && "type" in v.fields
  }

  /** A condition that follows a reference, to a place the loop may write. */
  predicate Loose(v: Value) {
    IsRef(v) && v.fields[REF].Str? && var path := v.fields[REF].s;
    path != "" && SplitPath(path) != [] && !Fixed(SplitPath(path))
  }

  lemma RefIsIt(v: Value)
    requires IsRef(v) && v.fields[REF].Str?
    ensures v == RefTo(v.fields[REF].s)
  {
    OneKey(v.fields.Keys, REF);
    assert v.fields == map[REF := v.fields[REF]];
  }

  lemma SelfReferenceIsNull(st: State, v: Value)
    requires IsRef(v) && !v.fields[REF].Str?
    ensures ResolveRefs(st, v) == Null
  {
    assert ResolvePath(st, v) == v;
    assert Hop(st, v, 0) == v && Hop(st, v, 1) == v;
    CycleIsNull(st, v, 0, 1);
  }

  /** Whatever is not a reference to be followed has one value in all states. */
  lemma ConstantCondition(env: Env, v: Value, a: State, b: State)
    requires !IsDomain(v)
    requires !IsRef(v) || !v.fields[REF].Str? || (v.fields[REF].s != "" && SplitPath(v.fields[REF].s) == [])
    ensures CheckCondition(env, a, Some(v)) == CheckCondition(env, b, Some(v))
  {
    hide SplitPath, ExecOf;
    if v.Object? && REF in v.fields {
      if !IsRef(v) {
        ManyFieldsAreTrue(a, v.fields);
        ManyFieldsAreTrue(b, v.fields);
      } else if v.fields[REF].Str? {
        RefIsIt(v);
        var path := v.fields[REF].s;
        RefIsChecked(env, a, path);
        RefIsChecked(env, b, path);
        NullIsHollow();
        HollowIsFalse(a, Null);
        HollowIsFalse(b, Null);
      } else {
        SelfReferenceIsNull(a, v);
        SelfReferenceIsNull(b, v);
      }
    }
  }

  lemma ManyFieldsAreTrue(st: State, m: Fields)
    requires REF in m && |m| != 1
    ensures ResolveRefs(st, Object(m)).Truthy()
  {
    var r := ResolveRefs(st, Object(m));
    assert REF in r.fields;
  }

  /** For every condition but a domain: a loop that is flagged as cut off always leaves it
      true, unless it is a reference to something else than the record of the engine, its
      running flag or the flag itself; then some loop is flagged with it false. */
  lemma StillHoldsExactly(env: Env, v: Value)
    requires !IsDomain(v)
    ensures AlwaysStillHolds(env, Some(v)) <==> !Loose(v)
  {
    hide AlwaysStillHolds, CheckCondition, SplitPath, Steady, ExecOf, SetTruncated;
    if Loose(v) {
      var path := v.fields[REF].s;
      RefIsIt(v);
      SomethingThere(env, path);
      NothingThere(env, path);
      CutOffWithConditionFalse(env, v, State(Nest(SplitPath(path), Bool(true)).fields, 0));
    } else {
      TightIsSteady(env, v);
      SteadyStillHolds(env, Some(v));
    }
  }

  lemma TightIsSteady(env: Env, v: Value)
    requires !IsDomain(v) && !Loose(v)
    ensures Steady(env, Some(v))
  {
    hide CheckCondition, SplitPath, ExecOf, SetTruncated, Fixed;
    if IsRef(v) && v.fields[REF].Str? && (v.fields[REF].s == "" || SplitPath(v.fields[REF].s) != []) {
      RefIsIt(v);
      forall st | ExecOf(st).running ensures CheckCondition(env, SetTruncated(st, true), Some(v)) == Ok(true) {
        FixedHolds(env, st, v.fields[REF].s);
      }
    } else {
      forall a, b ensures CheckCondition(env, a, Some(v)) == CheckCondition(env, b, Some(v)) {
        ConstantCondition(env, v, a, b);
      }
    }
  }

  /** Without a condition of its own a loop goes by the running flag, which still holds. */
  lemma DefaultStillHolds(env: Env)
    ensures AlwaysStillHolds(env, None)
  {
    hide AlwaysStillHolds, SetTruncated;
    forall st | ExecOf(st).running ensures CheckCondition(env, SetTruncated(st, true), None) == Ok(true) {
      TruncationIsWritten(st, true);
    }
    SteadyStillHolds(env, None);
  }
}
