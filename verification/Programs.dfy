/** Programs that meet the hypotheses of the main results: guards on what paths they name,
    and a primitive of the program itself that such guards make harmless. */
module Programs {
  import opened Values
  import opened Store
  import opened References
  import opened Control
  import opened Machine
  import opened Guards
  import opened Steps
  import opened Soundness
  import opened Twins
  import opened Observation
  import ExecContext

  // ------------------------------------------------------------------------
  // Guards
  // ------------------------------------------------------------------------

  /** Names that a program may keep paths under, for references to them. */
  ghost predicate PlaceNames(names: set<string>) {
    Restrictable(names) && names !! CRITICAL
  }

  lemma CriticalIsRestrictable(names: set<string>)
    requires PlaceNames(names)
    ensures Restrictable(CRITICAL + names)
  {
    hide IsEngineName, ParseIndex;
    CriticalNames();
  }

  lemma CriticalNames()
    ensures Restrictable(CRITICAL)
  {
    hide ParseIndex;
    RecordNamesAreFree();
    StepNamesAreFree();
    ContextNamesAreFree();
    forall key | key in CRITICAL ensures ParseIndex(key).None? { CriticalIsNoIndex(key); }
  }

  lemma ContextNamesAreFree()
    ensures ExecContext.CORE !! CRITICAL && ExecContext.CONFIGURATION !! CRITICAL && ExecContext.DISPATCH !! CRITICAL
  {
  }

  lemma RecordNamesAreFree()
    ensures RECORD_NAMES !! CRITICAL && CHAIN_NAMES !! CRITICAL
  {
  }

  lemma StepNamesAreFree()
    ensures STEP_NAMES !! CRITICAL && FIELD_NAMES !! CRITICAL
  {
  }

  lemma CriticalIsNoIndex(key: string)
    requires key in CRITICAL
    ensures ParseIndex(key).None?
  {
  }

  lemma RestrictsAlike(g: Guard, key: string, p: string -> bool, q: string -> bool)
    requires RestrictsTo(g, key, p) && forall s :: p(s) ==> q(s)
    ensures RestrictsTo(g, key, q)
  {
    hide RefersTo, Restrictable;
    forall k, x | k in g.kin(key) && g.ok(k, x) ensures PlaceOk(q, g.kin(key), x) {
      assert PlaceOk(p, g.kin(key), x);
    }
  }

  /** Restricts paths under `keys` to safe places, named there or by reference to one another. */
  function SafeUnder(keys: set<string>): Guard {
    Restricting(keys, _ => keys, (key, path) => SafeAttr(keys, path))
  }

  lemma SafeUnderIsGuard(keys: set<string>)
    requires Restrictable(keys)
    ensures IsGuard(SafeUnder(keys)) && forall key | key in keys :: RestrictsTo(SafeUnder(keys), key, SafePlaces(keys))
  {
    hide SafeAttr, PlaceOk, Restrictable;
    var p := (key, path) => SafeAttr(keys, path);
    RestrictingIsGuard(keys, _ => keys, p);
    forall key | key in keys ensures RestrictsTo(SafeUnder(keys), key, SafePlaces(keys)) {
      RestrictsAlike(SafeUnder(keys), key, PlacesOf(p, key), SafePlaces(keys));
    }
  }

  /** The weakest guard of use: error messages go to safe places, named directly or in fields
      of the given names, and all else is free. */
  function ErrorPlaces(names: set<string>): Guard {
    SafeUnder({"error_attr"} + names)
  }

  lemma ErrorPlacesIsGuard(names: set<string>)
    requires PlaceNames(names)
    ensures AttrGuard(ErrorPlaces(names))
  {
    hide SafeAttr, Restrictable;
    CriticalIsRestrictable(names);
    assert "error_attr" in CRITICAL;
    FewerAreRestrictable({"error_attr"} + names, CRITICAL + names);
    SafeUnderIsGuard({"error_attr"} + names);
  }

  /** The weakest for programs with `state_set`: it writes to safe places as well. */
  function WritePlaces(names: set<string>): Guard {
    SafeUnder({"error_attr", "attr"} + names)
  }

  lemma WritePlacesIsGuard(names: set<string>)
    requires PlaceNames(names)
    ensures WriteGuard(WritePlaces(names))
  {
    hide SafeAttr, Restrictable;
    CriticalIsRestrictable(names);
    CriticalKeys();
    FewerAreRestrictable({"error_attr", "attr"} + names, CRITICAL + names);
    SafeUnderIsGuard({"error_attr", "attr"} + names);
  }

  /** Places of a program that keeps off the reserved fields: for `names` like for targets. */
  predicate ReservedPlace(names: set<string>, key: string, path: string) {
    if key == REF || key == "attribute" then SafeRead(path)
    else SafeAttr(CRITICAL + names, path) && KeyLedPlace(path)
  }

  function ReservedKin(names: set<string>, key: string): set<string> {
    if key == REF || key == "attribute" then {key} else {"error_attr", "attr"} + names
  }

  /** Programs that keep off the reserved fields: they neither read the chain or the audit
      flag, nor write or aim error messages at the engine's own fields. */
  function Reserved(names: set<string>): Guard {
    Restricting(CRITICAL + names, key => ReservedKin(names, key), (key, path) => ReservedPlace(names, key, path))
  }

  lemma ReservedIsGuard(names: set<string>)
    requires PlaceNames(names)
    ensures PlaceGuard(Reserved(names))
  {
    hide SafeAttr, SafeRead, KeyLedPlace, PlaceOk, Restrictable;
    var g := Reserved(names);
    var keys := CRITICAL + names;
    var kin, p := key => ReservedKin(names, key), (key, path) => ReservedPlace(names, key, path);
    CriticalIsRestrictable(names);
    ReservedIsKindred(names);
    RestrictingIsGuard(keys, kin, p);
    CriticalKeys();
    forall key, s | key in {"error_attr", "attr"} && PlacesOf(p, key)(s)
      ensures SafePlaces(keys)(s) && KeyLedPlace(s)
    {
      assert ReservedPlace(names, key, s);
    }
    forall key, s | key in {REF, "attribute"} && PlacesOf(p, key)(s) ensures SafeRead(s) {
      assert ReservedPlace(names, key, s);
    }
    forall key | key in {"error_attr", "attr"}
      ensures RestrictsTo(g, key, SafePlaces(keys)) && RestrictsTo(g, key, KeyLedPlace)
    {
      RestrictsAlike(g, key, PlacesOf(p, key), SafePlaces(keys));
      RestrictsAlike(g, key, PlacesOf(p, key), KeyLedPlace);
    }
    forall key | key in {REF, "attribute"} ensures RestrictsTo(g, key, SafeRead) {
      RestrictsAlike(g, key, PlacesOf(p, key), SafeRead);
    }
  }

  lemma ReservedIsKindred(names: set<string>)
    requires names !! CRITICAL
    ensures Kindred(CRITICAL + names, key => ReservedKin(names, key), (key, path) => ReservedPlace(names, key, path))
  {
    hide SafeAttr, SafeRead, KeyLedPlace;
    CriticalKeys();
  }

  lemma CriticalKeys()
    ensures "error_attr" in CRITICAL && "attr" in CRITICAL && REF in CRITICAL && "attribute" in CRITICAL
    ensures "error_attr" != REF && "error_attr" != "attribute" && "attr" != REF && "attr" != "attribute"
  {
  }

  // ------------------------------------------------------------------------
  // The assignment primitive
  // ------------------------------------------------------------------------

  /** `state_set`: writes `value` at the path `attr`, both after following one reference. */
  function StateSet(st: State, instr: Instruction): Result<State> {
    match instr.Param("attr")
    case None => Err(MissingParam("state_set", "attr"))
    case Some(attr) =>
      var value := match instr.Param("value") case Some(v) => v case None => Null;
      match ResolvePath(st, attr)
      case Str(path) => SetPath(st, path, ResolvePath(st, value))
      case other => Err(TypeError("String", other))
  }

  /** Under "attr" stand safe places, as under "error_attr". */
  ghost predicate WriteGuard(g: Guard) {
    AttrGuard(g) && RestrictsTo(g, "attr", SafePlaces(g.keys))
  }

  ghost predicate PlaceGuard(g: Guard) {
    ReadGuard(g) && WriteGuard(g) && RestrictsTo(g, "attr", KeyLedPlace)
  }

  /** Named directly or by reference, what is assigned to is a place of the kind that the
      guard demands. */
  lemma AssignedPlaceIsOk(g: Guard, st: State, instr: Instruction, p: string -> bool)
    requires IsGuard(g) && RestrictsTo(g, "attr", p) && SaneInstruction(g, instr) && Healthy(g, st)
    ensures match instr.Param("attr")
            case Some(attr) => (match ResolvePath(st, attr) case Str(path) => p(path) case _ => true)
            case None => true
  {
    hide Healthy, SaneInstruction, RestrictsTo, IsGuard;
    ParamIsSane(g, instr, "attr");
    match instr.Param("attr")
    case Some(v) => NamedPlace(g, st, v, "attr", p);
    case None =>
  }

  lemma AssignedValueIsSane(g: Guard, st: State, instr: Instruction)
    requires Healthy(g, st) && SaneInstruction(g, instr)
    ensures var value := match instr.Param("value") case Some(v) => v case None => Null;
            Sane(g, value) && Sane(g, ResolvePath(st, value))
  {
    hide Sane, Healthy, SaneInstruction;
    ScalarsAreSane(g);
    ParamIsSane(g, instr, "value");
    var value := match instr.Param("value") case Some(v) => v case None => Null;
    ResolvePathIsSane(g, st, value);
  }

  lemma AssignmentKeeps(g: Guard)
    requires WriteGuard(g)
    ensures LeafKeeps(g, StateSet)
  {
    forall st, instr | Healthy(g, st) && SaneInstruction(g, instr) && StateSet(st, instr).Ok?
      ensures var next := StateSet(st, instr).value;
              Healthy(g, next) && SameConfig(ExecOf(st), ExecOf(next)) && ChainIn(next) == ChainIn(st)
    {
      hide Sane, Healthy, SaneInstruction, SetPath, ResolvePath, SafeAttr, IsGuard, ExecOf, ChainIn;
      AssignedPlaceIsOk(g, st, instr, SafePlaces(g.keys));
      AssignedValueIsSane(g, st, instr);
      var value := match instr.Param("value") case Some(v) => v case None => Null;
      SafeWriteKeeps(g, st, ResolvePath(st, instr.Param("attr").value).s, ResolvePath(st, value));
    }
  }

  lemma AssignmentIsBlind(g: Guard)
    requires PlaceGuard(g)
    ensures LeafBlind(g, StateSet)
  {
    forall a, b, instr | Healthy(g, a) && Healthy(g, b) && Alike(a, b) && SaneInstruction(g, instr)
      ensures AlikeResults(StateSet(a, instr), StateSet(b, instr))
    {
      AssignmentsAlike(g, a, b, instr);
    }
  }

  lemma AssignmentsAlike(g: Guard, a: State, b: State, instr: Instruction)
    requires PlaceGuard(g) && Healthy(g, a) && Healthy(g, b) && Alike(a, b) && SaneInstruction(g, instr)
    ensures AlikeResults(StateSet(a, instr), StateSet(b, instr))
  {
    hide Sane, Healthy, SaneInstruction, SetPath, ResolvePath, SafeAttr, KeyLedPlace, IsGuard, RestrictsTo, Alike;
    AssignedPlaceIsOk(g, a, instr, SafePlaces(g.keys));
    AssignedPlaceIsOk(g, a, instr, KeyLedPlace);
    AssignedValueIsSane(g, a, instr);
    ParamIsSane(g, instr, "attr");
    var value := match instr.Param("value") case Some(v) => v case None => Null;
    ResolvePathAlike(g, a, b, value);
    match instr.Param("attr")
    case Some(attr) =>
      ResolvePathAlike(g, a, b, attr);
      if ResolvePath(a, attr).Str? {
        FewerKeysAreSafe(g.keys, ResolvePath(a, attr).s);
        NoteErrorAlike(a, b, ResolvePath(a, attr).s, ResolvePath(a, value));
      }
    case None =>
  }

  /** No leaf primitives but `state_set`. */
  ghost predicate OnlyAssigns(reg: Registry) {
    forall name | name in reg && reg[name].Leaf? :: name == "state_set" && reg[name].run == StateSet
  }

  /** Such a registry meets the hypothesis of the results on chains, for all programs that do
      not write to the engine's own fields. */
  lemma AssignmentsKeepChains(reg: Registry, names: set<string>)
    requires OnlyAssigns(reg) && PlaceNames(names)
    ensures AttrGuard(WritePlaces(names)) && LeavesKeep(reg, WritePlaces(names))
  {
    hide LeafKeeps, PlaceNames, AttrGuard;
    WritePlacesIsGuard(names);
    AssignmentKeeps(WritePlaces(names));
  }

  /** It meets every hypothesis of the results on chains and on auditing, for all programs that
      keep off the reserved fields. */
  lemma AssignmentsMeetTheHypotheses(reg: Registry, names: set<string>)
    requires "trace_step" in reg && reg["trace_step"].TraceStep? && OnlyAssigns(reg) && PlaceNames(names)
    ensures LeavesKeep(reg, Reserved(names)) && Blind(reg, Reserved(names))
  {
    hide LeafKeeps, LeafBlind, ReadGuard, PlaceNames, Reserved, RestrictsTo, AttrGuard;
    ReservedIsGuard(names);
    AssignmentKeeps(Reserved(names));
    AssignmentIsBlind(Reserved(names));
  }

  function ParamRef(field: string): Value {
    Object(map[REF := Str("__exec__.instruction.params." + field)])
  }

  /** The case of the usual `set` alias, with its target and value taken from the instruction
      that is dispatched. */
  const SetCase: Value :=
    Object(map["type" := Str("state_set"),
      "params" := Object(map["attr" := ParamRef("attr"), "value" := ParamRef("value")])])

  /** Programs that keep off the reserved fields may have it in their table. */
  lemma SetCaseIsSane(names: set<string>)
    requires PlaceNames(names) && "value" !in names
    ensures Sane(Reserved(names), SetCase)
  {
    hide ParamRef, IsGuard, Reserved, PlaceNames, Restrictable;
    var g := Reserved(names);
    ReservedIsGuard(names);
    FreeNames();
    ParamRefIsSane(names, "attr");
    ParamRefIsSane(names, "value");
    ReservedKeys(names);
    FreeField(g, "value", ParamRef("value"));
    FreeName(g, "type", Str("state_set"));
    FreeName(g, "params", Object(map["attr" := ParamRef("attr"), "value" := ParamRef("value")]));
    CaseOfTwo(g, "state_set", "attr", ParamRef("attr"), "value", ParamRef("value"));
  }

  lemma ReservedKeys(names: set<string>)
    ensures Reserved(names).keys == CRITICAL + names
  {
  }

  lemma CaseOfTwo(g: Guard, kind: string, a: string, x: Value, b: string, y: Value)
    requires g.ok("type", Str(kind)) && g.ok(a, x) && Sane(g, x) && g.ok(b, y) && Sane(g, y)
    requires g.ok("params", Object(map[a := x, b := y]))
    ensures Sane(g, Object(map["type" := Str(kind), "params" := Object(map[a := x, b := y])]))
  {
    assert Sane(g, Object(map[a := x, b := y]));
  }

  lemma FreeNames()
    ensures "value" !in CRITICAL && PlainSegment("attr") && PlainSegment("value")
  {
  }

  lemma ParamRefIsSane(names: set<string>, field: string)
    requires PlainSegment(field)
    ensures Sane(Reserved(names), ParamRef(field))
    ensures field == "attr" ==> Reserved(names).ok(field, ParamRef(field))
  {
    hide SplitPath, SafeAttr, Reserved, SafeRead;
    SplitParams(field);
    CriticalKeys();
    assert IsRef(ParamRef(field)) && (field == "attr" ==> RefersTo(ReservedKin(names, field), ParamRef(field)));
    var path := "__exec__.instruction.params." + field;
    ParamIsSafe(field);
    ReservedPlaceIsOk(names, REF, path);
    if field == "attr" { ReservedRefIsOk(names, field, ParamRef(field)); }
  }

  lemma ParamIsSafe(field: string)
    requires PlainSegment(field)
    ensures SafeRead("__exec__.instruction.params." + field)
  {
    hide SplitPath;
    SplitParams(field);
    assert ("__exec__.instruction.params." + field)[0] == '_';
    assert "instruction" != AUDIT_ON && EXEC != AUDIT_CHAIN;
  }

  lemma ReservedPlaceIsOk(names: set<string>, key: string, path: string)
    requires ReservedPlace(names, key, path)
    ensures Reserved(names).ok(key, Str(path))
  {
    hide SafeAttr, SafeRead, KeyLedPlace;
    var p := (key, path) => ReservedPlace(names, key, path);
    assert PlacesOf(p, key)(path);
  }

  lemma ReservedRefIsOk(names: set<string>, key: string, v: Value)
    requires v.Object? && RefersTo(ReservedKin(names, key), v)
    ensures Reserved(names).ok(key, v)
  {
    hide SafeAttr, SafeRead, KeyLedPlace, RefersTo, ReservedKin;
  }

  lemma SplitParams(field: string)
    requires PlainSegment(field)
    ensures SplitPath("__exec__.instruction.params." + field) == ["__exec__", "instruction", "params", field]
  {
    hide SplitPath;
    var parts := ["__exec__", "instruction", "params", field];
    PlainNames();
    SplitOfDotted(parts);
    DottedOf("__exec__", ["instruction", "params", field]);
    DottedOf("instruction", ["params", field]);
    DottedOf("params", [field]);
    DottedOne(field);
    assert ["params"] + [field] == ["params", field];
    assert ["instruction"] + ["params", field] == ["instruction", "params", field];
    assert ["__exec__"] + ["instruction", "params", field] == parts;
    ParamsPrefix();
    assert "__exec__" + "." + ("instruction" + "." + ("params" + "." + field))
        == "__exec__" + "." + "instruction" + "." + "params" + "." + field;
  }

  lemma ParamsPrefix()
    ensures "__exec__" + "." + "instruction" + "." + "params" + "." == "__exec__.instruction.params."
  {
  }

  lemma PlainNames()
    ensures PlainSegment("__exec__") && PlainSegment("instruction") && PlainSegment("params")
  {
  }

  lemma DottedOne(s: string)
    ensures Dotted([s]) == s
  {
  }

  lemma DottedOf(s: string, rest: seq<string>)
    requires rest != []
    ensures Dotted([s] + rest) == s + "." + Dotted(rest)
  {
    assert ([s] + rest)[1..] == rest;
  }
}
