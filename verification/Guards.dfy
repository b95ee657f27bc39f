/** Conditions on the fields of values that every engine step hands on: if all values of a
    state and an instruction meet them, so do all values the engine builds from these.

    A guard may restrict what stands under any keys that the engine itself writes nothing
    under: above all `$ref`, `attribute`, `error_attr` and `attr`, through which programs name
    paths, and fields that these may refer to. All other keys are free.
 */
module Guards {
  import opened Values
  import opened Store
  import opened References
  import opened Control
  import opened Audit
  import opened Machine
  import ExecContext

  /** Restricts what stands under `keys`. A reference under one of them may lead to a field
      whose name is of its kin. */
  datatype Guard = Guard(keys: set<string>, kin: string -> set<string>, ok: (string, Value) -> bool)

  /** The keys through which programs name paths. */
  const CRITICAL: set<string> := {"$ref", "attribute", "error_attr", "attr"}

  const RECORD_NAMES: set<string> := {
    "id", "rule_id", "timestamp", "state_before_hash", "state_after_hash", "execution_result", "hash",
    "previous_hash", "nonce", "version", "change_summary", "error_message"}

  const CHAIN_NAMES: set<string> := {
    "records", "root_hash", "latest_hash", "created_at", "updated_at", "logical_tick", "version"}

  const STEP_NAMES: set<string> := {
    "type", "params", "metadata", "before_hash", "after_hash", "case_key", "branch", "total_branches"}

  const FIELD_NAMES: set<string> := {"", EXEC, AUDIT_CHAIN, PROVENANCE, "__error__"}

  /** Names under which the engine writes values of its own. */
  predicate IsEngineName(k: string) {
    k in ExecContext.CORE || k in ExecContext.CONFIGURATION || k in ExecContext.DISPATCH || k in RECORD_NAMES ||
    k in CHAIN_NAMES || k in STEP_NAMES || k in FIELD_NAMES
  }

  /** Names that a guard may restrict. */
  ghost predicate Restrictable(keys: set<string>) {
    (forall k {:trigger IsEngineName(k)} | k in keys :: !IsEngineName(k)) &&
    (forall k {:trigger ParseIndex(k)} | k in keys :: ParseIndex(k).None?)
  }

  /** Every field of every object in `v` meets the guard. */
  ghost predicate Sane(g: Guard, v: Value) {
    match v
    case List(items) => forall i | 0 <= i < |items| :: Sane(g, items[i])
    case Object(m) => forall k | k in m :: g.ok(k, m[k]) && Sane(g, m[k])
    case _ => true
  }

  ghost predicate Healthy(g: Guard, st: State) {
    Sane(g, st.ToValue())
  }

  /** Restricts none of the engine's names, lets lists and plain objects pass, and is not broken by
      resolving references where all fields meet it. */
  ghost predicate IsGuard(g: Guard) {
    Restrictable(g.keys) && (forall k, x | k !in g.keys :: g.ok(k, x)) &&
    (forall k, items :: g.ok(k, List(items))) &&
    (forall k, m | REF !in m && PASS !in m :: g.ok(k, Object(m))) &&
    (forall k, x, st, depth | Healthy(g, st) && Sane(g, x) && g.ok(k, x) :: g.ok(k, ResolveAt(st, x, depth)))
  }

  ghost predicate SaneInstruction(g: Guard, instr: Instruction) {
    Sane(g, Object(instr.params)) && Sane(g, instr.metadata)
  }

  ghost predicate SaneContext(g: Guard, c: ExecContext.Context) {
    Sane(g, c.instruction) && Sane(g, c.queue) && Sane(g, c.metadata) && Sane(g, c.defaultInstruction) &&
    Sane(g, c.terminationDomain) && Sane(g, c.metaTypes) && Sane(g, c.dispatchCases) &&
    Sane(g, c.dispatchDefault) && Sane(g, c.tableVersion) && Sane(g, c.dispatchHashes) && Sane(g, c.traceSource)
  }

  // ------------------------------------------------------------------------
  // Named places
  // ------------------------------------------------------------------------

  predicate EndsIn(path: string, names: set<string>) {
    path != "" && var parts := SplitPath(path); parts != [] && parts[|parts| - 1] in names
  }

  /** A reference to a field of one of these names, wherever it is. */
  predicate RefersTo(names: set<string>, x: Value) {
    if IsRef(x) then x.fields[REF].Str? && EndsIn(x.fields[REF].s, names)
    else IsPass(x) && x.fields[PASS].Str? && x.fields[PASS].s in names
  }

  /** A path that meets `p`, or a reference to a field that is under the same guard. */
  predicate PlaceOk(p: string -> bool, names: set<string>, x: Value) {
    match x
    case Str(s) => p(s)
    case Object(m) => (REF !in m && PASS !in m) || RefersTo(names, x)
    case _ => true
  }

  /** Under `key`, and under all names of its kin, stand places that meet `p`. */
  ghost predicate RestrictsTo(g: Guard, key: string, p: string -> bool) {
    key in g.kin(key) && g.kin(key) <= g.keys &&
    forall k, x | k in g.kin(key) && g.ok(k, x) :: PlaceOk(p, g.kin(key), x)
  }

  lemma {:induction false} FieldAtEndMeetsGuard(g: Guard, v: Value, parts: seq<string>, key: string)
    requires Sane(g, v) && parts != [] && parts[|parts| - 1] == key && ParseIndex(key).None?
    ensures Walk(v, parts).Some? ==> g.ok(key, Walk(v, parts).value)
    decreases |parts|
  {
    hide ParseIndex;
    match v
    case Object(m) =>
      if parts[0] in m {
        if |parts| > 1 { FieldAtEndMeetsGuard(g, m[parts[0]], parts[1..], key); }
        else { assert parts[1..] == [] && Walk(m[key], []) == Some(m[key]); }
      }
    case List(items) =>
      var i := ParseIndex(parts[0]);
      if i.Some? && i.value < |items| {
        assert |parts| > 1;
        FieldAtEndMeetsGuard(g, items[i.value], parts[1..], key);
      }
    case _ =>
  }

  /** What a reference to a field of some names leads to meets the guard of one of them. */
  lemma ReferenceMeetsGuard(g: Guard, st: State, v: Value, names: set<string>) returns (key: string)
    requires Healthy(g, st) && RefersTo(names, v) && names <= g.keys && Restrictable(g.keys)
    ensures key in names
    ensures IsRef(v) ==> ResolvePath(st, v) == Null || g.ok(key, ResolvePath(st, v))
    ensures IsPass(v) && !IsRef(v) ==> ResolvePass(st, v) == Null || g.ok(key, ResolvePass(st, v))
  {
    hide SplitPath, Restrictable, Sane;
    if IsRef(v) {
      var parts := SplitPath(v.fields[REF].s);
      key := parts[|parts| - 1];
      NameIsNoIndex(g.keys, key);
      FieldAtEndMeetsGuard(g, st.ToValue(), parts, key);
    } else {
      key := v.fields[PASS].s;
      NameIsNoIndex(g.keys, key);
      PassIsSane(g, st, v);
      ScalarsAreSane(g);
      FieldsAreSane(g, PassedParams(st), key, Null);
      assert ResolvePass(st, v) == PassedParams(st).GetOr(key, Null);
    }
  }

  lemma NameIsNoIndex(names: set<string>, key: string)
    requires Restrictable(names) && key in names
    ensures key != "" && ParseIndex(key).None?
  {
    hide ParseIndex;
    assert IsEngineName("");
  }

  /** What a parameter names, directly or by one reference, is a place that meets `p`. */
  lemma NamedPlace(g: Guard, st: State, v: Value, key: string, p: string -> bool)
    requires IsGuard(g) && RestrictsTo(g, key, p) && Healthy(g, st) && g.ok(key, v)
    ensures ResolvePath(st, v).Str? ==> p(ResolvePath(st, v).s)
  {
    hide Healthy, EndsIn, Restrictable;
    assert PlaceOk(p, g.kin(key), v);
    if v.GetStr(REF).Some? {
      var k := ReferenceMeetsGuard(g, st, v, g.kin(key));
      var w := ResolvePath(st, v);
      if w != Null { assert PlaceOk(p, g.kin(key), w); }
    }
  }

  /** Each of the keys is of its own kin, and the same places stand under all of a kind. */
  ghost predicate Kindred(keys: set<string>, kin: string -> set<string>, p: (string, string) -> bool) {
    forall k | k in keys ::
      k in kin(k) && kin(k) <= keys &&
      forall l | l in kin(k) :: kin(l) == kin(k) && forall s :: p(l, s) == p(k, s)
  }

  /** The guard that restricts `keys` to the places that meet `p`. */
  function Restricting(keys: set<string>, kin: string -> set<string>, p: (string, string) -> bool): Guard {
    Guard(keys, kin, (k, x) => k in keys ==> PlaceOk(PlacesOf(p, k), kin(k), x))
  }

  function PlacesOf(p: (string, string) -> bool, key: string): string -> bool {
    s => p(key, s)
  }

  lemma RestrictingIsGuard(keys: set<string>, kin: string -> set<string>, p: (string, string) -> bool)
    requires Restrictable(keys) && Kindred(keys, kin, p)
    ensures IsGuard(Restricting(keys, kin, p))
    ensures forall key | key in keys :: RestrictsTo(Restricting(keys, kin, p), key, PlacesOf(p, key))
  {
    hide RefersTo, Restrictable;
    var g := Restricting(keys, kin, p);
    forall k, x, st, depth | Healthy(g, st) && Sane(g, x) && g.ok(k, x) ensures g.ok(k, ResolveAt(st, x, depth)) {
      if k in keys { ResolvedPlaceIsOk(keys, kin, p, st, x, k, depth); }
    }
    forall key | key in keys ensures RestrictsTo(g, key, PlacesOf(p, key)) {
      forall k, x | k in kin(key) && g.ok(k, x) ensures PlaceOk(PlacesOf(p, key), kin(key), x) {
        KinMeetsGuard(keys, kin, p, k, key, x);
      }
    }
  }

  lemma FewerAreRestrictable(few: set<string>, keys: set<string>)
    requires few <= keys && Restrictable(keys)
    ensures Restrictable(few)
  {
    hide ParseIndex, IsEngineName;
  }

  lemma KinIsRestricted(keys: set<string>, kin: string -> set<string>, p: (string, string) -> bool, key: string)
    requires Kindred(keys, kin, p) && key in keys
    ensures kin(key) <= keys
  {
  }

  /** What meets the guard of a name meets that of its kin. */
  lemma KinMeetsGuard(keys: set<string>, kin: string -> set<string>, p: (string, string) -> bool, k: string,
                      key: string, w: Value)
    requires Kindred(keys, kin, p) && key in keys && k in kin(key)
    ensures Restricting(keys, kin, p).ok(k, w) ==> Restricting(keys, kin, p).ok(key, w)
  {
    hide RefersTo;
    assert kin(k) == kin(key) && k in keys;
    assert forall s :: PlacesOf(p, k)(s) == PlacesOf(p, key)(s);
  }

  lemma {:induction false} ResolvedPlaceIsOk(keys: set<string>, kin: string -> set<string>, p: (string, string) -> bool,
                                             st: State, x: Value, key: string, depth: nat)
    requires Restrictable(keys) && Kindred(keys, kin, p) && key in keys
    requires Healthy(Restricting(keys, kin, p), st) && Restricting(keys, kin, p).ok(key, x)
    ensures Restricting(keys, kin, p).ok(key, ResolveAt(st, x, depth))
    decreases MAX_REF_DEPTH + 1 - depth
  {
    hide EndsIn, Healthy, ResolvePath, ResolvePass, Restrictable, Kindred;
    var g := Restricting(keys, kin, p);
    KinIsRestricted(keys, kin, p, key);
    if depth <= MAX_REF_DEPTH && x.Object? {
      if IsRef(x) {
        var k := ReferenceMeetsGuard(g, st, x, kin(key));
        KinMeetsGuard(keys, kin, p, k, key, ResolvePath(st, x));
        ResolvedPlaceIsOk(keys, kin, p, st, ResolvePath(st, x), key, depth + 1);
      } else if IsPass(x) {
        var k := ReferenceMeetsGuard(g, st, x, kin(key));
        KinMeetsGuard(keys, kin, p, k, key, ResolvePass(st, x));
      }
    }
  }

  // ------------------------------------------------------------------------
  // Reading
  // ------------------------------------------------------------------------

  lemma {:induction false} WalkIsSane(g: Guard, v: Value, parts: seq<string>)
    requires Sane(g, v)
    ensures Walk(v, parts).Some? ==> Sane(g, Walk(v, parts).value)
    decreases |parts|
  {
    if parts != [] {
      match v
      case Object(m) => if parts[0] in m { WalkIsSane(g, m[parts[0]], parts[1..]); }
      case List(items) =>
        var i := ParseIndex(parts[0]);
        if i.Some? && i.value < |items| { WalkIsSane(g, items[i.value], parts[1..]); }
      case _ =>
    }
  }

  lemma ResolvePathIsSane(g: Guard, st: State, v: Value)
    requires Healthy(g, st) && Sane(g, v)
    ensures Sane(g, ResolvePath(st, v))
  {
    match v.GetStr(REF)
    case Some(path) =>
      if path != "" {
        WalkIsSane(g, st.ToValue(), SplitPath(path));
      }
    case None =>
  }

  lemma PassIsSane(g: Guard, st: State, v: Value)
    requires Healthy(g, st)
    ensures Sane(g, PassedParams(st)) && Sane(g, ResolvePass(st, v))
  {
    match st.Get(EXEC)
    case None =>
    case Some(exec) =>
      assert Sane(g, exec);
      match exec.Get("instruction")
      case None =>
      case Some(instr) => assert Sane(g, instr);
  }

  lemma {:induction false} ResolutionIsSane(g: Guard, st: State, v: Value, depth: nat)
    requires IsGuard(g) && Healthy(g, st) && Sane(g, v)
    ensures Sane(g, ResolveAt(st, v, depth))
    decreases MAX_REF_DEPTH + 1 - depth
  {
    if depth > MAX_REF_DEPTH {
    } else if IsRef(v) {
      ResolvePathIsSane(g, st, v);
      ResolutionIsSane(g, st, ResolvePath(st, v), depth + 1);
    } else if IsPass(v) {
      PassIsSane(g, st, v);
    } else {
      match v
      case Object(m) =>
        forall k | k in m ensures g.ok(k, ResolveAt(st, m[k], depth + 1)) && Sane(g, ResolveAt(st, m[k], depth + 1)) {
          ResolutionIsSane(g, st, m[k], depth + 1);
        }
      case List(items) =>
        forall i | 0 <= i < |items| ensures Sane(g, ResolveAt(st, items[i], depth + 1)) {
          ResolutionIsSane(g, st, items[i], depth + 1);
        }
      case _ =>
    }
  }

  lemma ParsedIsSane(g: Guard, v: Value)
    requires Sane(g, v)
    ensures ParseInstruction(v).Ok? ==> SaneInstruction(g, ParseInstruction(v).value)
  {
  }

  /** The case body of a dispatch, or of the fallback. */
  lemma CaseIsSane(g: Guard, st: State, body: Value)
    requires IsGuard(g) && Healthy(g, st) && Sane(g, body)
    ensures var r := ParseInstruction(ResolveRefs(st, body)); r.Ok? ==> SaneInstruction(g, r.value)
  {
    ResolutionIsSane(g, st, body, 0);
    ParsedIsSane(g, ResolveRefs(st, body));
  }

  lemma FieldsAreSane(g: Guard, v: Value, key: string, default: Value)
    requires Sane(g, v) && Sane(g, default)
    ensures Sane(g, v.GetOr(key, default))
    ensures v.Get(key).Some? ==> Sane(g, v.Get(key).value) && g.ok(key, v.Get(key).value)
  {
  }

  lemma ParsedContextIsSane(g: Guard, v: Value)
    requires Sane(g, v)
    ensures SaneContext(g, ExecContext.Parse(v))
  {
    hide Sane;
    assert Sane(g, Null) && Sane(g, EmptyObject) && Sane(g, EmptyList) && Sane(g, Str("")) by {
      ScalarsAreSane(g);
    }
    FieldsAreSane(g, v, "instruction", EmptyObject);
    FieldsAreSane(g, v, "queue", EmptyList);
    FieldsAreSane(g, v, "metadata", EmptyObject);
    FieldsAreSane(g, v, "default_instruction", Null);
    FieldsAreSane(g, v, "termination_domain", Null);
    FieldsAreSane(g, v, "meta_instruction_types", EmptyList);
    FieldsAreSane(g, v, "dispatch_cases", EmptyObject);
    FieldsAreSane(g, v, "dispatch_default", EmptyObject);
    FieldsAreSane(g, v, "dispatch_table_version", Str(""));
    FieldsAreSane(g, v, "last_dispatch_hashes", Null);
    FieldsAreSane(g, v, "__trace_source", Null);
  }

  lemma ScalarsAreSane(g: Guard)
    ensures Sane(g, Null) && Sane(g, EmptyObject) && Sane(g, EmptyList) && forall s :: Sane(g, Str(s))
  {
  }

  lemma ExecIsSane(g: Guard, st: State)
    requires Healthy(g, st)
    ensures SaneContext(g, ExecOf(st))
    ensures forall key :: ExecField(st, key).Some? ==> Sane(g, ExecField(st, key).value)
  {
    hide ExecContext.Parse, SaneContext;
    var v := match st.Get(EXEC) case Some(v) => v case None => EmptyObject;
    assert Sane(g, v);
    ParsedContextIsSane(g, v);
  }

  lemma ParamIsSane(g: Guard, instr: Instruction, key: string)
    requires SaneInstruction(g, instr)
    ensures instr.Param(key).Some? ==> Sane(g, instr.Param(key).value) && g.ok(key, instr.Param(key).value)
    ensures forall default | Sane(g, default) :: Sane(g, Object(instr.params).GetOr(key, default))
  {
  }

  // ------------------------------------------------------------------------
  // Writing
  // ------------------------------------------------------------------------

  /** An object all of whose fields have free names. */
  lemma FreeFieldsAreSane(g: Guard, m: Fields)
    requires IsGuard(g) && (forall k | k in m :: IsEngineName(k)) && forall k | k in m :: Sane(g, m[k])
    ensures Sane(g, Object(m))
  {
    forall k | k in m ensures g.ok(k, m[k]) {
      assert k !in g.keys;
    }
  }

  lemma FreeField(g: Guard, key: string, v: Value)
    requires IsGuard(g) && key !in g.keys
    ensures g.ok(key, v)
  {
  }

  lemma FreeName(g: Guard, key: string, v: Value)
    requires IsGuard(g) && (key in STEP_NAMES || key in FIELD_NAMES || key in ExecContext.CORE)
    ensures g.ok(key, v) && key !in g.keys
  {
    assert IsEngineName(key);
  }

  lemma UpdateIsSane(g: Guard, m: Fields, key: string, v: Value)
    requires Sane(g, Object(m)) && Sane(g, v) && g.ok(key, v)
    ensures Sane(g, Object(m[key := v]))
  {
  }

  lemma ContextKeysAreFree(c: ExecContext.Context)
    ensures ExecContext.ToValue(c).Object? && forall k | k in ExecContext.ToValue(c).fields :: IsEngineName(k)
  {
    hide ExecContext.ToValue;
    ExecContext.FieldNames(c);
  }

  lemma FlagsAreSane(g: Guard)
    ensures forall b :: Sane(g, Bool(b))
  {
  }

  lemma ContextFieldsAreSane(g: Guard, c: ExecContext.Context, k: string)
    requires SaneContext(g, c) && k in ExecContext.ToValue(c).fields
    ensures Sane(g, ExecContext.ToValue(c).fields[k])
  {
    hide ExecContext.ToValue, Sane;
    ScalarsAreSane(g);
    ExecContext.FieldNames(c);
    FlagsAreSane(g);
    var v := ExecContext.ToValue(c);
    assert v.Get(k) == Some(v.fields[k]);
    if k in ExecContext.CORE {
      ExecContext.CoreFields(c);
    } else if k in ExecContext.CONFIGURATION {
      ExecContext.ConfigurationFields(c);
    } else {
      ExecContext.DispatchFields(c);
    }
  }

  lemma ContextValueIsSane(g: Guard, c: ExecContext.Context)
    requires IsGuard(g) && SaneContext(g, c)
    ensures Sane(g, ExecContext.ToValue(c))
  {
    hide ExecContext.ToValue, Sane, SaneContext, IsGuard;
    ExecContext.FieldNames(c);
    ContextKeysAreFree(c);
    var v := ExecContext.ToValue(c);
    forall k | k in v.fields ensures Sane(g, v.fields[k]) {
      ContextFieldsAreSane(g, c, k);
    }
    FreeFieldsAreSane(g, v.fields);
  }

  lemma SetIsHealthy(g: Guard, st: State, key: string, v: Value)
    requires Healthy(g, st) && Sane(g, v) && g.ok(key, v)
    ensures Healthy(g, st.Set(key, v))
  {
  }

  lemma PutExecIsHealthy(g: Guard, st: State, c: ExecContext.Context)
    requires IsGuard(g) && Healthy(g, st) && SaneContext(g, c)
    ensures Healthy(g, PutExec(st, c))
  {
    hide ExecContext.ToValue, SaneContext;
    ContextValueIsSane(g, c);
    FreeName(g, EXEC, ExecContext.ToValue(c));
    SetIsHealthy(g, st, EXEC, ExecContext.ToValue(c));
  }

  lemma RecordIsSane(g: Guard, r: AuditRecord)
    requires IsGuard(g)
    ensures Sane(g, RecordToValue(r))
  {
    hide IsGuard, RecordToValue, Sane;
    RecordIsFlat(r);
    var v := RecordToValue(r);
    forall k | k in v.fields ensures Sane(g, v.fields[k]) { FlatIsSane(g, v.fields[k]); }
    FreeFieldsAreSane(g, v.fields);
  }

  lemma RecordIsFlat(r: AuditRecord)
    ensures RecordToValue(r).Object? && RecordToValue(r).fields.Keys <= RECORD_NAMES
    ensures var m := RecordToValue(r).fields; forall k | k in m :: m[k].Str? || m[k].Integer?
  {
  }

  lemma FlatIsSane(g: Guard, v: Value)
    requires v.Str? || v.Integer?
    ensures Sane(g, v)
  {
  }

  lemma {:induction false} RecordsAreSane(g: Guard, records: seq<AuditRecord>)
    requires IsGuard(g)
    ensures forall i | 0 <= i < |RecordsToValue(records)| :: Sane(g, RecordsToValue(records)[i])
  {
    if records != [] {
      RecordIsSane(g, records[0]);
      RecordsAreSane(g, records[1..]);
    }
  }

  lemma ChainValueIsSane(g: Guard, c: AuditChain)
    requires IsGuard(g)
    ensures Sane(g, ChainToValue(c))
  {
    hide RecordsToValue, IsGuard;
    RecordsAreSane(g, c.records);
    var v := ChainToValue(c);
    assert Sane(g, List(RecordsToValue(c.records)));
    assert v.fields.Keys <= CHAIN_NAMES;
    FreeFieldsAreSane(g, v.fields);
  }

  lemma PutChainIsHealthy(g: Guard, st: State, c: AuditChain)
    requires IsGuard(g) && Healthy(g, st)
    ensures Healthy(g, PutChain(st, c))
  {
    hide ChainToValue, Healthy, Sane;
    ChainValueIsSane(g, c);
    FreeName(g, AUDIT_CHAIN, ChainToValue(c));
    SetIsHealthy(g, st, AUDIT_CHAIN, ChainToValue(c));
  }

  lemma InstructionValueIsSane(g: Guard, instr: Instruction)
    requires IsGuard(g) && SaneInstruction(g, instr)
    ensures Sane(g, instr.ToValue())
  {
    var v := instr.ToValue();
    assert v.fields.Keys <= STEP_NAMES;
    forall k | k in v.fields ensures g.ok(k, v.fields[k]) && Sane(g, v.fields[k]) {
      FreeName(g, k, v.fields[k]);
    }
  }

  /** Writing along a path whose segments are free keys. */
  lemma {:induction false} WriteIsSane(g: Guard, m: Fields, parts: seq<string>, value: Value)
    requires IsGuard(g) && Sane(g, Object(m)) && Sane(g, value) && parts != []
    requires forall k | k in parts :: k !in g.keys
    ensures Sane(g, Object(Updated(m, parts, value)))
    decreases |parts|, 2
  {
    hide WithElement, SetElement, ParseIndex, IsGuard, Sane;
    var key := parts[0];
    assert key in parts;
    assert Updated(m, parts, value) == (match SetIn(m, parts, value) case Some(w) => w case None => m);
    match ParseIndex(key)
    case Some(index) => IndexWriteIsSane(g, m, index, value, |parts| == 1); FirstElementIsSane(g, key, index, value);
    case None =>
      if |parts| == 1 {
        FreeField(g, key, value);
        UpdateIsSane(g, m, key, value);
      } else {
        KeyWriteIsSane(g, m, parts, value);
      }
  }

  lemma {:induction false} KeyWriteIsSane(g: Guard, m: Fields, parts: seq<string>, value: Value)
    requires IsGuard(g) && Sane(g, Object(m)) && Sane(g, value) && |parts| > 1 && ParseIndex(parts[0]).None?
    requires forall k | k in parts :: k !in g.keys
    ensures SetIn(m, parts, value).Some? ==> Sane(g, Object(SetIn(m, parts, value).value))
    decreases |parts|, 1
  {
    hide WithElement, SetElement, ParseIndex, IsGuard, Sane, Updated;
    var key := parts[0];
    assert key in parts;
    var found := if key in m then m[key] else Null;
    FieldIsSane(g, m, key);
    ScalarsAreSane(g);
    forall v ensures g.ok(key, v) { FreeField(g, key, v); }
    if found.Object? {
      WriteIsSane(g, found.fields, parts[1..], value);
      UpdateIsSane(g, m, key, Object(Updated(found.fields, parts[1..], value)));
    } else if ParseIndex(parts[1]).Some? {
      var items, j := if found.List? then found.items else [], ParseIndex(parts[1]).value;
      ElementIsSane(g, items, j, parts, value);
      UpdateIsSane(g, m, key, List(WithElement(items, j, parts, value)));
    } else if !found.List? {
      WriteIsSane(g, map[], parts[1..], value);
      UpdateIsSane(g, m, key, Object(Updated(map[], parts[1..], value)));
    }
  }

  lemma FieldIsSane(g: Guard, m: Fields, key: string)
    requires Sane(g, Object(m))
    ensures key in m ==> Sane(g, m[key])
  {
  }

  lemma FirstElementIsSane(g: Guard, key: string, index: nat, value: Value)
    requires IsGuard(g) && Sane(g, value)
    ensures Sane(g, Object(map[key := List(Padded([], index)[index := value])]))
  {
    assert g.ok(key, List(Padded([], index)[index := value]));
  }

  lemma {:induction false} ElementIsSane(g: Guard, items: seq<Value>, j: nat, parts: seq<string>, value: Value)
    requires IsGuard(g) && Sane(g, List(items)) && Sane(g, value) && |parts| >= 2
    requires forall k | k in parts :: k !in g.keys
    ensures Sane(g, List(WithElement(items, j, parts, value)))
    decreases |parts|, 0
  {
    hide IsGuard;
    WithElementAt(items, j, parts, value);
    if |parts| > 2 { WriteIsSane(g, ElementFields(items, j), parts[2..], value); }
  }

  lemma IndexWriteIsSane(g: Guard, m: Fields, index: nat, value: Value, isLast: bool)
    requires IsGuard(g) && Sane(g, Object(m)) && Sane(g, value)
    ensures SetElement(m, index, value, isLast).Some? ==> Sane(g, Object(SetElement(m, index, value, isLast).value))
  {
    hide IsGuard, SetElement, Sane, Padded;
    if SetElement(m, index, value, isLast).Some? {
      var key := SetElementAt(m, index, value, isLast);
      var items := Padded(m[key].items, index)[index := value];
      FieldIsSane(g, m, key);
      ListsPass(g, key, items);
      PaddedIsSane(g, m[key].items, index, value);
      UpdateIsSane(g, m, key, List(items));
    }
  }

  lemma PaddedIsSane(g: Guard, items: seq<Value>, index: nat, value: Value)
    requires Sane(g, List(items)) && Sane(g, value)
    ensures Sane(g, List(Padded(items, index)[index := value]))
  {
  }

  lemma ListsPass(g: Guard, key: string, items: seq<Value>)
    requires IsGuard(g)
    ensures g.ok(key, List(items))
  {
  }
}
