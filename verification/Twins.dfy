/** States that differ in nothing but auditing, and what programs can see of them that keep
    off the reserved fields: the same values, the same decisions, the same effects. */
module Twins {
  import opened Values
  import opened Store
  import opened References
  import opened Control
  import opened Audit
  import opened Machine
  import opened Guards
  import opened Steps
  import ExecContext
  import Domains

  const AUDIT_ON := "audit_on"

  // ------------------------------------------------------------------------
  // The relation
  // ------------------------------------------------------------------------

  predicate SameBut(x: Option<Value>, y: Option<Value>, key: string) {
    x == y || (x.Some? && y.Some? && x.value.Object? && y.value.Object? &&
      x.value.fields - {key} == y.value.fields - {key})
  }

  /** Equal but for the audit chain, the audit flag and the version. */
  predicate Alike(a: State, b: State) {
    Business(a) == Business(b) && SameBut(a.Get(EXEC), b.Get(EXEC), AUDIT_ON)
  }

  lemma AlikeTransitive(a: State, b: State, c: State)
    requires Alike(a, b) && Alike(b, c)
    ensures Alike(a, c) && Alike(c, a)
  {
  }

  lemma SameFields(a: State, b: State, key: string)
    requires Alike(a, b) && key != EXEC && key != AUDIT_CHAIN
    ensures a.Get(key) == b.Get(key)
  {
    assert key in Business(a) <==> key in a.data;
    assert key in Business(b) <==> key in b.data;
  }

  lemma SameKey(x: Value, y: Value, key: string, dropped: string)
    requires SameBut(Some(x), Some(y), dropped) && key != dropped
    ensures x.Get(key) == y.Get(key)
  {
    if x.Object? && y.Object? {
      assert key in x.fields <==> key in x.fields - {dropped};
      assert key in y.fields <==> key in y.fields - {dropped};
      assert key in x.fields ==> (x.fields - {dropped})[key] == x.fields[key];
      assert key in y.fields ==> (y.fields - {dropped})[key] == y.fields[key];
    }
  }

  lemma SameExecField(a: State, b: State, key: string)
    requires Alike(a, b) && key != AUDIT_ON
    ensures ExecField(a, key) == ExecField(b, key)
  {
    if a.Get(EXEC).Some? && b.Get(EXEC).Some? {
      SameKey(a.Get(EXEC).value, b.Get(EXEC).value, key, AUDIT_ON);
    }
  }

  predicate SameButAudit(x: ExecContext.Context, y: ExecContext.Context) {
    x.(auditOn := false) == y.(auditOn := false)
  }

  lemma AuditFieldParsed(m: Fields, v: Value)
    ensures SameButAudit(ExecContext.Parse(Object(m[AUDIT_ON := v])), ExecContext.Parse(Object(m)))
  {
  }

  lemma ParsedAlike(m: Fields, n: Fields)
    requires m - {AUDIT_ON} == n - {AUDIT_ON}
    ensures SameButAudit(ExecContext.Parse(Object(m)), ExecContext.Parse(Object(n)))
  {
    hide ExecContext.Parse;
    assert m[AUDIT_ON := Null] == (m - {AUDIT_ON})[AUDIT_ON := Null];
    assert n[AUDIT_ON := Null] == (n - {AUDIT_ON})[AUDIT_ON := Null];
    AuditFieldParsed(m, Null);
    AuditFieldParsed(n, Null);
  }

  lemma SameExec(a: State, b: State)
    requires Alike(a, b)
    ensures SameButAudit(ExecOf(a), ExecOf(b))
  {
    hide ExecContext.Parse;
    if a.Get(EXEC) != b.Get(EXEC) {
      ParsedAlike(a.Get(EXEC).value.fields, b.Get(EXEC).value.fields);
    }
  }

  lemma AuditFieldOnly(c: ExecContext.Context, on: bool)
    ensures ExecContext.ToValue(c.(auditOn := on)).fields == ExecContext.ToValue(c).fields[AUDIT_ON := Bool(on)]
  {
  }

  lemma SameContextValue(x: ExecContext.Context, y: ExecContext.Context)
    requires SameButAudit(x, y)
    ensures SameBut(Some(ExecContext.ToValue(x)), Some(ExecContext.ToValue(y)), AUDIT_ON)
  {
    hide ExecContext.ToValue;
    AuditFieldOnly(x, y.auditOn);
    assert x.(auditOn := y.auditOn) == y;
    ContextIsObject(x);
    ContextIsObject(y);
    var m, n := ExecContext.ToValue(x).fields, ExecContext.ToValue(y).fields;
    assert n == m[AUDIT_ON := Bool(y.auditOn)];
    assert m - {AUDIT_ON} == n - {AUDIT_ON};
  }

  lemma ContextIsObject(x: ExecContext.Context)
    ensures ExecContext.ToValue(x).Object?
  {
  }

  lemma SetAlike(a: State, b: State, key: string, v: Value)
    requires Alike(a, b) && key != EXEC && key != AUDIT_CHAIN
    ensures Alike(a.Set(key, v), b.Set(key, v))
  {
    assert Business(a.Set(key, v)) == Business(a)[key := v];
    assert Business(b.Set(key, v)) == Business(b)[key := v];
  }

  lemma SetExecAlike(a: State, b: State, x: Value, y: Value)
    requires Alike(a, b) && SameBut(Some(x), Some(y), AUDIT_ON)
    ensures Alike(a.Set(EXEC, x), b.Set(EXEC, y))
  {
    assert Business(a.Set(EXEC, x)) == Business(a);
    assert Business(b.Set(EXEC, y)) == Business(b);
  }

  lemma PutExecAlike(a: State, b: State, x: ExecContext.Context, y: ExecContext.Context)
    requires Alike(a, b) && SameButAudit(x, y)
    ensures Alike(PutExec(a, x), PutExec(b, y))
  {
    hide ExecContext.ToValue, Alike, SameBut;
    SameContextValue(x, y);
    SetExecAlike(a, b, ExecContext.ToValue(x), ExecContext.ToValue(y));
  }

  lemma PutChainAlike(st: State, c: AuditChain)
    ensures Alike(st, PutChain(st, c)) && Alike(PutChain(st, c), st)
  {
    hide ChainToValue;
    assert Business(PutChain(st, c)) == Business(st);
  }

  /** Any one of the updates of `__exec__` on both. */
  lemma SettersAlike(a: State, b: State, queue: seq<Value>, v: Value, flag: bool, s: string)
    requires Alike(a, b)
    ensures Alike(SetQueue(a, queue), SetQueue(b, queue))
    ensures Alike(SetCurrent(a, v), SetCurrent(b, v))
    ensures Alike(SetRunning(a, flag), SetRunning(b, flag))
    ensures Alike(SetSource(a, s), SetSource(b, s))
    ensures Alike(SetHashes(a, v), SetHashes(b, v))
    ensures Alike(SetTruncated(a, flag), SetTruncated(b, flag))
  {
    hide ExecOf, PutExec, Alike;
    SameExec(a, b);
    var x, y := ExecOf(a), ExecOf(b);
    PutExecAlike(a, b, x.(queue := List(queue)), y.(queue := List(queue)));
    PutExecAlike(a, b, x.(instruction := v), y.(instruction := v));
    PutExecAlike(a, b, x.(running := flag), y.(running := flag));
    PutExecAlike(a, b, x.(traceSource := Str(s)), y.(traceSource := Str(s)));
    PutExecAlike(a, b, x.(dispatchHashes := v), y.(dispatchHashes := v));
    PutExecAlike(a, b, x.(terminatedByMaxSteps := flag), y.(terminatedByMaxSteps := flag));
  }

  // ------------------------------------------------------------------------
  // Reading
  // ------------------------------------------------------------------------

  /** A path that reads neither the chain, nor the audit flag, nor a whole that holds one. */
  predicate SafeRead(path: string) {
    path != "" &&
    var parts := SplitPath(path);
    parts != [] && parts[0] != AUDIT_CHAIN && (parts[0] == EXEC ==> |parts| >= 2 && parts[1] != AUDIT_ON)
  }

  /** A place for error messages that is found without looking at the chain: an index would
      go into whatever single list there is. */
  predicate KeyLedPlace(path: string) {
    |SplitPath(path)| <= 1 || ParseIndex(SplitPath(path)[0]).None?
  }

  ghost predicate ReadGuard(g: Guard) {
    AttrGuard(g) && RestrictsTo(g, "error_attr", KeyLedPlace) &&
    RestrictsTo(g, REF, SafeRead) && RestrictsTo(g, "attribute", SafeRead)
  }

  lemma WalkAlike(a: State, b: State, parts: seq<string>)
    requires Alike(a, b) && parts != [] && parts[0] != AUDIT_CHAIN
    requires parts[0] == EXEC ==> |parts| >= 2 && parts[1] != AUDIT_ON
    ensures Walk(a.ToValue(), parts) == Walk(b.ToValue(), parts)
  {
    hide Alike;
    var key := parts[0];
    if key == EXEC {
      SameExecs(a, b);
      if a.Get(EXEC) != b.Get(EXEC) {
        var x, y := a.Get(EXEC).value, b.Get(EXEC).value;
        SameKey(x, y, parts[1], AUDIT_ON);
        assert Walk(x, parts[1..]) == Walk(y, parts[1..]);
      }
    } else {
      SameFields(a, b, key);
    }
  }

  lemma SameExecs(a: State, b: State)
    requires Alike(a, b)
    ensures SameBut(a.Get(EXEC), b.Get(EXEC), AUDIT_ON)
  {
  }

  lemma ReadAlike(a: State, b: State, path: string)
    requires Alike(a, b) && SafeRead(path)
    ensures GetPath(a, path) == GetPath(b, path) && ResolveRefPath(a, path) == ResolveRefPath(b, path)
  {
    hide Alike, SplitPath, Walk;
    WalkAlike(a, b, SplitPath(path));
  }

  lemma ResolvePathAlike(g: Guard, a: State, b: State, v: Value)
    requires ReadGuard(g) && Alike(a, b) && Sane(g, v)
    ensures ResolvePath(a, v) == ResolvePath(b, v)
  {
    hide Alike, AttrGuard, SafeRead;
    match v.GetStr(REF)
    case Some(path) =>
      assert g.ok(REF, Str(path)) && PlaceOk(SafeRead, g.kin(REF), Str(path));
      ReadAlike(a, b, path);
    case None =>
  }

  lemma ResolvePassAlike(a: State, b: State, v: Value)
    requires Alike(a, b)
    ensures PassedParams(a) == PassedParams(b) && ResolvePass(a, v) == ResolvePass(b, v)
  {
    hide Alike;
    SameExecField(a, b, "instruction");
  }

  lemma {:induction false} ResolutionAlike(g: Guard, a: State, b: State, v: Value, depth: nat)
    requires ReadGuard(g) && Alike(a, b) && Healthy(g, a) && Sane(g, v)
    ensures ResolveAt(a, v, depth) == ResolveAt(b, v, depth)
    decreases MAX_REF_DEPTH + 1 - depth
  {
    hide Alike, ReadGuard, Healthy, ResolvePath, ResolvePass;
    if depth > MAX_REF_DEPTH {
    } else if IsRef(v) {
      ResolvePathAlike(g, a, b, v);
      ResolvePathIsSane(g, a, v);
      ResolutionAlike(g, a, b, ResolvePath(a, v), depth + 1);
    } else if IsPass(v) {
      ResolvePassAlike(a, b, v);
    } else {
      match v
      case Object(m) =>
        forall k | k in m ensures ResolveAt(a, m[k], depth + 1) == ResolveAt(b, m[k], depth + 1) {
          ResolutionAlike(g, a, b, m[k], depth + 1);
        }
        assert (map k | k in m :: ResolveAt(a, m[k], depth + 1)) == (map k | k in m :: ResolveAt(b, m[k], depth + 1));
      case List(items) =>
        forall i | 0 <= i < |items| ensures ResolveAt(a, items[i], depth + 1) == ResolveAt(b, items[i], depth + 1) {
          ResolutionAlike(g, a, b, items[i], depth + 1);
        }
        assert ResolveAt(a, v, depth).items == ResolveAt(b, v, depth).items;
      case _ =>
    }
  }

  lemma CaseAlike(g: Guard, a: State, b: State, body: Value, tag: string)
    requires ReadGuard(g) && Alike(a, b) && Healthy(g, a) && Sane(g, body)
    ensures ResolveRefs(a, body) == ResolveRefs(b, body) && PlanCase(a, body, tag) == PlanCase(b, body, tag)
  {
    hide Alike, ReadGuard, Healthy, ResolveAt, Sane;
    ResolutionAlike(g, a, b, body, 0);
  }

  lemma TextAlike(g: Guard, a: State, b: State, instr: Instruction, key: string, default: string)
    requires ReadGuard(g) && Alike(a, b) && SaneInstruction(g, instr)
    ensures TextParam(a, instr, key, default) == TextParam(b, instr, key, default)
  {
    hide Alike, ReadGuard, ResolvePath, SaneInstruction;
    ParamIsSane(g, instr, key);
    if instr.Param(key).Some? { ResolvePathAlike(g, a, b, instr.Param(key).value); }
  }

  // ------------------------------------------------------------------------
  // Domains
  // ------------------------------------------------------------------------

  ghost predicate SafeDomain(d: Domains.Domain) {
    match d
    case Atom(attribute, _, _) => SafeRead(attribute)
    case And(parts) => forall i | 0 <= i < |parts| :: SafeDomain(parts[i])
    case Or(parts) => forall i | 0 <= i < |parts| :: SafeDomain(parts[i])
    case Not(inner) => SafeDomain(inner)
    case _ => true
  }

  ghost predicate SafeDomains(ds: seq<Domains.Domain>) {
    forall i | 0 <= i < |ds| :: SafeDomain(ds[i])
  }

  lemma AtomIsSafe(g: Guard, v: Value)
    requires ReadGuard(g) && Sane(g, v)
    ensures Domains.ParseAtom(v).Ok? ==> SafeDomain(Domains.ParseAtom(v).value)
  {
    hide SafeRead, ReadGuard, Domains.ParseRelOp;
    if Domains.ParseAtom(v).Ok? {
      var s := v.GetStr("attribute").value;
      assert g.ok("attribute", Str(s));
      AttributeIsSafe(g, s);
    }
  }

  lemma AttributeIsSafe(g: Guard, s: string)
    requires ReadGuard(g) && g.ok("attribute", Str(s))
    ensures SafeRead(s)
  {
    hide SafeRead, AttrGuard, Restrictable;
    assert PlaceOk(SafeRead, g.kin("attribute"), Str(s));
  }

  lemma {:induction false} ParsedDomainIsSafe(g: Guard, v: Value)
    requires ReadGuard(g) && Sane(g, v)
    ensures Domains.ParseDomain(v).Ok? ==> SafeDomain(Domains.ParseDomain(v).value)
    decreases v, 1
  {
    hide ReadGuard, Sane;
    if v.Object? { ParsedObjectIsSafe(g, v); }
  }

  lemma {:induction false} ParsedObjectIsSafe(g: Guard, v: Value)
    requires ReadGuard(g) && Sane(g, v) && v.Object?
    ensures Domains.ParseObject(v).Ok? ==> SafeDomain(Domains.ParseObject(v).value)
    decreases v, 0, 1
  {
    hide ReadGuard, Domains.ParseAtom, Domains.ParseParts, Domains.ParseDomain;
    AtomIsSafe(g, v);
    ParsedPartsAreSafe(g, v);
    if "inner" in v.fields { ParsedDomainIsSafe(g, v.fields["inner"]); }
  }

  lemma {:induction false} ParsedPartsAreSafe(g: Guard, v: Value)
    requires ReadGuard(g) && Sane(g, v) && v.Object?
    ensures Domains.ParseParts(v).Ok? ==> SafeDomains(Domains.ParseParts(v).value)
    decreases v, 0, 0
  {
    hide ReadGuard, Domains.ParseDomain, Domains.ParseAll;
    if "domains" in v.fields {
      match v.fields["domains"]
      case List(items) =>
        assert Sane(g, v.fields["domains"]);
        ParsedItemsAreSafe(g, items);
      case _ =>
    } else if "left" in v.fields && "right" in v.fields {
      ParsedDomainIsSafe(g, v.fields["left"]);
      ParsedDomainIsSafe(g, v.fields["right"]);
    }
  }

  lemma {:induction false} ParsedItemsAreSafe(g: Guard, items: seq<Value>)
    requires ReadGuard(g) && Sane(g, List(items))
    ensures Domains.ParseAll(items).Ok? ==> SafeDomains(Domains.ParseAll(items).value)
    decreases items, 0, 0
  {
    hide ReadGuard, Domains.ParseDomain;
    if items != [] {
      ParsedDomainIsSafe(g, items[0]);
      ParsedItemsAreSafe(g, items[1..]);
    }
  }

  lemma SameType(a: State, b: State)
    requires Alike(a, b)
    ensures Domains.CurrentType(a) == Domains.CurrentType(b)
  {
    hide Alike;
    SameExecField(a, b, "instruction");
  }

  lemma {:induction false} DomainAlike(ops: Domains.FloatOps, d: Domains.Domain, a: State, b: State, depth: nat)
    requires Alike(a, b) && SafeDomain(d)
    ensures Domains.ContainsAt(ops, d, a, depth) == Domains.ContainsAt(ops, d, b, depth)
    decreases d
  {
    hide Alike, SafeRead, GetPath, Domains.Apply, Domains.CurrentType;
    if depth <= Domains.MAX_DOMAIN_DEPTH {
      match d
      case Atom(attribute, _, _) => ReadAlike(a, b, attribute);
      case And(parts) =>
        forall i | 0 <= i < |parts|
          ensures Domains.ContainsAt(ops, parts[i], a, depth + 1) == Domains.ContainsAt(ops, parts[i], b, depth + 1)
        {
          DomainAlike(ops, parts[i], a, b, depth + 1);
        }
      case Or(parts) =>
        forall i | 0 <= i < |parts|
          ensures Domains.ContainsAt(ops, parts[i], a, depth + 1) == Domains.ContainsAt(ops, parts[i], b, depth + 1)
        {
          DomainAlike(ops, parts[i], a, b, depth + 1);
        }
      case Not(inner) => DomainAlike(ops, inner, a, b, depth + 1);
      case OfType(_) => SameType(a, b);
      case _ =>
    }
  }

  lemma TerminatesAlike(env: Env, g: Guard, a: State, b: State, domain: Value)
    requires ReadGuard(g) && Alike(a, b) && Sane(g, domain)
    ensures Terminates(env, domain, a) == Terminates(env, domain, b)
  {
    hide Alike, Domains.ParseDomain, Domains.ContainsAt, ReadGuard, Sane;
    ParsedDomainIsSafe(g, domain);
    if Domains.ParseDomain(domain).Ok? { DomainAlike(env.floats, Domains.ParseDomain(domain).value, a, b, 0); }
  }

  lemma ConditionAlike(env: Env, g: Guard, a: State, b: State, condition: Option<Value>)
    requires ReadGuard(g) && Alike(a, b) && Healthy(g, a) && (condition.Some? ==> Sane(g, condition.value))
    ensures CheckCondition(env, a, condition) == CheckCondition(env, b, condition)
  {
    hide Alike, Domains.ParseDomain, Domains.ContainsAt, ReadGuard, Sane, ExecOf, ResolveAt, Healthy;
    match condition
    case None => SameExec(a, b);
    case Some(v) =>
      ResolutionAlike(g, a, b, v, 0);
      ParsedDomainIsSafe(g, v);
      if Domains.ParseDomain(v).Ok? { DomainAlike(env.floats, Domains.ParseDomain(v).value, a, b, 0); }
  }

  // ------------------------------------------------------------------------
  // Primitives
  // ------------------------------------------------------------------------

  lemma AdvanceAlike(env: Env, g: Guard, a: State, b: State)
    requires ReadGuard(g) && Alike(a, b) && Healthy(g, a)
    ensures Alike(Advance(env, a), Advance(env, b))
  {
    hide Alike, ReadGuard, ExecOf, Healthy, Sane, SetQueue, SetCurrent, SetRunning, Terminates, ExecField;
    SameExec(a, b);
    SameExecField(a, b, "default_instruction");
    var queue := QueueOf(ExecOf(a));
    ExecIsSane(g, a);
    if queue == [] {
      var injected := match ExecField(a, "default_instruction") case Some(v) => v case None => NoopInstruction;
      SettersAlike(a, b, [], injected, false, "");
      var x, y := SetCurrent(a, injected), SetCurrent(b, injected);
      SettersAlike(x, y, [], Null, false, "");
      TerminatesAlike(env, g, x, y, ExecOf(a).terminationDomain);
    } else {
      SettersAlike(a, b, queue[1..], Null, false, "");
      SettersAlike(SetQueue(a, queue[1..]), SetQueue(b, queue[1..]), [], queue[0], false, "");
    }
  }

  /** Both succeed with states alike, or fail with the same error. */
  ghost predicate AlikeResults(x: Result<State>, y: Result<State>) {
    match (x, y)
    case (Ok(s), Ok(t)) => Alike(s, t)
    case (Err(e), Err(f)) => e == f
    case _ => false
  }

  lemma DispatchableAlike(reg: Registry, a: State, b: State, v: Value)
    requires Alike(a, b)
    ensures Dispatchable(reg, a, v) == Dispatchable(reg, b, v)
  {
    hide Alike, ExecField;
    SameExecField(a, b, "dispatch_cases");
  }

  lemma PushAlike(reg: Registry, a: State, b: State, instr: Instruction)
    requires Alike(a, b)
    ensures AlikeResults(Push(reg, a, instr), Push(reg, b, instr))
  {
    hide Alike, ExecOf, SetQueue, Dispatchable;
    SameExec(a, b);
    var v := Object(instr.params).GetOr("instruction", EmptyObject);
    DispatchableAlike(reg, a, b, v);
    SettersAlike(a, b, QueueOf(ExecOf(a)) + [v], Null, false, "");
  }

  lemma PushSequenceAlike(reg: Registry, a: State, b: State, instr: Instruction)
    requires Alike(a, b)
    ensures AlikeResults(PushSequence(reg, a, instr), PushSequence(reg, b, instr))
  {
    hide Alike, ExecOf, SetQueue, AllDispatchable;
    SameExec(a, b);
    var v := Object(instr.params).GetOr("instructions", EmptyList);
    var items := if v.List? then v.items else [v];
    AllDispatchableAlike(reg, a, b, items);
    SettersAlike(a, b, QueueOf(ExecOf(a)) + items, Null, false, "");
  }

  lemma AllDispatchableAlike(reg: Registry, a: State, b: State, items: seq<Value>)
    requires Alike(a, b)
    ensures AllDispatchable(reg, a, items) == AllDispatchable(reg, b, items)
  {
    hide Alike, Dispatchable;
    forall i | 0 <= i < |items| ensures Dispatchable(reg, a, items[i]) == Dispatchable(reg, b, items[i]) {
      DispatchableAlike(reg, a, b, items[i]);
    }
  }

  lemma PlanDispatchAlike(env: Env, g: Guard, a: State, b: State, instr: Instruction)
    requires ReadGuard(g) && Alike(a, b) && Healthy(g, a) && SaneInstruction(g, instr)
    ensures PlanDispatch(env, a, instr) == PlanDispatch(env, b, instr)
  {
    hide Alike, ReadGuard, Healthy, ResolvePath, DispatchKey, PlanCase, ExecField, SaneInstruction, SaneContext, ExecOf;
    SameExecField(a, b, "dispatch_cases");
    SameExecField(a, b, "dispatch_default");
    ParamIsSane(g, instr, "key");
    ParamIsSane(g, instr, "cases");
    ParamIsSane(g, instr, "default");
    ExecIsSane(g, a);
    ScalarsAreSane(g);
    if instr.Param("key").Some? { ResolvePathAlike(g, a, b, instr.Param("key").value); }
    forall body, tag | Sane(g, body) ensures PlanCase(a, body, tag) == PlanCase(b, body, tag) {
      CaseAlike(g, a, b, body, tag);
    }
  }

  lemma HashAlike(env: Env, a: State, b: State)
    requires Alike(a, b)
    ensures StateHash(env, a) == StateHash(env, b)
  {
    hide ContentHash;
    var system := {EXEC, AUDIT_CHAIN, AUDIT_TRACE, PROVENANCE};
    assert a.data - system == Business(a) - system;
    assert b.data - system == Business(b) - system;
  }

  lemma FinishAlike(env: Env, a: State, b: State, x: State, y: State, tag: string)
    requires Alike(a, b) && Alike(x, y)
    ensures Alike(FinishDispatch(env, a, x, tag), FinishDispatch(env, b, y, tag))
  {
    hide Alike, ExecOf, SetQueue, SetHashes, StateHash;
    HashAlike(env, a, b);
    HashAlike(env, x, y);
    var hashes := Object(map[
      "before_hash" := Str(StateHash(env, a)),
      "after_hash" := Str(StateHash(env, x)),
      "case_key" := Str(tag)]);
    SettersAlike(x, y, [], hashes, false, "");
    var s, t := SetHashes(x, hashes), SetHashes(y, hashes);
    SameExec(s, t);
    SettersAlike(s, t, QueueOf(ExecOf(s)) + [AdvanceInQueue], Null, false, "");
  }

  lemma NoteAlike(a: State, b: State, v: Value, metadata: Value)
    requires Alike(a, b)
    ensures Alike(NoteInstruction(a, v), NoteInstruction(b, v))
    ensures Alike(NoteMetadata(a, metadata), NoteMetadata(b, metadata))
  {
    hide ExecOf, PutExec;
    SameExec(a, b);
    PutExecAlike(a, b, ExecOf(a), ExecOf(b));
    var m := match a.Get(EXEC) case Some(Object(m)) => m case _ => map[];
    var n := match b.Get(EXEC) case Some(Object(n)) => n case _ => map[];
    assert m - {AUDIT_ON} == n - {AUDIT_ON};
    assert m["instruction" := v] - {AUDIT_ON} == (m - {AUDIT_ON})["instruction" := v];
    assert n["instruction" := v] - {AUDIT_ON} == (n - {AUDIT_ON})["instruction" := v];
    SetExecAlike(a, b, Object(m["instruction" := v]), Object(n["instruction" := v]));
  }

  lemma RecordExpandAlike(env: Env, a: State, b: State, original: string, expanded: string)
    requires Alike(a, b)
    ensures Alike(RecordExpand(env, a, original, expanded), RecordExpand(env, b, original, expanded))
  {
    hide Alike, Append, PutChain, ChainOf;
    RecordExpandIsAlike(env, a, original, expanded);
    RecordExpandIsAlike(env, b, original, expanded);
    AlikeTransitive(RecordExpand(env, a, original, expanded), a, b);
    AlikeTransitive(RecordExpand(env, a, original, expanded), b, RecordExpand(env, b, original, expanded));
  }

  lemma RecordExpandIsAlike(env: Env, st: State, original: string, expanded: string)
    ensures Alike(st, RecordExpand(env, st, original, expanded)) && Alike(RecordExpand(env, st, original, expanded), st)
  {
    hide Append, ChainOf, PutChain, ExecOf, ContentHash;
    if ChainOf(st).Some? && ExecOf(st).auditOn {
      var chain := ChainOf(st).value;
      var hash := ContentHash(env.digests, [st.BusinessSnapshot()]);
      var ticked := chain.(logicalTick := AsU64(chain.logicalTick + 1));
      PutChainAlike(st, Append(env.digests, ticked, "dispatch_expand:" + original, chain.logicalTick, hash, hash,
                               Some("dispatch_expand: " + original + " \U{2192} " + expanded)));
    }
  }

  lemma ExpandAlike(env: Env, reg: Registry, g: Guard, a: State, b: State, instr: Instruction)
    requires ReadGuard(g) && Alike(a, b) && Healthy(g, a) && SaneInstruction(g, instr)
    ensures match (Expand(env, reg, a, instr), Expand(env, reg, b, instr))
            case (Registered(p), Registered(q)) => p == q
            case (Refused(e), Refused(f)) => e == f
            case (Expanded(s, i), Expanded(t, j)) => i == j && Alike(s, t)
            case _ => false
  {
    hide Alike, ReadGuard, Healthy, ExecField, NoteInstruction, NoteMetadata, RecordExpand, ResolveRefs,
         SaneInstruction, ParseInstruction, Instruction.ToValue, SaneContext, PlanCase;
    SameExecField(a, b, "dispatch_cases");
    match ExecField(a, "dispatch_cases")
    case Some(Object(cases)) =>
      if instr.kind in cases && instr.kind !in reg {
        var s, t := NoteInstruction(a, instr.ToValue()), NoteInstruction(b, instr.ToValue());
        NoteAlike(a, b, instr.ToValue(), Null);
        NoteAlike(s, t, Null, instr.metadata);
        NotedInstructionIsHealthy(env, g, a, instr);
        ExecIsSane(g, a);
        assert Sane(g, cases[instr.kind]);
        var x, y := NoteMetadata(s, instr.metadata), NoteMetadata(t, instr.metadata);
        CaseAlike(g, x, y, cases[instr.kind], "");
        var next := ParseInstruction(ResolveRefs(x, cases[instr.kind]));
        if next.Ok? { RecordExpandAlike(env, x, y, instr.kind, next.value.kind); }
      }
    case _ =>
  }

  lemma NotedInstructionIsHealthy(env: Env, g: Guard, st: State, instr: Instruction)
    requires ReadGuard(g) && Healthy(g, st) && SaneInstruction(g, instr)
    ensures Healthy(g, NoteMetadata(NoteInstruction(st, instr.ToValue()), instr.metadata))
  {
    hide Healthy, NoteInstruction, NoteMetadata, IsGuard;
    assert IsGuard(g);
    InstructionValueIsSane(g, instr);
    var s := NoteInstruction(st, instr.ToValue());
    NoteInstructionSteps(env, g, false, st, 0, instr.ToValue());
    StepIsHealthy(env, g, false, st, 0, s, 0);
    NoteMetadataSteps(env, g, s, 0, instr.metadata);
    StepIsHealthy(env, g, false, s, 0, NoteMetadata(s, instr.metadata), 0);
  }

  /** The same step of the drain, on states alike. */
  ghost predicate AlikePlans(x: DrainStep, y: DrainStep) {
    match (x, y)
    case (Stop(s), Stop(t)) => Alike(s, t)
    case (Broken(e), Broken(f)) => e == f
    case (RunMeta(s, i), RunMeta(t, j)) => Alike(s, t) && i == j
    case (Land(s), Land(t)) => Alike(s, t)
    case (Idle(s), Idle(t)) => Alike(s, t)
    case _ => false
  }

  lemma PlanDrainAlike(a: State, b: State, metaTypes: seq<string>)
    requires Alike(a, b)
    ensures AlikePlans(PlanDrain(a, metaTypes), PlanDrain(b, metaTypes))
  {
    hide Alike, ExecOf, SetQueue, SetCurrent, SetSource, ParseInstruction;
    SameExec(a, b);
    var exec := ExecOf(a);
    SettersAlike(a, b, [], Null, false, "advance");
    if exec.queue.List? && exec.queue.items != [] {
      var first, rest := exec.queue.items[0], exec.queue.items[1..];
      SettersAlike(a, b, rest, Null, false, "");
      var x, y := SetQueue(a, rest), SetQueue(b, rest);
      SettersAlike(x, y, [], first, false, "drain_meta:" + TextOr(first.GetStr("type"), ""));
      SettersAlike(SetCurrent(x, first), SetCurrent(y, first), [], Null, false, "queue_pop");
    }
  }

  // ------------------------------------------------------------------------
  // Errors and merges
  // ------------------------------------------------------------------------

  lemma WriteAtHead(m: Fields, n: Fields, parts: seq<string>, value: Value)
    requires parts != [] && ParseIndex(parts[0]).None?
    requires parts[0] in m <==> parts[0] in n
    requires parts[0] in m ==> m[parts[0]] == n[parts[0]]
    ensures SetIn(m, parts, value).Some? == SetIn(n, parts, value).Some?
    ensures SetIn(m, parts, value).Some? ==>
              parts[0] in SetIn(m, parts, value).value && parts[0] in SetIn(n, parts, value).value &&
              SetIn(m, parts, value).value == m[parts[0] := SetIn(m, parts, value).value[parts[0]]] &&
              SetIn(n, parts, value).value == n[parts[0] := SetIn(m, parts, value).value[parts[0]]]
  {
    hide Updated, WithElement, ParseIndex;
  }

  lemma NoteErrorAlike(a: State, b: State, path: string, v: Value)
    requires Alike(a, b) && SafeAttr({}, path) && KeyLedPlace(path)
    ensures AlikeResults(SetPath(a, path, v), SetPath(b, path, v))
  {
    hide Alike, SplitPath, SetIn, ParseIndex;
    var parts := SplitPath(path);
    if path == "" {
      SetAlike(a, b, "", v);
    } else if |parts| == 1 {
      SetAlike(a, b, parts[0], v);
    } else if 1 < |parts| <= MAX_PATH_DEPTH {
      SameFields(a, b, parts[0]);
      WriteAtHead(a.data, b.data, parts, v);
      if SetIn(a.data, parts, v).Some? {
        SetAlike(a, b, parts[0], SetIn(a.data, parts, v).value[parts[0]]);
      }
    }
  }

  ghost predicate AllAlike(xs: seq<State>, ys: seq<State>) {
    |xs| == |ys| && forall i | 0 <= i < |xs| :: Alike(xs[i], ys[i])
  }

  lemma ChangesAlike(a: State, b: State, x: State, y: State, k: string)
    requires Alike(a, b) && Alike(x, y) && k !in MERGE_SYSTEM_FIELDS
    ensures Changes(a, x, k) == Changes(b, y, k) && x.Get(k) == y.Get(k)
  {
    hide Alike;
    SameFields(a, b, k);
    SameFields(x, y, k);
  }

  lemma {:induction false} WriterAlike(a: State, b: State, xs: seq<State>, ys: seq<State>, k: string)
    requires Alike(a, b) && AllAlike(xs, ys) && k !in MERGE_SYSTEM_FIELDS
    ensures LastWriter(a, xs, k) == LastWriter(b, ys, k)
    decreases |xs|
  {
    hide Alike, Changes;
    if xs != [] {
      var last := |xs| - 1;
      ChangesAlike(a, b, xs[last], ys[last], k);
      WriterAlike(a, b, xs[..last], ys[..last], k);
    }
  }
}
