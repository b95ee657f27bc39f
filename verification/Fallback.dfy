/** The fallback, by which instructions of unregistered types are replaced by their cases:
    when it comes to an end. */
module Fallback {
  import opened Values
  import opened Store
  import opened References
  import opened Control
  import opened Audit
  import opened Machine
  import opened Steps
  import opened Engine
  import ExecContext

  /** The table of cases by which the fallback expands unregistered types. */
  function CasesOf(st: State): Fields {
    if ExecOf(st).dispatchCases.Object? then ExecOf(st).dispatchCases.fields else map[]
  }

  /** For each type with a case, the type of the case; None for a case that is malformed. */
  type Kinds = map<string, Option<string>>

  function KindOf(st: State, body: Value): Option<string> {
    match ParseInstruction(ResolveRefs(st, body)) case Ok(i) => Some(i.kind) case Err(_) => None
  }

  function KindsIn(st: State): Kinds {
    map k | k in CasesOf(st) :: KindOf(st, CasesOf(st)[k])
  }

  /** The types of the cases depend on nothing that the fallback changes. */
  ghost predicate KindsFixed(st: State) {
    forall s | CasesOf(s) == CasesOf(st) && Business(s) == Business(st) :: KindsIn(s) == KindsIn(st)
  }

  /** The type an unregistered type is expanded to; None where the fallback ends. */
  function NextType(reg: Registry, kinds: Kinds, t: string): Option<string> {
    if t in reg || t !in kinds || kinds[t] == Some("dispatch") then None else kinds[t]
  }

  /** Following the table from `t` ends within `n` expansions. */
  predicate WalkEnds(reg: Registry, kinds: Kinds, t: string, n: nat)
    decreases n
  {
    match NextType(reg, kinds, t)
    case None => true
    case Some(u) => n > 0 && WalkEnds(reg, kinds, u, n - 1)
  }

  lemma CasesField(st: State)
    ensures match ExecField(st, "dispatch_cases")
            case Some(Object(m)) => CasesOf(st) == m
            case _ => CasesOf(st) == map[]
  {
  }

  /** The metadata of an expanded instruction is written under a name that the typed record does
      not have: nothing comes of it. */
  lemma MetadataIsDropped(st: State, metadata: Value)
    ensures ExecOf(NoteMetadata(st, metadata)) == ExecOf(st) && Business(NoteMetadata(st, metadata)) == Business(st)
  {
    hide ExecContext.Parse, ExecContext.ToValue;
    ExecContext.RoundTrip(ExecOf(st));
    assert Business(PutExec(st, ExecOf(st))) == Business(st);
  }

  lemma NotingKeepsCases(env: Env, st: State, instr: Instruction)
    ensures var noted := NoteMetadata(NoteInstruction(st, instr.ToValue()), instr.metadata);
            CasesOf(noted) == CasesOf(st) && Business(noted) == Business(st)
  {
    hide ExecContext.Parse, ExecContext.ToValue, NoteMetadata;
    var noted := NoteInstruction(st, instr.ToValue());
    NotedExec(st, instr.ToValue());
    MetadataIsDropped(noted, instr.metadata);
    assert Business(noted) == Business(st);
  }

  lemma RecordingKeepsCases(env: Env, st: State, a: string, b: string)
    ensures CasesOf(RecordExpand(env, st, a, b)) == CasesOf(st) && Business(RecordExpand(env, st, a, b)) == Business(st)
  {
    hide ExecContext.Parse, ChainToValue, ExpandedChain, RecordExpand, ParseChain;
    RecordedExpansion(env, st, a, b);
    var c := ExpandedChain(env, st, a, b);
    assert Business(PutChain(st, c)) == Business(st) && PutChain(st, c).Get(EXEC) == st.Get(EXEC);
  }

  lemma ExpandFollowsTable(env: Env, reg: Registry, st: State, instr: Instruction)
    requires KindsFixed(st)
    ensures match Expand(env, reg, st, instr)
            case Expanded(s, i) =>
              CasesOf(s) == CasesOf(st) && Business(s) == Business(st) &&
                NextType(reg, KindsIn(st), instr.kind) == Some(i.kind)
            case _ => NextType(reg, KindsIn(st), instr.kind) == None
  {
    hide CasesOf, ResolveRefs, ParseInstruction, NoteMetadata, NoteInstruction, RecordExpand, Business;
    CasesField(st);
    if instr.kind !in reg && instr.kind in CasesOf(st) {
      var noted := NoteMetadata(NoteInstruction(st, instr.ToValue()), instr.metadata);
      NotingKeepsCases(env, st, instr);
      assert KindsIn(noted)[instr.kind] == KindsIn(st)[instr.kind];
      var next := ParseInstruction(ResolveRefs(noted, CasesOf(st)[instr.kind]));
      if next.Ok? { RecordingKeepsCases(env, noted, instr.kind, next.value.kind); }
    }
  }

  lemma StillFixed(st: State, s: State)
    requires KindsFixed(st) && CasesOf(s) == CasesOf(st) && Business(s) == Business(st)
    ensures KindsFixed(s) && KindsIn(s) == KindsIn(st)
  {
    hide CasesOf, Business, KindsIn;
  }

  lemma {:induction false} SettlesAsTableWalks(env: Env, reg: Registry, st: State, instr: Instruction, n: nat)
    requires KindsFixed(st)
    ensures SettlesIn(env, reg, st, instr, n) <==> WalkEnds(reg, KindsIn(st), instr.kind, n)
    decreases n
  {
    hide Expand, CasesOf, KindsFixed, NextType, KindsIn, Business;
    ExpandFollowsTable(env, reg, st, instr);
    match Expand(env, reg, st, instr)
    case Expanded(s, i) =>
      StillFixed(st, s);
      if n > 0 { SettlesAsTableWalks(env, reg, s, i, n - 1); }
    case _ =>
  }

  lemma {:induction false} WalkEndsLater(reg: Registry, kinds: Kinds, t: string, m: nat, n: nat)
    requires WalkEnds(reg, kinds, t, m) && m <= n
    ensures WalkEnds(reg, kinds, t, n)
    decreases m
  {
    match NextType(reg, kinds, t)
    case Some(u) => WalkEndsLater(reg, kinds, u, m - 1, n - 1);
    case None =>
  }

  ghost predicate EndsExactlyAt(reg: Registry, kinds: Kinds, t: string, n: nat) {
    WalkEnds(reg, kinds, t, n) && (n > 0 ==> !WalkEnds(reg, kinds, t, n - 1))
  }

  /** A walk that ends visits no type twice: as many types of the table as it takes steps. */
  lemma {:induction false} WalkVisitsDistinct(reg: Registry, kinds: Kinds, t: string, n: nat)
    returns (visited: set<string>)
    requires EndsExactlyAt(reg, kinds, t, n)
    ensures visited <= kinds.Keys && |visited| == n
    ensures forall x | x in visited :: exists m: nat :: 0 < m <= n && EndsExactlyAt(reg, kinds, x, m)
    decreases n
  {
    if n == 0 {
      visited := {};
    } else {
      var u := NextType(reg, kinds, t).value;
      var rest := WalkVisitsDistinct(reg, kinds, u, n - 1);
      if t in rest {
        var m: nat :| 0 < m <= n - 1 && EndsExactlyAt(reg, kinds, t, m);
        WalkEndsLater(reg, kinds, t, m, n - 1);
      }
      assert EndsExactlyAt(reg, kinds, t, n);
      visited := rest + {t};
    }
  }

  lemma {:induction false} EndsSomewhere(reg: Registry, kinds: Kinds, t: string, n: nat) returns (m: nat)
    requires WalkEnds(reg, kinds, t, n)
    ensures m <= n && EndsExactlyAt(reg, kinds, t, m)
    decreases n
  {
    if n > 0 && WalkEnds(reg, kinds, t, n - 1) { m := EndsSomewhere(reg, kinds, t, n - 1); } else { m := n; }
  }

  /** A walk through the table ends, if at all, within as many expansions as the table has
      cases. */
  lemma WalkEndsWithinTable(reg: Registry, kinds: Kinds, t: string, n: nat)
    requires WalkEnds(reg, kinds, t, n)
    ensures WalkEnds(reg, kinds, t, |kinds|)
  {
    var m := EndsSomewhere(reg, kinds, t, n);
    var visited := WalkVisitsDistinct(reg, kinds, t, m);
    SubsetIsSmaller(visited, kinds.Keys);
    assert |kinds| == |kinds.Keys|;
    WalkEndsLater(reg, kinds, t, m, |kinds|);
  }

  lemma {:induction false} SubsetIsSmaller(a: set<string>, b: set<string>)
    requires a <= b
    ensures |a| <= |b|
    decreases |b|
  {
    if a != {} {
      var x :| x in a;
      SubsetIsSmaller(a - {x}, b - {x});
    }
  }

  /** Where the types of the cases are fixed, the fallback from an instruction ends exactly
      when following the table ends within as many steps as it has cases. */
  lemma FallbackEndsExactly(env: Env, reg: Registry, st: State, instr: Instruction)
    requires KindsFixed(st)
    ensures Settles(env, reg, st, instr) <==> WalkEnds(reg, KindsIn(st), instr.kind, |CasesOf(st)|)
  {
    hide CasesOf, KindsFixed, WalkEnds, SettlesIn, KindOf;
    var kinds := KindsIn(st);
    assert kinds.Keys == CasesOf(st).Keys && |kinds| == |kinds.Keys| && |CasesOf(st)| == |CasesOf(st).Keys|;
    SettlesAsTableWalks(env, reg, st, instr, |kinds|);
    if Settles(env, reg, st, instr) {
      var n := SettleCount(env, reg, st, instr);
      SettlesAsTableWalks(env, reg, st, instr, n);
      WalkEndsWithinTable(reg, kinds, instr.kind, n);
    }
  }

  /** A type whose case has that same type, unregistered, is expanded for ever. */
  lemma SelfCaseDiverges(env: Env, reg: Registry, st: State, instr: Instruction, c: Ctl)
    requires KindsFixed(st) && instr.kind !in reg && instr.kind != "dispatch" && instr.kind in CasesOf(st)
    requires KindOf(st, CasesOf(st)[instr.kind]) == Some(instr.kind) && c.Refusal().None?
    ensures Execute(env, reg, st, instr, c).out == Diverged
  {
    hide KindsFixed, CasesOf, KindOf, Settles;
    FallbackEndsExactly(env, reg, st, instr);
    SelfCaseNeverEnds(reg, KindsIn(st), instr.kind, |CasesOf(st)|);
  }

  lemma {:induction false} SelfCaseNeverEnds(reg: Registry, kinds: Kinds, t: string, n: nat)
    requires NextType(reg, kinds, t) == Some(t)
    ensures !WalkEnds(reg, kinds, t, n)
  {
    if n > 0 { SelfCaseNeverEnds(reg, kinds, t, n - 1); }
  }

  // ------------------------------------------------------------------------
  // Tables whose types are fixed
  // ------------------------------------------------------------------------

  /** Every case is an object with its type written out. */
  predicate Literal(cases: Fields) {
    forall k | k in cases :: cases[k].GetStr("type").Some?
  }

  function LiteralKinds(cases: Fields): Kinds {
    map k | k in cases :: cases[k].GetStr("type")
  }

  lemma TypedIsPlain(v: Value)
    requires v.Get("type").Some?
    ensures v.Object? && "type" in v.fields && !IsRef(v) && !IsPass(v)
  {
    assert "type" in v.fields.Keys;
    if |v.fields| == 1 { assert |v.fields.Keys - {"type"}| == 0; }
  }

  lemma LiteralKindIs(st: State, body: Value)
    requires body.GetStr("type").Some?
    ensures KindOf(st, body) == body.GetStr("type")
  {
    TypedIsPlain(body);
    assert ResolveAt(st, body, 0).Get("type") == Some(ResolveAt(st, body.fields["type"], 1));
  }

  lemma LiteralIsFixed(st: State)
    requires Literal(CasesOf(st))
    ensures KindsFixed(st) && KindsIn(st) == LiteralKinds(CasesOf(st))
  {
    hide CasesOf, KindOf, Business;
    forall s, k | CasesOf(s) == CasesOf(st) && k in CasesOf(st)
      ensures KindOf(s, CasesOf(st)[k]) == CasesOf(st)[k].GetStr("type")
    {
      LiteralKindIs(s, CasesOf(st)[k]);
    }
  }

  /** The type is written out, or is a reference to a business field with a string in it. */
  predicate TypeFromBusiness(st: State, body: Value) {
    body.GetStr("type").Some? ||
    (body.Get("type").Some? && IsRef(body.Get("type").value) && body.Get("type").value.GetStr(REF).Some? &&
     var path := body.Get("type").value.GetStr(REF).value;
     path != "" && SplitPath(path) != [] && SplitPath(path)[0] !in {EXEC, AUDIT_CHAIN} &&
     GetPath(st, path).Some? && GetPath(st, path).value.Str?)
  }

  lemma BusinessTypeIsFixed(st: State, s: State, body: Value)
    requires TypeFromBusiness(st, body) && Business(s) == Business(st)
    ensures KindOf(s, body) == KindOf(st, body)
  {
    hide SplitPath;
    TypedIsPlain(body);
    if body.GetStr("type").Some? {
      LiteralKindIs(st, body);
      LiteralKindIs(s, body);
    } else {
      var ref := body.fields["type"];
      var path := ref.GetStr(REF).value;
      SameBusinessRead(st, s, SplitPath(path));
      var t := GetPath(st, path).value;
      forall u | u == s || u == st ensures ResolveAt(u, body, 0).Get("type") == Some(t) {
        assert ResolvePath(u, ref) == t;
        assert ResolveAt(u, ref, 1) == ResolveAt(u, t, 2) == t;
        assert ResolveAt(u, body, 0).Get("type") == Some(ResolveAt(u, ref, 1));
      }
    }
  }

  lemma SameBusinessRead(st: State, s: State, parts: seq<string>)
    requires Business(s) == Business(st) && parts != [] && parts[0] !in {EXEC, AUDIT_CHAIN}
    ensures Walk(s.ToValue(), parts) == Walk(st.ToValue(), parts)
  {
    var key := parts[0];
    assert key in Business(st) <==> key in st.data;
    assert key in Business(s) <==> key in s.data;
    assert key in s.data ==> s.data[key] == Business(s)[key] && st.data[key] == Business(st)[key];
  }

  /** So tables with types written out or taken from business fields are among those that
      the result on the fallback is about. */
  lemma BusinessTypesAreFixed(st: State)
    requires forall k | k in CasesOf(st) :: TypeFromBusiness(st, CasesOf(st)[k])
    ensures KindsFixed(st)
  {
    hide CasesOf, KindOf, Business, TypeFromBusiness;
    forall s, k | CasesOf(s) == CasesOf(st) && Business(s) == Business(st) && k in CasesOf(st)
      ensures KindOf(s, CasesOf(st)[k]) == KindOf(st, CasesOf(st)[k])
    {
      BusinessTypeIsFixed(st, s, CasesOf(st)[k]);
    }
  }

  /** A table of types written out that leads from every type to an end. */
  ghost predicate TableSettles(reg: Registry, cases: Fields) {
    Literal(cases) && forall t :: WalkEnds(reg, LiteralKinds(cases), t, |cases|)
  }

  lemma PlainCaseParses(st: State, name: string)
    ensures ParseInstruction(ResolveRefs(st, Object(map["type" := Str(name)]))) == Ok(Simple(name))
  {
    var body := Object(map["type" := Str(name)]);
    assert !IsRef(body) && !IsPass(body);
    assert ResolveAt(st, body, 0).fields["type"] == ResolveAt(st, Str(name), 1) == Str(name);
  }
}
