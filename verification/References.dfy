/** `$ref` and `$pass`: filling a value in from the state.

    Main results: the output is free of references for every input exactly when the passed
    parameters are (`NormalFormExactly`); resolving twice is resolving once; and the
    depth-bounded function computes unbounded resolution wherever that takes at most 64
    levels, while a chain of references that is longer, or a cycle, gives null.
 */
module References {
  import opened Values
  import opened Store

  const MAX_REF_DEPTH := 64

  const REF := "$ref"
  const PASS := "$pass"

  /** `p` holds of `v` and of every value nested in it. */
  ghost predicate Everywhere(p: Value -> bool, v: Value) {
    p(v) &&
    match v
    case List(items) => forall i | 0 <= i < |items| :: Everywhere(p, items[i])
    case Object(m) => forall k | k in m :: Everywhere(p, m[k])
    case _ => true
  }

  lemma {:induction false} WalkStaysInside(p: Value -> bool, v: Value, parts: seq<string>)
    requires Everywhere(p, v)
    ensures Walk(v, parts).Some? ==> Everywhere(p, Walk(v, parts).value)
    decreases |parts|
  {
    if parts != [] {
      match v
      case Object(m) => if parts[0] in m { WalkStaysInside(p, m[parts[0]], parts[1..]); }
      case List(items) =>
        var i := ParseIndex(parts[0]);
        if i.Some? && i.value < |items| { WalkStaysInside(p, items[i.value], parts[1..]); }
      case _ =>
    }
  }

  lemma GetPathStaysInside(p: Value -> bool, st: State, path: string)
    requires Everywhere(p, st.ToValue())
    ensures GetPath(st, path).Some? ==> Everywhere(p, GetPath(st, path).value)
  {
    if path != "" { WalkStaysInside(p, st.ToValue(), SplitPath(path)); }
  }

  // ------------------------------------------------------------------------
  // One reference
  // ------------------------------------------------------------------------

  function ResolveRefPath(st: State, path: string): Value {
    if path == "" then st.ToValue()
    else
      match GetPath(st, path) case Some(v) => v case None => Null
  }

  /** An object with a `$ref` string, whatever else it holds, stands for the value there. */
  function ResolvePath(st: State, v: Value): Value {
    match v.GetStr(REF)
    case Some(path) => ResolveRefPath(st, path)
    case None => v
  }

  /** The parameters of the current instruction, `__exec__.instruction.params`. */
  function PassedParams(st: State): Value {
    match st.Get(EXEC)
    case None => EmptyObject
    case Some(exec) =>
      match exec.Get("instruction")
      case None => EmptyObject
      case Some(instr) => instr.GetOr("params", EmptyObject)
  }

  function ResolvePass(st: State, v: Value): Value {
    match v.GetStr(PASS)
    case Some(field) => if field == "" then PassedParams(st) else PassedParams(st).GetOr(field, Null)
    case None => PassedParams(st)
  }

  predicate IsRef(v: Value) {
    v.Object? && REF in v.fields && |v.fields| == 1
  }

  predicate IsPass(v: Value) {
    v.Object? && PASS in v.fields && |v.fields| == 1
  }

  predicate NotRef(v: Value) {
    !IsRef(v)
  }

  predicate NotPass(v: Value) {
    !IsPass(v)
  }

  // ------------------------------------------------------------------------
  // Deep resolution
  // ------------------------------------------------------------------------

  function ResolveAt(st: State, v: Value, depth: nat): Value
    decreases MAX_REF_DEPTH + 1 - depth
  {
    if depth > MAX_REF_DEPTH then Null
    else if IsRef(v) then ResolveAt(st, ResolvePath(st, v), depth + 1)
    else if IsPass(v) then ResolvePass(st, v)
    else
      match v
      case Object(m) => Object(map k | k in m :: ResolveAt(st, m[k], depth + 1))
      case List(items) => List(seq(|items|, i requires 0 <= i < |items| => ResolveAt(st, items[i], depth + 1)))
      case _ => v
  }

  function ResolveRefs(st: State, v: Value): Value {
    ResolveAt(st, v, 0)
  }

  // ------------------------------------------------------------------------
  // Normal form
  // ------------------------------------------------------------------------

  lemma PassStaysInside(p: Value -> bool, st: State, v: Value)
    requires Everywhere(p, PassedParams(st)) && p(Null)
    ensures Everywhere(p, ResolvePass(st, v))
  {
  }

  lemma SameKeysSameShape(m: Fields, n: Fields)
    requires m.Keys == n.Keys
    ensures IsRef(Object(m)) == IsRef(Object(n)) && IsPass(Object(m)) == IsPass(Object(n))
  {
    assert |m| == |m.Keys| && |n| == |n.Keys|;
  }

  lemma {:induction false} ResolutionLeavesNoRef(st: State, v: Value, depth: nat)
    requires Everywhere(NotRef, PassedParams(st))
    ensures Everywhere(NotRef, ResolveAt(st, v, depth))
    decreases MAX_REF_DEPTH + 1 - depth
  {
    if depth > MAX_REF_DEPTH {
    } else if IsRef(v) {
      ResolutionLeavesNoRef(st, ResolvePath(st, v), depth + 1);
    } else if IsPass(v) {
      PassStaysInside(NotRef, st, v);
    } else {
      match v
      case Object(m) =>
        SameKeysSameShape(m, ResolveAt(st, v, depth).fields);
        forall k | k in m ensures Everywhere(NotRef, ResolveAt(st, m[k], depth + 1)) {
          ResolutionLeavesNoRef(st, m[k], depth + 1);
        }
      case List(items) =>
        forall i | 0 <= i < |items| ensures Everywhere(NotRef, ResolveAt(st, items[i], depth + 1)) {
          ResolutionLeavesNoRef(st, items[i], depth + 1);
        }
      case _ =>
    }
  }

  /** Whatever value is resolved, the output holds no single-key `$ref` object at any depth,
      cycles included, exactly when the parameters that `$pass` hands on hold none. */
  lemma NormalFormExactly(st: State)
    ensures (forall v :: Everywhere(NotRef, ResolveRefs(st, v))) <==> Everywhere(NotRef, PassedParams(st))
  {
    if Everywhere(NotRef, PassedParams(st)) {
      forall v ensures Everywhere(NotRef, ResolveRefs(st, v)) {
        ResolutionLeavesNoRef(st, v, 0);
      }
    }
    var pass := Object(map[PASS := Str("")]);
    assert !IsRef(pass);
    assert ResolveRefs(st, pass) == PassedParams(st);
  }

  // ------------------------------------------------------------------------
  // Resolving twice
  // ------------------------------------------------------------------------

  /** Everything `v` holds below the last level that is still resolved is null. */
  ghost predicate NullBelow(v: Value, depth: nat)
    decreases v
  {
    (depth > MAX_REF_DEPTH ==> v == Null) &&
    match v
    case List(items) => forall i | 0 <= i < |items| :: NullBelow(items[i], depth + 1)
    case Object(m) => forall k | k in m :: NullBelow(m[k], depth + 1)
    case _ => true
  }

  lemma {:induction false} NullBelowRises(v: Value, low: nat, high: nat)
    requires NullBelow(v, high) && low <= high
    ensures NullBelow(v, low)
    decreases v
  {
    match v
    case List(items) =>
      forall i | 0 <= i < |items| ensures NullBelow(items[i], low + 1) {
        NullBelowRises(items[i], low + 1, high + 1);
      }
    case Object(m) =>
      forall k | k in m ensures NullBelow(m[k], low + 1) {
        NullBelowRises(m[k], low + 1, high + 1);
      }
    case _ =>
  }

  lemma ResolvePathStaysInside(p: Value -> bool, st: State, v: Value)
    requires Everywhere(p, v) && Everywhere(p, st.ToValue()) && p(Null)
    ensures Everywhere(p, ResolvePath(st, v))
  {
    match v.GetStr(REF)
    case Some(path) => if path != "" { GetPathStaysInside(p, st, path); }
    case None =>
  }

  ghost predicate Resolved(v: Value, depth: nat) {
    Everywhere(NotRef, v) && Everywhere(NotPass, v) && NullBelow(v, depth)
  }

  lemma {:induction false} ResolutionWithoutPass(st: State, v: Value, depth: nat)
    requires Everywhere(NotPass, v) && Everywhere(NotPass, st.ToValue())
    ensures Resolved(ResolveAt(st, v, depth), depth)
    decreases MAX_REF_DEPTH + 1 - depth
  {
    if depth > MAX_REF_DEPTH {
    } else if IsRef(v) {
      ResolvePathStaysInside(NotPass, st, v);
      ResolutionWithoutPass(st, ResolvePath(st, v), depth + 1);
      NullBelowRises(ResolveAt(st, v, depth), depth, depth + 1);
    } else {
      match v
      case Object(m) =>
        SameKeysSameShape(m, ResolveAt(st, v, depth).fields);
        forall k | k in m ensures Resolved(ResolveAt(st, m[k], depth + 1), depth + 1) {
          ResolutionWithoutPass(st, m[k], depth + 1);
        }
      case List(items) =>
        forall i | 0 <= i < |items| ensures Resolved(ResolveAt(st, items[i], depth + 1), depth + 1) {
          ResolutionWithoutPass(st, items[i], depth + 1);
        }
      case _ =>
    }
  }

  lemma {:induction false} NormalFormsAreFixed(st: State, v: Value, depth: nat)
    requires Resolved(v, depth)
    ensures ResolveAt(st, v, depth) == v
    decreases v
  {
    if depth <= MAX_REF_DEPTH {
      match v
      case Object(m) =>
        forall k | k in m ensures ResolveAt(st, m[k], depth + 1) == m[k] {
          NormalFormsAreFixed(st, m[k], depth + 1);
        }
      case List(items) =>
        forall i | 0 <= i < |items| ensures ResolveAt(st, items[i], depth + 1) == items[i] {
          NormalFormsAreFixed(st, items[i], depth + 1);
        }
      case _ =>
    }
  }

  /** Without single-key `$pass` objects in value and state, resolving the output again, in
      any state, changes nothing. */
  lemma ResolvingTwiceIsResolvingOnce(st: State, v: Value, later: State)
    requires Everywhere(NotPass, v) && Everywhere(NotPass, st.ToValue())
    ensures Everywhere(NotRef, ResolveRefs(st, v))
    ensures ResolveRefs(later, ResolveRefs(st, v)) == ResolveRefs(st, v)
  {
    ResolutionWithoutPass(st, v, 0);
    NormalFormsAreFixed(later, ResolveRefs(st, v), 0);
  }

  // ------------------------------------------------------------------------
  // Unbounded resolution
  // ------------------------------------------------------------------------

  /** Resolution without a depth bound, as a relation: `r` is what `v` resolves to, by a
      derivation of at most `levels` levels. */
  ghost predicate ResolvesTo(st: State, v: Value, r: Value, levels: nat)
    decreases levels
  {
    if IsRef(v) then levels > 0 && ResolvesTo(st, ResolvePath(st, v), r, levels - 1)
    else if IsPass(v) then r == ResolvePass(st, v)
    else
      match v
      case Object(m) =>
        r.Object? && r.fields.Keys == m.Keys &&
        forall k | k in m :: levels > 0 && ResolvesTo(st, m[k], r.fields[k], levels - 1)
      case List(items) =>
        r.List? && |r.items| == |items| &&
        forall i | 0 <= i < |items| :: levels > 0 && ResolvesTo(st, items[i], r.items[i], levels - 1)
      case _ => r == v
  }

  lemma {:induction false} ResolutionIsDeterministic(st: State, v: Value, r: Value, q: Value, m: nat, n: nat)
    requires ResolvesTo(st, v, r, m) && ResolvesTo(st, v, q, n)
    ensures r == q
    decreases m
  {
    if IsRef(v) {
      ResolutionIsDeterministic(st, ResolvePath(st, v), r, q, m - 1, n - 1);
    } else if !IsPass(v) {
      match v
      case Object(fields) =>
        forall k | k in fields ensures r.fields[k] == q.fields[k] {
          ResolutionIsDeterministic(st, fields[k], r.fields[k], q.fields[k], m - 1, n - 1);
        }
      case List(items) =>
        forall i | 0 <= i < |items| ensures r.items[i] == q.items[i] {
          ResolutionIsDeterministic(st, items[i], r.items[i], q.items[i], m - 1, n - 1);
        }
      case _ =>
    }
  }

  lemma {:induction false} BoundedComputesFrom(st: State, v: Value, r: Value, depth: nat)
    requires depth <= MAX_REF_DEPTH && ResolvesTo(st, v, r, MAX_REF_DEPTH - depth)
    ensures ResolveAt(st, v, depth) == r
    decreases MAX_REF_DEPTH - depth
  {
    hide ResolvePath, ResolvePass;
    if IsRef(v) {
      BoundedComputesFrom(st, ResolvePath(st, v), r, depth + 1);
    } else if !IsPass(v) {
      match v
      case Object(m) =>
        forall k | k in m ensures ResolveAt(st, m[k], depth + 1) == r.fields[k] {
          BoundedComputesFrom(st, m[k], r.fields[k], depth + 1);
        }
      case List(items) =>
        forall i | 0 <= i < |items| ensures ResolveAt(st, items[i], depth + 1) == r.items[i] {
          BoundedComputesFrom(st, items[i], r.items[i], depth + 1);
        }
      case _ =>
    }
  }

  /** Where unbounded resolution succeeds within 64 levels, the bounded function returns its
      result. */
  lemma BoundedRefinesUnbounded(st: State, v: Value, r: Value)
    requires ResolvesTo(st, v, r, 64)
    ensures ResolveRefs(st, v) == r
  {
    BoundedComputesFrom(st, v, r, 0);
  }

  // ------------------------------------------------------------------------
  // What a single reference stands for
  // ------------------------------------------------------------------------

  /** The parameters under `__exec__.instruction.params`, if all of that is there. */
  function CurrentParameters(st: State): Option<Value> {
    if EXEC in st.data && st.data[EXEC].Object? && "instruction" in st.data[EXEC].fields then
      var instr := st.data[EXEC].fields["instruction"];
      if instr.Object? && "params" in instr.fields then Some(instr.fields["params"]) else None
    else None
  }

  /** `$pass` hands a parameter of the current instruction on as it stands, unresolved, or null
      if there is none of that name; an empty name, or none, hands on all of them. */
  lemma PassHandsOn(st: State, name: Value)
    ensures var r := ResolveRefs(st, Object(map["$pass" := name]));
            match CurrentParameters(st)
            case None => r == if name.Str? && name.s != "" then Null else Object(map[])
            case Some(params) =>
              if name == Str("") || !name.Str? then r == params
              else if params.Object? && name.s in params.fields then r == params.fields[name.s]
              else r == Null
  {
    var v := Object(map["$pass" := name]);
    assert !IsRef(v) && IsPass(v) && v.Get(PASS) == Some(name);
  }

  /** `$ref` stands for the value found at its path, resolved in turn, for the whole state if
      the path is empty, and for null if nothing is there; without a path it stands for itself. */
  lemma RefStandsFor(st: State, path: Value)
    ensures var v := Object(map["$ref" := path]);
            var found := if !path.Str? then v else if path.s == "" then Object(st.data)
                         else if GetPath(st, path.s).Some? then GetPath(st, path.s).value else Null;
            ResolvePath(st, v) == found && ResolveRefs(st, v) == ResolveAt(st, found, 1)
  {
    hide GetPath;
    var v := Object(map["$ref" := path]);
    assert IsRef(v) && v.Get(REF) == Some(path);
  }

  // ------------------------------------------------------------------------
  // Chains of references
  // ------------------------------------------------------------------------

  /** The value after following `n` references from `v`. */
  function Hop(st: State, v: Value, n: nat): Value {
    if n == 0 then v else ResolvePath(st, Hop(st, v, n - 1))
  }

  ghost predicate RefsUpTo(st: State, v: Value, n: nat) {
    forall i | 0 <= i < n :: IsRef(Hop(st, v, i))
  }

  lemma {:induction false} FollowChain(st: State, v: Value, n: nat)
    requires n <= MAX_REF_DEPTH + 1 && RefsUpTo(st, v, n)
    ensures ResolveRefs(st, v) == ResolveAt(st, Hop(st, v, n), n)
  {
    if n > 0 {
      FollowChain(st, v, n - 1);
      assert IsRef(Hop(st, v, n - 1));
    }
  }

  /** A chain of references ends at its first value that is not one, if that is at most 64
      hops away, and in null otherwise. */
  lemma ChainResult(st: State, v: Value, n: nat)
    requires RefsUpTo(st, v, n) && !IsRef(Hop(st, v, n))
    ensures ResolveRefs(st, v) == if n <= 64 then ResolveAt(st, Hop(st, v, n), n) else Null
  {
    FollowChain(st, v, if n <= MAX_REF_DEPTH then n else MAX_REF_DEPTH + 1);
  }

  lemma {:induction false} HopRepeats(st: State, v: Value, i: nat, j: nat, n: nat)
    requires Hop(st, v, i) == Hop(st, v, j)
    ensures Hop(st, v, i + n) == Hop(st, v, j + n)
  {
    if n > 0 {
      HopRepeats(st, v, i, j, n - 1);
      assert i + n - 1 == i + (n - 1) && j + n - 1 == j + (n - 1);
    }
  }

  lemma {:induction false} CycleNeverLeaves(st: State, v: Value, i: nat, j: nat, n: nat)
    requires i < j && RefsUpTo(st, v, j) && Hop(st, v, i) == Hop(st, v, j)
    ensures IsRef(Hop(st, v, n))
  {
    if n >= j {
      CycleNeverLeaves(st, v, i, j, n - (j - i));
      HopRepeats(st, v, i, j, n - j);
      assert i + (n - j) == n - (j - i);
    }
  }

  /** A chain that comes back to a value it has visited resolves to null. */
  lemma CycleIsNull(st: State, v: Value, i: nat, j: nat)
    requires i < j && RefsUpTo(st, v, j) && Hop(st, v, i) == Hop(st, v, j)
    ensures ResolveRefs(st, v) == Null
  {
    forall n | 0 <= n <= MAX_REF_DEPTH ensures IsRef(Hop(st, v, n)) {
      CycleNeverLeaves(st, v, i, j, n);
    }
    FollowChain(st, v, MAX_REF_DEPTH + 1);
  }
}
