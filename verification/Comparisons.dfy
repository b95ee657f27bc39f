/** What the relational operators mean: for each of them, when an atom holds, in terms of what
    stands at its attribute. Numbers are compared through floats, so that what is said of
    integers supposes that floats order them as they are ordered.
 */
module Comparisons {
  import opened Values
  import opened Store
  import opened Domains

  // ------------------------------------------------------------------------
  // Orders and equality, independently of how they are computed
  // ------------------------------------------------------------------------

  /** The lexicographic order: a proper prefix, or the smaller character where they part. */
  ghost predicate Precedes(a: string, b: string) {
    exists k | 0 <= k <= |a| && k < |b| :: PartsAt(a, b, k)
  }

  predicate PartsAt(a: string, b: string, k: nat)
    requires k <= |a| && k < |b|
  {
    a[..k] == b[..k] && (k == |a| || a[k] < b[k])
  }

  lemma SameSoFar(a: string, b: string, k: nat, i: nat)
    requires k <= |a| && k < |b| && PartsAt(a, b, k) && i < k
    ensures a[i] == b[i]
  {
    assert a[..k][i] == b[..k][i];
  }

  lemma {:induction false} BeforeIsLexicographic(a: string, b: string)
    ensures Before(a, b) <==> Precedes(a, b)
    decreases |a|
  {
    if a == [] || b == [] || a[0] != b[0] {
      if b != [] && (a == [] || a[0] < b[0]) { assert PartsAt(a, b, 0); }
      if Precedes(a, b) {
        var k :| 0 <= k <= |a| && k < |b| && PartsAt(a, b, k);
        forall i | 0 <= i < k ensures a[i] == b[i] { SameSoFar(a, b, k, i); }
      }
    } else {
      BeforeIsLexicographic(a[1..], b[1..]);
      if Precedes(a[1..], b[1..]) {
        var k :| 0 <= k <= |a[1..]| && k < |b[1..]| && PartsAt(a[1..], b[1..], k);
        assert a[..k + 1] == [a[0]] + a[1..][..k] && b[..k + 1] == [b[0]] + b[1..][..k];
        assert PartsAt(a, b, k + 1);
      }
      if Precedes(a, b) {
        var k :| 0 <= k <= |a| && k < |b| && PartsAt(a, b, k);
        assert k > 0;
        assert a[1..][..k - 1] == a[..k][1..] && b[1..][..k - 1] == b[..k][1..];
        assert PartsAt(a[1..], b[1..], k - 1);
      }
    }
  }

  const NEGATIVE_ZERO: U64 := 0x8000_0000_0000_0000

  /** The value with every negative float zero in it made positive. */
  function Unsigned(v: Value): Value {
    match v
    case Float(bits) => if bits == NEGATIVE_ZERO then Float(0) else v
    case List(items) => List(seq(|items|, i requires 0 <= i < |items| => Unsigned(items[i])))
    case Object(m) => Object(map k | k in m :: Unsigned(m[k]))
    case _ => v
  }

  /** Values are the same exactly when nothing but the sign of zeros tells them apart. */
  lemma {:induction false} SameUpToZeros(a: Value, b: Value)
    ensures SameValue(a, b) <==> Unsigned(a) == Unsigned(b)
    decreases a
  {
    match (a, b)
    case (List(xs), List(ys)) =>
      if |xs| == |ys| {
        forall k | 0 <= k < |xs| ensures SameValue(xs[k], ys[k]) <==> Unsigned(xs[k]) == Unsigned(ys[k]) {
          SameUpToZeros(xs[k], ys[k]);
        }
        var us, vs := Unsigned(a).items, Unsigned(b).items;
        assert forall k | 0 <= k < |xs| :: us[k] == Unsigned(xs[k]) && vs[k] == Unsigned(ys[k]);
        assert us == vs <==> forall k | 0 <= k < |xs| :: us[k] == vs[k];
      } else {
        assert |Unsigned(a).items| != |Unsigned(b).items|;
      }
    case (Object(m), Object(n)) =>
      var us, vs := Unsigned(a).fields, Unsigned(b).fields;
      assert us.Keys == m.Keys && vs.Keys == n.Keys;
      if m.Keys == n.Keys {
        forall k | k in m ensures SameValue(m[k], n[k]) <==> Unsigned(m[k]) == Unsigned(n[k]) {
          SameUpToZeros(m[k], n[k]);
        }
        assert us == vs <==> forall k | k in m :: us[k] == vs[k];
      }
    case _ =>
  }

  /** Equality as operators see it: floats decide between an integer and a float. */
  predicate Equals(ops: FloatOps, a: Value, b: Value) {
    if (a.Integer? && b.Float?) || (a.Float? && b.Integer?) then ops.equal(a, b) else Unsigned(a) == Unsigned(b)
  }

  lemma LooseIsEquals(ops: FloatOps, a: Value, b: Value)
    ensures LooselyEqual(ops, a, b) <==> Equals(ops, a, b)
  {
    SameUpToZeros(a, b);
  }

  // ------------------------------------------------------------------------
  // Atoms
  // ------------------------------------------------------------------------

  /** The atom holds of a state. */
  predicate Says(ops: FloatOps, st: State, attribute: string, op: RelOp, operand: Value) {
    Holds(ops, Atom(attribute, op, operand), st)
  }

  /** An absent attribute satisfies exactly "ne" and "not_exists"; a present one satisfies
      "exists" and not "not_exists". */
  lemma PresenceDecides(ops: FloatOps, st: State, attribute: string, op: RelOp, operand: Value)
    ensures GetPath(st, attribute) == None ==> (Says(ops, st, attribute, op, operand) <==> op in {Ne, NotExists})
    ensures GetPath(st, attribute).Some? ==>
              Says(ops, st, attribute, Exists, operand) && !Says(ops, st, attribute, NotExists, operand)
  {
    hide GetPath;
  }

  /** "eq" is equality with what is present, and "ne" its complement in every state. */
  lemma EqualityDecides(ops: FloatOps, st: State, attribute: string, operand: Value)
    ensures match GetPath(st, attribute)
            case Some(v) => Says(ops, st, attribute, Eq, operand) <==> Equals(ops, v, operand)
            case None => !Says(ops, st, attribute, Eq, operand)
    ensures Says(ops, st, attribute, Ne, operand) <==> !Says(ops, st, attribute, Eq, operand)
  {
    hide GetPath, LooselyEqual, Equals;
    if GetPath(st, attribute).Some? { LooseIsEquals(ops, GetPath(st, attribute).value, operand); }
  }

  /** The other negated operators are complements where something is present, and never hold
      where nothing is. */
  lemma NegationsAreComplements(ops: FloatOps, st: State, attribute: string, operand: Value)
    ensures Says(ops, st, attribute, NotIn, operand) <==>
            GetPath(st, attribute).Some? && !Says(ops, st, attribute, In, operand)
    ensures Says(ops, st, attribute, NotContains, operand) <==>
            GetPath(st, attribute).Some? && !Says(ops, st, attribute, Contains, operand)
    ensures Says(ops, st, attribute, NotBetween, operand) <==>
            GetPath(st, attribute).Some? && !Says(ops, st, attribute, Between, operand)
  {
    hide GetPath, HasElement, InInterval;
  }

  /** Strings are ordered lexicographically. */
  lemma StringsAreOrdered(ops: FloatOps, st: State, attribute: string, a: string, b: string)
    requires GetPath(st, attribute) == Some(Str(a))
    ensures Says(ops, st, attribute, Lt, Str(b)) <==> Precedes(a, b)
    ensures Says(ops, st, attribute, Gt, Str(b)) <==> Precedes(b, a)
    ensures Says(ops, st, attribute, Le, Str(b)) <==> Precedes(a, b) || a == b
    ensures Says(ops, st, attribute, Ge, Str(b)) <==> Precedes(b, a) || a == b
  {
    hide GetPath, Before, Precedes;
    BeforeIsLexicographic(a, b);
    BeforeIsLexicographic(b, a);
    BeforeIsTotal(a, b);
  }

  /** Numbers are ordered as floats order them, and nothing else but strings is ordered. */
  lemma NumbersAreOrdered(ops: FloatOps, st: State, attribute: string, a: Value, b: Value)
    requires GetPath(st, attribute) == Some(a)
    requires ops.less(a, b) ==> !ops.less(b, a)
    ensures IsNumber(a) && IsNumber(b) ==>
              (Says(ops, st, attribute, Lt, b) <==> ops.less(a, b)) &&
              (Says(ops, st, attribute, Gt, b) <==> ops.less(b, a)) &&
              (Says(ops, st, attribute, Le, b) <==> !ops.less(b, a)) &&
              (Says(ops, st, attribute, Ge, b) <==> !ops.less(a, b))
    ensures !(IsNumber(a) && IsNumber(b)) && !(a.Str? && b.Str?) ==>
              !Says(ops, st, attribute, Lt, b) && !Says(ops, st, attribute, Gt, b) &&
              !Says(ops, st, attribute, Le, b) && !Says(ops, st, attribute, Ge, b)
  {
    hide GetPath, Before;
  }

  /** Floats order the two integers as they are ordered. */
  predicate Ordered(ops: FloatOps, x: I64, y: I64) {
    (ops.less(Integer(x), Integer(y)) <==> x < y) && (ops.less(Integer(y), Integer(x)) <==> y < x) &&
    (ops.atMost(Integer(x), Integer(y)) <==> x <= y) && (ops.atMost(Integer(y), Integer(x)) <==> y <= x)
  }

  lemma IntegersAreOrdered(ops: FloatOps, st: State, attribute: string, x: I64, y: I64)
    requires GetPath(st, attribute) == Some(Integer(x)) && Ordered(ops, x, y)
    ensures Says(ops, st, attribute, Eq, Integer(y)) <==> x == y
    ensures Says(ops, st, attribute, Lt, Integer(y)) <==> x < y
    ensures Says(ops, st, attribute, Gt, Integer(y)) <==> x > y
    ensures Says(ops, st, attribute, Le, Integer(y)) <==> x <= y
    ensures Says(ops, st, attribute, Ge, Integer(y)) <==> x >= y
  {
    hide GetPath, Before, Says;
    NumbersAreOrdered(ops, st, attribute, Integer(x), Integer(y));
    EqualityDecides(ops, st, attribute, Integer(y));
  }

  /** Some item of a list equals `v`. */
  ghost predicate Member(ops: FloatOps, v: Value, list: Value) {
    list.List? && exists i | 0 <= i < |list.items| :: Equals(ops, list.items[i], v)
  }

  /** "contains" and "in" are membership, the list being what stands at the attribute or the
      operand; what is no list has no members. */
  lemma MembershipDecides(ops: FloatOps, st: State, attribute: string, operand: Value)
    requires GetPath(st, attribute).Some?
    ensures Says(ops, st, attribute, Contains, operand) <==> Member(ops, operand, GetPath(st, attribute).value)
    ensures Says(ops, st, attribute, In, operand) <==> Member(ops, GetPath(st, attribute).value, operand)
  {
    hide GetPath, LooselyEqual, Equals;
    var v := GetPath(st, attribute).value;
    forall item, w ensures LooselyEqual(ops, item, w) <==> Equals(ops, item, w) { LooseIsEquals(ops, item, w); }
  }

  /** Without floats and numbers compared to them, membership is that of the sequence. */
  lemma PlainMembership(ops: FloatOps, v: Value, items: seq<Value>)
    requires !IsNumber(v) && Unsigned(v) == v && forall i | 0 <= i < |items| :: Unsigned(items[i]) == items[i]
    ensures Member(ops, v, List(items)) <==> v in items
  {
    hide Unsigned;
    if Member(ops, v, List(items)) {
      var i :| 0 <= i < |items| && Equals(ops, items[i], v);
      assert items[i] == v;
    }
    if v in items {
      var i :| 0 <= i < |items| && items[i] == v;
      assert Equals(ops, List(items).items[i], v);
    }
  }

  /** "between" takes a list that begins with the two bounds, both of which belong to the
      interval. */
  lemma IntervalDecides(ops: FloatOps, st: State, attribute: string, v: Value, operand: Value)
    requires GetPath(st, attribute) == Some(v)
    ensures match operand
            case List(items) =>
              Says(ops, st, attribute, Between, operand) <==>
              |items| >= 2 && IsNumber(items[0]) && IsNumber(items[1]) && IsNumber(v) &&
              ops.atMost(items[0], v) && ops.atMost(v, items[1])
            case _ => !Says(ops, st, attribute, Between, operand)
  {
    hide GetPath;
  }

  lemma IntegersBetween(ops: FloatOps, st: State, attribute: string, low: I64, x: I64, high: I64)
    requires GetPath(st, attribute) == Some(Integer(x)) && Ordered(ops, low, x) && Ordered(ops, x, high)
    ensures Says(ops, st, attribute, Between, List([Integer(low), Integer(high)])) <==> low <= x <= high
  {
    hide GetPath, Says;
    IntervalDecides(ops, st, attribute, Integer(x), List([Integer(low), Integer(high)]));
  }

  // ------------------------------------------------------------------------
  // Domains made of others, and how they are written
  // ------------------------------------------------------------------------

  /** An instruction domain holds exactly when the current type is that string. */
  lemma TypeDecides(ops: FloatOps, st: State, kind: string)
    ensures Holds(ops, OfType(kind), st) <==>
            st.Get(EXEC).Some? && st.Get(EXEC).value.Get("instruction").Some? &&
            st.Get(EXEC).value.Get("instruction").value.GetStr("type") == Some(kind)
  {
    hide SameValue;
    match CurrentType(st)
    case Some(t) =>
      LooseIsEquals(ops, t, Str(kind));
    case None =>
  }

  /** Up to 128 levels a domain made of others holds as each of these, evaluated by itself, makes
      it hold. */
  lemma PartsDecide(ops: FloatOps, st: State, parts: seq<Domain>)
    requires forall i | 0 <= i < |parts| :: NestedAtMost(parts[i], MAX_DOMAIN_DEPTH - 1)
    ensures Holds(ops, And(parts), st) <==> forall i | 0 <= i < |parts| :: Holds(ops, parts[i], st)
    ensures Holds(ops, Or(parts), st) <==> exists i | 0 <= i < |parts| :: Holds(ops, parts[i], st)
    ensures forall i | 0 <= i < |parts| :: Holds(ops, Not(parts[i]), st) <==> !Holds(ops, parts[i], st)
  {
    hide Meaning;
    forall i | 0 <= i < |parts|
      ensures ContainsAt(ops, parts[i], st, 1) == Holds(ops, parts[i], st)
    {
      ContainsMeansAt(ops, parts[i], st, 1);
      NestedLess(parts[i], MAX_DOMAIN_DEPTH - 1);
      ContainsDecidesMeaning(ops, parts[i], st);
    }
  }

  lemma {:induction false} NestedLess(d: Domain, levels: nat)
    requires NestedAtMost(d, levels)
    ensures NestedAtMost(d, levels + 1)
    decreases d
  {
    match d
    case And(parts) =>
      forall i | 0 <= i < |parts| ensures NestedAtMost(parts[i], levels) { NestedLess(parts[i], levels - 1); }
    case Or(parts) =>
      forall i | 0 <= i < |parts| ensures NestedAtMost(parts[i], levels) { NestedLess(parts[i], levels - 1); }
    case Not(inner) => NestedLess(inner, levels - 1);
    case _ =>
  }

  /** An atom as rules are written. */
  function Written(attribute: string, name: string, operand: Value): Value {
    Object(map["type" := Str("atom"), "attribute" := Str(attribute), "op" := Str(name), "value" := operand])
  }

  lemma WrittenIsRead(attribute: string, name: string, operand: Value, op: RelOp)
    requires ParseRelOp(name) == Some(op)
    ensures ParseDomain(Written(attribute, name, operand)) == Ok(Atom(attribute, op, operand))
  {
    hide ParseRelOp;
    var v := Written(attribute, name, operand);
    assert v.GetStr("type") == Some("atom") && v.GetStr("attribute") == Some(attribute);
    assert v.GetStr("op") == Some(name) && v.Get("value") == Some(operand);
  }

  /** The names under which rules use the operators. */
  const NAMES: map<string, RelOp> := map[
    "eq" := Eq, "ne" := Ne, "gt" := Gt, "ge" := Ge, "lt" := Lt, "le" := Le,
    "contains" := Contains, "has" := Contains, "not_contains" := NotContains, "lacks" := NotContains,
    "in" := In, "not_in" := NotIn, "between" := Between, "not_between" := NotBetween,
    "exists" := Exists, "not_exists" := NotExists]

  /** A written atom is read under these names, and under no other. */
  lemma OperatorsAreNamed(attribute: string, name: string, operand: Value)
    ensures match ParseDomain(Written(attribute, name, operand))
            case Ok(d) => name in NAMES && d == Atom(attribute, NAMES[name], operand)
            case Err(_) => name !in NAMES
  {
    hide ParseDomain;
    NamesAreParsed(name);
    if name in NAMES {
      WrittenIsRead(attribute, name, operand, NAMES[name]);
    } else {
      UnknownIsRefused(attribute, name, operand);
    }
  }

  lemma NamesAreParsed(name: string)
    ensures ParseRelOp(name) == if name in NAMES then Some(NAMES[name]) else None
  {
  }

  lemma UnknownIsRefused(attribute: string, name: string, operand: Value)
    requires ParseRelOp(name) == None
    ensures ParseDomain(Written(attribute, name, operand)).Err?
  {
    hide ParseRelOp;
    var v := Written(attribute, name, operand);
    assert v.GetStr("type") == Some("atom") && v.GetStr("attribute") == Some(attribute) && v.GetStr("op") == Some(name);
  }
}
