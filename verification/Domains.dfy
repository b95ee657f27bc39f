/** Domains: the conditions of rules, their evaluation with a depth bound, and their two
    serialised forms.

    Main results: both serialisers are undone by the parser for every domain; the binary
    left/right form means what the two-element list form means; and the depth bound is
    invisible up to 128 levels, and visible from 129 on.
 */
module Domains {
  import opened Values
  import opened Store

  /** Comparisons between numbers go through 64-bit floats, which stay abstract here. */
  datatype FloatOps = FloatOps(
    less: (Value, Value) -> bool,
    atMost: (Value, Value) -> bool,
    equal: (Value, Value) -> bool)

  datatype RelOp =
    | Eq | Ne | Gt | Ge | Lt | Le | Contains | NotContains | In | NotIn
    | Between | NotBetween | Exists | NotExists

  function ParseRelOp(s: string): Option<RelOp> {
    if s == "eq" then Some(Eq)
    else if s == "ne" then Some(Ne)
    else if s == "gt" then Some(Gt)
    else if s == "ge" then Some(Ge)
    else if s == "lt" then Some(Lt)
    else if s == "le" then Some(Le)
    else if s == "contains" || s == "has" then Some(Contains)
    else if s == "not_contains" || s == "lacks" then Some(NotContains)
    else if s == "in" then Some(In)
    else if s == "not_in" then Some(NotIn)
    else if s == "between" then Some(Between)
    else if s == "not_between" then Some(NotBetween)
    else if s == "exists" then Some(Exists)
    else if s == "not_exists" then Some(NotExists)
    else None
  }

  function RelOpName(op: RelOp): string {
    match op
    case Eq => "eq" case Ne => "ne" case Gt => "gt" case Ge => "ge" case Lt => "lt" case Le => "le"
    case Contains => "contains" case NotContains => "not_contains"
    case In => "in" case NotIn => "not_in"
    case Between => "between" case NotBetween => "not_between"
    case Exists => "exists" case NotExists => "not_exists"
  }

  lemma RelOpRoundTrip(op: RelOp)
    ensures ParseRelOp(RelOpName(op)) == Some(op)
  {
  }

  datatype Domain =
    | Atom(attribute: string, op: RelOp, operand: Value)
    | And(parts: seq<Domain>)
    | Or(parts: seq<Domain>)
    | Not(inner: Domain)
    | OfType(kind: string)
    | Universal
    | Empty

  // ------------------------------------------------------------------------
  // Evaluation
  // ------------------------------------------------------------------------

  predicate IsNumber(v: Value) {
    v.Integer? || v.Float?
  }

  predicate LooselyEqual(ops: FloatOps, a: Value, b: Value) {
    if (a.Integer? && b.Float?) || (a.Float? && b.Integer?) then ops.equal(a, b)
    else SameValue(a, b)
  }

  datatype Ordering = Less | Equal | Greater

  function Compare(ops: FloatOps, a: Value, b: Value): Option<Ordering> {
    if IsNumber(a) && IsNumber(b) then
      Some(if ops.less(a, b) then Less else if ops.less(b, a) then Greater else Equal)
    else if a.Str? && b.Str? then
      Some(if Before(a.s, b.s) then Less else if a.s == b.s then Equal else Greater)
    else None
  }

  predicate HasElement(ops: FloatOps, list: Value, v: Value) {
    list.List? && exists i | 0 <= i < |list.items| :: LooselyEqual(ops, list.items[i], v)
  }

  predicate InInterval(ops: FloatOps, v: Value, bounds: Value) {
    bounds.List? && |bounds.items| >= 2 && IsNumber(bounds.items[0]) && IsNumber(bounds.items[1]) &&
    IsNumber(v) && ops.atMost(bounds.items[0], v) && ops.atMost(v, bounds.items[1])
  }

  predicate Apply(ops: FloatOps, op: RelOp, actual: Value, expected: Value) {
    match op
    case Eq => LooselyEqual(ops, actual, expected)
    case Ne => !LooselyEqual(ops, actual, expected)
    case Gt => Compare(ops, actual, expected) == Some(Greater)
    case Ge => Compare(ops, actual, expected) in {Some(Greater), Some(Equal)}
    case Lt => Compare(ops, actual, expected) == Some(Less)
    case Le => Compare(ops, actual, expected) in {Some(Less), Some(Equal)}
    case Contains => HasElement(ops, actual, expected)
    case NotContains => !HasElement(ops, actual, expected)
    case In => HasElement(ops, expected, actual)
    case NotIn => !HasElement(ops, expected, actual)
    case Between => InInterval(ops, actual, expected)
    case NotBetween => !InInterval(ops, actual, expected)
    case Exists => false
    case NotExists => false
  }

  predicate AtomHolds(ops: FloatOps, d: Domain, st: State)
    requires d.Atom?
  {
    match GetPath(st, d.attribute)
    case Some(actual) =>
      if d.op.Exists? then true else if d.op.NotExists? then false else Apply(ops, d.op, actual, d.operand)
    case None => d.op.Ne? || d.op.NotExists?
  }

  /** `__exec__.instruction.type`. */
  function CurrentType(st: State): Option<Value> {
    match st.Get(EXEC)
    case None => None
    case Some(exec) =>
      match exec.Get("instruction") case None => None case Some(instr) => instr.Get("type")
  }

  predicate TypeHolds(ops: FloatOps, kind: string, st: State) {
    match CurrentType(st) case Some(t) => LooselyEqual(ops, t, Str(kind)) case None => false
  }

  const MAX_DOMAIN_DEPTH := 128

  predicate ContainsAt(ops: FloatOps, d: Domain, st: State, depth: nat) {
    depth <= MAX_DOMAIN_DEPTH &&
    match d
    case Atom(_, _, _) => AtomHolds(ops, d, st)
    case And(parts) => forall i | 0 <= i < |parts| :: ContainsAt(ops, parts[i], st, depth + 1)
    case Or(parts) => exists i | 0 <= i < |parts| :: ContainsAt(ops, parts[i], st, depth + 1)
    case Not(inner) => !ContainsAt(ops, inner, st, depth + 1)
    case OfType(kind) => TypeHolds(ops, kind, st)
    case Universal => true
    case Empty => false
  }

  predicate Holds(ops: FloatOps, d: Domain, st: State) {
    ContainsAt(ops, d, st, 0)
  }

  /** The Boolean meaning, without a depth bound. */
  predicate Meaning(ops: FloatOps, d: Domain, st: State) {
    match d
    case Atom(_, _, _) => AtomHolds(ops, d, st)
    case And(parts) => forall i | 0 <= i < |parts| :: Meaning(ops, parts[i], st)
    case Or(parts) => exists i | 0 <= i < |parts| :: Meaning(ops, parts[i], st)
    case Not(inner) => !Meaning(ops, inner, st)
    case OfType(kind) => TypeHolds(ops, kind, st)
    case Universal => true
    case Empty => false
  }

  ghost predicate NestedAtMost(d: Domain, levels: nat) {
    match d
    case And(parts) => forall i | 0 <= i < |parts| :: levels > 0 && NestedAtMost(parts[i], levels - 1)
    case Or(parts) => forall i | 0 <= i < |parts| :: levels > 0 && NestedAtMost(parts[i], levels - 1)
    case Not(inner) => levels > 0 && NestedAtMost(inner, levels - 1)
    case _ => true
  }

  lemma {:induction false} ContainsMeansAt(ops: FloatOps, d: Domain, st: State, depth: nat)
    requires depth <= MAX_DOMAIN_DEPTH && NestedAtMost(d, MAX_DOMAIN_DEPTH - depth)
    ensures ContainsAt(ops, d, st, depth) == Meaning(ops, d, st)
    decreases d
  {
    match d
    case And(parts) =>
      forall i | 0 <= i < |parts| ensures ContainsAt(ops, parts[i], st, depth + 1) == Meaning(ops, parts[i], st) {
        ContainsMeansAt(ops, parts[i], st, depth + 1);
      }
    case Or(parts) =>
      forall i | 0 <= i < |parts| ensures ContainsAt(ops, parts[i], st, depth + 1) == Meaning(ops, parts[i], st) {
        ContainsMeansAt(ops, parts[i], st, depth + 1);
      }
    case Not(inner) => ContainsMeansAt(ops, inner, st, depth + 1);
    case _ =>
  }

  /** Up to 128 levels of nesting `contains` decides the Boolean meaning. */
  lemma ContainsDecidesMeaning(ops: FloatOps, d: Domain, st: State)
    requires NestedAtMost(d, 128)
    ensures Holds(ops, d, st) == Meaning(ops, d, st)
  {
    ContainsMeansAt(ops, d, st, 0);
  }

  function Negations(n: nat): Domain {
    if n == 0 then Universal else Not(Negations(n - 1))
  }

  /** Below the bound the innermost negation that is reached sees "false". */
  lemma {:induction false} NegationsContain(ops: FloatOps, n: nat, st: State, depth: nat)
    requires depth <= MAX_DOMAIN_DEPTH + 1
    ensures ContainsAt(ops, Negations(n), st, depth)
         == if depth + n <= MAX_DOMAIN_DEPTH then n % 2 == 0 else (MAX_DOMAIN_DEPTH + 1 - depth) % 2 == 1
    ensures Meaning(ops, Negations(n), st) == (n % 2 == 0)
  {
    if n > 0 {
      if depth <= MAX_DOMAIN_DEPTH {
        NegationsContain(ops, n - 1, st, depth + 1);
      } else {
        NegationsContain(ops, n - 1, st, depth);
      }
    }
  }

  lemma {:induction false} NegationsNest(n: nat)
    ensures NestedAtMost(Negations(n), n)
  {
    if n > 0 { NegationsNest(n - 1); }
  }

  /** The bound is tight: `n` nested negations are decided as they mean, except for the odd
      numbers from 129 on. */
  lemma DepthBoundIsTight(ops: FloatOps, n: nat, st: State)
    ensures NestedAtMost(Negations(n), n)
    ensures Holds(ops, Negations(n), st) == Meaning(ops, Negations(n), st) <==> n <= 128 || n % 2 == 0
  {
    NegationsNest(n);
    NegationsContain(ops, n, st, 0);
  }

  // ------------------------------------------------------------------------
  // Parsing and the two serialisers
  // ------------------------------------------------------------------------

  const FROM_DICT := "Domain::from_dict"

  function ParseDomain(v: Value): Result<Domain>
    decreases v, 1
  {
    match v
    case Object(_) => ParseObject(v)
    case Str(s) => Ok(if s == "universal" then Universal else if s == "empty" then Empty else OfType(s))
    case _ => Err(InvalidParam("Domain::from_value", "value"))
  }

  function ParseAtom(v: Value): Result<Domain> {
    match v.GetStr("attribute")
    case None => Err(MissingParam(FROM_DICT, "attribute"))
    case Some(attribute) =>
      match v.GetStr("op")
      case None => Err(MissingParam(FROM_DICT, "op"))
      case Some(name) =>
        match ParseRelOp(name)
        case None => Err(InvalidParam(FROM_DICT, "op"))
        case Some(op) =>
          match v.Get("value")
          case Some(operand) => Ok(Atom(attribute, op, operand))
          case None =>
            if op.Exists? || op.NotExists? then Ok(Atom(attribute, op, Null))
            else Err(MissingParam(FROM_DICT, "value"))
  }

  /** The parts of "and" and "or": a list under `domains`, or else a left and a right. */
  function ParseParts(v: Value): Result<seq<Domain>>
    requires v.Object?
    decreases v, 0, 0
  {
    if "domains" in v.fields then
      match v.fields["domains"]
      case List(items) => ParseAll(items)
      case _ => Err(InvalidParam(FROM_DICT, "domains"))
    else if "left" in v.fields && "right" in v.fields then
      var left :- ParseDomain(v.fields["left"]);
      var right :- ParseDomain(v.fields["right"]);
      Ok([left, right])
    else Err(MissingParam(FROM_DICT, "domains"))
  }

  function ParseAll(items: seq<Value>): Result<seq<Domain>>
    decreases items, 0, 0
  {
    if items == [] then Ok([])
    else
      var first :- ParseDomain(items[0]);
      var rest :- ParseAll(items[1..]);
      Ok([first] + rest)
  }

  function ParseObject(v: Value): Result<Domain>
    requires v.Object?
    decreases v, 0, 1
  {
    match v.GetStr("type")
    case None => Err(MissingParam(FROM_DICT, "type"))
    case Some(t) =>
      if t == "atom" then ParseAtom(v)
      else if t == "and" then
        var parts :- ParseParts(v);
        Ok(And(parts))
      else if t == "or" then
        var parts :- ParseParts(v);
        Ok(Or(parts))
      else if t == "not" then
        if "inner" in v.fields then
          var inner :- ParseDomain(v.fields["inner"]);
          Ok(Not(inner))
        else Err(MissingParam(FROM_DICT, "inner"))
      else if t == "instruction" then
        (match (if "instruction_type" in v.fields then v.GetStr("instruction_type") else v.GetStr("value"))
         case Some(kind) => Ok(OfType(kind))
         case None => Err(MissingParam(FROM_DICT, "instruction_type")))
      else if t == "universal" then Ok(Universal)
      else if t == "empty" || t == "never" then Ok(Empty)
      else Err(InvalidDomainType(t))
  }

  /** `to_value`: instructions carry `instruction_type` and an operator. */
  function ToValue(d: Domain): Value {
    match d
    case Atom(attribute, op, operand) =>
      Object(map["type" := Str("atom"), "attribute" := Str(attribute), "op" := Str(RelOpName(op)), "value" := operand])
    case And(parts) => Object(map["type" := Str("and"), "domains" := List(AllToValue(parts))])
    case Or(parts) => Object(map["type" := Str("or"), "domains" := List(AllToValue(parts))])
    case Not(inner) => Object(map["type" := Str("not"), "inner" := ToValue(inner)])
    case OfType(kind) =>
      Object(map["type" := Str("instruction"), "instruction_type" := Str(kind), "op" := Str("eq")])
    case Universal => Object(map["type" := Str("universal")])
    case Empty => Object(map["type" := Str("empty")])
  }

  function AllToValue(ds: seq<Domain>): (r: seq<Value>)
    ensures |r| == |ds|
  {
    if ds == [] then [] else [ToValue(ds[0])] + AllToValue(ds[1..])
  }

  /** `to_dict`: instructions carry their type under `value`. */
  function ToDict(d: Domain): Fields {
    match d
    case Atom(attribute, op, operand) =>
      map["type" := Str("atom"), "attribute" := Str(attribute), "op" := Str(RelOpName(op)), "value" := operand]
    case And(parts) => map["type" := Str("and"), "domains" := List(AllToDict(parts))]
    case Or(parts) => map["type" := Str("or"), "domains" := List(AllToDict(parts))]
    case Not(inner) => map["type" := Str("not"), "inner" := Object(ToDict(inner))]
    case OfType(kind) => map["type" := Str("instruction"), "value" := Str(kind)]
    case Universal => map["type" := Str("universal")]
    case Empty => map["type" := Str("empty")]
  }

  function AllToDict(ds: seq<Domain>): (r: seq<Value>)
    ensures |r| == |ds|
  {
    if ds == [] then [] else [Object(ToDict(ds[0]))] + AllToDict(ds[1..])
  }

  lemma ParseSerialisedAtom(attribute: string, op: RelOp, operand: Value)
    ensures ParseDomain(ToValue(Atom(attribute, op, operand))) == Ok(Atom(attribute, op, operand))
    ensures Object(ToDict(Atom(attribute, op, operand))) == ToValue(Atom(attribute, op, operand))
  {
    RelOpRoundTrip(op);
    var v := ToValue(Atom(attribute, op, operand));
    assert v.GetStr("type") == Some("atom");
    assert v.GetStr("attribute") == Some(attribute);
    assert v.GetStr("op") == Some(RelOpName(op));
    assert v.Get("value") == Some(operand);
  }

  lemma ParseList(t: string, items: seq<Value>, parts: seq<Domain>)
    requires t == "and" || t == "or"
    requires ParseAll(items) == Ok(parts)
    ensures ParseDomain(Object(map["type" := Str(t), "domains" := List(items)]))
         == Ok(if t == "and" then And(parts) else Or(parts))
  {
    var v := Object(map["type" := Str(t), "domains" := List(items)]);
    assert v.GetStr("type") == Some(t);
    assert v.fields["domains"] == List(items);
    assert ParseParts(v) == Ok(parts);
  }

  lemma ParseNot(inner: Value, d: Domain)
    requires ParseDomain(inner) == Ok(d)
    ensures ParseDomain(Object(map["type" := Str("not"), "inner" := inner])) == Ok(Not(d))
  {
    var v := Object(map["type" := Str("not"), "inner" := inner]);
    assert v.GetStr("type") == Some("not");
    assert v.fields["inner"] == inner;
  }

  /** A domain serialised with `to_value` parses back to itself. */
  lemma {:induction false} ValueRoundTrip(d: Domain)
    ensures ParseDomain(ToValue(d)) == Ok(d)
    decreases d
  {
    match d
    case Atom(attribute, op, operand) => ParseSerialisedAtom(attribute, op, operand);
    case And(parts) => AllValuesRoundTrip(parts); ParseList("and", AllToValue(parts), parts);
    case Or(parts) => AllValuesRoundTrip(parts); ParseList("or", AllToValue(parts), parts);
    case Not(inner) => ValueRoundTrip(inner); ParseNot(ToValue(inner), inner);
    case OfType(kind) =>
      var v := ToValue(d);
      assert v.GetStr("type") == Some("instruction") && v.GetStr("instruction_type") == Some(kind);
    case Universal => assert ToValue(d).GetStr("type") == Some("universal");
    case Empty => assert ToValue(d).GetStr("type") == Some("empty");
  }

  lemma {:induction false} AllValuesRoundTrip(ds: seq<Domain>)
    ensures ParseAll(AllToValue(ds)) == Ok(ds)
    decreases ds
  {
    hide ParseDomain, ToValue;
    if ds != [] {
      ValueRoundTrip(ds[0]);
      AllValuesRoundTrip(ds[1..]);
      assert AllToValue(ds)[1..] == AllToValue(ds[1..]) && ds == [ds[0]] + ds[1..];
    }
  }

  /** A domain serialised with `to_dict` parses back to itself. */
  lemma {:induction false} DictRoundTrip(d: Domain)
    ensures ParseDomain(Object(ToDict(d))) == Ok(d)
    decreases d
  {
    match d
    case Atom(attribute, op, operand) => ParseSerialisedAtom(attribute, op, operand);
    case And(parts) => AllDictsRoundTrip(parts); ParseList("and", AllToDict(parts), parts);
    case Or(parts) => AllDictsRoundTrip(parts); ParseList("or", AllToDict(parts), parts);
    case Not(inner) => DictRoundTrip(inner); ParseNot(Object(ToDict(inner)), inner);
    case OfType(kind) =>
      var v := Object(ToDict(d));
      assert v.GetStr("type") == Some("instruction") && "instruction_type" !in v.fields;
      assert v.GetStr("value") == Some(kind);
    case Universal => assert Object(ToDict(d)).GetStr("type") == Some("universal");
    case Empty => assert Object(ToDict(d)).GetStr("type") == Some("empty");
  }

  lemma {:induction false} AllDictsRoundTrip(ds: seq<Domain>)
    ensures ParseAll(AllToDict(ds)) == Ok(ds)
    decreases ds
  {
    hide ParseDomain, ToDict;
    if ds != [] {
      DictRoundTrip(ds[0]);
      AllDictsRoundTrip(ds[1..]);
      assert AllToDict(ds)[1..] == AllToDict(ds[1..]) && ds == [ds[0]] + ds[1..];
    }
  }

  /** The binary form parses to what the two-element list form parses to, errors included. */
  lemma BinaryFormMeansListForm(t: string, left: Value, right: Value)
    requires t == "and" || t == "or"
    ensures ParseDomain(Object(map["type" := Str(t), "left" := left, "right" := right]))
         == ParseDomain(Object(map["type" := Str(t), "domains" := List([left, right])]))
  {
    var b := Object(map["type" := Str(t), "left" := left, "right" := right]);
    var l := Object(map["type" := Str(t), "domains" := List([left, right])]);
    assert b.GetStr("type") == Some(t) && l.GetStr("type") == Some(t);
    assert "domains" !in b.fields && b.fields["left"] == left && b.fields["right"] == right;
    assert l.fields["domains"] == List([left, right]);
    ParseTwo(left, right);
    assert ParseParts(b) == ParseParts(l);
  }

  lemma ParseTwo(left: Value, right: Value)
    ensures ParseAll([left, right]) ==
              match ParseDomain(left)
              case Err(e) => Err(e)
              case Ok(a) => (match ParseDomain(right) case Err(e) => Err(e) case Ok(b) => Ok([a, b]))
  {
    assert [left, right][1..] == [right];
    ParseOne(right);
    if ParseDomain(left).Ok? && ParseDomain(right).Ok? {
      var a, b := ParseDomain(left).value, ParseDomain(right).value;
      assert [a] + [b] == [a, b];
    }
  }

  lemma ParseOne(v: Value)
    ensures ParseAll([v]) == match ParseDomain(v) case Err(e) => Err(e) case Ok(d) => Ok([d])
  {
    assert [v][1..] == [];
    assert ParseAll([v][1..]) == Ok([]);
    if ParseDomain(v).Ok? {
      assert [ParseDomain(v).value] + [] == [ParseDomain(v).value];
    }
  }

  /** A string is a type of instruction, but for the two that name a domain. */
  lemma StringsAreTypes(s: string)
    ensures ParseDomain(Str("universal")) == Ok(Universal) && ParseDomain(Str("empty")) == Ok(Empty)
    ensures s != "universal" && s != "empty" ==> ParseDomain(Str(s)) == Ok(OfType(s))
  {
  }

  /** Objects with fewer or other fields than the serialisers write: "never" is empty, an
      instruction has its type under either name, the first of which wins, and only "exists" and
      "not_exists" need no value. */
  lemma OtherForms(v: Value, attribute: string, op: RelOp)
    requires v.Object? && "type" in v.fields
    ensures v.fields["type"] == Str("universal") ==> ParseDomain(v) == Ok(Universal)
    ensures v.fields["type"] in {Str("empty"), Str("never")} ==> ParseDomain(v) == Ok(Empty)
    ensures v.fields["type"] == Str("instruction") && v.GetStr("instruction_type").Some? ==>
              ParseDomain(v) == Ok(OfType(v.fields["instruction_type"].s))
    ensures v.fields["type"] == Str("instruction") && "instruction_type" !in v.fields && v.GetStr("value").Some? ==>
              ParseDomain(v) == Ok(OfType(v.fields["value"].s))
    ensures v.fields["type"] == Str("atom") && v.GetStr("attribute") == Some(attribute) &&
            v.GetStr("op") == Some(RelOpName(op)) && "value" !in v.fields ==>
              ParseDomain(v) ==
              if op in {Exists, NotExists} then Ok(Atom(attribute, op, Null)) else Err(MissingParam(FROM_DICT, "value"))
  {
    RelOpRoundTrip(op);
    hide ParseRelOp, RelOpName;
  }

  /** The parts of "and" and "or" stand in a list; only without one do two of them stand under
      "left" and "right", and without these two there are none. */
  lemma PartsAreSomewhere(v: Value, t: string)
    requires v.Object? && v.GetStr("type") == Some(t) && (t == "and" || t == "or")
    ensures "domains" in v.fields ==>
              ParseDomain(v) == ParseDomain(Object(map["type" := Str(t), "domains" := v.fields["domains"]]))
    ensures "domains" !in v.fields && !("left" in v.fields && "right" in v.fields) ==>
              ParseDomain(v) == Err(MissingParam(FROM_DICT, "domains"))
    ensures "domains" in v.fields && !v.fields["domains"].List? ==>
              ParseDomain(v) == Err(InvalidParam(FROM_DICT, "domains"))
  {
    if "domains" in v.fields {
      var w := Object(map["type" := Str(t), "domains" := v.fields["domains"]]);
      assert w.GetStr("type") == Some(t) && w.fields["domains"] == v.fields["domains"];
      assert ParseParts(w) == ParseParts(v);
    } else if !("left" in v.fields && "right" in v.fields) {
      assert ParseParts(v) == Err(MissingParam(FROM_DICT, "domains"));
    }
  }
}
