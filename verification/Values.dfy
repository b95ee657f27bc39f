/** The value tree every other module works on, instructions, errors, and the ordered
    enumeration of an object's fields. */
module Values {

  datatype Option<+T> = None | Some(value: T)

  type Byte = x: int | 0 <= x < 0x100
  type U32 = x: int | 0 <= x < 0x1_0000_0000
  type U64 = x: int | 0 <= x < 0x1_0000_0000_0000_0000
  type I64 = x: int | -0x8000_0000_0000_0000 <= x < 0x8000_0000_0000_0000

  /** The `as i64` cast: two's complement, modulo 2^64. */
  function AsI64(n: int): (r: I64)
    ensures -0x8000_0000_0000_0000 <= n < 0x8000_0000_0000_0000 ==> r == n
  {
    var m := n % 0x1_0000_0000_0000_0000;
    if m < 0x8000_0000_0000_0000 then m else m - 0x1_0000_0000_0000_0000
  }

  /** The `as u64` cast. */
  function AsU64(n: int): (r: U64)
    ensures 0 <= n < 0x1_0000_0000_0000_0000 ==> r == n
  {
    n % 0x1_0000_0000_0000_0000
  }

  /** The `as u32` cast. */
  function AsU32(n: int): (r: U32)
    ensures 0 <= n < 0x1_0000_0000 ==> r == n
  {
    n % 0x1_0000_0000
  }

  lemma CastsRoundTrip(n: U64, i: I64)
    ensures AsU64(AsI64(n)) == n
    ensures AsI64(AsU64(i)) == i
  {
  }

  /** A float is its 64-bit pattern; no arithmetic is done on it here. */
  datatype Value =
    | Null
    | Bool(b: bool)
    | Integer(i: I64)
    | Float(bits: U64)
    | Str(s: string)
    | List(items: seq<Value>)
    | Object(fields: map<string, Value>)
    | Bytes(raw: seq<Byte>)
  {
    function Get(key: string): Option<Value> {
      if Object? && key in fields then Some(fields[key]) else None
    }

    function GetStr(key: string): Option<string> {
      match Get(key)
      case Some(Str(s)) => Some(s)
      case _ => None
    }

    function GetBool(key: string, default: bool): bool {
      match Get(key)
      case Some(Bool(b)) => b
      case _ => default
    }

    function GetInteger(key: string): Option<I64> {
      match Get(key)
      case Some(Integer(i)) => Some(i)
      case _ => None
    }

    function GetOr(key: string, default: Value): Value {
      if Object? && key in fields then fields[key] else default
    }

    /** `is_empty`: only containers, strings and byte strings have a length other than 1. */
    predicate IsEmpty() {
      match this
      case List(items) => items == []
      case Object(m) => m == map[]
      case Str(s) => s == ""
      case Bytes(b) => b == []
      case _ => false
    }

    predicate Truthy() {
      match this
      case Null => false
      case Bool(b) => b
      case Integer(i) => i != 0
      case Float(bits) => bits != 0 && bits != 0x8000_0000_0000_0000
      case Str(s) => s != ""
      case List(items) => items != []
      case Object(m) => m != map[]
      case Bytes(b) => b != []
    }
  }

  const EmptyObject: Value := Object(map[])
  const EmptyList: Value := List([])

  /** Rust's `==` on values: two float zeros of opposite sign are the same value. */
  predicate SameValue(a: Value, b: Value) {
    match (a, b)
    case (Float(x), Float(y)) => x == y || (IsZero(x) && IsZero(y))
    case (List(xs), List(ys)) =>
      |xs| == |ys| && forall k | 0 <= k < |xs| :: SameValue(xs[k], ys[k])
    case (Object(m), Object(n)) =>
      m.Keys == n.Keys && forall k | k in m :: SameValue(m[k], n[k])
    case _ => a == b
  }

  predicate IsZero(bits: U64) {
    bits == 0 || bits == 0x8000_0000_0000_0000
  }

  // ------------------------------------------------------------------------
  // Errors and instructions
  // ------------------------------------------------------------------------

  datatype Error =
    | TypeError(expected: string, found: Value)
    | UnknownInstruction(kind: string)
    | DepthLimitExceeded(currentDepth: nat, maxDepth: nat)
    | InstructionLimitExceeded(count: nat, max: nat)
    | MissingParam(context: string, param: string)
    | InvalidParam(context: string, param: string)
    | InvalidConfig(detail: string)
    | InvalidDomainType(domainType: string)
    | PathDepthExceeded(pathDepth: nat, max: nat)
    | LeafError(code: int)

  datatype Result<+T> = Ok(value: T) | Err(error: Error)
  {
    predicate IsFailure() { Err? }
    function PropagateFailure<U>(): Result<U>
      requires Err?
    {
      Err(error)
    }
    function Extract(): T
      requires Ok?
    {
      value
    }
  }

  datatype Instruction = Instruction(kind: string, params: map<string, Value>, metadata: Value)
  {
    function Param(key: string): Option<Value> {
      if key in params then Some(params[key]) else None
    }

    function ToValue(): Value {
      var m := map["type" := Str(kind)];
      var m := if params == map[] then m else m["params" := Object(params)];
      var m := if metadata.Null? then m else m["metadata" := metadata];
      Object(m)
    }
  }

  function Simple(kind: string): Instruction {
    Instruction(kind, map[], EmptyObject)
  }

  function ParseInstruction(v: Value): Result<Instruction> {
    match v.GetStr("type")
    case None => Err(MissingParam("GenericInstruction::from_value", "type"))
    case Some(kind) =>
      var params := match v.Get("params") case Some(Object(m)) => m case _ => map[];
      Ok(Instruction(kind, params, v.GetOr("metadata", EmptyObject)))
  }

  /** An instruction survives its value form, except that null metadata comes back as an
      empty object. */
  lemma InstructionRoundTrip(instr: Instruction)
    ensures ParseInstruction(instr.ToValue())
         == Ok(instr.(metadata := if instr.metadata.Null? then EmptyObject else instr.metadata))
  {
    assert "type" != "params" && "type" != "metadata" && "params" != "metadata";
  }

  /** Whatever has a text for a type is an instruction: parameters that are no object count as
      none, and missing metadata as an empty object. Nothing else is one. */
  lemma InstructionsHaveTypes(v: Value)
    ensures v.Object? && "type" in v.fields && v.fields["type"].Str? ==>
              var m := v.fields;
              ParseInstruction(v) ==
              Ok(Instruction(m["type"].s,
                             if "params" in m && m["params"].Object? then m["params"].fields else map[],
                             if "metadata" in m then m["metadata"] else Object(map[])))
    ensures !(v.Object? && "type" in v.fields && v.fields["type"].Str?) ==>
              ParseInstruction(v) == Err(MissingParam("GenericInstruction::from_value", "type"))
  {
    assert v.Get("type") == if v.Object? && "type" in v.fields then Some(v.fields["type"]) else None;
  }

  // ------------------------------------------------------------------------
  // Ordered enumeration of fields
  // ------------------------------------------------------------------------

  /** The order of Rust strings. UTF-8 keeps code point order, so comparing characters and
      comparing bytes give the same answer. */
  predicate Before(a: string, b: string) {
    if b == [] then false
    else if a == [] then true
    else a[0] < b[0] || (a[0] == b[0] && Before(a[1..], b[1..]))
  }

  lemma {:induction false} BeforeIsTotal(a: string, b: string)
    ensures Before(a, b) || Before(b, a) || a == b
    ensures !(Before(a, b) && Before(b, a)) && !Before(a, a)
  {
    if a != [] {
      BeforeIsTotal(a[1..], a[1..]);
    }
    if a != [] && b != [] && a[0] == b[0] {
      BeforeIsTotal(a[1..], b[1..]);
      assert a == [a[0]] + a[1..] && b == [b[0]] + b[1..];
    }
  }

  lemma {:induction false} BeforeIsTransitive(a: string, b: string, c: string)
    requires Before(a, b) && Before(b, c)
    ensures Before(a, c)
  {
    if a != [] && a[0] == b[0] && b[0] == c[0] {
      BeforeIsTransitive(a[1..], b[1..], c[1..]);
    }
  }

  predicate IsFirst(k: string, keys: set<string>) {
    k in keys && forall j | j in keys && j != k :: Before(k, j)
  }

  lemma {:induction false} FirstExists(keys: set<string>) returns (k: string)
    requires keys != {}
    ensures IsFirst(k, keys)
    decreases |keys|
  {
    var x :| x in keys;
    if keys == {x} {
      k := x;
    } else {
      var y := FirstExists(keys - {x});
      BeforeIsTotal(x, y);
      if Before(x, y) {
        forall j | j in keys && j != x ensures Before(x, j) {
          if j != y { BeforeIsTransitive(x, y, j); }
        }
        k := x;
      } else {
        k := y;
      }
    }
  }

  lemma FirstIsUnique(keys: set<string>)
    requires keys != {}
    ensures exists k :: IsFirst(k, keys)
    ensures forall a, b | IsFirst(a, keys) && IsFirst(b, keys) :: a == b
  {
    var _ := FirstExists(keys);
    forall a, b | IsFirst(a, keys) && IsFirst(b, keys)
      ensures a == b
    {
      BeforeIsTotal(a, b);
    }
  }

  function FirstKey(keys: set<string>): (k: string)
    requires keys != {}
    ensures IsFirst(k, keys)
  {
    FirstIsUnique(keys);
    var k :| IsFirst(k, keys);
    k
  }

  ghost predicate StrictlyOrdered(keys: seq<string>) {
    forall i, j | 0 <= i < j < |keys| :: Before(keys[i], keys[j])
  }

  /** The keys in the order `iter_sorted` visits them. */
  function SortedKeys(keys: set<string>): (ks: seq<string>)
    ensures forall k :: k in ks <==> k in keys
    ensures |ks| == |keys|
    decreases |keys|
  {
    if keys == {} then []
    else
      var k := FirstKey(keys);
      [k] + SortedKeys(keys - {k})
  }

  lemma {:induction false} SortedKeysAreOrdered(keys: set<string>)
    ensures StrictlyOrdered(SortedKeys(keys))
    decreases |keys|
  {
    if keys != {} {
      var k := FirstKey(keys);
      SortedKeysAreOrdered(keys - {k});
      var rest := SortedKeys(keys - {k});
      forall j | 0 <= j < |rest| ensures Before(k, rest[j]) {
        assert rest[j] in rest;
      }
    }
  }

  /** Two ordered sequences with the same elements are equal. */
  lemma {:induction false} OrderedIsUnique(a: seq<string>, b: seq<string>)
    requires StrictlyOrdered(a) && StrictlyOrdered(b)
    requires forall k :: k in a <==> k in b
    ensures a == b
  {
    assert a != [] ==> a[0] in b;
    assert b != [] ==> b[0] in a;
    if a != [] && b != [] {
      BeforeIsTotal(a[0], b[0]);
      assert a[0] in b && b[0] in a;
      assert a[0] == b[0];
      forall k ensures k in a[1..] <==> k in b[1..] {
        BeforeIsTotal(a[0], a[0]);
        if k in a[1..] { assert k in a; assert k in b && k != b[0]; }
        if k in b[1..] { assert k in b; assert k in a && k != a[0]; }
      }
      OrderedIsUnique(a[1..], b[1..]);
    }
  }

  // The hash map hands its entries over in an arbitrary order, and `iter_sorted` sorts them.

  type Entry = (string, Value)

  /** `es` lists the entries of `m` in some order, each once. */
  ghost predicate Enumerates(es: seq<Entry>, m: map<string, Value>) {
    && (forall i | 0 <= i < |es| :: es[i].0 in m && es[i].1 == m[es[i].0])
    && (forall i, j | 0 <= i < j < |es| :: es[i].0 != es[j].0)
    && (forall k | k in m :: exists i :: 0 <= i < |es| && es[i].0 == k)
  }

  function InsertEntry(e: Entry, es: seq<Entry>): (r: seq<Entry>)
    ensures forall x :: x in r <==> x == e || x in es
  {
    if es == [] || Before(e.0, es[0].0) then [e] + es
    else [es[0]] + InsertEntry(e, es[1..])
  }

  function SortEntries(es: seq<Entry>): (r: seq<Entry>)
    ensures forall x :: x in r <==> x in es
  {
    if es == [] then [] else InsertEntry(es[0], SortEntries(es[1..]))
  }

  function KeysOf(es: seq<Entry>): (ks: seq<string>)
    ensures |ks| == |es| && forall i | 0 <= i < |es| :: ks[i] == es[i].0
  {
    seq(|es|, i requires 0 <= i < |es| => es[i].0)
  }

  lemma {:induction false} InsertKeepsOrder(e: Entry, es: seq<Entry>)
    requires StrictlyOrdered(KeysOf(es))
    requires forall x | x in es :: x.0 != e.0
    ensures StrictlyOrdered(KeysOf(InsertEntry(e, es)))
  {
    if es != [] {
      assert es[0] in es;
      BeforeIsTotal(e.0, es[0].0);
      var ks := KeysOf(es);
      if Before(e.0, es[0].0) {
        forall j | 0 < j < |es| ensures Before(e.0, ks[j]) {
          BeforeIsTransitive(e.0, ks[0], ks[j]);
        }
      } else {
        var rest := InsertEntry(e, es[1..]);
        assert KeysOf(es[1..]) == ks[1..];
        InsertKeepsOrder(e, es[1..]);
        forall j | 0 <= j < |rest| ensures Before(es[0].0, rest[j].0) {
          assert rest[j] in rest;
          if rest[j] != e {
            var i :| 0 <= i < |es[1..]| && es[1..][i] == rest[j];
            assert Before(ks[0], ks[i + 1]);
          }
        }
        var all := [es[0]] + rest;
        forall i, j | 0 <= i < j < |all| ensures Before(KeysOf(all)[i], KeysOf(all)[j]) {
          if i > 0 { assert Before(KeysOf(rest)[i - 1], KeysOf(rest)[j - 1]); }
        }
      }
    }
  }

  lemma {:induction false} SortEntriesIsOrdered(es: seq<Entry>)
    requires forall i, j | 0 <= i < j < |es| :: es[i].0 != es[j].0
    ensures StrictlyOrdered(KeysOf(SortEntries(es)))
  {
    if es != [] {
      SortEntriesIsOrdered(es[1..]);
      forall x | x in SortEntries(es[1..]) ensures x.0 != es[0].0 {
        var i :| 0 <= i < |es[1..]| && es[1..][i] == x;
        assert es[i + 1] == x;
      }
      InsertKeepsOrder(es[0], SortEntries(es[1..]));
    }
  }

  /** Whatever order the map hands its entries over in, sorting gives one sequence: the
      keys in order, each with its value. */
  lemma EnumerationOrderIsIrrelevant(m: map<string, Value>, es: seq<Entry>)
    requires Enumerates(es, m)
    ensures KeysOf(SortEntries(es)) == SortedKeys(m.Keys)
    ensures forall e | e in SortEntries(es) :: e.0 in m && e.1 == m[e.0]
  {
    SortEntriesIsOrdered(es);
    SortedKeysAreOrdered(m.Keys);
    var out := SortEntries(es);
    forall k ensures k in KeysOf(out) <==> k in SortedKeys(m.Keys) {
      if k in KeysOf(out) {
        var i :| 0 <= i < |out| && KeysOf(out)[i] == k;
        assert out[i] in out;
      }
      if k in m {
        var i :| 0 <= i < |es| && es[i].0 == k;
        assert es[i] in out;
        var j :| 0 <= j < |out| && out[j] == es[i];
        assert KeysOf(out)[j] == k;
      }
    }
    OrderedIsUnique(KeysOf(out), SortedKeys(m.Keys));
  }
}
