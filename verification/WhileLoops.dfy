/** Loops by the meaning of their conditions: when a loop runs nothing, when its body is run, and
    in which states its turns begin and end.
 */
module WhileLoops {
  import opened Values
  import opened Store
  import opened References
  import opened Control
  import opened Machine
  import opened Engine
  import opened Loops
  import Comparisons
  import Conditions
  import Domains
  import ExecContext
  import Queues

  // ------------------------------------------------------------------------
  // What a condition says of a state
  // ------------------------------------------------------------------------

  /** The values that count as false: null, zeros and whatever is empty. */
  predicate Falsy(v: Value) {
    v in {Null, Bool(false), Integer(0), Float(0), Float(Comparisons.NEGATIVE_ZERO), Str(""), List([]), Bytes([]),
      Object(map[])}
  }

  /** The condition of a loop is met by a state, or is not. Without one it is the running flag;
      a single reference stands for what is found there; what has a type is a domain; all else
      stands for itself. */
  ghost predicate Tells(env: Env, st: State, condition: Option<Value>, met: bool) {
    match condition
    case None => met <==> ExecField(st, "__running") != Some(Bool(false))
    case Some(Object(m)) =>
      if REF in m then
        |m| == 1 && m[REF].Str? && m[REF].s != "" &&
        match GetPath(st, m[REF].s)
        case Some(w) => !IsRef(w) && !IsPass(w) && (met <==> !Falsy(w))
        case None => !met
      else if "type" in m then
        exists d ::
          Domains.ParseDomain(Object(m)) == Ok(d) && Domains.NestedAtMost(d, Domains.MAX_DOMAIN_DEPTH) &&
          (met <==> Domains.Meaning(env.floats, d, st))
      else met <==> m != map[]
    case Some(v) => met <==> !Falsy(v)
  }

  lemma TruthIsNotFalsy(v: Value)
    ensures v.Truthy() <==> !Falsy(v)
  {
  }

  lemma PlainStaysTrue(st: State, v: Value)
    requires !IsRef(v) && !IsPass(v)
    ensures ResolveAt(st, v, 1).Truthy() == v.Truthy()
  {
    match v
    case Object(m) =>
      var n := ResolveAt(st, v, 1).fields;
      assert n.Keys == m.Keys;
      assert m == map[] <==> m.Keys == {};
      assert n == map[] <==> n.Keys == {};
    case List(items) => assert |ResolveAt(st, v, 1).items| == |items|;
    case _ =>
  }

  lemma RunningIsDefault(st: State)
    ensures ExecOf(st).running <==> ExecField(st, "__running") != Some(Bool(false))
  {
  }

  /** What the condition tells is what the loop goes by. */
  lemma ToldIsChecked(env: Env, st: State, condition: Option<Value>, met: bool)
    requires Tells(env, st, condition, met)
    ensures CheckCondition(env, st, condition) == Ok(met)
  {
    hide ExecOf, GetPath, Falsy, ResolveAt, Domains.ParseDomain, Domains.Holds, Domains.Meaning;
    match condition
    case None => RunningIsDefault(st);
    case Some(v) =>
      TruthIsNotFalsy(v);
      if v.Object? && REF in v.fields {
        var path := v.fields[REF].s;
        Conditions.RefIsIt(v);
        Conditions.RefIsChecked(env, st, path);
        match GetPath(st, path) {
          case Some(w) =>
            TruthIsNotFalsy(w);
            PlainStaysTrue(st, w);
          case None =>
            TruthIsNotFalsy(Null);
            NullIsFalsy();
            PlainStaysTrue(st, Null);
        }
      } else if v.Object? && "type" in v.fields {
        var d :| Domains.ParseDomain(v) == Ok(d) && Domains.NestedAtMost(d, Domains.MAX_DOMAIN_DEPTH) &&
          (met <==> Domains.Meaning(env.floats, d, st));
        Domains.ContainsDecidesMeaning(env.floats, d, st);
      } else if v.Object? {
        EmptyIsFalsy(v.fields);
      }
  }

  lemma NullIsFalsy()
    ensures Falsy(Null)
  {
  }

  lemma EmptyIsFalsy(m: Fields)
    ensures Falsy(Object(m)) <==> m == map[]
  {
  }

  // ------------------------------------------------------------------------
  // The first turn
  // ------------------------------------------------------------------------

  predicate IsLoop(reg: Registry, instr: Instruction, c: Ctl) {
    instr.kind in reg && reg[instr.kind].WhileLoop? && c.Refusal().None?
  }

  /** The state but for the flag that says whether the loop was cut off. */
  ghost predicate Flagged(st: State, cut: bool, next: State) {
    next.data - {EXEC} == st.data - {EXEC} && ExecOf(next) == ExecOf(st).(terminatedByMaxSteps := cut) &&
    ExecField(next, TRUNCATED) == Some(Bool(cut))
  }

  lemma FlagIsSet(st: State, cut: bool)
    ensures Flagged(st, cut, SetTruncated(st, cut))
  {
    hide ExecContext.Parse, ExecContext.ToValue;
    TruncationIsWritten(st, cut);
    ExecContext.RoundTrip(ExecOf(st).(terminatedByMaxSteps := cut));
  }

  lemma LoopRuns(env: Env, reg: Registry, st: State, instr: Instruction, c: Ctl)
    requires IsLoop(reg, instr, c)
    ensures var r := Loop(env, reg, LoadLoop(st, instr), st, 0, c.Entered());
            Execute(env, reg, st, instr, c) == Run(r.out, r.ctl.(depth := c.depth))
    ensures LoadLoop(st, instr).condition == instr.Param("condition")
    ensures LoadLoop(st, instr).maxSteps == MaxSteps(instr) && LoadLoop(st, instr).body == instr.Param("body")
  {
    hide Loop, Execute, ExecOf, MetaTypes, MaxSteps;
    ExecuteRegistered(env, reg, st, instr, c);
  }

  /** What a loop goes by all along is what the engine's record says when it begins: whether
      auditing is on, whether meta-instructions are traced, and which types these are. */
  lemma SettingsAreRead(st: State, instr: Instruction, kind: string)
    ensures var cfg := LoadLoop(st, instr);
            (cfg.auditOn <==> ExecField(st, "audit_on") != Some(Bool(false))) &&
            (cfg.metaTrace <==> ExecField(st, "drain_meta_trace") == Some(Bool(true))) &&
            (kind in cfg.metaTypes <==>
             match ExecField(st, "meta_instruction_types") case Some(List(items)) => Str(kind) in items case _ => false)
  {
    match ExecField(st, "meta_instruction_types")
    case Some(List(items)) => NamesAreTexts(items, kind);
    case _ =>
  }

  lemma {:induction false} NamesAreTexts(items: seq<Value>, kind: string)
    ensures kind in Names(items) <==> Str(kind) in items
  {
    if items != [] {
      NamesAreTexts(items[1..], kind);
      assert Str(kind) in items <==> items[0] == Str(kind) || Str(kind) in items[1..];
    }
  }

  /** A loop whose condition is not met at first runs nothing, and leaves the state as it is,
      unflagged. */
  lemma UnmetRunsNothing(env: Env, reg: Registry, st: State, instr: Instruction, c: Ctl)
    requires IsLoop(reg, instr, c) && Tells(env, st, instr.Param("condition"), false)
    ensures var r := Execute(env, reg, st, instr, c);
            r.out.Done? && Flagged(st, false, r.out.st) && r.ctl == c.(count := c.count + 1)
  {
    hide Loop, Execute, LoadLoop, SetTruncated, CheckCondition, Tells, Flagged;
    LoopRuns(env, reg, st, instr, c);
    ToldIsChecked(env, st, instr.Param("condition"), false);
    FlagIsSet(st, false);
    UnmetEnds(env, reg, LoadLoop(st, instr), st, c.Entered());
  }

  lemma UnmetEnds(env: Env, reg: Registry, cfg: LoopConfig, st: State, c: Ctl)
    requires CheckCondition(env, st, cfg.condition) == Ok(false)
    ensures Loop(env, reg, cfg, st, 0, c) == Run(Done(SetTruncated(st, false)), c)
  {
    hide CheckCondition, ExecOf, SetTruncated;
  }

  function ItemsOf(body: Option<Value>): seq<Value> {
    match body case Some(List(items)) => items case Some(v) => [v] case None => []
  }

  function BodyItems(instr: Instruction): seq<Value> {
    ItemsOf(instr.Param("body"))
  }

  /** What the loop does if its first instruction does not succeed. */
  ghost predicate HangsOn(env: Env, reg: Registry, st: State, first: Result<Instruction>, c: Ctl, whole: Run) {
    if first.Err? then whole == Run(Failed(first.error), c.(count := c.count + 1))
    else
      var r := Execute(env, reg, st, first.value, c.Entered());
      r.out.Done? || whole == Run(r.out, r.ctl.(depth := c.depth))
  }

  /** Where the condition is met at first, the first instruction of the body is executed on that
      very state: where it is malformed, fails or diverges, so does the loop. */
  lemma MetRunsBody(env: Env, reg: Registry, st: State, instr: Instruction, c: Ctl)
    requires IsLoop(reg, instr, c) && Tells(env, st, instr.Param("condition"), true)
    requires MaxSteps(instr) > 0 && BodyItems(instr) != []
    ensures HangsOn(env, reg, st, ParseInstruction(BodyItems(instr)[0]), c, Execute(env, reg, st, instr, c))
  {
    hide Loop, Execute, LoadLoop, CheckCondition, Tells, ParseInstruction, MaxSteps;
    LoopRuns(env, reg, st, instr, c);
    ToldIsChecked(env, st, instr.Param("condition"), true);
    var cfg := LoadLoop(st, instr);
    BodyAborts(env, reg, cfg, st, c.Entered(), BodyItems(instr));
    var items := BodyItems(instr);
    if ParseInstruction(items[0]).Ok? {
      var r := Execute(env, reg, st, ParseInstruction(items[0]).value, c.Entered());
      assert !r.out.Done? ==> RunAll(env, reg, st, items, false, c.Entered()) == r;
    }
  }

  lemma BodyAborts(env: Env, reg: Registry, cfg: LoopConfig, st: State, c: Ctl, items: seq<Value>)
    requires CheckCondition(env, st, cfg.condition) == Ok(true) && cfg.maxSteps > 0
    requires cfg.body.Some? && items == ItemsOf(cfg.body)
    ensures var r := RunAll(env, reg, st, items, false, c);
            r.out.Done? || Loop(env, reg, cfg, st, 0, c) == r
  {
    hide CheckCondition, ExecOf, SetTruncated, RunAll, Drain;
  }

  /** A condition that is meant as a domain. */
  predicate IsDomain(condition: Option<Value>) {
    condition.Some? && condition.value.Object? && REF !in condition.value.fields && "type" in condition.value.fields
  }

  /** A condition that is meant as a domain but is none makes the loop fail. */
  lemma MalformedFails(env: Env, reg: Registry, st: State, instr: Instruction, c: Ctl)
    requires IsLoop(reg, instr, c) && MaxSteps(instr) > 0
    requires IsDomain(instr.Param("condition"))
    requires Domains.ParseDomain(instr.Param("condition").value).Err?
    ensures Execute(env, reg, st, instr, c) ==
            Run(Failed(Domains.ParseDomain(instr.Param("condition").value).error), c.(count := c.count + 1))
  {
    hide Loop, Execute, LoadLoop, Domains.ParseDomain, MaxSteps;
    LoopRuns(env, reg, st, instr, c);
    var cfg := LoadLoop(st, instr);
    assert CheckCondition(env, st, cfg.condition) == Err(Domains.ParseDomain(instr.Param("condition").value).error);
    MalformedEnds(env, reg, cfg, st, c.Entered());
  }

  lemma MalformedEnds(env: Env, reg: Registry, cfg: LoopConfig, st: State, c: Ctl)
    requires CheckCondition(env, st, cfg.condition).Err? && cfg.maxSteps > 0
    ensures Loop(env, reg, cfg, st, 0, c) == Run(Failed(CheckCondition(env, st, cfg.condition).error), c)
  {
    hide CheckCondition, ExecOf, SetTruncated;
  }

  // ------------------------------------------------------------------------
  // All turns
  // ------------------------------------------------------------------------

  ghost predicate Decided(env: Env, st: State, condition: Option<Value>) {
    Tells(env, st, condition, true) || Tells(env, st, condition, false)
  }

  /** In every state the condition is met or not. */
  ghost predicate Telling(env: Env, condition: Option<Value>) {
    forall st :: Decided(env, st, condition)
  }

  /** The body and the drain after it lead from `p` to `q`. */
  ghost predicate Turns(env: Env, reg: Registry, cfg: LoopConfig, items: seq<Value>, p: Point, q: Point) {
    var r := RunAll(env, reg, p.st, items, false, p.ctl);
    r.out.Done? && Drain(env, reg, cfg, r.out.st, r.ctl) == Run(Done(q.st), q.ctl)
  }

  /** A turn completed: from a state that meets the condition to one in which the engine still
      runs. */
  ghost predicate Leads(env: Env, reg: Registry, cfg: LoopConfig, items: seq<Value>, p: Point, q: Point) {
    Tells(env, p.st, cfg.condition, true) && Turns(env, reg, cfg, items, p, q) && ExecOf(q.st).running
  }

  /** The turns a loop completes. */
  ghost predicate Completes(env: Env, reg: Registry, cfg: LoopConfig, items: seq<Value>, points: seq<Point>) {
    forall i, j | 0 <= i && j == i + 1 < |points| :: Leads(env, reg, cfg, items, points[i], points[j])
  }

  /** How a loop comes to its end after completing its turns: it has reached its limit, its
      condition is not met, it has no body, or the body or the drain stops the engine. */
  ghost predicate Ends(env: Env, reg: Registry, cfg: LoopConfig, items: seq<Value>, p: Point, steps: nat, out: State) {
    if steps >= cfg.maxSteps then Flagged(p.st, steps > 0 && ExecOf(p.st).running, out)
    else if Tells(env, p.st, cfg.condition, false) then Flagged(p.st, false, out)
    else if cfg.body == None then Flagged(p.st, false, out)
    else exists q :: Turns(env, reg, cfg, items, p, q) && !ExecOf(q.st).running && Flagged(q.st, false, out)
  }

  lemma TellsOnce(env: Env, st: State, condition: Option<Value>)
    ensures Tells(env, st, condition, true) ==> !Tells(env, st, condition, false)
  {
    hide Tells, CheckCondition;
    if Tells(env, st, condition, true) && Tells(env, st, condition, false) {
      ToldIsChecked(env, st, condition, true);
      ToldIsChecked(env, st, condition, false);
      assert false;
    }
  }

  lemma Prepend(env: Env, reg: Registry, cfg: LoopConfig, items: seq<Value>, from: Point, later: seq<Point>)
    requires later != [] && Completes(env, reg, cfg, items, later)
    requires Leads(env, reg, cfg, items, from, later[0])
    ensures Completes(env, reg, cfg, items, [from] + later)
  {
    hide Leads;
    var points := [from] + later;
    forall i, j | 0 <= i && j == i + 1 < |points|
      ensures Leads(env, reg, cfg, items, points[i], points[j])
    {
      if i > 0 {
        assert points[i] == later[i - 1] && points[j] == later[j - 1];
      }
    }
  }

  /** A loop that succeeds has gone from turn to turn as its condition told it to. */
  lemma {:induction false} LoopCompletes(env: Env, reg: Registry, cfg: LoopConfig, from: Point, steps: nat)
    returns (points: seq<Point>)
    requires Telling(env, cfg.condition) && Loop(env, reg, cfg, from.st, steps, from.ctl).out.Done?
    ensures points != [] && points[0] == from && Completes(env, reg, cfg, ItemsOf(cfg.body), points)
    ensures Ends(env, reg, cfg, ItemsOf(cfg.body), points[|points| - 1], steps + |points| - 1,
                 Loop(env, reg, cfg, from.st, steps, from.ctl).out.st)
    decreases if steps <= cfg.maxSteps then cfg.maxSteps - steps else 0
  {
    hide ExecOf, SetTruncated, TakeTurn, Tells, Flagged, Drain, RunAll, CheckCondition, ItemsOf, Turns;
    points := [from];
    if steps >= cfg.maxSteps {
      FlagIsSet(from.st, steps > 0 && ExecOf(from.st).running);
    } else {
      var t := TakeTurn(env, reg, cfg, from.st, from.ctl);
      var met := Tells(env, from.st, cfg.condition, true);
      assert Decided(env, from.st, cfg.condition);
      TellsOnce(env, from.st, cfg.condition);
      ToldIsChecked(env, from.st, cfg.condition, met);
      TurnIs(env, reg, cfg, ItemsOf(cfg.body), from, met);
      if t.Completed? {
        var later := LoopCompletes(env, reg, cfg, Point(t.st, t.ctl), steps + 1);
        points := [from] + later;
        Prepend(env, reg, cfg, ItemsOf(cfg.body), from, later);
      } else if t.Ended? {
        FlagIsSet(t.st, false);
        assert Completes(env, reg, cfg, ItemsOf(cfg.body), points);
        if met && cfg.body != None {
          assert Turns(env, reg, cfg, ItemsOf(cfg.body), from, Point(t.st, t.ctl));
        }
      }
    }
  }

  ghost predicate TurnFits(env: Env, reg: Registry, cfg: LoopConfig, items: seq<Value>, p: Point, met: bool, t: Turn) {
    if t.Aborted? then true
    else if t.Completed? then
      met && Turns(env, reg, cfg, items, p, Point(t.st, t.ctl)) && ExecOf(t.st).running
    else if !met || cfg.body == None then t.st == p.st
    else Turns(env, reg, cfg, items, p, Point(t.st, t.ctl)) && !ExecOf(t.st).running
  }

  lemma TurnIs(env: Env, reg: Registry, cfg: LoopConfig, items: seq<Value>, p: Point, met: bool)
    requires CheckCondition(env, p.st, cfg.condition) == Ok(met)
    requires items == ItemsOf(cfg.body)
    ensures TurnFits(env, reg, cfg, items, p, met, TakeTurn(env, reg, cfg, p.st, p.ctl))
  {
    hide ExecOf, Drain, RunAll, CheckCondition;
  }

  /** A loop that succeeds, whatever its condition is: it has gone from turn to turn in states
      that met the condition, and has come to one of the four ends. */
  lemma RunsWhileMet(env: Env, reg: Registry, st: State, instr: Instruction, c: Ctl) returns (points: seq<Point>)
    requires IsLoop(reg, instr, c) && Telling(env, instr.Param("condition"))
    requires Execute(env, reg, st, instr, c).out.Done?
    ensures points != [] && points[0] == Point(st, c.Entered())
    ensures Completes(env, reg, LoadLoop(st, instr), BodyItems(instr), points)
    ensures Ends(env, reg, LoadLoop(st, instr), BodyItems(instr), points[|points| - 1], |points| - 1,
                 Execute(env, reg, st, instr, c).out.st)
  {
    hide Loop, Execute, LoadLoop, Telling, MaxSteps, Completes, Ends, ItemsOf;
    LoopRuns(env, reg, st, instr, c);
    points := LoopCompletes(env, reg, LoadLoop(st, instr), Point(st, c.Entered()), 0);
  }

  // ------------------------------------------------------------------------
  // Domains as conditions
  // ------------------------------------------------------------------------

  /** The condition is the domain, and within the depth to which domains are evaluated. */
  ghost predicate Asks(condition: Option<Value>, d: Domains.Domain) {
    IsDomain(condition) && Domains.ParseDomain(condition.value) == Ok(d) &&
    Domains.NestedAtMost(d, Domains.MAX_DOMAIN_DEPTH)
  }

  lemma DomainTells(env: Env, st: State, condition: Option<Value>, d: Domains.Domain, met: bool)
    requires Asks(condition, d)
    ensures Tells(env, st, condition, met) <==> (met <==> Domains.Meaning(env.floats, d, st))
  {
    hide Domains.ParseDomain, Domains.Meaning, Domains.NestedAtMost, ExecField;
  }

  /** Where the domain does not hold at first, nothing is run; where it does, the body is. */
  lemma DomainDecides(env: Env, reg: Registry, st: State, instr: Instruction, c: Ctl, d: Domains.Domain)
    requires IsLoop(reg, instr, c) && Asks(instr.Param("condition"), d)
    ensures !Domains.Meaning(env.floats, d, st) ==>
              var r := Execute(env, reg, st, instr, c);
              r.out.Done? && Flagged(st, false, r.out.st) && r.ctl == c.(count := c.count + 1)
    ensures Domains.Meaning(env.floats, d, st) && MaxSteps(instr) > 0 && BodyItems(instr) != [] ==>
              HangsOn(env, reg, st, ParseInstruction(BodyItems(instr)[0]), c, Execute(env, reg, st, instr, c))
  {
    hide Execute, Tells, Asks, Flagged, HangsOn, MaxSteps, BodyItems, ParseInstruction, Domains.Meaning;
    if Domains.Meaning(env.floats, d, st) {
      DomainTells(env, st, instr.Param("condition"), d, true);
      if MaxSteps(instr) > 0 && BodyItems(instr) != [] {
        MetRunsBody(env, reg, st, instr, c);
      }
    } else {
      DomainTells(env, st, instr.Param("condition"), d, false);
      UnmetRunsNothing(env, reg, st, instr, c);
    }
  }

  /** A loop over a domain that succeeds began all its turns in states of the domain. Short of
      its limit it ends in a state off the domain, unless it has no body or the engine stops. */
  lemma DomainLoopRuns(env: Env, reg: Registry, st: State, instr: Instruction, c: Ctl, d: Domains.Domain)
    returns (points: seq<Point>)
    requires IsLoop(reg, instr, c) && Asks(instr.Param("condition"), d) && Execute(env, reg, st, instr, c).out.Done?
    ensures points != [] && points[0] == Point(st, c.Entered())
    ensures Completes(env, reg, LoadLoop(st, instr), BodyItems(instr), points)
    ensures forall i | 0 <= i < |points| - 1 :: Domains.Meaning(env.floats, d, points[i].st)
    ensures Ends(env, reg, LoadLoop(st, instr), BodyItems(instr), points[|points| - 1], |points| - 1,
                 Execute(env, reg, st, instr, c).out.st)
    ensures |points| - 1 < MaxSteps(instr) && !Domains.Meaning(env.floats, d, points[|points| - 1].st) ==>
              Flagged(points[|points| - 1].st, false, Execute(env, reg, st, instr, c).out.st)
  {
    hide Execute, Tells, Asks, Flagged, LoadLoop, MaxSteps, BodyItems, Loop, Turns, Domains.Meaning;
    assert Telling(env, instr.Param("condition")) by {
      forall p: State ensures Decided(env, p, instr.Param("condition")) {
        DomainTells(env, p, instr.Param("condition"), d, true);
        DomainTells(env, p, instr.Param("condition"), d, false);
      }
    }
    LoopRuns(env, reg, st, instr, c);
    points := RunsWhileMet(env, reg, st, instr, c);
    forall i | 0 <= i < |points| - 1
      ensures Domains.Meaning(env.floats, d, points[i].st)
    {
      assert Leads(env, reg, LoadLoop(st, instr), BodyItems(instr), points[i], points[i + 1]);
      DomainTells(env, points[i].st, instr.Param("condition"), d, true);
    }
    DomainTells(env, points[|points| - 1].st, instr.Param("condition"), d, false);
  }

  // ------------------------------------------------------------------------
  // One turn of the drain
  // ------------------------------------------------------------------------

  /** The type of an instruction in the queue, or an empty text. */
  function KindOf(v: Value): string {
    if v.Object? && "type" in v.fields && v.fields["type"].Str? then v.fields["type"].s else ""
  }

  /** A trace step if `on`, and nothing otherwise. */
  ghost predicate TracesIf(env: Env, reg: Registry, on: bool, st: State, c: Ctl, r: Run) {
    r == if on then Execute(env, reg, st, Instruction("trace_step", map[], Object(map[])), c) else Run(Done(st), c)
  }

  /** The first in the queue is taken and becomes current, unless the engine runs it itself. */
  ghost predicate Takes(st: State, first: Value, source: string, current: bool, next: State) {
    var exec := ExecOf(st);
    exec.queue.List? && exec.queue.items != [] && exec.queue.items[0] == first &&
    var popped := exec.(queue := List(exec.queue.items[1..]), traceSource := Str(source));
    Queues.Keeps(st, next, if current then popped.(instruction := first) else popped)
  }

  lemma DrainStops(env: Env, reg: Registry, cfg: LoopConfig, st: State, c: Ctl)
    requires var exec := ExecOf(st); !exec.queue.List? || (exec.queue.items != [] && !exec.running)
    ensures Drain(env, reg, cfg, st, c) == Run(Done(st), c)
  {
    hide ExecOf, TraceIf;
  }

  /** A business instruction at the head of the queue becomes current; with an empty queue one that
      is current stays so. Either ends the drain, with a trace step if auditing is on. */
  lemma DrainLands(env: Env, reg: Registry, cfg: LoopConfig, st: State, c: Ctl) returns (s: State)
    requires var exec := ExecOf(st);
             exec.queue.List? &&
             if exec.queue.items != [] then exec.running && KindOf(exec.queue.items[0]) !in cfg.metaTypes
             else KindOf(exec.instruction) != "" && KindOf(exec.instruction) !in cfg.metaTypes
    ensures if ExecOf(st).queue.items != [] then Takes(st, ExecOf(st).queue.items[0], "queue_pop", true, s) else s == st
    ensures TracesIf(env, reg, cfg.auditOn, s, c, Drain(env, reg, cfg, st, c))
  {
    hide ExecOf, Execute, PutExec;
    var exec := ExecOf(st);
    KindIsType(exec.instruction);
    s := st;
    if exec.queue.items != [] {
      var first, rest := exec.queue.items[0], List(exec.queue.items[1..]);
      KindIsType(first);
      Queues.ExecIsPut(st, exec.(queue := rest));
      var popped := SetQueue(st, exec.queue.items[1..]);
      Queues.ExecIsPut(popped, exec.(queue := rest, instruction := first));
      var current := SetCurrent(popped, first);
      Queues.ExecIsPut(current, exec.(queue := rest, instruction := first, traceSource := Str("queue_pop")));
      s := SetSource(current, "queue_pop");
      assert PlanDrain(st, cfg.metaTypes) == Land(s);
    } else {
      assert PlanDrain(st, cfg.metaTypes) == Land(s);
    }
  }

  lemma KindIsType(v: Value)
    ensures TextOr(v.GetStr("type"), "") == KindOf(v)
  {
  }

  /** With an empty queue and nothing for the dispatch the drain advances, and ends with a trace
      step if auditing is on. */
  lemma DrainAdvances(env: Env, reg: Registry, cfg: LoopConfig, st: State, c: Ctl) returns (s: State)
    requires var exec := ExecOf(st);
             exec.queue == List([]) && (KindOf(exec.instruction) == "" || KindOf(exec.instruction) in cfg.metaTypes)
    ensures Queues.Keeps(st, s, ExecOf(st).(traceSource := Str("advance")))
    ensures var r := Execute(env, reg, s, Instruction("advance_instruction", map[], Object(map[])), c);
            var d := Drain(env, reg, cfg, st, c);
            if r.out.Done? then TracesIf(env, reg, cfg.auditOn, r.out.st, r.ctl, d) else d == r
  {
    hide ExecOf, Execute, PutExec;
    var exec := ExecOf(st);
    KindIsType(exec.instruction);
    Queues.ExecIsPut(st, exec.(traceSource := Str("advance")));
    s := SetSource(st, "advance");
    assert PlanDrain(st, cfg.metaTypes) == Idle(s);
  }

  /** What is left of a drain once a meta-instruction has been run. */
  ghost predicate GoesOn(env: Env, reg: Registry, cfg: LoopConfig, r: Run, d: Run) {
    if !r.out.Done? then d == r
    else
      exists t ::
        TracesIf(env, reg, cfg.auditOn && cfg.metaTrace, r.out.st, r.ctl, t) &&
        d == if t.out.Done? then Drain(env, reg, cfg, t.out.st, t.ctl) else t
  }

  /** A meta-instruction at the head of the queue is taken off and executed, and the drain goes on,
      after a trace step where these are asked for. */
  lemma DrainRunsMeta(env: Env, reg: Registry, cfg: LoopConfig, st: State, c: Ctl, instr: Instruction)
    returns (s: State)
    requires var exec := ExecOf(st);
             exec.queue.List? && exec.queue.items != [] && exec.running &&
             KindOf(exec.queue.items[0]) in cfg.metaTypes && ParseInstruction(exec.queue.items[0]) == Ok(instr)
    ensures Takes(st, ExecOf(st).queue.items[0], "drain_meta:" + instr.kind, false, s)
    ensures GoesOn(env, reg, cfg, Execute(env, reg, s, instr, c), Drain(env, reg, cfg, st, c))
  {
    hide ExecOf, Execute, PutExec, ParseInstruction;
    var exec := ExecOf(st);
    var first, rest := exec.queue.items[0], List(exec.queue.items[1..]);
    KindIsType(first);
    InstructionsHaveTypes(first);
    Queues.ExecIsPut(st, exec.(queue := rest));
    var popped := SetQueue(st, exec.queue.items[1..]);
    Queues.ExecIsPut(popped, exec.(queue := rest, traceSource := Str("drain_meta:" + instr.kind)));
    s := SetSource(popped, "drain_meta:" + instr.kind);
    assert PlanDrain(st, cfg.metaTypes) == RunMeta(s, instr);
    var r := Execute(env, reg, s, instr, c);
    if r.out.Done? {
      assert TracesIf(env, reg, cfg.auditOn && cfg.metaTrace, r.out.st, r.ctl,
                      TraceIf(env, reg, cfg.auditOn && cfg.metaTrace, r.out.st, r.ctl));
    }
  }
}
