/** Whole runs of the self-driving loop. Turn for turn it does what the queue machine says:
    a dispatch runs the case of the current instruction and queues what the case enqueues and
    one advance, and the drain makes the next survivor of the queue current.

    So queued business instructions are dispatched first in, first out, each exactly once, for
    exactly those runs in which nothing is enqueued but in every other turn.
 */
module Fifo {
  import opened Values
  import opened Store
  import opened References
  import opened Control
  import opened Audit
  import opened Machine
  import opened Engine
  import opened Steps
  import opened QueueMachine
  import opened Loops
  import opened Traces
  import opened Drains
  import ExecContext
  import Domains

  // ------------------------------------------------------------------------
  // Programs
  // ------------------------------------------------------------------------

  /** A self-driving loop: the configuration it runs under, the table and the three parts of
      its body, and what is known of it. The steps ahead of the dispatch do `before` to the
      business fields, the cases do `eff`; on one level more than `levels` a turn takes
      `work` instructions for the cases and as many for the steps ahead. `silent` says that
      neither touches the chain. */
  datatype Program = Program(
    env: Env,
    reg: Registry,
    x: ExecContext.Context,
    cfg: LoopConfig,
    cases: Fields,
    lead: seq<Value>,
    dispatch: Value,
    traces: seq<Value>,
    before: (Value, Fields) -> Option<Fields>,
    eff: Effect,
    levels: nat,
    work: nat,
    silent: bool)

  /** What a turn does with an instruction, from the first step of the body to the last. */
  function DeedOf(p: Program, b: Value, fields: Fields): Option<Deed> {
    match p.before(b, fields) case Some(mid) => p.eff(b, mid) case None => None
  }

  function Deeds(p: Program): Effect {
    (b, fields) => DeedOf(p, b, fields)
  }

  const CURRENT_TYPE: Value := Object(map[REF := Str("__exec__.instruction.type")])

  lemma SplitCurrentType()
    ensures SplitPath("__exec__.instruction.type") == ["__exec__", "instruction", "type"]
  {
    var parts := ["__exec__", "instruction", "type"];
    SplitOfDotted(parts);
    assert Dotted(parts) == "__exec__" + "." + Dotted(parts[1..]);
    assert Dotted(parts[1..]) == "instruction" + "." + Dotted(parts[2..]);
    assert Dotted(parts) == "__exec__.instruction.type";
  }

  lemma CurrentTypeIsRead(st: State, t: string)
    requires ExecOf(st).instruction.GetStr("type") == Some(t)
    ensures GetPath(st, "__exec__.instruction.type") == Some(Str(t)) && ResolvePath(st, CURRENT_TYPE) == Str(t)
    ensures Domains.CurrentType(st) == Some(Str(t))
  {
    hide SplitPath;
    SplitCurrentType();
    var exec := st.Get(EXEC).value;
    var b := ExecOf(st).instruction;
    assert exec.Get("instruction") == Some(b);
    var parts := ["__exec__", "instruction", "type"];
    assert Walk(b, parts[2..]) == Some(Str(t)) by { assert parts[2..] == ["type"] && Walk(Str(t), []) == Some(Str(t)); }
    assert Walk(exec, parts[1..]) == Walk(b, parts[2..]);
    assert Walk(st.ToValue(), parts) == Walk(exec, parts[1..]);
  }

  /** A dispatch on the type of the current instruction, with cases of its own or from the
      engine's table. */
  predicate DispatchesOnType(instr: Instruction, x: ExecContext.Context, cases: Fields) {
    instr.kind == "dispatch" && instr.Param("key") == Some(CURRENT_TYPE) &&
    (if "cases" in instr.params then instr.params["cases"] else x.dispatchCases) == Object(cases)
  }

  function BodyOf(cfg: LoopConfig): seq<Value> {
    match cfg.body case Some(List(items)) => items case Some(v) => [v] case None => []
  }

  /** No condition, or the running flag, and for a body a dispatch on the current type, with
      whatever ahead of it and nothing but trace steps behind. */
  ghost predicate SelfDriving(p: Program) {
    Standard(p.reg) && StopsWhenIdle(p.env, p.x) && SetUp(p.cfg, p.x) &&
    (p.cfg.condition == None || p.cfg.condition == Some(STILL_RUNNING)) &&
    p.cfg.body.Some? && BodyOf(p.cfg) == p.lead + [p.dispatch] + p.traces && TracesOnly(p.traces) &&
    ParseInstruction(p.dispatch).Ok? && DispatchesOnType(ParseInstruction(p.dispatch).value, p.x, p.cases)
  }

  /** Does just the deed, and to the chain nothing where that is asked for. */
  ghost predicate Performs(p: Program, st: State, c: Ctl, r: Run, b: Value, queue: seq<Value>, d: Deed) {
    Does(p.x, st, c, r, b, queue, d, p.work) && (p.silent ==> PairsIn(r.out.st) == PairsIn(st))
  }

  /** With `b` current, the steps ahead of the dispatch do what `before` says. */
  ghost predicate LeadDoes(p: Program, b: Value) {
    forall st, c, queue
      | Stands(st, p.x, b, queue) && Room(c, p.levels, p.work) && p.before(b, Business(st)).Some? ::
      Performs(p, st, c, RunAll(p.env, p.reg, st, p.lead, false, c), b, queue,
               Deed(p.before(b, Business(st)).value, []))
  }

  /** With `b` current, its case does what `eff` says, on all fields that it is defined on. */
  ghost predicate CaseDoes(p: Program, body: Value, t: string, b: Value) {
    forall st, c, queue
      | Stands(st, p.x, b, queue) && Room(c, p.levels, p.work) && p.eff(b, Business(st)).Some? ::
      PlanCase(st, body, t).RunCase? &&
      Performs(p, st, c, Execute(p.env, p.reg, st, PlanCase(st, body, t).instr, c), b, queue,
               p.eff(b, Business(st)).value)
  }

  ghost predicate BusinessItem(p: Program, b: Value) {
    b.GetStr("type").Some? && !IsAdvance(b) &&
    var t := b.GetStr("type").value;
    t != "" && t !in MetaTypes(p.x) && t in p.cases && CaseDoes(p, p.cases[t], t, b) && LeadDoes(p, b)
  }

  /** An instruction that may come to stand in the queue. */
  ghost predicate Item(p: Program, v: Value) {
    if IsAdvance(v) then ParseInstruction(v).Ok? else BusinessItem(p, v)
  }

  lemma ItemIsQueued(p: Program, v: Value)
    requires Item(p, v)
    ensures Queued(p.x, v)
  {
    hide IsAdvance, MetaTypes, CaseDoes, LeadDoes;
  }

  // ------------------------------------------------------------------------
  // Dispatch
  // ------------------------------------------------------------------------

  lemma CasesAreFound(env: Env, st: State, instr: Instruction, x: ExecContext.Context, cases: Fields, t: string)
    requires DispatchesOnType(instr, x, cases) && SameConfig(x, ExecOf(st)) && t in cases
    requires ExecOf(st).instruction.GetStr("type") == Some(t)
    ensures PlanDispatch(env, st, instr) == PlanCase(st, cases[t], t)
  {
    hide PlanCase, ResolvePath;
    CurrentTypeIsRead(st, t);
    TableIsRead(st, cases);
  }

  lemma TableIsRead(st: State, cases: Fields)
    ensures cases != map[] && ExecOf(st).dispatchCases == Object(cases) ==>
            ExecField(st, "dispatch_cases") == Some(Object(cases))
  {
  }

  /** The hashes a dispatch notes, as the chain records them. */
  function HashOf(env: Env, fields: Fields): string {
    ContentHash(env.digests, [Object(fields - {AUDIT_TRACE, PROVENANCE})])
  }

  lemma HashOfBusiness(env: Env, st: State)
    ensures StateHash(env, st) == HashOf(env, Business(st))
  {
    hide ContentHash;
    assert st.data - {EXEC, AUDIT_CHAIN, AUDIT_TRACE, PROVENANCE} == Business(st) - {AUDIT_TRACE, PROVENANCE};
  }

  /** The engine stands, in a record of its own making, with the hashes of a dispatch noted. */
  ghost predicate Marked(st: State, x: ExecContext.Context, b: Value, queue: seq<Value>, pair: (string, string)) {
    Stands(st, x, b, queue) && Typed(st) && PairOf(ExecOf(st).dispatchHashes) == pair
  }

  lemma FinishedDispatch(env: Env, before: State, after: State, tag: string, x: ExecContext.Context, b: Value,
                         queue: seq<Value>)
    requires Stands(after, x, b, queue)
    ensures var st := FinishDispatch(env, before, after, tag);
            Marked(st, x, b, queue + [AdvanceInQueue],
                   (HashOf(env, Business(before)), HashOf(env, Business(after)))) &&
            Business(st) == Business(after) && PairsIn(st) == PairsIn(after)
  {
    hide ExecOf, PutExec, StateHash, Business, ExecField, Typed, HashOf, PairsIn;
    var hashes := Object(map[
      "before_hash" := Str(StateHash(env, before)),
      "after_hash" := Str(StateHash(env, after)),
      "case_key" := Str(tag)]);
    HashOfBusiness(env, before);
    HashOfBusiness(env, after);
    PutExecEffect(after, ExecOf(after).(dispatchHashes := hashes));
    var noted := SetHashes(after, hashes);
    PutExecEffect(noted, ExecOf(noted).(queue := List(queue + [AdvanceInQueue])));
  }

  /** A run that dispatched `b` from fields `mid` with the deed `d`. */
  ghost predicate Dispatches(p: Program, st: State, c: Ctl, r: Run, b: Value, queue: seq<Value>, mid: Fields, d: Deed) {
    r.out.Done? &&
    Marked(r.out.st, p.x, b, queue + d.enqueued + [AdvanceInQueue], (HashOf(p.env, mid), HashOf(p.env, d.fields))) &&
    Business(r.out.st) == d.fields && (p.silent ==> PairsIn(r.out.st) == PairsIn(st)) &&
    r.ctl.count <= c.count + p.work + 1
  }

  /** A dispatch on the type of the current instruction runs its case, and queues one advance
      behind what the case enqueued. */
  lemma DispatchRuns(p: Program, st: State, instr: Instruction, c: Ctl, b: Value, queue: seq<Value>, d: Deed)
    requires SelfDriving(p) && DispatchesOnType(instr, p.x, p.cases) && Stands(st, p.x, b, queue)
    requires BusinessItem(p, b) && Room(c, p.levels + 1, p.work + 1) && p.eff(b, Business(st)) == Some(d)
    ensures Dispatches(p, st, c, Execute(p.env, p.reg, st, instr, c), b, queue, Business(st), d)
  {
    hide ExecOf, Execute, PlanDispatch, PlanCase, FinishDispatch, Business, ExecField, Marked, HashOf, PairsIn,
         StopsWhenIdle, SetUp, LeadDoes, MetaTypes;
    var t := b.GetStr("type").value;
    CasesAreFound(p.env, st, instr, p.x, p.cases, t);
    var plan := PlanCase(st, p.cases[t], t);
    var e := c.Entered();
    assert Room(e, p.levels, p.work);
    var r := Execute(p.env, p.reg, st, plan.instr, e);
    assert Performs(p, st, e, r, b, queue, d);
    FinishedDispatch(p.env, st, r.out.st, plan.tag, p.x, b, queue + d.enqueued);
    ExecuteRegistered(p.env, p.reg, st, instr, c);
  }

  // ------------------------------------------------------------------------
  // Turns
  // ------------------------------------------------------------------------

  lemma {:induction false} RunAllAppends(env: Env, reg: Registry, st: State, items: seq<Value>, more: seq<Value>,
                                         c: Ctl)
    ensures var r := RunAll(env, reg, st, items, false, c);
            RunAll(env, reg, st, items + more, false, c) ==
            if r.out.Done? then RunAll(env, reg, r.out.st, more, false, r.ctl) else r
    decreases |items|
  {
    hide Execute, ParseInstruction;
    if items == [] {
      assert items + more == more;
    } else {
      assert (items + more)[1..] == items[1..] + more;
      match ParseInstruction(items[0])
      case Ok(instr) =>
        var r := Execute(env, reg, st, instr, c);
        if r.out.Done? { RunAllAppends(env, reg, r.out.st, items[1..], more, r.ctl); }
      case Err(_) =>
    }
  }

  lemma RunOne(env: Env, reg: Registry, st: State, item: Value, c: Ctl)
    requires ParseInstruction(item).Ok? && Execute(env, reg, st, ParseInstruction(item).value, c).out.Done?
    ensures RunAll(env, reg, st, [item], false, c) == Execute(env, reg, st, ParseInstruction(item).value, c)
  {
    hide Execute, ParseInstruction;
    assert [item][1..] == [];
  }

  /** The hashes of the business fields around a dispatch with `b` current. */
  function PairAt(p: Program, b: Value, fields: Fields): (string, string) {
    match p.before(b, fields)
    case Some(mid) =>
      (HashOf(p.env, mid), match p.eff(b, mid) case Some(d) => HashOf(p.env, d.fields) case None => "")
    case None => ("", "")
  }

  /** The body has run, and its trace steps have recorded the dispatch. */
  ghost predicate BodyDone(p: Program, st: State, c: Ctl, r: Run, j: Job, d: Deed) {
    var pair := PairAt(p, j.current, j.fields);
    r.out.Done? && Marked(r.out.st, p.x, j.current, QueueAfter(j, d), pair) && Business(r.out.st) == d.fields &&
    (p.silent ==> PairsIn(r.out.st) == PairsIn(st) + Repeat(pair, Recorded(p.x.auditOn, |p.traces|))) &&
    r.ctl.count <= c.count + 2 * p.work + 1 + |p.traces|
  }

  /** The state of a run that has come to the job `j`. */
  ghost predicate Carries(p: Program, st: State, j: Job) {
    Stands(st, p.x, j.current, j.queue) && Business(st) == j.fields
  }

  lemma LeadAndDispatch(p: Program, st: State, c: Ctl, j: Job, d: Deed)
    requires SelfDriving(p) && Carries(p, st, j) && BusinessItem(p, j.current)
    requires DeedOf(p, j.current, j.fields) == Some(d) && Room(c, p.levels + 1, 2 * p.work + 1)
    ensures var r := RunAll(p.env, p.reg, st, p.lead + [p.dispatch], false, c);
            Dispatches(p, st, c.(count := c.count + p.work), r, j.current, j.queue,
                       p.before(j.current, j.fields).value, d)
  {
    hide Execute, ParseInstruction, Business, Stands, RunAll, Marked, PairsIn, HashOf, CaseDoes;
    var mid := p.before(j.current, j.fields).value;
    var l := RunAll(p.env, p.reg, st, p.lead, false, c);
    assert Performs(p, st, c, l, j.current, j.queue, Deed(mid, []));
    assert j.queue + [] == j.queue;
    var instr := ParseInstruction(p.dispatch).value;
    DispatchRuns(p, l.out.st, instr, l.ctl, j.current, j.queue, d);
    RunAllAppends(p.env, p.reg, st, p.lead, [p.dispatch], c);
    RunOne(p.env, p.reg, l.out.st, p.dispatch, l.ctl);
  }

  lemma BodyRuns(p: Program, st: State, c: Ctl, j: Job, d: Deed)
    requires SelfDriving(p) && Carries(p, st, j) && BusinessItem(p, j.current)
    requires DeedOf(p, j.current, j.fields) == Some(d) && Room(c, p.levels + 1, 2 * p.work + 1 + |p.traces|)
    ensures BodyDone(p, st, c, RunAll(p.env, p.reg, st, BodyOf(p.cfg), false, c), j, d)
  {
    hide Execute, ParseInstruction, Business, RunAll, PairsIn, HashOf, BusinessItem, Typed, ExecOf, BodyOf,
         StopsWhenIdle, DispatchesOnType, TracesOnly;
    var mid := p.before(j.current, j.fields).value;
    var r := RunAll(p.env, p.reg, st, p.lead + [p.dispatch], false, c);
    LeadAndDispatch(p, st, c, j, d);
    TracesRun(p.env, p.reg, r.out.st, p.traces, r.ctl);
    var t := RunAll(p.env, p.reg, r.out.st, p.traces, false, r.ctl);
    QuietStands(r.out.st, r.ctl, t, Business(r.out.st), |p.traces|, p.x, j.current, QueueAfter(j, d));
    RunAllAppends(p.env, p.reg, st, p.lead + [p.dispatch], p.traces, c);
  }

  /** How often the turn records its dispatch, and what it may spend. */
  function TurnRecords(p: Program, queue: seq<Value>): nat {
    Recorded(p.x.auditOn, |p.traces|) + (Recorded(p.x.auditOn, 1) + TracedMetas(p.x, AdvancesRun(queue)))
  }

  function TurnCost(p: Program, queue: seq<Value>): nat {
    2 * p.work + 1 + |p.traces| + 2 * AdvancesRun(queue) + 2
  }

  ghost predicate TurnRecorded(p: Program, st: State, c: Ctl, next: State, after: Ctl, j: Job, d: Deed) {
    (p.silent ==>
       PairsIn(next) == PairsIn(st) +
         Repeat(PairAt(p, j.current, j.fields), TurnRecords(p, QueueAfter(j, d)))) &&
    after.count <= c.count + TurnCost(p, QueueAfter(j, d))
  }

  /** A turn that leads where the queue machine says. */
  ghost predicate TurnsTo(p: Program, st: State, c: Ctl, t: Turn, j: Job, d: Deed) {
    match TurnOf(Deeds(p), j)
    case Going(next) =>
      t.Completed? && Carries(p, t.st, next) && CheckCondition(p.env, t.st, p.cfg.condition) == Ok(true) &&
      TurnRecorded(p, st, c, t.st, t.ctl, j, d)
    case Resting(fields) =>
      t.Ended? && t.reason == NotRunning && Rests(t.st, p.x) && Business(t.st) == fields &&
      TurnRecorded(p, st, c, t.st, t.ctl, j, d)
    case Stuck => false
  }

  lemma StandsTyped(env: Env, st: State, x: ExecContext.Context, b: Value, queue: seq<Value>,
                    condition: Option<Value>)
    requires Stands(st, x, b, queue) && Typed(st) && (condition == None || condition == Some(STILL_RUNNING))
    ensures CheckCondition(env, st, condition) == Ok(true)
  {
    hide ExecOf, Typed, CheckCondition;
    TypedFields(st);
    StillRunning(env, st, condition);
  }

  /** What the drain leaves of a body that has run. */
  lemma TurnIsRecorded(p: Program, st: State, c: Ctl, r: Run, next: State, after: Ctl, j: Job, d: Deed)
    requires BodyDone(p, st, c, r, j, d)
    requires var ran := AdvancesRun(QueueAfter(j, d));
             Continues(r.out.st, next, Recorded(p.x.auditOn, 1) + TracedMetas(p.x, ran)) &&
             after.count <= r.ctl.count + 2 * ran + 2
    ensures TurnRecorded(p, st, c, next, after, j, d) && Typed(next) && Business(next) == d.fields
  {
    hide ExecOf, Typed, PairsIn, Business, Stands, PairAt, AdvancesRun, QueueAfter;
    var pair := PairAt(p, j.current, j.fields);
    var k, n := Recorded(p.x.auditOn, |p.traces|), TurnRecords(p, QueueAfter(j, d)) - Recorded(p.x.auditOn, |p.traces|);
    assert Repeat(pair, k) + Repeat(pair, n) == Repeat(pair, k + n);
    assert p.silent ==> PairsIn(next) == PairsIn(st) + (Repeat(pair, k) + Repeat(pair, n));
  }

  lemma DrainTurns(p: Program, st: State, c: Ctl, j: Job, d: Deed, r: Run, t: Run)
    requires SelfDriving(p) && CheckCondition(p.env, st, p.cfg.condition) == Ok(true)
    requires DeedOf(p, j.current, j.fields) == Some(d)
    requires r == RunAll(p.env, p.reg, st, BodyOf(p.cfg), false, c) && BodyDone(p, st, c, r, j, d)
    requires t == Drain(p.env, p.reg, p.cfg, r.out.st, r.ctl)
    requires DrainsTo(p.x, r.out.st, r.ctl, t, j.current, QueueAfter(j, d))
    ensures TurnsTo(p, st, c, TakeTurn(p.env, p.reg, p.cfg, st, c), j, d)
  {
    hide RunAll, Drain, CheckCondition, Business, Typed, ExecOf, StopsWhenIdle, DispatchesOnType, TracesOnly, Continues,
         TurnRecorded, DrainOf, AdvancesRun, QueueAfter, ParseInstruction, BodyDone, SameConfig, SetUp, Standard;
    assert BodyDone(p, st, c, r, j, d);
    BodyIsOver(p, st, c, r, j, d);
    TurnIsRecorded(p, st, c, r, t.out.st, t.ctl, j, d);
    match DrainOf(j.current, QueueAfter(j, d))
    case Landed(next, rest) => StandsTyped(p.env, t.out.st, p.x, next, rest, p.cfg.condition);
    case AtRest =>
  }

  lemma BodyIsOver(p: Program, st: State, c: Ctl, r: Run, j: Job, d: Deed)
    requires BodyDone(p, st, c, r, j, d)
    ensures r.out.Done? && Stands(r.out.st, p.x, j.current, QueueAfter(j, d))
  {
    hide Stands, Typed, PairsIn, Business;
  }

  /** Turn for turn the loop does what the queue machine says, and records it. */
  lemma TurnRuns(p: Program, st: State, c: Ctl, j: Job, d: Deed)
    requires SelfDriving(p) && Carries(p, st, j) && CheckCondition(p.env, st, p.cfg.condition) == Ok(true)
    requires BusinessItem(p, j.current) && DeedOf(p, j.current, j.fields) == Some(d)
    requires (forall v | v in QueueAfter(j, d) :: Item(p, v)) && Room(c, p.levels + 1, TurnCost(p, QueueAfter(j, d)))
    ensures TurnsTo(p, st, c, TakeTurn(p.env, p.reg, p.cfg, st, c), j, d)
  {
    hide RunAll, Drain, CheckCondition, Business, StopsWhenIdle, DispatchesOnType, TracesOnly, QueueAfter, Stands,
         Item, BusinessItem, BodyDone, AdvancesRun, Queued, SetUp, DrainsTo, Standard, TurnsTo, ParseInstruction;
    var r := RunAll(p.env, p.reg, st, BodyOf(p.cfg), false, c);
    BodyRuns(p, st, c, j, d);
    BodyIsOver(p, st, c, r, j, d);
    BodyCount(p, st, c, r, j, d);
    var queue := QueueAfter(j, d);
    forall v | v in queue ensures Queued(p.x, v) { ItemIsQueued(p, v); }
    BusinessIsItem(p, j.current);
    ItemIsQueued(p, j.current);
    DrainRuns(p.env, p.reg, p.cfg, r.out.st, r.ctl, p.x, j.current, queue);
    DrainTurns(p, st, c, j, d, r, Drain(p.env, p.reg, p.cfg, r.out.st, r.ctl));
  }

  lemma BusinessIsItem(p: Program, b: Value)
    requires BusinessItem(p, b)
    ensures Item(p, b) && !IsAdvance(b)
  {
    hide CaseDoes, LeadDoes, MetaTypes, IsAdvance;
  }

  lemma BodyCount(p: Program, st: State, c: Ctl, r: Run, j: Job, d: Deed)
    requires BodyDone(p, st, c, r, j, d)
    ensures r.ctl.count <= c.count + 2 * p.work + 1 + |p.traces|
  {
    hide Stands, Typed, PairsIn, Business, ExecOf;
  }

  // ------------------------------------------------------------------------
  // Whole runs
  // ------------------------------------------------------------------------

  /** The hashes that `n` turns record, one dispatch after the other. */
  function Trail(p: Program, j: Job, n: nat): seq<(string, string)>
    decreases n
  {
    if n == 0 || DeedOf(p, j.current, j.fields) == None then []
    else
      var queue := QueueAfter(j, DeedOf(p, j.current, j.fields).value);
      var here := Repeat(PairAt(p, j.current, j.fields), TurnRecords(p, queue));
      match TurnOf(Deeds(p), j)
      case Going(next) => here + Trail(p, next, n - 1)
      case _ => here
  }

  /** A bound on the instructions that `n` turns take over a tape of `length`. */
  function Cost(p: Program, n: nat, length: nat): nat {
    n * (2 * p.work + |p.traces| + 3) + length + 1
  }

  lemma CostOfTurn(p: Program, n: nat, length: nat, ran: nat, left: nat)
    requires n > 0
    ensures length == 2 * ran + 1 + left ==>
              2 * p.work + 1 + |p.traces| + 2 * ran + 2 + Cost(p, n - 1, left) <= Cost(p, n, length)
    ensures 2 * ran <= length + 1 ==> 2 * p.work + 1 + |p.traces| + 2 * ran + 2 <= Cost(p, n, length)
  {
    var k := 2 * p.work + |p.traces| + 3;
    assert n * k == (n - 1) * k + k;
    Product(n - 1, k);
  }

  lemma Product(n: nat, k: nat)
    ensures n * k >= 0
  {
  }

  /** The loop has ended where the queue machine is after `n` turns. */
  ghost predicate EndsAs(p: Program, st: State, out: Outcome, j: Job, n: nat) {
    match After(Deeds(p), j, n)
    case Resting(fields) =>
      out.Done? && Rests(out.st, p.x) && Business(out.st) == fields &&
      !ExecOf(out.st).terminatedByMaxSteps &&
      (p.silent ==> PairsIn(out.st) == PairsIn(st) + Trail(p, j, n))
    case Going(k) =>
      out.Done? && Carries(p, out.st, k) && ExecOf(out.st).terminatedByMaxSteps &&
      (p.silent ==> PairsIn(out.st) == PairsIn(st) + Trail(p, j, n))
    case Stuck => false
  }

  /** All that is ever dispatched or queued in `n` turns is fit for it. */
  ghost predicate Fit(p: Program, j: Job, n: nat) {
    BusinessItem(p, j.current) && forall v | v in Tape(Deeds(p), j, n) :: Item(p, v)
  }

  lemma FitTurn(p: Program, j: Job, n: nat)
    requires Fit(p, j, n) && n > 0 && After(Deeds(p), j, n) != Stuck
    ensures DeedOf(p, j.current, j.fields).Some?
    ensures var d := DeedOf(p, j.current, j.fields).value;
            (forall v | v in QueueAfter(j, d) :: Item(p, v)) &&
            TurnOf(Deeds(p), j) != Stuck &&
            TurnCost(p, QueueAfter(j, d)) <= Cost(p, n, |Tape(Deeds(p), j, n)|) &&
            match TurnOf(Deeds(p), j)
            case Going(next) =>
              Fit(p, next, n - 1) &&
              TurnCost(p, QueueAfter(j, d)) + Cost(p, n - 1, |Tape(Deeds(p), next, n - 1)|)
                <= Cost(p, n, |Tape(Deeds(p), j, n)|)
            case _ => true
  {
    hide Item, BusinessItem, Tape, QueueAfter, AdvancesRun, TurnOf, Cost;
    StuckWithoutDeed(Deeds(p), j);
    RunOfTurn(Deeds(p), j, n);
    TapeOfTurn(Deeds(p), j, n);
    TapeAfterTurn(Deeds(p), j, n);
    var d := DeedOf(p, j.current, j.fields).value;
    var tape := Tape(Deeds(p), j, n);
    var ran := AdvancesRun(QueueAfter(j, d));
    match TurnOf(Deeds(p), j)
    case Going(next) =>
      CostOfTurn(p, n, |tape|, ran, |Tape(Deeds(p), next, n - 1)|);
      ItemThatIsBusiness(p, next.current);
    case Resting(_) => CostOfTurn(p, n, |tape|, ran, 0);
    case Stuck =>
  }

  lemma ItemThatIsBusiness(p: Program, v: Value)
    requires !IsAdvance(v)
    ensures Item(p, v) ==> BusinessItem(p, v)
  {
    hide BusinessItem;
  }

  lemma TruncationIsQuiet(st: State, cut: bool)
    ensures var next := SetTruncated(st, cut);
            ExecOf(next) == ExecOf(st).(terminatedByMaxSteps := cut) && Business(next) == Business(st) &&
            PairsIn(next) == PairsIn(st)
  {
    hide ExecOf, PutExec, Business, PairsIn;
    PutExecEffect(st, ExecOf(st).(terminatedByMaxSteps := cut));
  }

  lemma CutOff(p: Program, st: State, c: Ctl, j: Job)
    requires Carries(p, st, j) && 0 < p.cfg.maxSteps
    ensures EndsAs(p, st, Loop(p.env, p.reg, p.cfg, st, p.cfg.maxSteps, c).out, j, 0)
  {
    hide ExecOf, SetTruncated, Business, PairsIn, TakeTurn, TurnOf;
    TruncationIsQuiet(st, true);
    assert PairsIn(st) + [] == PairsIn(st);
  }

  lemma TrailOfTurn(p: Program, j: Job, n: nat, d: Deed)
    requires n > 0 && DeedOf(p, j.current, j.fields) == Some(d)
    ensures var here := Repeat(PairAt(p, j.current, j.fields), TurnRecords(p, QueueAfter(j, d)));
            match TurnOf(Deeds(p), j)
            case Going(next) => Trail(p, j, n) == here + Trail(p, next, n - 1)
            case _ => Trail(p, j, n) == here
  {
    hide TurnOf, PairAt, QueueAfter;
  }

  lemma GoesOn(p: Program, st: State, c: Ctl, t: Turn, out: Outcome, j: Job, d: Deed, next: Job, n: nat)
    requires n > 0 && DeedOf(p, j.current, j.fields) == Some(d) && TurnOf(Deeds(p), j) == Going(next)
    requires TurnsTo(p, st, c, t, j, d) && EndsAs(p, t.st, out, next, n - 1)
    ensures EndsAs(p, st, out, j, n)
  {
    hide ExecOf, Business, PairsIn, TurnOf, Carries, Rests, CheckCondition, PairAt, QueueAfter, TurnRecords, DeedOf,
         Trail;
    RunOfTurn(Deeds(p), j, n);
    TrailOfTurn(p, j, n, d);
    var here := Repeat(PairAt(p, j.current, j.fields), TurnRecords(p, QueueAfter(j, d)));
    assert PairsIn(st) + here + Trail(p, next, n - 1) == PairsIn(st) + (here + Trail(p, next, n - 1));
  }

  lemma StopsNow(p: Program, st: State, c: Ctl, t: Turn, j: Job, d: Deed)
    requires DeedOf(p, j.current, j.fields) == Some(d) && TurnOf(Deeds(p), j).Resting?
    requires TurnsTo(p, st, c, t, j, d)
    ensures EndsAs(p, st, Done(SetTruncated(t.st, false)), j, 1)
  {
    hide ExecOf, Business, PairsIn, TurnOf, SetTruncated, CheckCondition, PairAt, QueueAfter, TurnRecords, DeedOf;
    RunOfTurn(Deeds(p), j, 1);
    TrailOfTurn(p, j, 1, d);
    TruncationIsQuiet(t.st, false);
  }

  lemma FitsNow(p: Program, j: Job, n: nat)
    requires Fit(p, j, n)
    ensures BusinessItem(p, j.current)
  {
    hide BusinessItem, Item, Tape;
  }

  lemma {:induction false} LoopRuns(p: Program, st: State, steps: nat, c: Ctl, j: Job, n: nat)
    requires SelfDriving(p) && Carries(p, st, j) && CheckCondition(p.env, st, p.cfg.condition) == Ok(true)
    requires Fit(p, j, n) && 0 < steps + n <= p.cfg.maxSteps
    requires After(Deeds(p), j, n).Resting? || (After(Deeds(p), j, n).Going? && steps + n == p.cfg.maxSteps)
    requires Room(c, p.levels + 1, Cost(p, n, |Tape(Deeds(p), j, n)|))
    ensures EndsAs(p, st, Loop(p.env, p.reg, p.cfg, st, steps, c).out, j, n)
    decreases n
  {
    hide SelfDriving, Carries, CheckCondition, Fit, Cost, TakeTurn, Business, PairsIn, Stands, Rests, SetTruncated,
         Tape, QueueAfter, TurnCost, TurnOf, PairAt, DeedOf, ExecOf, Item, BusinessItem, EndsAs;
    if n == 0 {
      CutOff(p, st, c, j);
    } else {
      FitTurn(p, j, n);
      RunOfTurn(Deeds(p), j, n);
      var d := DeedOf(p, j.current, j.fields).value;
      var t := TakeTurn(p.env, p.reg, p.cfg, st, c);
      FitsNow(p, j, n);
      TurnRuns(p, st, c, j, d);
      match TurnOf(Deeds(p), j)
      case Going(next) =>
        LoopRuns(p, t.st, steps + 1, t.ctl, next, n - 1);
        GoesOn(p, st, c, t, Loop(p.env, p.reg, p.cfg, st, steps, c).out, j, d, next, n);
      case Resting(fields) => StopsNow(p, st, c, t, j, d);
      case Stuck =>
    }
  }

  // ------------------------------------------------------------------------
  // Main results
  // ------------------------------------------------------------------------

  /** A while loop in a state where it is the program `p` with the job `j`. */
  ghost predicate Starts(p: Program, st: State, instr: Instruction, j: Job) {
    instr.kind == "while_loop" && p.cfg == LoadLoop(st, instr) && p.x == ExecOf(st) && SelfDriving(p) &&
    Carries(p, st, j) && CheckCondition(p.env, st, p.cfg.condition) == Ok(true)
  }

  /** For whatever its cases enqueue, a whole run of the loop ends as the queue machine does
      after as many turns: at rest, or cut off by its limit with the job that is next. Where
      nothing but trace steps touches the chain, the new records are the trail. */
  lemma LoopRunsQueue(p: Program, st: State, instr: Instruction, c: Ctl, j: Job, n: nat)
    requires Starts(p, st, instr, j) && Fit(p, j, n) && 0 < n <= p.cfg.maxSteps
    requires After(Deeds(p), j, n).Resting? || (After(Deeds(p), j, n).Going? && n == p.cfg.maxSteps)
    requires Room(c, p.levels + 2, Cost(p, n, |Tape(Deeds(p), j, n)|) + 1)
    ensures EndsAs(p, st, Execute(p.env, p.reg, st, instr, c).out, j, n)
  {
    hide CheckCondition, Fit, Cost, Business, PairsIn, Stands, Rests, Tape, TurnOf, After, Loop, Execute,
         StopsWhenIdle, TracesOnly, DispatchesOnType, Carries, ParseInstruction, BodyOf, Trail, EndsAs;
    LoopRuns(p, st, 0, c.Entered(), j, n);
    ExecuteRegistered(p.env, p.reg, st, instr, c);
  }

  /** The run has come to rest, and its business fields are what the deeds of `bs`, one after
      the other, make of those it began with. */
  ghost predicate RestsAfter(p: Program, out: Outcome, bs: seq<Value>, fields: Fields) {
    out.Done? && Rests(out.st, p.x) && Some(Business(out.st)) == FoldDeeds(Deeds(p), bs, fields)
  }

  lemma RestIsFold(p: Program, st: State, out: Outcome, j: Job, n: nat)
    requires EndsAs(p, st, out, j, n) && After(Deeds(p), j, n).Resting?
    ensures RestsAfter(p, out, Dispatched(Deeds(p), j, n), j.fields)
  {
    hide Rests, Business, TurnOf, PairsIn, Trail, ExecOf;
    RunsFold(Deeds(p), j, n);
  }

  /** Such a run that comes to rest has dispatched the current instruction and then the
      survivors of all that was ever queued, and nothing else. */
  lemma LoopDispatchesSurvivors(p: Program, st: State, instr: Instruction, c: Ctl, j: Job, n: nat)
    requires Starts(p, st, instr, j) && Fit(p, j, n) && 0 < n <= p.cfg.maxSteps && After(Deeds(p), j, n).Resting?
    requires Room(c, p.levels + 2, Cost(p, n, |Tape(Deeds(p), j, n)|) + 1)
    ensures RestsAfter(p, Execute(p.env, p.reg, st, instr, c).out, [j.current] + Survivors(Tape(Deeds(p), j, n)),
                       j.fields)
  {
    hide Starts, Fit, Cost, Tape, After, Survivors, Execute, EndsAs, RestsAfter, Dispatched;
    LoopRunsQueue(p, st, instr, c, j, n);
    RestIsFold(p, st, Execute(p.env, p.reg, st, instr, c).out, j, n);
    DispatchedAreSurvivors(Deeds(p), j, n);
  }

  /** Started over `waiting` instructions with `ahead` advances pending behind them, the loop
      dispatches these and all that is enqueued on the way, each once and in order, exactly
      when only every other turn enqueues anything; and its business fields are then the fold
      of all their deeds. */
  lemma LoopIsFirstInFirstOut(p: Program, st: State, instr: Instruction, c: Ctl, j: Job, n: nat, waiting: seq<Value>,
                              ahead: nat)
    requires Starts(p, st, instr, j) && Fit(p, j, n) && 0 < n <= p.cfg.maxSteps && After(Deeds(p), j, n).Resting?
    requires Room(c, p.levels + 2, Cost(p, n, |Tape(Deeds(p), j, n)|) + 1)
    requires j.queue == waiting + PendingAdvances(ahead) && NoAdvances(waiting)
    requires forall i | 0 <= i < |Enqueued(Deeds(p), j, n)| :: NoAdvances(Enqueued(Deeds(p), j, n)[i])
    ensures var arrivals := Enqueued(Deeds(p), j, n);
            var all := [j.current] + waiting + Concat(arrivals);
            (Dispatched(Deeds(p), j, n) == all <==> InStep(arrivals, ahead)) &&
            (InStep(arrivals, ahead) ==> RestsAfter(p, Execute(p.env, p.reg, st, instr, c).out, all, j.fields))
  {
    hide Starts, Fit, Cost, Tape, After, Enqueued, Execute, EndsAs, RestsAfter, Dispatched, InStep, Concat;
    LoopRunsQueue(p, st, instr, c, j, n);
    RestIsFold(p, st, Execute(p.env, p.reg, st, instr, c).out, j, n);
    RunIsInOrderExactly(Deeds(p), j, n, waiting, ahead);
  }

  lemma {:induction false} PlainTape(eff: Effect, j: Job, n: nat)
    requires forall i | 0 <= i < |Enqueued(eff, j, n)| :: Enqueued(eff, j, n)[i] == []
    ensures |Tape(eff, j, n)| == |j.queue| + |Enqueued(eff, j, n)|
    ensures forall v | v in Tape(eff, j, n) :: v in j.queue || v == AdvanceInQueue
  {
    hide Enqueued;
    PlainWeave(Enqueued(eff, j, n));
  }

  lemma {:induction false} PlainWeave(arrivals: seq<seq<Value>>)
    requires forall i | 0 <= i < |arrivals| :: arrivals[i] == []
    ensures |Weave(arrivals)| == |arrivals| && forall v | v in Weave(arrivals) :: v == AdvanceInQueue
    decreases |arrivals|
  {
    if arrivals != [] {
      PlainWeave(arrivals[1..]);
      assert arrivals[0] == [];
    }
  }

  lemma {:induction false} AtMostTurns(eff: Effect, j: Job, n: nat)
    ensures |Enqueued(eff, j, n)| <= n
    decreases n
  {
    hide TurnOf;
    if n > 0 && TurnOf(eff, j).Going? { AtMostTurns(eff, TurnOf(eff, j).job, n - 1); }
  }

  ghost predicate EnqueuesNothing(p: Program, bs: seq<Value>) {
    forall b, fields | b in bs && DeedOf(p, b, fields).Some? :: DeedOf(p, b, fields).value.enqueued == []
  }

  /** Where nothing is enqueued at all, each instruction is dispatched once, in order. */
  lemma QueueRunsInOrder(p: Program, st: State, instr: Instruction, c: Ctl, bs: seq<Value>, fields: Fields)
    requires bs != [] && Starts(p, st, instr, Job(bs[0], bs[1..], fields)) && |bs| <= p.cfg.maxSteps
    requires forall b | b in bs :: BusinessItem(p, b)
    requires EnqueuesNothing(p, bs)
    requires FoldDeeds(Deeds(p), bs, fields).Some? && Room(c, p.levels + 2, Cost(p, |bs|, 2 * |bs|) + 1)
    ensures var out := Execute(p.env, p.reg, st, instr, c).out;
            RestsAfter(p, out, bs, fields) && EndsAs(p, st, out, Job(bs[0], bs[1..], fields), |bs|)
  {
    hide Starts, Cost, Tape, After, Enqueued, Execute, EndsAs, RestsAfter, Dispatched, BusinessItem, IsAdvance;
    var j, n := Job(bs[0], bs[1..], fields), |bs|;
    forall b | b in bs ensures !IsAdvance(b) && Item(p, b) { BusinessIsItem(p, b); }
    assert bs[1..] + PendingAdvances(0) == bs[1..];
    PlainRun(Deeds(p), bs, 0, fields);
    PlainTape(Deeds(p), j, n);
    AtMostTurns(Deeds(p), j, n);
    CostGrows(p, n, |Tape(Deeds(p), j, n)|, 2 * n);
    AdvanceIsItem(p);
    LoopRunsQueue(p, st, instr, c, j, n);
    RestIsFold(p, st, Execute(p.env, p.reg, st, instr, c).out, j, n);
  }

  lemma CostGrows(p: Program, n: nat, length: nat, more: nat)
    requires length <= more
    ensures Cost(p, n, length) <= Cost(p, n, more)
  {
  }

  lemma AdvanceIsItem(p: Program)
    ensures Item(p, AdvanceInQueue)
  {
    hide BusinessItem;
  }

  // ------------------------------------------------------------------------
  // What is enqueued
  // ------------------------------------------------------------------------

  ghost predicate CompletedOn(t: Turn, x: ExecContext.Context, b: Value, queue: seq<Value>) {
    t.Completed? && Stands(t.st, x, b, queue)
  }

  lemma CompletedWhereLanded(p: Program, st: State, c: Ctl, t: Turn, j: Job, d: Deed, b: Value, queue: seq<Value>)
    requires TurnsTo(p, st, c, t, j, d) && DeedOf(p, j.current, j.fields) == Some(d)
    ensures CompletedOn(t, p.x, b, queue) <==> DrainOf(j.current, QueueAfter(j, d)) == Landed(b, queue)
  {
    hide ExecOf, DrainOf, SameConfig, TurnRecorded, Business, CheckCondition, DeedOf, Rests;
  }

  /** What a case enqueues with only advances pending survives the drain after it, its first
      instruction current and the others queued, exactly when these are even in number. */
  lemma EnqueuedSurvivesExactly(p: Program, st: State, c: Ctl, j: Job, d: Deed)
    requires SelfDriving(p) && Carries(p, st, j) && CheckCondition(p.env, st, p.cfg.condition) == Ok(true)
    requires BusinessItem(p, j.current) && DeedOf(p, j.current, j.fields) == Some(d)
    requires AllAdvances(j.queue) && d.enqueued != [] && !IsAdvance(d.enqueued[0])
    requires (forall v | v in QueueAfter(j, d) :: Item(p, v)) && Room(c, p.levels + 1, TurnCost(p, QueueAfter(j, d)))
    ensures CompletedOn(TakeTurn(p.env, p.reg, p.cfg, st, c), p.x, d.enqueued[0], d.enqueued[1..] + [AdvanceInQueue])
            <==> |j.queue| % 2 == 0
  {
    hide SelfDriving, Carries, CheckCondition, BusinessItem, DeedOf, AllAdvances, IsAdvance, Item, TurnCost, TakeTurn,
         TurnsTo, CompletedOn, DrainOf;
    var first, rest := d.enqueued[0], d.enqueued[1..] + [AdvanceInQueue];
    assert QueueAfter(j, d) == j.queue + ([first] + rest);
    TurnRuns(p, st, c, j, d);
    TakesNextExactly(j.current, j.queue, first, rest);
    CompletedWhereLanded(p, st, c, TakeTurn(p.env, p.reg, p.cfg, st, c), j, d, first, rest);
  }

  // ------------------------------------------------------------------------
  // What is recorded
  // ------------------------------------------------------------------------

  /** The hashes around the deeds of `bs`, one after the other. */
  function PairsAlong(p: Program, bs: seq<Value>, fields: Fields): seq<(string, string)> {
    if bs == [] then []
    else
      match DeedOf(p, bs[0], fields)
      case Some(d) => [PairAt(p, bs[0], fields)] + PairsAlong(p, bs[1..], d.fields)
      case None => []
  }

  function EachTimes<T>(xs: seq<T>, k: nat): seq<T> {
    if xs == [] then [] else Repeat(xs[0], k) + EachTimes(xs[1..], k)
  }

  /** Without records of meta-instructions each dispatch of a run is recorded once by each trace
      step of the body and once more by the drain: the trail is the hashes of the business
      fields along the fold of the deeds. */
  lemma {:induction false} TrailFollowsFold(p: Program, j: Job, n: nat)
    requires !p.x.drainMetaTrace && After(Deeds(p), j, n) != Stuck
    ensures Trail(p, j, n) ==
            EachTimes(PairsAlong(p, Dispatched(Deeds(p), j, n), j.fields), Recorded(p.x.auditOn, |p.traces| + 1))
    decreases n
  {
    hide TurnOf, PairAt, QueueAfter, AdvancesRun, DeedOf;
    StuckWithoutDeed(Deeds(p), j);
    if n > 0 {
      var d := DeedOf(p, j.current, j.fields).value;
      RunOfTurn(Deeds(p), j, n);
      TrailOfTurn(p, j, n, d);
      var bs := Dispatched(Deeds(p), j, n);
      TurnKeepsFields(p, j, d);
      match TurnOf(Deeds(p), j)
      case Going(next) =>
        TrailFollowsFold(p, next, n - 1);
        assert bs[1..] == Dispatched(Deeds(p), next, n - 1);
      case Resting(_) => assert bs[1..] == [];
      case Stuck =>
    }
  }

  lemma TurnKeepsFields(p: Program, j: Job, d: Deed)
    requires DeedOf(p, j.current, j.fields) == Some(d)
    ensures TurnOf(Deeds(p), j).Going? ==> TurnOf(Deeds(p), j).job.fields == d.fields
  {
    hide DrainOf, DeedOf;
  }

  /** After a run in which nothing but trace steps touches the chain, the new records hold, in
      order, the hashes of the business fields before and after each instruction dispatched,
      or nothing has been recorded with auditing off. */
  lemma LoopRecordsFold(p: Program, st: State, instr: Instruction, c: Ctl, j: Job, n: nat)
    requires Starts(p, st, instr, j) && Fit(p, j, n) && 0 < n <= p.cfg.maxSteps && After(Deeds(p), j, n).Resting?
    requires Room(c, p.levels + 2, Cost(p, n, |Tape(Deeds(p), j, n)|) + 1) && p.silent && !p.x.drainMetaTrace
    ensures var out := Execute(p.env, p.reg, st, instr, c).out;
            out.Done? && PairsIn(out.st) == PairsIn(st) +
              EachTimes(PairsAlong(p, Dispatched(Deeds(p), j, n), j.fields), Recorded(p.x.auditOn, |p.traces| + 1))
  {
    hide Starts, Fit, Cost, Tape, After, Execute, Dispatched, PairsAlong, PairsIn, Trail;
    LoopRunsQueue(p, st, instr, c, j, n);
    TrailFollowsFold(p, j, n);
  }

  // ------------------------------------------------------------------------
  // Hypotheses that hold
  // ------------------------------------------------------------------------

  const CurrentIsNoop := Domains.Atom("__exec__.instruction.type", Domains.Eq, Str("noop"))

  /** The usual termination domain, as an atom on the current type or as a domain of its own. */
  lemma UsualDomainsStopAtNoop(env: Env, st: State)
    requires ExecOf(st).instruction.GetStr("type") == Some("noop")
    ensures Terminates(env, Domains.ToValue(CurrentIsNoop), st)
    ensures Terminates(env, Domains.ToValue(Domains.OfType("noop")), st)
  {
    hide SplitPath, Domains.ToValue, Domains.ParseDomain, GetPath, ExecOf;
    CurrentTypeIsRead(st, "noop");
    Domains.ValueRoundTrip(CurrentIsNoop);
    Domains.ValueRoundTrip(Domains.OfType("noop"));
  }

  /** A body that begins with the dispatch has nothing ahead of it that could fail. */
  lemma NoLead(p: Program, b: Value)
    requires p.lead == [] && forall fields :: p.before(b, fields) == Some(fields)
    ensures LeadDoes(p, b)
  {
    hide Business, Stands, PairsIn;
    forall queue: seq<Value> ensures queue + [] == queue {
    }
  }

  /** A case that comes down to a leaf primitive, whatever its parameters are resolved to, does
      what the leaf does. */
  lemma LeafCaseDoes(p: Program, body: Value, t: string, b: Value)
    requires p.levels > 0 && p.work > 0
    requires forall st | SameConfig(p.x, ExecOf(st)) && ExecOf(st).instruction == b && p.eff(b, Business(st)).Some? ::
               LeafDoes(p, st, PlanCase(st, body, t), p.eff(b, Business(st)).value)
    ensures CaseDoes(p, body, t, b)
  {
    hide Execute, Business, SameConfig, PlanCase, PairsIn, LeafDoes;
    forall st, c, queue | Stands(st, p.x, b, queue) && Room(c, p.levels, p.work) && p.eff(b, Business(st)).Some?
      ensures PlanCase(st, body, t).RunCase?
      ensures Performs(p, st, c, Execute(p.env, p.reg, st, PlanCase(st, body, t).instr, c), b, queue,
                p.eff(b, Business(st)).value)
    {
      LeafPerforms(p, st, c, PlanCase(st, body, t), b, queue, p.eff(b, Business(st)).value);
    }
  }

  /** The case is a leaf, which succeeds with the fields of the deed and keeps off the engine's
      own fields. */
  ghost predicate LeafDoes(p: Program, st: State, plan: DispatchPlan, d: Deed) {
    plan.RunCase? && plan.instr.kind in p.reg && p.reg[plan.instr.kind].Leaf? && d.enqueued == [] &&
    var r := p.reg[plan.instr.kind].run(st, plan.instr);
    r.Ok? && r.value.Get(EXEC) == st.Get(EXEC) && Business(r.value) == d.fields &&
    (p.silent ==> r.value.Get(AUDIT_CHAIN) == st.Get(AUDIT_CHAIN))
  }

  lemma LeafPerforms(p: Program, st: State, c: Ctl, plan: DispatchPlan, b: Value, queue: seq<Value>, d: Deed)
    requires LeafDoes(p, st, plan, d) && Stands(st, p.x, b, queue) && Room(c, 1, 1) && p.work > 0
    ensures plan.RunCase? && Performs(p, st, c, Execute(p.env, p.reg, st, plan.instr, c), b, queue, d)
  {
    hide Execute, Business, ExecContext.Parse, ParseChain;
    ExecuteRegistered(p.env, p.reg, st, plan.instr, c);
    assert queue + [] == queue;
  }

  /** A leaf ahead of the dispatch. */
  lemma LeafLeadDoes(p: Program, item: Value, b: Value)
    requires p.levels > 0 && p.work > 0 && p.lead == [item] && ParseInstruction(item).Ok?
    requires forall st | Stands(st, p.x, b, QueueOf(ExecOf(st))) && p.before(b, Business(st)).Some? ::
               LeafDoes(p, st, RunCase(ParseInstruction(item).value, ""), Deed(p.before(b, Business(st)).value, []))
    ensures LeadDoes(p, b)
  {
    hide Execute, Business, SameConfig, PairsIn, LeafDoes, ParseInstruction, ExecOf;
    var plan := RunCase(ParseInstruction(item).value, "");
    forall st, c, queue | Stands(st, p.x, b, queue) && Room(c, p.levels, p.work) && p.before(b, Business(st)).Some?
      ensures Performs(p, st, c, RunAll(p.env, p.reg, st, p.lead, false, c), b, queue,
                Deed(p.before(b, Business(st)).value, []))
    {
      assert queue == QueueOf(ExecOf(st));
      LeafPerforms(p, st, c, plan, b, queue, Deed(p.before(b, Business(st)).value, []));
      RunOne(p.env, p.reg, st, item, c);
    }
  }
}
