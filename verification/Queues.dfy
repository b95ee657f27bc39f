/** The queue primitives: what may be queued, and where it comes to stand. */
module Queues {
  import opened Values
  import opened Store
  import opened References
  import opened Control
  import opened Machine
  import opened Engine
  import Domains
  import ExecContext

  lemma QueueIsSet(st: State, queue: seq<Value>)
    ensures ExecOf(SetQueue(st, queue)) == ExecOf(st).(queue := List(queue)) &&
            Business(SetQueue(st, queue)) == Business(st)
    ensures ExecField(SetQueue(st, queue), "dispatch_cases") == Some(ExecOf(st).dispatchCases)
  {
    hide ExecContext.Parse, ExecContext.ToValue;
    var c := ExecOf(st).(queue := List(queue));
    ExecContext.RoundTrip(c);
    ExecContext.ConfigurationFields(c);
  }

  function PushOf(v: Value): Instruction {
    Instruction("push_instruction", map["instruction" := v], EmptyObject)
  }

  function SequenceOf(items: seq<Value>): Instruction {
    Instruction("push_instruction_sequence", map["instructions" := List(items)], EmptyObject)
  }

  /** With a table in place, an instruction is refused exactly when the engine, coming to
      execute it in any later state with that table, could not tell what it is. */
  lemma RefusedMeansUnknown(env: Env, reg: Registry, st: State, v: Value, instr: Instruction, later: State)
    requires ParseInstruction(v) == Ok(instr) && ExecField(st, "dispatch_cases").Some?
    requires ExecField(st, "dispatch_cases").value.Object?
    requires ExecField(later, "dispatch_cases") == ExecField(st, "dispatch_cases")
    ensures Push(reg, st, PushOf(v)).Err? <==> Expand(env, reg, later, instr) == Refused(UnknownInstruction(instr.kind))
  {
    hide SetQueue, ExecOf, ExecField, NoteInstruction, NoteMetadata, RecordExpand, ResolveRefs;
  }

  /** The state after `n` advances. */
  function Advanced(env: Env, st: State, n: nat): State
    decreases n
  {
    if n == 0 then st else Advanced(env, Advance(env, st), n - 1)
  }

  lemma AdvanceTakesFirst(env: Env, st: State)
    requires QueueOf(ExecOf(st)) != []
    ensures ExecOf(Advance(env, st)).instruction == QueueOf(ExecOf(st))[0]
    ensures ExecOf(Advance(env, st)).queue == List(QueueOf(ExecOf(st))[1..])
  {
    hide ExecContext.Parse, ExecContext.ToValue, Terminates;
    var queue := QueueOf(ExecOf(st));
    var popped := SetQueue(st, queue[1..]);
    QueueIsSet(st, queue[1..]);
    ExecContext.RoundTrip(ExecOf(popped).(instruction := queue[0]));
  }

  lemma {:induction false} AdvancesTakeInOrder(env: Env, st: State, n: nat)
    requires n < |QueueOf(ExecOf(st))|
    ensures ExecOf(Advanced(env, st, n + 1)).instruction == QueueOf(ExecOf(st))[n]
    decreases n
  {
    hide ExecOf, Advance;
    AdvanceTakesFirst(env, st);
    if n == 0 {
      assert Advanced(env, Advance(env, st), 0) == Advance(env, st);
    } else {
      AdvancesTakeInOrder(env, Advance(env, st), n - 1);
    }
  }

  /** What is pushed comes off the queue after everything that was there before: as many
      advances as there are instructions queued, and one more, make it current. */
  lemma PushedIsTakenLast(env: Env, reg: Registry, st: State, v: Value)
    requires Push(reg, st, PushOf(v)).Ok?
    ensures ExecOf(Advanced(env, Push(reg, st, PushOf(v)).value, |QueueOf(ExecOf(st))| + 1)).instruction == v
  {
    hide ExecOf, Advance, SetQueue, Dispatchable, Advanced;
    var queue := QueueOf(ExecOf(st));
    QueueIsSet(st, queue + [v]);
    AdvancesTakeInOrder(env, SetQueue(st, queue + [v]), |queue|);
  }

  function PushEach(reg: Registry, st: State, items: seq<Value>): Result<State>
    decreases |items|
  {
    if items == [] then Ok(st)
    else
      match Push(reg, st, PushOf(items[0]))
      case Err(e) => Err(e)
      case Ok(next) => PushEach(reg, next, items[1..])
  }

  predicate HasTable(st: State) {
    ExecField(st, "dispatch_cases").Some?
  }

  lemma DispatchableAfterPush(reg: Registry, st: State, queue: seq<Value>, v: Value)
    requires HasTable(st)
    ensures HasTable(SetQueue(st, queue)) && Dispatchable(reg, SetQueue(st, queue), v) == Dispatchable(reg, st, v)
  {
    hide ExecOf, SetQueue;
    QueueIsSet(st, queue);
    TableIsParsed(st);
  }

  lemma TableIsParsed(st: State)
    requires HasTable(st)
    ensures ExecField(st, "dispatch_cases") == Some(ExecOf(st).dispatchCases)
  {
  }

  lemma {:induction false} EachIsAppended(reg: Registry, st: State, items: seq<Value>)
    requires HasTable(st)
    ensures PushEach(reg, st, items).Ok? <==> AllDispatchable(reg, st, items)
    ensures AllDispatchable(reg, st, items) ==>
              ExecOf(PushEach(reg, st, items).value) ==
                ExecOf(st).(queue := if items == [] then ExecOf(st).queue else List(QueueOf(ExecOf(st)) + items))
              && Business(PushEach(reg, st, items).value) == Business(st)
    decreases |items|
  {
    hide ExecOf, SetQueue, Dispatchable, HasTable, Business;
    if items != [] {
      var queue := QueueOf(ExecOf(st)) + [items[0]];
      var next := SetQueue(st, queue);
      QueueIsSet(st, queue);
      DispatchableAfterPush(reg, st, queue, items[0]);
      forall v ensures HasTable(next) && Dispatchable(reg, next, v) == Dispatchable(reg, st, v) {
        DispatchableAfterPush(reg, st, queue, v);
      }
      EachIsAppended(reg, next, items[1..]);
      assert queue + items[1..] == QueueOf(ExecOf(st)) + items;
      assert AllDispatchable(reg, st, items) <==>
             Dispatchable(reg, st, items[0]) && AllDispatchable(reg, next, items[1..]);
      assert QueueOf(ExecOf(next)) == queue;
      if items[1..] == [] { assert queue == QueueOf(ExecOf(st)) + items; }
    }
  }

  /** With a table of cases in place, queueing a sequence is queueing its items one by one,
      except that nothing is queued if one of them is refused. */
  lemma SequenceIsEachOrNone(reg: Registry, st: State, items: seq<Value>)
    requires HasTable(st)
    ensures PushSequence(reg, st, SequenceOf(items)).Ok? <==> PushEach(reg, st, items).Ok?
    ensures PushSequence(reg, st, SequenceOf(items)).Ok? && items != [] ==>
              ExecOf(PushSequence(reg, st, SequenceOf(items)).value) == ExecOf(PushEach(reg, st, items).value)
  {
    hide ExecOf, SetQueue, Dispatchable, HasTable, Business, AllDispatchable;
    EachIsAppended(reg, st, items);
    QueueIsSet(st, QueueOf(ExecOf(st)) + items);
  }

  /** Without a table anything may be queued, but only once: queueing writes an empty table,
      against which the next unregistered type is refused. A sequence of the two is not. */
  lemma FirstPushBringsTheTable(reg: Registry, st: State, v: Value)
    requires !HasTable(st) && v.GetStr("type").Some? && v.GetStr("type").value !in reg
    ensures Push(reg, st, PushOf(v)).Ok? && PushEach(reg, st, [v, v]).Err?
    ensures PushSequence(reg, st, SequenceOf([v, v])).Ok?
  {
    hide ExecOf, SetQueue;
    var next := SetQueue(st, QueueOf(ExecOf(st)) + [v]);
    QueueIsSet(st, QueueOf(ExecOf(st)) + [v]);
    NoTableIsEmpty(st);
    assert !Dispatchable(reg, next, v);
    assert [v, v][1..] == [v];
    assert PushEach(reg, next, [v]).Err?;
    assert PushEach(reg, st, [v, v]) == PushEach(reg, next, [v]);
  }

  lemma NoTableIsEmpty(st: State)
    requires !HasTable(st)
    ensures ExecOf(st).dispatchCases == EmptyObject
  {
  }

  // ------------------------------------------------------------------------
  // The queue primitives as executed
  // ------------------------------------------------------------------------

  /** `next` differs from `st` in the engine's record only, which is `exec`. */
  ghost predicate Keeps(st: State, next: State, exec: ExecContext.Context) {
    next.data - {EXEC} == st.data - {EXEC} && ExecOf(next) == exec
  }

  /** What waits in the queue; anything but a list counts as an empty one. */
  function Waiting(st: State): seq<Value> {
    if ExecOf(st).queue.List? then ExecOf(st).queue.items else []
  }

  /** The instruction that takes the place of a missing one. */
  function Default(st: State): Value {
    if ExecField(st, "default_instruction").Some? then ExecField(st, "default_instruction").value
    else Object(map["type" := Str("noop"), "params" := Object(map[])])
  }

  /** The termination domain is met or not met; one that does not parse is not. */
  ghost predicate Ends(env: Env, domain: Value, st: State, met: bool) {
    match Domains.ParseDomain(domain)
    case Ok(d) => Domains.NestedAtMost(d, 128) && (met <==> Domains.Meaning(env.floats, d, st))
    case Err(_) => !met
  }

  /** An advance takes the first instruction off the queue. With nothing to take the default one
      becomes current, and if the domain is met then the engine stops. */
  lemma AdvanceRuns(env: Env, reg: Registry, st: State, instr: Instruction, c: Ctl, met: bool)
    requires instr.kind in reg && reg[instr.kind].AdvanceInstruction? && c.Refusal().None?
    requires var exec := ExecOf(st);
             var idle := PutExec(st, exec.(instruction := Default(st)));
             Waiting(st) == [] ==> Ends(env, exec.terminationDomain, idle, met)
    ensures var r, exec, queue := Execute(env, reg, st, instr, c), ExecOf(st), Waiting(st);
            r.out.Done? && r.ctl == c.(count := c.count + 1) &&
            Keeps(st, r.out.st,
                  if queue != [] then exec.(instruction := queue[0], queue := List(queue[1..]))
                  else exec.(instruction := Default(st), running := exec.running && !met))
  {
    hide Execute, ExecOf, Domains.Holds, Domains.Meaning, Domains.ParseDomain, Domains.NestedAtMost, PutExec, ExecField;
    ExecuteRegistered(env, reg, st, instr, c);
    var exec, queue := ExecOf(st), Waiting(st);
    if queue != [] {
      ExecIsPut(st, exec.(queue := List(queue[1..])));
      ExecIsPut(SetQueue(st, queue[1..]), exec.(queue := List(queue[1..]), instruction := queue[0]));
    } else {
      var next := SetCurrent(st, Default(st));
      ExecIsPut(st, exec.(instruction := Default(st)));
      ExecIsPut(next, exec.(instruction := Default(st), running := false));
      if Domains.ParseDomain(exec.terminationDomain).Ok? {
        Domains.ContainsDecidesMeaning(env.floats, Domains.ParseDomain(exec.terminationDomain).value, next);
      }
    }
  }

  lemma ExecIsPut(st: State, exec: ExecContext.Context)
    ensures Keeps(st, PutExec(st, exec), exec)
  {
    hide ExecContext.Parse, ExecContext.ToValue;
    ExecContext.RoundTrip(exec);
  }

  /** With a table in place, what has a type that is neither registered nor in the table. */
  predicate Unknown(reg: Registry, st: State, v: Value) {
    var cases := ExecField(st, "dispatch_cases");
    cases.Some? && cases.value.Object? && v.Object? && "type" in v.fields && v.fields["type"].Str? &&
    v.fields["type"].s !in reg && v.fields["type"].s !in cases.value.fields
  }

  /** A push puts its instruction, an empty object if it has none, behind all that waits, or fails
      if that is unknown. */
  lemma PushRuns(env: Env, reg: Registry, st: State, instr: Instruction, c: Ctl)
    requires instr.kind in reg && reg[instr.kind].PushInstruction? && c.Refusal().None?
    ensures var v := if "instruction" in instr.params then instr.params["instruction"] else Object(map[]);
            var r, exec := Execute(env, reg, st, instr, c), ExecOf(st);
            r.ctl == c.(count := c.count + 1) &&
            if Unknown(reg, st, v) then r.out == Failed(InvalidConfig("push_instruction"))
            else r.out.Done? && Keeps(st, r.out.st, exec.(queue := List(Waiting(st) + [v])))
  {
    hide Execute, ExecOf, PutExec, ExecField;
    ExecuteRegistered(env, reg, st, instr, c);
    var v := if "instruction" in instr.params then instr.params["instruction"] else Object(map[]);
    UnknownExactly(reg, st, v);
    ExecIsPut(st, ExecOf(st).(queue := List(Waiting(st) + [v])));
  }

  lemma UnknownExactly(reg: Registry, st: State, v: Value)
    ensures Dispatchable(reg, st, v) <==> !Unknown(reg, st, v)
  {
    hide ExecField;
  }

  /** A sequence of them is pushed as it stands, or not at all if one of them is unknown; anything
      but a list is pushed by itself. */
  lemma PushSequenceRuns(env: Env, reg: Registry, st: State, instr: Instruction, c: Ctl)
    requires instr.kind in reg && reg[instr.kind].PushInstructionSequence? && c.Refusal().None?
    ensures var v := if "instructions" in instr.params then instr.params["instructions"] else List([]);
            var items := if v.List? then v.items else [v];
            var r, exec := Execute(env, reg, st, instr, c), ExecOf(st);
            r.ctl == c.(count := c.count + 1) &&
            if exists i :: 0 <= i < |items| && Unknown(reg, st, items[i]) then
              r.out == Failed(InvalidConfig("push_instruction_sequence"))
            else r.out.Done? && Keeps(st, r.out.st, exec.(queue := List(Waiting(st) + items)))
  {
    hide Execute, ExecOf, PutExec, ExecField, Unknown, Dispatchable;
    ExecuteRegistered(env, reg, st, instr, c);
    var v := if "instructions" in instr.params then instr.params["instructions"] else List([]);
    var items := if v.List? then v.items else [v];
    forall i | 0 <= i < |items| ensures Dispatchable(reg, st, items[i]) <==> !Unknown(reg, st, items[i]) {
      UnknownExactly(reg, st, items[i]);
    }
    ExecIsPut(st, ExecOf(st).(queue := List(Waiting(st) + items)));
  }
}
