/** Instructions one after the other: what a sequence and the body of a loop execute, in which
    states, and where they stop.
 */
module Sequences {
  import opened Values
  import opened Store
  import opened Control
  import opened Machine
  import opened Engine
  import opened Loops

  /** The items that name a type; a sequence passes over all others. */
  function Typed(items: seq<Value>): seq<Value> {
    if items == [] then []
    else
      var v := items[0];
      (if v.Object? && "type" in v.fields && v.fields["type"].Str? && v.fields["type"].s != "" then [v] else []) +
      Typed(items[1..])
  }

  /** Executing `item` leads from `p` to `q`. */
  ghost predicate LeadsTo(env: Env, reg: Registry, item: Value, p: Point, q: Point) {
    ParseInstruction(item).Ok? &&
    Execute(env, reg, p.st, ParseInstruction(item).value, p.ctl) == Run(Done(q.st), q.ctl)
  }

  /** Each of the first items, as many as there are steps between the points, leads from one
      point to the next. */
  ghost predicate Passes(env: Env, reg: Registry, items: seq<Value>, points: seq<Point>) {
    0 < |points| <= |items| + 1 &&
    forall i, j | 0 <= i && j == i + 1 < |points| :: LeadsTo(env, reg, items[i], points[i], points[j])
  }

  /** The last point is where all items have been executed, or the next of them is malformed,
      fails or diverges there, and with it the whole. */
  ghost predicate EndsAt(env: Env, reg: Registry, items: seq<Value>, points: seq<Point>, whole: Run)
    requires 0 < |points| <= |items| + 1
  {
    var n := |points| - 1;
    var p := points[n];
    if n == |items| then whole == Run(Done(p.st), p.ctl)
    else if ParseInstruction(items[n]).Err? then whole == Run(Failed(ParseInstruction(items[n]).error), p.ctl)
    else
      var r := Execute(env, reg, p.st, ParseInstruction(items[n]).value, p.ctl);
      !r.out.Done? && whole == r
  }

  lemma {:induction false} AllAreRun(env: Env, reg: Registry, items: seq<Value>, from: Point)
    returns (points: seq<Point>)
    ensures points != [] && points[0] == from && Passes(env, reg, items, points)
    ensures EndsAt(env, reg, items, points, RunAll(env, reg, from.st, items, false, from.ctl))
    decreases |items|
  {
    hide Execute, ParseInstruction;
    points := [from];
    if items != [] && ParseInstruction(items[0]).Ok? {
      var r := Execute(env, reg, from.st, ParseInstruction(items[0]).value, from.ctl);
      if r.out.Done? {
        var later := AllAreRun(env, reg, items[1..], Point(r.out.st, r.ctl));
        points := [from] + later;
        StepAhead(env, reg, items, from, later);
        assert |later| <= |items[1..]| ==> items[1..][|later| - 1] == items[|later|];
      }
    }
  }

  lemma StepAhead(env: Env, reg: Registry, items: seq<Value>, from: Point, later: seq<Point>)
    requires items != [] && later != [] && LeadsTo(env, reg, items[0], from, later[0])
    requires Passes(env, reg, items[1..], later)
    ensures Passes(env, reg, items, [from] + later)
  {
    hide LeadsTo;
    var points := [from] + later;
    forall i, j | 0 <= i && j == i + 1 < |points| ensures LeadsTo(env, reg, items[i], points[i], points[j]) {
      if i > 0 {
        assert points[i] == later[i - 1] && points[j] == later[i] && items[i] == items[1..][i - 1];
      }
    }
  }

  lemma {:induction false} UntypedAreSkipped(env: Env, reg: Registry, st: State, items: seq<Value>, c: Ctl)
    ensures RunAll(env, reg, st, items, true, c) == RunAll(env, reg, st, Typed(items), false, c)
    decreases c.Budget(), |items|
  {
    hide Execute, ParseInstruction;
    if items != [] {
      var v, rest := items[0], items[1..];
      if v.Object? && "type" in v.fields && v.fields["type"].Str? && v.fields["type"].s != "" {
        assert Typed(items)[0] == v && Typed(items)[1..] == Typed(rest);
        match ParseInstruction(v)
        case Ok(instr) =>
          var r := Execute(env, reg, st, instr, c);
          if r.out.Done? { UntypedAreSkipped(env, reg, r.out.st, rest, r.ctl); }
        case Err(_) =>
      } else {
        assert Typed(items) == Typed(rest);
        UntypedAreSkipped(env, reg, st, rest, c);
      }
    }
  }

  /** A sequence executes its typed instructions in order, each on the state the one before left,
      and ends with the first that does not succeed. */
  lemma SequenceRuns(env: Env, reg: Registry, st: State, instr: Instruction, items: seq<Value>, c: Ctl)
    returns (points: seq<Point>)
    requires instr.kind in reg && reg[instr.kind].InstructionSequence? && c.Refusal().None?
    requires instr.Param("instructions") == Some(List(items))
    ensures points != [] && points[0] == Point(st, c.Entered()) && Passes(env, reg, Typed(items), points)
    ensures var r := Execute(env, reg, st, instr, c);
            r.ctl.depth == c.depth && EndsAt(env, reg, Typed(items), points, r.(ctl := r.ctl.(depth := c.depth + 1)))
  {
    hide Execute, RunAll, Typed, Passes, EndsAt;
    ExecuteRegistered(env, reg, st, instr, c);
    UntypedAreSkipped(env, reg, st, items, c.Entered());
    points := AllAreRun(env, reg, Typed(items), Point(st, c.Entered()));
  }

  /** Without instructions a sequence does nothing, and with something else than a list it fails. */
  lemma NoSequence(env: Env, reg: Registry, st: State, instr: Instruction, c: Ctl)
    requires instr.kind in reg && reg[instr.kind].InstructionSequence? && c.Refusal().None?
    ensures instr.Param("instructions") == None ==>
              Execute(env, reg, st, instr, c) == Run(Done(st), c.(count := c.count + 1))
    ensures instr.Param("instructions").Some? && !instr.params["instructions"].List? ==>
              Execute(env, reg, st, instr, c) ==
              Run(Failed(TypeError("List", instr.params["instructions"])), c.(count := c.count + 1))
  {
    hide Execute;
    ExecuteRegistered(env, reg, st, instr, c);
  }
}
