/** How the self-driving loop and its drain end. */
module Loops {
  import opened Values
  import opened Store
  import opened References
  import opened Control
  import opened Audit
  import opened Machine
  import opened Engine
  import ExecContext
  import Domains

  datatype Point = Point(st: State, ctl: Ctl)

  // ------------------------------------------------------------------------
  // The truncation flag
  // ------------------------------------------------------------------------

  const TRUNCATED := "__terminated_by_max_steps"

  /** Where `n` turns lead, one after the other; None if one of them is not completed. */
  ghost function Turns(env: Env, reg: Registry, cfg: LoopConfig, from: Point, n: nat): Option<Point>
    decreases n
  {
    if n == 0 then Some(from)
    else
      match TakeTurn(env, reg, cfg, from.st, from.ctl)
      case Completed(s, d) => Turns(env, reg, cfg, Point(s, d), n - 1)
      case _ => None
  }

  lemma {:induction false} TurnsLeaveRunning(env: Env, reg: Registry, cfg: LoopConfig, from: Point, n: nat)
    requires n > 0 && Turns(env, reg, cfg, from, n).Some?
    ensures ExecOf(Turns(env, reg, cfg, from, n).value.st).running
    decreases n
  {
    hide ExecOf, RunAll, Drain, CheckCondition;
    match TakeTurn(env, reg, cfg, from.st, from.ctl)
    case Completed(s, d) => if n > 1 { TurnsLeaveRunning(env, reg, cfg, Point(s, d), n - 1); }
  }

  /** The turn with which a loop ends that is not cut off. */
  ghost predicate EndsWith(env: Env, reg: Registry, cfg: LoopConfig, from: Point, n: nat, t: Turn) {
    match Turns(env, reg, cfg, from, n)
    case Some(p) => t == TakeTurn(env, reg, cfg, p.st, p.ctl) && t.Ended?
    case None => false
  }

  lemma {:induction false} LoopEnds(env: Env, reg: Registry, cfg: LoopConfig, from: Point, steps: nat)
    returns (n: nat, t: Turn)
    requires steps <= cfg.maxSteps && Loop(env, reg, cfg, from.st, steps, from.ctl).out.Done?
    ensures match Turns(env, reg, cfg, from, cfg.maxSteps - steps)
            case Some(p) =>
              Loop(env, reg, cfg, from.st, steps, from.ctl)
                == Run(Done(SetTruncated(p.st, cfg.maxSteps > 0 && ExecOf(p.st).running)), p.ctl)
            case None =>
              n < cfg.maxSteps - steps && EndsWith(env, reg, cfg, from, n, t) &&
              Loop(env, reg, cfg, from.st, steps, from.ctl) == Run(Done(SetTruncated(t.st, false)), t.ctl)
    decreases cfg.maxSteps - steps
  {
    hide ExecOf, SetTruncated, TakeTurn;
    n, t := 0, TakeTurn(env, reg, cfg, from.st, from.ctl);
    if steps < cfg.maxSteps && t.Completed? {
      var m, u := LoopEnds(env, reg, cfg, Point(t.st, t.ctl), steps + 1);
      n, t := m + 1, u;
    }
  }

  lemma TruncationIsWritten(st: State, cut: bool)
    ensures ExecField(SetTruncated(st, cut), TRUNCATED) == Some(Bool(cut))
    ensures ExecOf(SetTruncated(st, cut)).running == ExecOf(st).running
  {
    hide ExecContext.Parse;
    ExecContext.RoundTrip(ExecOf(st).(terminatedByMaxSteps := cut));
  }

  /** A loop that returns a state says it was cut off exactly when all its turns were
      completed. Otherwise one of them ended it, before the limit: its condition did not
      hold, there was no body, or the engine had stopped. */
  lemma FlagMeansAllTurnsCompleted(env: Env, reg: Registry, cfg: LoopConfig, from: Point)
    requires 1 <= cfg.maxSteps && Loop(env, reg, cfg, from.st, 0, from.ctl).out.Done?
    ensures var flag := ExecField(Loop(env, reg, cfg, from.st, 0, from.ctl).out.st, TRUNCATED);
            flag == Some(Bool(Turns(env, reg, cfg, from, cfg.maxSteps).Some?))
    ensures Turns(env, reg, cfg, from, cfg.maxSteps).None? ==>
              exists n: nat, t :: n < cfg.maxSteps && EndsWith(env, reg, cfg, from, n, t) &&
                             Loop(env, reg, cfg, from.st, 0, from.ctl) == Run(Done(SetTruncated(t.st, false)), t.ctl)
  {
    hide Loop, Turns, SetTruncated, TakeTurn, ExecField;
    var n, t := LoopEnds(env, reg, cfg, from, 0);
    match Turns(env, reg, cfg, from, cfg.maxSteps)
    case Some(p) =>
      TurnsLeaveRunning(env, reg, cfg, from, cfg.maxSteps);
      TruncationIsWritten(p.st, true);
    case None => TruncationIsWritten(t.st, false);
  }

  /** For a caller of a loop without a condition of its own: the flag says whether the engine
      could still go on, that is, whether it is running and the loop has a body. */
  lemma FlagMeansCouldGoOn(env: Env, reg: Registry, cfg: LoopConfig, from: Point)
    requires 1 <= cfg.maxSteps && Loop(env, reg, cfg, from.st, 0, from.ctl).out.Done? && cfg.condition.None?
    ensures var next := Loop(env, reg, cfg, from.st, 0, from.ctl).out.st;
            ExecField(next, TRUNCATED) == Some(Bool(true)) <==> ExecOf(next).running && cfg.body.Some?
    ensures var next := Loop(env, reg, cfg, from.st, 0, from.ctl).out.st;
            ExecField(next, TRUNCATED) == Some(Bool(true)) ==> CheckCondition(env, next, cfg.condition) == Ok(true)
  {
    hide Loop, Turns, SetTruncated, TakeTurn, ExecField, ExecOf;
    FlagMeansAllTurnsCompleted(env, reg, cfg, from);
    var n, t := LoopEnds(env, reg, cfg, from, 0);
    match Turns(env, reg, cfg, from, cfg.maxSteps)
    case Some(p) =>
      TurnsLeaveRunning(env, reg, cfg, from, cfg.maxSteps);
      TruncationIsWritten(p.st, true);
      TurnsHaveBody(env, reg, cfg, from, cfg.maxSteps);
    case None =>
      TruncationIsWritten(t.st, false);
      var p := Turns(env, reg, cfg, from, n).value;
      EndedTurn(env, reg, cfg, p.st, p.ctl);
  }

  lemma TurnsHaveBody(env: Env, reg: Registry, cfg: LoopConfig, from: Point, n: nat)
    requires n > 0 && Turns(env, reg, cfg, from, n).Some?
    ensures cfg.body.Some?
  {
    hide ExecOf, RunAll, Drain, CheckCondition;
  }

  lemma EndedTurn(env: Env, reg: Registry, cfg: LoopConfig, st: State, c: Ctl)
    requires TakeTurn(env, reg, cfg, st, c).Ended? && cfg.condition.None?
    ensures cfg.body.None? || !ExecOf(TakeTurn(env, reg, cfg, st, c).st).running
  {
    hide ExecOf, RunAll, Drain;
  }

  // ------------------------------------------------------------------------
  // The running flag as a condition
  // ------------------------------------------------------------------------

  const STILL_RUNNING: Value := Object(map[REF := Str("__exec__.__running")])

  lemma SplitRunning()
    ensures SplitPath("__exec__.__running") == ["__exec__", "__running"]
  {
    var parts := ["__exec__", "__running"];
    SplitOfDotted(parts);
    assert Dotted(parts) == "__exec__" + "." + Dotted(parts[1..]);
    assert Dotted(parts) == "__exec__.__running";
  }

  lemma StillRunning(env: Env, st: State, condition: Option<Value>)
    requires condition == None || condition == Some(STILL_RUNNING)
    requires ExecField(st, "__running") == Some(Bool(true)) && ExecOf(st).running
    ensures CheckCondition(env, st, condition) == Ok(true)
  {
    hide SplitPath, ExecOf;
    if condition.Some? {
      SplitRunning();
      var exec := st.Get(EXEC).value;
      var parts := ["__exec__", "__running"];
      assert parts[1..] == ["__running"] && Walk(Bool(true), []) == Some(Bool(true));
      assert Walk(exec, parts[1..]) == Some(Bool(true));
      assert Walk(st.ToValue(), parts) == Walk(exec, parts[1..]);
      assert ResolvePath(st, STILL_RUNNING) == Bool(true);
      assert IsRef(STILL_RUNNING);
      assert ResolveAt(st, STILL_RUNNING, 0) == ResolveAt(st, Bool(true), 1) == Bool(true);
    }
  }
}
