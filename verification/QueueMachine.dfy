/** The queue of the self-driving loop by itself: a dispatch appends what its case enqueues and
    one advance, and the drain after it takes instructions off the front.

    An advance makes the instruction behind it current, and the drain goes on without looking
    at that one. So advances run off in pairs, and what is dispatched in a run is what is left
    of everything ever queued when each advance takes the next instruction with it.
 */
module QueueMachine {
  import opened Values
  import opened Store
  import opened Machine

  predicate IsAdvance(v: Value) {
    v.GetStr("type") == Some("advance_instruction")
  }

  predicate NoAdvances(vs: seq<Value>) {
    forall i | 0 <= i < |vs| :: !IsAdvance(vs[i])
  }

  predicate AllAdvances(vs: seq<Value>) {
    forall i | 0 <= i < |vs| :: IsAdvance(vs[i])
  }

  // ------------------------------------------------------------------------
  // The drain
  // ------------------------------------------------------------------------

  datatype Drained = Landed(current: Value, queue: seq<Value>) | AtRest

  /** Where the drain ends on a queue of advances and other instructions, with `b` current. */
  function DrainOf(b: Value, queue: seq<Value>): Drained
    decreases |queue|
  {
    if queue == [] then (if IsAdvance(b) then AtRest else Landed(b, []))
    else if !IsAdvance(queue[0]) then Landed(queue[0], queue[1..])
    else if |queue| == 1 then AtRest
    else DrainOf(queue[1], queue[2..])
  }

  /** How many advances it executes. */
  function AdvancesRun(queue: seq<Value>): nat
    decreases |queue|
  {
    if queue == [] || !IsAdvance(queue[0]) then 0
    else if |queue| == 1 then 1
    else 1 + AdvancesRun(queue[2..])
  }

  function PendingAdvances(n: nat): (r: seq<Value>)
    ensures |r| == n && forall i | 0 <= i < n :: r[i] == AdvanceInQueue
  {
    seq(n, _ => AdvanceInQueue)
  }

  /** The number of advances at the front. */
  function Leading(queue: seq<Value>): (n: nat)
    ensures n <= |queue| && AllAdvances(queue[..n]) && (n < |queue| ==> !IsAdvance(queue[n]))
  {
    if queue == [] || !IsAdvance(queue[0]) then 0
    else
      assert [queue[0]] + queue[1..] == queue;
      1 + Leading(queue[1..])
  }

  /** The first instruction behind pending advances becomes current, with the others left
      queued, exactly when the advances are even in number or it is the last one queued. */
  lemma {:induction false} TakesNextExactly(b: Value, ahead: seq<Value>, first: Value, rest: seq<Value>)
    requires AllAdvances(ahead) && !IsAdvance(first)
    ensures DrainOf(b, ahead + ([first] + rest)) == Landed(first, rest) <==> |ahead| % 2 == 0 || rest == []
    decreases |ahead|
  {
    hide IsAdvance;
    var queue := ahead + ([first] + rest);
    if ahead == [] {
      assert queue == [first] + rest && queue[1..] == rest;
    } else if |ahead| == 1 {
      assert queue[0] == ahead[0] && queue[1] == first && queue[2..] == rest;
      DrainShortens(first, rest);
    } else {
      assert queue[0] == ahead[0] && queue[2..] == ahead[2..] + ([first] + rest);
      TakesNextExactly(queue[1], ahead[2..], first, rest);
    }
  }

  lemma {:induction false} DrainShortens(b: Value, queue: seq<Value>)
    ensures queue != [] && DrainOf(b, queue).Landed? ==> |DrainOf(b, queue).queue| < |queue|
    decreases |queue|
  {
    if |queue| > 1 && IsAdvance(queue[0]) { DrainShortens(queue[1], queue[2..]); }
  }

  // ------------------------------------------------------------------------
  // What survives of a queue
  // ------------------------------------------------------------------------

  /** What is left for dispatch when each advance takes the next instruction with it. */
  function Survivors(tape: seq<Value>): seq<Value>
    decreases |tape|
  {
    if tape == [] then []
    else if !IsAdvance(tape[0]) then [tape[0]] + Survivors(tape[1..])
    else if |tape| == 1 then []
    else Survivors(tape[2..])
  }

  /** All instructions but advances. */
  function Without(tape: seq<Value>): seq<Value> {
    if tape == [] then []
    else (if IsAdvance(tape[0]) then [] else [tape[0]]) + Without(tape[1..])
  }

  /** No advance takes anything but an advance with it: in front of every other instruction
      stands an even number of advances. */
  predicate Paired(tape: seq<Value>)
    decreases |tape|
  {
    var n := Leading(tape);
    n == |tape| || (n % 2 == 0 && Paired(tape[n + 1..]))
  }

  lemma {:induction false} SurvivorsAreFewer(tape: seq<Value>)
    ensures |Survivors(tape)| <= |Without(tape)|
    decreases |tape|
  {
    if tape != [] {
      if !IsAdvance(tape[0]) {
        SurvivorsAreFewer(tape[1..]);
      } else if |tape| > 1 {
        SurvivorsAreFewer(tape[2..]);
        assert tape[1..][1..] == tape[2..];
      }
    }
  }

  lemma {:induction false} AdvancesLeaveNothing(ahead: seq<Value>)
    requires AllAdvances(ahead)
    ensures Survivors(ahead) == [] && Without(ahead) == []
    decreases |ahead|
  {
    if |ahead| == 1 {
      assert ahead[1..] == [];
    } else if |ahead| > 1 {
      AdvancesLeaveNothing(ahead[2..]);
      assert ahead[1..][1..] == ahead[2..];
    }
  }

  lemma {:induction false} ReadPast(ahead: seq<Value>, first: Value, rest: seq<Value>)
    requires AllAdvances(ahead) && !IsAdvance(first)
    ensures Without(ahead + ([first] + rest)) == [first] + Without(rest)
    ensures Survivors(ahead + ([first] + rest)) ==
            if |ahead| % 2 == 0 then [first] + Survivors(rest) else Survivors(rest)
    decreases |ahead|
  {
    var tape := ahead + ([first] + rest);
    if ahead == [] {
      assert tape == [first] + rest && tape[1..] == rest;
    } else if |ahead| == 1 {
      assert tape[1..] == [first] + rest && tape[2..] == rest && tape[1..][1..] == rest;
    } else {
      assert tape[2..] == ahead[2..] + ([first] + rest) && tape[1..][1..] == tape[2..];
      ReadPast(ahead[2..], first, rest);
    }
  }

  /** Everything survives exactly when the advances stand in pairs. */
  lemma {:induction false} AllSurviveExactly(tape: seq<Value>)
    ensures Survivors(tape) == Without(tape) <==> Paired(tape)
    decreases |tape|
  {
    var n := Leading(tape);
    if n == |tape| {
      assert tape[..n] == tape;
      AdvancesLeaveNothing(tape);
    } else {
      var rest := tape[n + 1..];
      assert tape == tape[..n] + ([tape[n]] + rest);
      ReadPast(tape[..n], tape[n], rest);
      AllSurviveExactly(rest);
      SurvivorsAreFewer(rest);
      assert ([tape[n]] + Survivors(rest))[1..] == Survivors(rest);
      assert ([tape[n]] + Without(rest))[1..] == Without(rest);
    }
  }

  // ------------------------------------------------------------------------
  // Runs
  // ------------------------------------------------------------------------

  /** What dispatching an instruction does: the business fields it leaves and what it enqueues. */
  datatype Deed = Deed(fields: Fields, enqueued: seq<Value>)

  /** The deed of an instruction on the business fields, where it succeeds on them. */
  type Effect = (Value, Fields) -> Option<Deed>

  datatype Job = Job(current: Value, queue: seq<Value>, fields: Fields)

  datatype Progress = Going(job: Job) | Resting(fields: Fields) | Stuck

  function QueueAfter(j: Job, d: Deed): seq<Value> {
    j.queue + d.enqueued + [AdvanceInQueue]
  }

  /** One dispatch and the drain after it. */
  function TurnOf(eff: Effect, j: Job): Progress {
    match eff(j.current, j.fields)
    case None => Stuck
    case Some(d) =>
      match DrainOf(j.current, QueueAfter(j, d))
      case Landed(current, queue) => Going(Job(current, queue, d.fields))
      case AtRest => Resting(d.fields)
  }

  /** Where exactly `n` turns lead. */
  function After(eff: Effect, j: Job, n: nat): Progress
    decreases n
  {
    if n == 0 then Going(j)
    else
      match TurnOf(eff, j)
      case Going(next) => After(eff, next, n - 1)
      case Resting(fields) => if n == 1 then Resting(fields) else Stuck
      case Stuck => Stuck
  }

  /** The instructions dispatched in the first `n` turns. */
  function Dispatched(eff: Effect, j: Job, n: nat): seq<Value>
    decreases n
  {
    if n == 0 then []
    else [j.current] + match TurnOf(eff, j) case Going(next) => Dispatched(eff, next, n - 1) case _ => []
  }

  /** What is enqueued in each of them. */
  function Enqueued(eff: Effect, j: Job, n: nat): seq<seq<Value>>
    decreases n
  {
    if n == 0 then []
    else
      match eff(j.current, j.fields)
      case None => []
      case Some(d) =>
        [d.enqueued] + match TurnOf(eff, j) case Going(next) => Enqueued(eff, next, n - 1) case _ => []
  }

  /** Each enqueuing with the advance behind it. */
  function Weave(arrivals: seq<seq<Value>>): seq<Value> {
    if arrivals == [] then [] else arrivals[0] + [AdvanceInQueue] + Weave(arrivals[1..])
  }

  /** All that ever stands in the queue, in order. */
  function Tape(eff: Effect, j: Job, n: nat): seq<Value> {
    j.queue + Weave(Enqueued(eff, j, n))
  }

  /** Reading `queue`, whatever may follow it, up to the first survivor `c`, with `rest` left. */
  ghost predicate ReadsTo(queue: seq<Value>, c: Value, rest: seq<Value>, later: seq<Value>) {
    !IsAdvance(c) && Survivors(queue + later) == [c] + Survivors(rest + later) &&
    |queue| == 2 * AdvancesRun(queue) + 1 + |rest| && rest == queue[|queue| - |rest|..] &&
    queue[|queue| - |rest| - 1] == c
  }

  ghost predicate ReadsOff(queue: seq<Value>) {
    Survivors(queue) == [] && 2 * AdvancesRun(queue) <= |queue| + 1
  }

  /** The drain of a queue that ends with an advance reads up to the first survivor. */
  lemma {:induction false} DrainReads(b: Value, queue: seq<Value>, later: seq<Value>)
    requires queue != [] && IsAdvance(queue[|queue| - 1])
    ensures match DrainOf(b, queue)
            case Landed(c, rest) => ReadsTo(queue, c, rest, later)
            case AtRest => ReadsOff(queue)
    decreases |queue|
  {
    if !IsAdvance(queue[0]) {
      assert (queue + later)[1..] == queue[1..] + later;
    } else if |queue| > 2 {
      assert (queue + later)[2..] == queue[2..] + later;
      DrainReads(queue[1], queue[2..], later);
    } else if |queue| == 2 {
      assert queue[2..] == [];
    }
  }

  lemma TurnReads(eff: Effect, j: Job, later: seq<Value>)
    requires eff(j.current, j.fields).Some?
    ensures match TurnOf(eff, j)
            case Going(next) =>
              ReadsTo(QueueAfter(j, eff(j.current, j.fields).value), next.current, next.queue, later)
            case Resting(_) => ReadsOff(QueueAfter(j, eff(j.current, j.fields).value))
            case Stuck => false
  {
    hide Survivors, DrainOf, ReadsTo, ReadsOff;
    AdvanceIsOne();
    DrainReads(j.current, QueueAfter(j, eff(j.current, j.fields).value), later);
  }

  lemma AdvanceIsOne()
    ensures IsAdvance(AdvanceInQueue)
  {
  }

  lemma TapeOfTurn(eff: Effect, j: Job, n: nat)
    requires n > 0 && eff(j.current, j.fields).Some?
    ensures var queue := QueueAfter(j, eff(j.current, j.fields).value);
            match TurnOf(eff, j)
            case Going(k) => Tape(eff, j, n) == queue + Weave(Enqueued(eff, k, n - 1))
            case _ => Tape(eff, j, n) == queue
  {
    hide TurnOf;
    var d := eff(j.current, j.fields).value;
    var arrivals := Enqueued(eff, j, n);
    match TurnOf(eff, j) {
      case Going(k) =>
        var later := Enqueued(eff, k, n - 1);
        assert arrivals == [d.enqueued] + later && arrivals[1..] == later;
        assert Weave(arrivals) == d.enqueued + [AdvanceInQueue] + Weave(later);
      case _ =>
        assert arrivals == [d.enqueued] && arrivals[1..] == [];
        assert Weave(arrivals) == d.enqueued + [AdvanceInQueue];
    }
  }

  lemma StuckWithoutDeed(eff: Effect, j: Job)
    ensures TurnOf(eff, j) == Stuck <==> eff(j.current, j.fields) == None
  {
  }

  lemma RunOfTurn(eff: Effect, j: Job, n: nat)
    requires n > 0
    ensures match TurnOf(eff, j)
            case Going(next) =>
              After(eff, j, n) == After(eff, next, n - 1) &&
              Dispatched(eff, j, n) == [j.current] + Dispatched(eff, next, n - 1)
            case Resting(fields) =>
              After(eff, j, n) == (if n == 1 then Resting(fields) else Stuck) && Dispatched(eff, j, n) == [j.current]
            case Stuck => After(eff, j, n) == Stuck
  {
    hide TurnOf;
  }

  lemma Nothing(eff: Effect, j: Job)
    ensures After(eff, j, 0) == Going(j) && Dispatched(eff, j, 0) == [] && Tape(eff, j, 0) == j.queue
  {
    hide TurnOf;
    assert j.queue + [] == j.queue;
  }

  lemma Together<T>(a: seq<T>, b: seq<T>, c: seq<T>, d: seq<T>)
    ensures a + b + c + d == a + (b + c + d)
  {
  }

  /** What a run dispatches, for whatever its instructions enqueue: the current instruction,
      and then the survivors of all that ever stands in the queue. */
  lemma {:induction false} DispatchedAreSurvivors(eff: Effect, j: Job, n: nat)
    ensures match After(eff, j, n)
            case Resting(_) => Dispatched(eff, j, n) == [j.current] + Survivors(Tape(eff, j, n))
            case Going(k) =>
              Dispatched(eff, j, n) + [k.current] + Survivors(k.queue) == [j.current] + Survivors(Tape(eff, j, n))
            case Stuck => true
    decreases n
  {
    hide Survivors, DrainOf, TurnOf, QueueAfter, Weave, After, Dispatched, Enqueued;
    StuckWithoutDeed(eff, j);
    if n == 0 {
      Nothing(eff, j);
    } else {
      RunOfTurn(eff, j, n);
      match TurnOf(eff, j)
      case Going(next) =>
        TapeOfTurn(eff, j, n);
        TurnReads(eff, j, Weave(Enqueued(eff, next, n - 1)));
        DispatchedAreSurvivors(eff, next, n - 1);
        if After(eff, j, n).Going? {
          var k := After(eff, j, n).job;
          Together([j.current], Dispatched(eff, next, n - 1), [k.current], Survivors(k.queue));
        }
      case Resting(_) =>
        TapeOfTurn(eff, j, n);
        TurnReads(eff, j, []);
      case Stuck =>
    }
  }

  // ------------------------------------------------------------------------
  // When nothing is lost
  // ------------------------------------------------------------------------

  function Concat(arrivals: seq<seq<Value>>): seq<Value> {
    if arrivals == [] then [] else arrivals[0] + Concat(arrivals[1..])
  }

  /** Only every other turn enqueues anything: the first, the third and so on where the number
      of advances pending at first is even, and the second, the fourth and so on where it is odd. */
  predicate InStep(arrivals: seq<seq<Value>>, ahead: nat) {
    forall i | 0 <= i < |arrivals| && arrivals[i] != [] :: (ahead + i) % 2 == 0
  }

  lemma {:induction false} LeadingOf(ahead: seq<Value>, first: Value, rest: seq<Value>)
    requires AllAdvances(ahead) && !IsAdvance(first)
    ensures Leading(ahead + ([first] + rest)) == |ahead|
    decreases |ahead|
  {
    hide IsAdvance;
    if ahead != [] {
      assert (ahead + ([first] + rest))[1..] == ahead[1..] + ([first] + rest);
      LeadingOf(ahead[1..], first, rest);
    }
  }

  lemma PairedPast(ahead: seq<Value>, first: Value, rest: seq<Value>)
    requires AllAdvances(ahead) && !IsAdvance(first)
    ensures Paired(ahead + ([first] + rest)) <==> |ahead| % 2 == 0 && Paired(rest)
  {
    hide IsAdvance, Leading, AllAdvances;
    var tape := ahead + ([first] + rest);
    LeadingOf(ahead, first, rest);
    assert tape[|ahead| + 1..] == rest;
  }

  lemma PairedAlone(ahead: seq<Value>)
    requires AllAdvances(ahead)
    ensures Paired(ahead)
  {
    hide IsAdvance;
    assert Leading(ahead) == |ahead|;
  }

  lemma {:induction false} PairedBehind(bs: seq<Value>, rest: seq<Value>)
    requires NoAdvances(bs)
    ensures Paired(bs + rest) <==> Paired(rest)
    ensures Without(bs + rest) == bs + Without(rest)
    decreases |bs|
  {
    hide Paired, Without;
    if bs == [] {
      assert bs + rest == rest;
      assert bs + Without(rest) == Without(rest);
    } else {
      var behind := bs[1..] + rest;
      assert [] + ([bs[0]] + behind) == bs + rest;
      PairedPast([], bs[0], behind);
      ReadPast([], bs[0], behind);
      PairedBehind(bs[1..], rest);
      assert [bs[0]] + (bs[1..] + Without(rest)) == bs + Without(rest);
    }
  }

  lemma PairedArrival(pending: seq<Value>, es: seq<Value>, behind: seq<Value>)
    requires AllAdvances(pending) && NoAdvances(es) && es != []
    ensures Paired(pending + (es + behind)) <==> |pending| % 2 == 0 && Paired(behind)
    ensures Without(pending + (es + behind)) == es + Without(behind)
  {
    hide Paired, Without, Leading, IsAdvance, Survivors;
    var rest := es[1..] + behind;
    assert [es[0]] + rest == es + behind;
    PairedPast(pending, es[0], rest);
    ReadPast(pending, es[0], rest);
    PairedBehind(es[1..], behind);
    assert [es[0]] + (es[1..] + Without(behind)) == es + Without(behind);
  }

  lemma NothingWoven()
    ensures Weave([]) == [] && Concat([]) == []
  {
  }

  lemma Regroup(pending: seq<Value>, es: seq<Value>, one: seq<Value>, rest: seq<Value>)
    ensures pending + (es + one + rest) == pending + (es + (one + rest))
    ensures es == [] ==> pending + (es + one + rest) == (pending + one) + rest
  {
  }

  lemma OneMorePending(ahead: nat)
    ensures PendingAdvances(1) == [AdvanceInQueue]
    ensures PendingAdvances(ahead) + PendingAdvances(1) == PendingAdvances(ahead + 1)
  {
  }

  lemma WovenBehind(arrivals: seq<seq<Value>>, ahead: nat)
    requires arrivals != []
    ensures Concat(arrivals) == arrivals[0] + Concat(arrivals[1..])
    ensures arrivals[0] == [] ==>
              PendingAdvances(ahead) + Weave(arrivals) == PendingAdvances(ahead + 1) + Weave(arrivals[1..])
    ensures PendingAdvances(ahead) + Weave(arrivals) ==
            PendingAdvances(ahead) + (arrivals[0] + (PendingAdvances(1) + Weave(arrivals[1..])))
  {
    hide PendingAdvances;
    OneMorePending(ahead);
    Regroup(PendingAdvances(ahead), arrivals[0], PendingAdvances(1), Weave(arrivals[1..]));
  }

  lemma {:induction false} PairedWeave(arrivals: seq<seq<Value>>, ahead: nat)
    requires forall i | 0 <= i < |arrivals| :: NoAdvances(arrivals[i])
    ensures Paired(PendingAdvances(ahead) + Weave(arrivals)) <==> InStep(arrivals, ahead)
    ensures Without(PendingAdvances(ahead) + Weave(arrivals)) == Concat(arrivals)
    decreases |arrivals|
  {
    hide Paired, Without, Leading, InStep, NoAdvances, Weave, Concat;
    AdvanceIsOne();
    var pending := PendingAdvances(ahead);
    StepsShift(arrivals, ahead);
    if arrivals == [] {
      NothingWoven();
      assert pending + [] == pending;
      PairedAlone(pending);
      AdvancesLeaveNothing(pending);
    } else {
      var es, later := arrivals[0], arrivals[1..];
      WovenBehind(arrivals, ahead);
      if es == [] {
        PairedWeave(later, ahead + 1);
      } else {
        PairedArrival(pending, es, PendingAdvances(1) + Weave(later));
        PairedWeave(later, 1);
      }
    }
  }

  lemma StepsShift(arrivals: seq<seq<Value>>, ahead: nat)
    ensures arrivals == [] ==> InStep(arrivals, ahead)
    ensures arrivals != [] ==>
              (InStep(arrivals, ahead) <==> (arrivals[0] == [] || ahead % 2 == 0) && InStep(arrivals[1..], ahead + 1))
    ensures arrivals != [] && ahead % 2 == 0 ==> (InStep(arrivals[1..], ahead + 1) <==> InStep(arrivals[1..], 1))
  {
    if arrivals != [] {
      var later := arrivals[1..];
      assert forall i | 0 <= i < |later| :: later[i] == arrivals[i + 1];
      if InStep(later, ahead + 1) && (arrivals[0] == [] || ahead % 2 == 0) {
        forall i | 0 <= i < |arrivals| && arrivals[i] != [] ensures (ahead + i) % 2 == 0 {
          if i > 0 { assert later[i - 1] != []; }
        }
      }
    }
  }

  /** A run dispatches everything ever queued, each instruction once and in order, exactly
      when the advances on the tape stand in pairs. */
  lemma NothingIsLostExactly(eff: Effect, j: Job, n: nat)
    requires After(eff, j, n).Resting?
    ensures Dispatched(eff, j, n) == [j.current] + Without(Tape(eff, j, n)) <==> Paired(Tape(eff, j, n))
  {
    hide Paired, Without, Survivors, Tape, After, Dispatched;
    var tape := Tape(eff, j, n);
    AllSurviveExactly(tape);
    DispatchedAreSurvivors(eff, j, n);
    assert ([j.current] + Survivors(tape))[1..] == Survivors(tape);
    assert ([j.current] + Without(tape))[1..] == Without(tape);
  }

  /** A run over `waiting` instructions behind the current one, with `ahead` advances pending
      behind them, dispatches these and all that is enqueued on the way, each once and in
      order, exactly when only every other turn enqueues anything. */
  lemma RunIsInOrderExactly(eff: Effect, j: Job, n: nat, waiting: seq<Value>, ahead: nat)
    requires After(eff, j, n).Resting? && j.queue == waiting + PendingAdvances(ahead) && NoAdvances(waiting)
    requires forall i | 0 <= i < |Enqueued(eff, j, n)| :: NoAdvances(Enqueued(eff, j, n)[i])
    ensures Dispatched(eff, j, n) == [j.current] + waiting + Concat(Enqueued(eff, j, n)) <==>
            InStep(Enqueued(eff, j, n), ahead)
  {
    hide Paired, Without, Concat, Weave, InStep, After, Dispatched, Enqueued;
    var arrivals := Enqueued(eff, j, n);
    var woven := PendingAdvances(ahead) + Weave(arrivals);
    assert Tape(eff, j, n) == waiting + woven;
    PairedBehind(waiting, woven);
    PairedWeave(arrivals, ahead);
    NothingIsLostExactly(eff, j, n);
    assert [j.current] + waiting + Concat(arrivals) == [j.current] + (waiting + Concat(arrivals));
  }

  // ------------------------------------------------------------------------
  // What runs do, and what they take
  // ------------------------------------------------------------------------

  /** One deed after the other, as long as each succeeds on what the one before left. */
  function FoldDeeds(eff: Effect, bs: seq<Value>, fields: Fields): Option<Fields> {
    if bs == [] then Some(fields)
    else match eff(bs[0], fields) case Some(d) => FoldDeeds(eff, bs[1..], d.fields) case None => None
  }

  /** The business fields a run leaves are what the deeds of the dispatched make of them. */
  lemma {:induction false} RunsFold(eff: Effect, j: Job, n: nat)
    ensures match After(eff, j, n)
            case Resting(fields) => FoldDeeds(eff, Dispatched(eff, j, n), j.fields) == Some(fields)
            case Going(k) => FoldDeeds(eff, Dispatched(eff, j, n), j.fields) == Some(k.fields)
            case Stuck => true
    decreases n
  {
    hide DrainOf, QueueAfter;
    if n == 0 {
      Nothing(eff, j);
    } else {
      RunOfTurn(eff, j, n);
      var bs := Dispatched(eff, j, n);
      match TurnOf(eff, j)
      case Going(next) =>
        RunsFold(eff, next, n - 1);
        assert bs[1..] == Dispatched(eff, next, n - 1);
      case Resting(_) => assert bs[1..] == [];
      case Stuck =>
    }
  }

  /** What a turn leaves of the tape. */
  lemma TapeAfterTurn(eff: Effect, j: Job, n: nat)
    requires n > 0
    ensures match TurnOf(eff, j)
            case Going(next) =>
              var ran := AdvancesRun(QueueAfter(j, eff(j.current, j.fields).value));
              |Tape(eff, j, n)| == 2 * ran + 1 + |Tape(eff, next, n - 1)| &&
              next.current in Tape(eff, j, n) && !IsAdvance(next.current) &&
              forall v | v in Tape(eff, next, n - 1) :: v in Tape(eff, j, n)
            case Resting(_) =>
              2 * AdvancesRun(QueueAfter(j, eff(j.current, j.fields).value)) <= |Tape(eff, j, n)| + 1
            case Stuck => true
  {
    hide Survivors, TurnOf, QueueAfter, AdvancesRun, Weave, Enqueued;
    StuckWithoutDeed(eff, j);
    match TurnOf(eff, j)
    case Going(next) =>
      var queue := QueueAfter(j, eff(j.current, j.fields).value);
      var later := Weave(Enqueued(eff, next, n - 1));
      TapeOfTurn(eff, j, n);
      TurnReads(eff, j, later);
      assert queue[|queue| - |next.queue| - 1] in queue;
      forall v | v in next.queue ensures v in queue {
        assert v in queue[|queue| - |next.queue|..];
      }
    case Resting(_) =>
      TapeOfTurn(eff, j, n);
      TurnReads(eff, j, []);
    case Stuck =>
  }

  lemma PlainTurn(eff: Effect, bs: seq<Value>, ahead: nat, fields: Fields)
    requires bs != [] && NoAdvances(bs) && eff(bs[0], fields).Some? && eff(bs[0], fields).value.enqueued == []
    ensures var next := eff(bs[0], fields).value.fields;
            TurnOf(eff, Job(bs[0], bs[1..] + PendingAdvances(ahead), fields)) ==
            if |bs| == 1 then Resting(next) else Going(Job(bs[1], bs[2..] + PendingAdvances(ahead + 1), next))
  {
    var queue := bs[1..] + PendingAdvances(ahead) + [] + [AdvanceInQueue];
    assert queue == bs[1..] + PendingAdvances(ahead + 1);
    AdvanceIsOne();
    if |bs| == 1 {
      AdvancesRest(bs[0], queue);
    } else {
      assert queue[0] == bs[1] && queue[1..] == bs[2..] + PendingAdvances(ahead + 1);
    }
  }

  /** Instructions that enqueue nothing are dispatched in turn. */
  lemma {:induction false} PlainRun(eff: Effect, bs: seq<Value>, ahead: nat, fields: Fields)
    requires bs != [] && NoAdvances(bs) && FoldDeeds(eff, bs, fields).Some?
    requires forall b, f | b in bs && eff(b, f).Some? :: eff(b, f).value.enqueued == []
    ensures var j := Job(bs[0], bs[1..] + PendingAdvances(ahead), fields);
            After(eff, j, |bs|) == Resting(FoldDeeds(eff, bs, fields).value) && Dispatched(eff, j, |bs|) == bs &&
            forall i | 0 <= i < |Enqueued(eff, j, |bs|)| :: Enqueued(eff, j, |bs|)[i] == []
    decreases |bs|
  {
    hide TurnOf, After, Dispatched;
    var j := Job(bs[0], bs[1..] + PendingAdvances(ahead), fields);
    var d := eff(bs[0], fields).value;
    RunOfTurn(eff, j, |bs|);
    PlainTurn(eff, bs, ahead, fields);
    if |bs| == 1 {
      assert FoldDeeds(eff, bs[1..], d.fields) == Some(d.fields);
    } else {
      PlainRun(eff, bs[1..], ahead + 1, d.fields);
      assert bs[1..][1..] == bs[2..];
    }
  }

  lemma {:induction false} AdvancesRest(b: Value, queue: seq<Value>)
    requires queue != [] && AllAdvances(queue)
    ensures DrainOf(b, queue) == AtRest
    decreases |queue|
  {
    if |queue| > 2 { AdvancesRest(queue[1], queue[2..]); }
  }
}
