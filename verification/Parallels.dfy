/** Parallel execution as a whole: what `execute` returns, with which error, and what the force
    merge leaves of the branches.
 */
module Parallels {
  import opened Values
  import opened Store
  import opened References
  import opened Control
  import opened Machine
  import opened Engine
  import opened Merging
  import opened Programs
  import opened Aliases
  import opened Attempts
  import Comparisons

  // ------------------------------------------------------------------------
  // What is asked for
  // ------------------------------------------------------------------------

  /** The text that a parameter gives: written out or found at a place it refers to, and
      `default` where there is none or something else than a text. */
  predicate Chooses(st: State, instr: Instruction, key: string, default: string, text: string) {
    if key !in instr.params then text == default
    else
      var v := instr.params[key];
      if v.Object? && REF in v.fields && v.fields[REF].Str? && v.fields[REF].s != "" then
        var found := GetPath(st, v.fields[REF].s);
        if found.Some? && found.value.Str? then text == found.value.s else text == default
      else if v.Str? then text == v.s
      else if v.Object? && REF in v.fields then !v.fields[REF].Str? && text == default
      else text == default
  }

  lemma ChoiceIsText(st: State, instr: Instruction, key: string, default: string, text: string)
    requires Chooses(st, instr, key, default, text)
    ensures TextParam(st, instr, key, default) == text
  {
    hide GetPath;
  }

  /** A parallel primitive within the limits, the branches it names, whether their errors stop
      it, and whether they are merged. */
  ghost predicate Joins(reg: Registry, st: State, instr: Instruction, items: seq<Value>, failFast: bool, force: bool,
                        c: Ctl) {
    instr.kind in reg && reg[instr.kind].Parallel? && c.Refusal().None? &&
    instr.Param("branches").Some? && ResolvePath(st, instr.params["branches"]) == List(items) &&
    (exists text :: Chooses(st, instr, "error_strategy", "fail_fast", text) && failFast == (text == "fail_fast")) &&
    exists text :: Chooses(st, instr, "merge", "last_wins", text) && force == (text == "force")
  }

  lemma JoinsIsForks(reg: Registry, st: State, instr: Instruction, items: seq<Value>, failFast: bool, force: bool,
                     c: Ctl)
    requires Joins(reg, st, instr, items, failFast, force, c)
    ensures Forks(st, instr, items, failFast)
    ensures force == (TextParam(st, instr, "merge", "last_wins") == "force")
  {
    hide Chooses, TextParam, ResolvePath;
    var s :| Chooses(st, instr, "error_strategy", "fail_fast", s) && failFast == (s == "fail_fast");
    var t :| Chooses(st, instr, "merge", "last_wins", t) && force == (t == "force");
    ChoiceIsText(st, instr, "error_strategy", "fail_fast", s);
    ChoiceIsText(st, instr, "merge", "last_wins", t);
  }

  // ------------------------------------------------------------------------
  // The force merge
  // ------------------------------------------------------------------------

  const ENGINE_FIELDS: set<string> := {
    "__exec__", "__universe_rules__", "__domain_result__", "__audit_chain", "__audit_trace",
    "__parallel_provenance__"}

  /** Branch `i` leaves `k` with another value than it had, the sign of zeros apart, and no
      later branch does. */
  predicate Last(st: State, results: seq<State>, k: string, i: nat) {
    i < |results| && Differs(st, results[i], k) && forall j | i < j < |results| :: !Differs(st, results[j], k)
  }

  predicate Differs(st: State, r: State, k: string) {
    k in r.data && (k !in st.data || Comparisons.Unsigned(st.data[k]) != Comparisons.Unsigned(r.data[k]))
  }

  predicate AnyDiffers(st: State, results: seq<State>, k: string) {
    exists i | 0 <= i < |results| :: Differs(st, results[i], k)
  }

  /** `next` is what all branches together make of `st`: each field but the engine's own has the
      value of the last branch that differs in it, or its own value, and if there are such
      fields at all, where each came from is noted. */
  ghost predicate Merged(st: State, results: seq<State>, next: State) {
    (forall k | k !in ENGINE_FIELDS && !AnyDiffers(st, results, k) :: next.Get(k) == st.Get(k)) &&
    (forall k, i: nat | k !in ENGINE_FIELDS && Last(st, results, k, i) :: next.Get(k) == results[i].Get(k)) &&
    (forall k | k in ENGINE_FIELDS && k != "__parallel_provenance__" :: next.Get(k) == st.Get(k)) &&
    if forall k | k !in ENGINE_FIELDS :: !AnyDiffers(st, results, k) then next == st
    else Sourced(st, results, next.Get("__parallel_provenance__"))
  }

  ghost predicate Sourced(st: State, results: seq<State>, sources: Option<Value>) {
    sources.Some? && sources.value.Object? &&
    (forall k :: k in sources.value.fields <==> k !in ENGINE_FIELDS && AnyDiffers(st, results, k)) &&
    forall k, i: nat | k in sources.value.fields && Last(st, results, k, i) ::
      sources.value.fields[k] ==
      Object(map["branch" := Integer(AsI64(i)), "total_branches" := Integer(AsI64(|results|))])
  }

  lemma DiffersIsChanges(st: State, r: State, k: string)
    ensures Differs(st, r, k) <==> Changes(st, r, k)
  {
    if k in r.data && k in st.data { Comparisons.SameUpToZeros(st.data[k], r.data[k]); }
  }

  lemma LastIsWritesLast(st: State, results: seq<State>, k: string)
    ensures forall i: nat :: Last(st, results, k, i) <==> WritesLast(st, results, k, i)
    ensures AnyDiffers(st, results, k) <==> exists i | 0 <= i < |results| :: Changes(st, results[i], k)
  {
    hide Differs, Changes;
    forall i | 0 <= i < |results| ensures Differs(st, results[i], k) <==> Changes(st, results[i], k) {
      DiffersIsChanges(st, results[i], k);
    }
  }

  lemma ForceMergeMerges(st: State, results: seq<State>)
    ensures Merged(st, results, ForceMerge(st, results))
  {
    hide ForceMerge, Last, WritesLast, AnyDiffers, ChangedKeys, Changes;
    forall k ensures k in ChangedKeys(st, results) <==> k !in ENGINE_FIELDS && AnyDiffers(st, results, k) {
      LastIsWritesLast(st, results, k);
      ChangedExactly(st, results, k);
      NoWriterExactly(st, results, k);
    }
    forall k | k !in ENGINE_FIELDS && !AnyDiffers(st, results, k) ensures ForceMerge(st, results).Get(k) == st.Get(k) {
      LastIsWritesLast(st, results, k);
      MergedField(st, results, k, 0);
    }
    forall k, i: nat | k !in ENGINE_FIELDS && Last(st, results, k, i)
      ensures i < |results| && ForceMerge(st, results).Get(k) == results[i].Get(k)
    {
      LastIsWritesLast(st, results, k);
      LastInRange(st, results, k, i);
      MergedField(st, results, k, i);
    }
    MergedProvenance(st, results);
    if ChangedKeys(st, results) == {} {
      assert forall k :: k !in ChangedKeys(st, results);
    } else {
      var k :| k in ChangedKeys(st, results);
      MergeIsSourced(st, results);
    }
  }

  lemma LastInRange(st: State, results: seq<State>, k: string, i: nat)
    requires Last(st, results, k, i)
    ensures i < |results|
  {
  }

  lemma MergeIsSourced(st: State, results: seq<State>)
    requires ChangedKeys(st, results) != {}
    requires forall k :: k in ChangedKeys(st, results) <==> k !in ENGINE_FIELDS && AnyDiffers(st, results, k)
    ensures Sourced(st, results, ForceMerge(st, results).Get("__parallel_provenance__"))
  {
    hide ForceMerge, Last, WritesLast, AnyDiffers, ChangedKeys, Changes, AsI64;
    MergedProvenance(st, results);
    var p := ForceMerge(st, results).Get(PROVENANCE);
    forall k, i: nat | k in p.value.fields && Last(st, results, k, i)
      ensures p.value.fields[k] == ProvenanceOf(i, |results|)
    {
      LastIsWritesLast(st, results, k);
    }
  }

  // ------------------------------------------------------------------------
  // The whole call
  // ------------------------------------------------------------------------

  const NO_BRANCHES: Error := InvalidParam("execute_parallel", "branches")

  /** What becomes of the results: without one, the error; with the force merge, all of them
      together; otherwise the last one. */
  ghost predicate Joined(st: State, results: seq<State>, error: Error, force: bool, out: Outcome) {
    if results == [] then out == Failed(error)
    else if force then out.Done? && Merged(st, results, out.st)
    else out == Done(results[|results| - 1])
  }

  lemma ResultsAreJoined(st: State, instr: Instruction, b: Branches, force: bool, error: Error)
    requires !b.diverged && force == (TextParam(st, instr, "merge", "last_wins") == "force")
    requires b.results == [] ==> error == if b.lastError.Some? then b.lastError.value else NO_BRANCHES
    ensures Joined(st, b.results, error, force, MergeBranches(st, instr, b).out)
    ensures MergeBranches(st, instr, b).ctl == b.ctl
  {
    hide TextParam, ForceMerge, Merged;
    ForceMergeMerges(st, b.results);
  }

  lemma ParallelRuns(env: Env, reg: Registry, st: State, instr: Instruction, items: seq<Value>, failFast: bool,
                     force: bool, c: Ctl)
    requires Joins(reg, st, instr, items, failFast, force, c)
    ensures var b := RunBranches(env, reg, st, items, failFast, Branches([], None, false, c.Entered()));
            var r := MergeBranches(st, instr, b);
            Execute(env, reg, st, instr, c) == Run(r.out, r.ctl.Exited())
  {
    hide Execute, RunBranches, MergeBranches, RunParallel, Chooses, ResolvePath, TextParam;
    JoinsIsForks(reg, st, instr, items, failFast, force, c);
    ExecuteRegistered(env, reg, st, instr, c);
    ParallelMerges(env, reg, st, instr, items, failFast, c.Entered());
  }

  /** Where the context stands once the branches that are run have run. */
  lemma {:induction false} FailFastSpends(env: Env, reg: Registry, st: State, items: seq<Value>, b: Branches, n: nat)
    requires !b.diverged && n <= |items|
    requires forall i | 0 <= i < n :: NthRun(env, reg, st, items, i, b.ctl).out.Done?
    requires n < |items| ==> !NthRun(env, reg, st, items, n, b.ctl).out.Done?
    ensures RunBranches(env, reg, st, items, true, b).ctl ==
            After(env, reg, st, items, if n < |items| then n + 1 else n, b.ctl)
    decreases |items|
  {
    hide Execute, NthRun, After, ParseInstruction;
    if items == [] {
      NoneAfter(env, reg, st, items, b.ctl);
    } else {
      NthOfFirst(env, reg, st, items, b.ctl);
      var r := BranchRun(env, reg, st, items[0], b.ctl);
      AfterFirst(env, reg, st, items, if n < |items| then n + 1 else n, b.ctl);
      if n > 0 {
        var next := b.(results := b.results + [r.out.st], ctl := r.ctl);
        forall i | 0 <= i < |items| - 1
          ensures NthRun(env, reg, st, items[1..], i, r.ctl) == NthRun(env, reg, st, items, i + 1, b.ctl)
        {
          NthOfRest(env, reg, st, items, i + 1, b.ctl);
        }
        FailFastSpends(env, reg, st, items[1..], next, n - 1);
      } else {
        NoneAfter(env, reg, st, items[1..], r.ctl);
      }
    }
  }

  lemma NoneAfter(env: Env, reg: Registry, st: State, items: seq<Value>, c: Ctl)
    ensures After(env, reg, st, items, 0, c) == c
  {
  }

  /** Where no branch diverges all of them are run, and the error that is kept is that of the
      last one to fail. */
  lemma {:induction false} ContinueSpends(env: Env, reg: Registry, st: State, items: seq<Value>, b: Branches)
    requires !b.diverged && !RunBranches(env, reg, st, items, false, b).diverged
    ensures RunBranches(env, reg, st, items, false, b).ctl == After(env, reg, st, items, |items|, b.ctl)
    ensures items != [] && NthRun(env, reg, st, items, |items| - 1, b.ctl).out.Failed? ==>
              RunBranches(env, reg, st, items, false, b).lastError ==
              Some(NthRun(env, reg, st, items, |items| - 1, b.ctl).out.error)
    decreases |items|
  {
    hide Execute, NthRun, After, ParseInstruction;
    if items == [] {
      NoneAfter(env, reg, st, items, b.ctl);
    } else {
      NthOfFirst(env, reg, st, items, b.ctl);
      var r := BranchRun(env, reg, st, items[0], b.ctl);
      AfterFirst(env, reg, st, items, |items|, b.ctl);
      if |items| > 1 { NthOfRest(env, reg, st, items, |items| - 1, b.ctl); }
      if !r.out.Diverged? {
        var next := if r.out.Done? then b.(results := b.results + [r.out.st], ctl := r.ctl)
                    else b.(lastError := Some(r.out.error), ctl := r.ctl);
        ContinueSpends(env, reg, st, items[1..], next);
      }
    }
  }

  /** Under "fail_fast" the branches run one after the other on the initial state up to the first
      that does not succeed. Their results are joined; without any the error is that branch's. */
  lemma FailFastJoins(env: Env, reg: Registry, st: State, instr: Instruction, items: seq<Value>, force: bool, c: Ctl)
    returns (results: seq<State>)
    requires Joins(reg, st, instr, items, true, force, c)
    ensures SucceedsUpTo(env, reg, st, items, c.Entered(), results)
    ensures var n := |results|;
            var r := Execute(env, reg, st, instr, c);
            if n < |items| && NthRun(env, reg, st, items, n, c.Entered()).out.Diverged? then r.out.Diverged?
            else
              Joined(st, results, if items == [] then NO_BRANCHES
                                  else if n == 0 then NthRun(env, reg, st, items, 0, c.Entered()).out.error
                                  else NO_BRANCHES, force, r.out) &&
              r.ctl == After(env, reg, st, items, if n < |items| then n + 1 else n, c.Entered()).Exited()
  {
    hide Execute, RunBranches, MergeBranches, NthRun, After, Joined, Joins, TextParam;
    JoinsIsForks(reg, st, instr, items, true, force, c);
    ParallelRuns(env, reg, st, instr, items, true, force, c);
    var start := Branches([], None, false, c.Entered());
    var b := RunBranches(env, reg, st, items, true, start);
    results := FailFastCollects(env, reg, st, items, start);
    assert start.results + results == results;
    var n := |results|;
    FailFastSpends(env, reg, st, items, start, n);
    if b.diverged {
      DivergenceIsKept(st, instr, b);
    } else {
      var error := if items == [] || n > 0 then NO_BRANCHES else NthRun(env, reg, st, items, 0, c.Entered()).out.error;
      ResultsAreJoined(st, instr, b, force, error);
    }
  }

  lemma DivergenceIsKept(st: State, instr: Instruction, b: Branches)
    requires b.diverged
    ensures MergeBranches(st, instr, b) == Run(Diverged, b.ctl)
  {
    hide TextParam, ForceMerge;
  }

  /** Under any other strategy all branches run, each on the initial state, and those that succeed
      have their results joined; without any the error is that of the last one. */
  lemma ContinueJoins(env: Env, reg: Registry, st: State, instr: Instruction, items: seq<Value>, force: bool, c: Ctl)
    requires Joins(reg, st, instr, items, false, force, c)
    requires forall i | 0 <= i < |items| :: !NthRun(env, reg, st, items, i, c.Entered()).out.Diverged?
    ensures var results := Successes(env, reg, st, items, |items|, c.Entered());
            var r := Execute(env, reg, st, instr, c);
            Joined(st, results, if items != [] && results == []
                                then NthRun(env, reg, st, items, |items| - 1, c.Entered()).out.error
                                else NO_BRANCHES, force, r.out) &&
            r.ctl == After(env, reg, st, items, |items|, c.Entered()).Exited()
  {
    hide Execute, RunBranches, MergeBranches, NthRun, After, Joined, Joins, TextParam, Successes;
    JoinsIsForks(reg, st, instr, items, false, force, c);
    ParallelRuns(env, reg, st, instr, items, false, force, c);
    var start := Branches([], None, false, c.Entered());
    ContinueDiverges(env, reg, st, items, start);
    ContinueKeepsSuccesses(env, reg, st, items, c.Entered());
    ContinueSpends(env, reg, st, items, start);
    NoSuccessExactly(env, reg, st, items, |items|, c.Entered());
    var b := RunBranches(env, reg, st, items, false, start);
    var error := if items != [] && b.results == []
                 then NthRun(env, reg, st, items, |items| - 1, c.Entered()).out.error else NO_BRANCHES;
    if items == [] { NothingRuns(env, reg, st, start); }
    ResultsAreJoined(st, instr, b, force, error);
  }

  lemma NothingRuns(env: Env, reg: Registry, st: State, b: Branches)
    ensures RunBranches(env, reg, st, [], false, b) == b
  {
  }

  /** Without branches, or with something else in their place, the call fails. */
  lemma NoBranchesFail(env: Env, reg: Registry, st: State, instr: Instruction, c: Ctl)
    requires instr.kind in reg && reg[instr.kind].Parallel? && c.Refusal().None?
    ensures instr.Param("branches") == None ==>
              Execute(env, reg, st, instr, c) ==
              Run(Failed(MissingParam("execute_parallel", "branches")), c.(count := c.count + 1))
    ensures instr.Param("branches").Some? && !ResolvePath(st, instr.params["branches"]).List? ==>
              Execute(env, reg, st, instr, c) ==
              Run(Failed(TypeError("List", ResolvePath(st, instr.params["branches"]))), c.(count := c.count + 1))
  {
    hide Execute, ResolvePath, TextParam;
    ExecuteRegistered(env, reg, st, instr, c);
  }

  // ------------------------------------------------------------------------
  // Two assignments
  // ------------------------------------------------------------------------

  function Fork(first: Value, second: Value): Instruction {
    Instruction("execute_parallel",
                map["branches" := List([first, second]), "merge" := Str("force")], EmptyObject)
  }

  lemma ForkJoins(reg: Registry, st: State, first: Value, second: Value, c: Ctl)
    requires "execute_parallel" in reg && reg["execute_parallel"].Parallel? && c.Refusal().None?
    ensures Joins(reg, st, Fork(first, second), [first, second], true, true, c)
  {
    hide GetPath;
    var instr := Fork(first, second);
    assert Chooses(st, instr, "error_strategy", "fail_fast", "fail_fast");
    assert Chooses(st, instr, "merge", "last_wins", "force");
    assert ResolvePath(st, instr.params["branches"]) == List([first, second]);
  }

  /** What two branches assign to different fields is all there after the force merge, up to the
      sign of zeros, and nothing else has changed but the note on where it came from. */
  lemma BothAreMerged(env: Env, reg: Registry, st: State, a: string, b: string, v: Value, w: Value, c: Ctl)
    requires "execute_parallel" in reg && reg["execute_parallel"].Parallel?
    requires "state_set" in reg && reg["state_set"] == Leaf(StateSet)
    requires c.depth + 1 < c.maxDepth && c.count + 2 < c.maxCount
    requires SplitPath(a) == [a] && SplitPath(b) == [b] && a != b && a !in ENGINE_FIELDS && b !in ENGINE_FIELDS
    requires v.GetStr(REF) == None && w.GetStr(REF) == None
    ensures var out := Execute(env, reg, st, Fork(Assignment(a, v), Assignment(b, w)), c).out;
            out.Done? && Reads(out.st, a, v) && Reads(out.st, b, w) &&
            forall k | k !in {a, b, "__parallel_provenance__"} :: out.st.Get(k) == st.Get(k)
  {
    hide Execute, StateSet, SplitPath, NthRun, After, Joined, Joins, Fork, Assignment, Merged;
    var first, second := Assignment(a, v), Assignment(b, w);
    ForkJoins(reg, st, first, second, c);
    var results := FailFastJoins(env, reg, st, Fork(first, second), [first, second], true, c);
    BranchesAssign(env, reg, st, a, b, v, w, c);
    assert results == [st.Set(a, v), st.Set(b, w)];
    var out := Execute(env, reg, st, Fork(first, second), c).out;
    AssignedIsMerged(st, out, a, b, v, w);
  }

  ghost predicate Reads(st: State, name: string, v: Value) {
    GetPath(st, name).Some? && Comparisons.Unsigned(GetPath(st, name).value) == Comparisons.Unsigned(v)
  }

  lemma BranchesAssign(env: Env, reg: Registry, st: State, a: string, b: string, v: Value, w: Value, c: Ctl)
    requires "state_set" in reg && reg["state_set"] == Leaf(StateSet)
    requires c.depth + 1 < c.maxDepth && c.count + 2 < c.maxCount
    requires SplitPath(a) == [a] && SplitPath(b) == [b] && a !in ENGINE_FIELDS && b !in ENGINE_FIELDS
    requires v.GetStr(REF) == None && w.GetStr(REF) == None
    ensures var items := [Assignment(a, v), Assignment(b, w)];
            NthRun(env, reg, st, items, 0, c.Entered()).out == Done(st.Set(a, v)) &&
            NthRun(env, reg, st, items, 1, c.Entered()).out == Done(st.Set(b, w))
  {
    hide Execute, StateSet, SplitPath, ParseInstruction;
    var items := [Assignment(a, v), Assignment(b, w)];
    SetInstructionParses(a, v);
    SetInstructionParses(b, w);
    var d := c.Entered();
    AssignmentRuns(env, reg, st, a, v, d);
    NoneAfter(env, reg, st, items, d);
    assert After(env, reg, st, items, 1, d) == BranchRun(env, reg, st, items[0], d).ctl;
    AssignmentRuns(env, reg, st, b, w, d.(count := d.count + 1));
  }

  lemma AssignedIsMerged(st: State, out: Outcome, a: string, b: string, v: Value, w: Value)
    requires Joined(st, [st.Set(a, v), st.Set(b, w)], NO_BRANCHES, true, out)
    requires SplitPath(a) == [a] && SplitPath(b) == [b] && a != b && a !in ENGINE_FIELDS && b !in ENGINE_FIELDS
    ensures out.Done? && Reads(out.st, a, v) && Reads(out.st, b, w)
    ensures forall k | k !in {a, b, "__parallel_provenance__"} :: out.st.Get(k) == st.Get(k)
  {
    hide SplitPath, GetPath, Sourced, Comparisons.Unsigned;
    var results := [st.Set(a, v), st.Set(b, w)];
    FieldIsMerged(st, out.st, results, a, 0, v);
    FieldIsMerged(st, out.st, results, b, 1, w);
    forall k | k !in {a, b, "__parallel_provenance__"} ensures out.st.Get(k) == st.Get(k) {
      assert !AnyDiffers(st, results, k);
    }
  }

  lemma FieldIsMerged(st: State, next: State, results: seq<State>, name: string, i: nat, v: Value)
    requires Merged(st, results, next) && i < |results| && results[i] == st.Set(name, v) && name !in ENGINE_FIELDS
    requires forall j | 0 <= j < |results| && j != i :: results[j].Get(name) == st.Get(name)
    requires SplitPath(name) == [name]
    ensures Reads(next, name, v)
  {
    hide SplitPath, Sourced, Comparisons.Unsigned;
    NameIsNotEmpty(name);
    forall j | 0 <= j < |results| && j != i ensures !Differs(st, results[j], name) { }
    if Differs(st, results[i], name) {
      assert Last(st, results, name, i);
    } else {
      assert !AnyDiffers(st, results, name);
    }
    assert next.Get(name).Some?;
    var found := next.Get(name).value;
    assert [name][1..] == [] && Walk(found, []) == Some(found);
    assert GetPath(next, name) == Some(found);
  }
}
