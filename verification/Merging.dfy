/** Parallel execution: what the branches leave behind and how it is merged. */
module Merging {
  import opened Values
  import opened Store
  import opened References
  import opened Control
  import opened Machine
  import opened Engine

  // ------------------------------------------------------------------------
  // The force merge
  // ------------------------------------------------------------------------

  /** Branch `i` is the last one to change field `k`. */
  predicate WritesLast(st: State, results: seq<State>, k: string, i: nat) {
    i < |results| && Changes(st, results[i], k) && forall j | i < j < |results| :: !Changes(st, results[j], k)
  }

  lemma {:induction false} LastWriterExactly(st: State, results: seq<State>, k: string, i: nat)
    ensures WritesLast(st, results, k, i) <==> LastWriter(st, results, k) == Some(i)
    decreases |results|
  {
    if results != [] {
      var last := |results| - 1;
      if !Changes(st, results[last], k) {
        LastWriterExactly(st, results[..last], k, i);
        assert WritesLast(st, results[..last], k, i) <==> WritesLast(st, results, k, i);
      }
    }
  }

  lemma {:induction false} NoWriterExactly(st: State, results: seq<State>, k: string)
    ensures LastWriter(st, results, k).None? <==> forall i | 0 <= i < |results| :: !Changes(st, results[i], k)
    decreases |results|
  {
    if results != [] { NoWriterExactly(st, results[..|results| - 1], k); }
  }

  lemma {:induction false} AllKeysExactly(results: seq<State>, k: string)
    ensures k in AllKeys(results) <==> exists i :: 0 <= i < |results| && k in results[i].data
  {
    if results != [] {
      AllKeysExactly(results[1..], k);
      if k in AllKeys(results[1..]) {
        var i :| 0 <= i < |results[1..]| && k in results[1..][i].data;
        assert k in results[i + 1].data;
      }
      if i :| 0 <= i < |results| && k in results[i].data && i > 0 { assert k in results[1..][i - 1].data; }
    }
  }

  lemma ChangedExactly(st: State, results: seq<State>, k: string)
    ensures k in ChangedKeys(st, results) <==>
            k !in MERGE_SYSTEM_FIELDS && exists i :: 0 <= i < |results| && Changes(st, results[i], k)
  {
    AllKeysExactly(results, k);
    NoWriterExactly(st, results, k);
    if LastWriter(st, results, k).Some? {
      var i := LastWriter(st, results, k).value;
      assert Changes(st, results[i], k) && k in results[i].data;
    }
  }

  /** Field by field: a program field has the value of the last branch that changed it, and
      its initial value if none did. */
  lemma MergedField(st: State, results: seq<State>, k: string, i: nat)
    requires k !in MERGE_SYSTEM_FIELDS
    ensures WritesLast(st, results, k, i) ==> ForceMerge(st, results).Get(k) == results[i].Get(k)
    ensures (forall j | 0 <= j < |results| :: !Changes(st, results[j], k)) ==>
            ForceMerge(st, results).Get(k) == st.Get(k)
  {
    hide ChangedKeys;
    ChangedExactly(st, results, k);
    LastWriterExactly(st, results, k, i);
  }

  /** The system fields stay as they were, except for the provenance: if anything changed it
      names, for exactly the changed fields, the branch the value came from. */
  lemma MergedProvenance(st: State, results: seq<State>)
    ensures forall k | k in MERGE_SYSTEM_FIELDS && k != PROVENANCE :: ForceMerge(st, results).Get(k) == st.Get(k)
    ensures ChangedKeys(st, results) == {} ==> ForceMerge(st, results) == st
    ensures ChangedKeys(st, results) != {} ==>
              var p := ForceMerge(st, results).Get(PROVENANCE);
              p.Some? && p.value.Object? && p.value.fields.Keys == ChangedKeys(st, results) &&
              forall k, i: nat | k in p.value.fields && WritesLast(st, results, k, i) ::
                p.value.fields[k] == ProvenanceOf(i, |results|)
  {
    hide ChangedKeys, ProvenanceOf;
    forall k | k in ChangedKeys(st, results) ensures k !in MERGE_SYSTEM_FIELDS && LastWriter(st, results, k).Some? {
      ChangedExactly(st, results, k);
      NoWriterExactly(st, results, k);
    }
    forall k, i: nat | WritesLast(st, results, k, i) ensures LastWriter(st, results, k) == Some(i) {
      LastWriterExactly(st, results, k, i);
    }
  }

  /** A field that branches remove but none changes is back after the merge. */
  lemma RemovalIsNotMerged(st: State, results: seq<State>, k: string)
    requires k in st.data && k !in MERGE_SYSTEM_FIELDS && forall i | 0 <= i < |results| :: k !in results[i].data
    ensures ForceMerge(st, results).Get(k) == st.Get(k)
  {
    hide ForceMerge, ChangedKeys;
    MergedField(st, results, k, 0);
  }

  /** The fields branches changed, in whatever order the maps are enumerated. */
  method CollectChanged(st: State, results: seq<State>) returns (changed: set<string>)
    ensures changed == ChangedKeys(st, results)
  {
    changed := {};
    for i := 0 to |results|
      invariant forall k :: k in changed <==>
                  k !in MERGE_SYSTEM_FIELDS && exists j :: 0 <= j < i && Changes(st, results[j], k)
    {
      var keys := results[i].data.Keys;
      ghost var before := changed;
      while keys != {}
        invariant keys <= results[i].data.Keys
        invariant forall k :: k in changed <==>
                    k in before ||
                    (k in results[i].data.Keys - keys && k !in MERGE_SYSTEM_FIELDS && Changes(st, results[i], k))
        decreases keys
      {
        var k :| k in keys;
        if k !in MERGE_SYSTEM_FIELDS && !(k in st.data && SameValue(st.data[k], results[i].data[k])) {
          changed := changed + {k};
        }
        keys := keys - {k};
      }
    }
    forall k ensures k in changed <==> k in ChangedKeys(st, results) { ChangedExactly(st, results, k); }
  }

  /** The last branch to change `k`, found by going through all of them. */
  method FindWriter(st: State, results: seq<State>, k: string) returns (writer: Option<nat>)
    ensures writer == LastWriter(st, results, k)
  {
    writer := None;
    for i := 0 to |results|
      invariant writer == LastWriter(st, results[..i], k)
    {
      assert results[..i + 1][..i] == results[..i] && results[..i + 1][i] == results[i];
      if k in results[i].data && !(k in st.data && SameValue(st.data[k], results[i].data[k])) { writer := Some(i); }
    }
    assert results[..|results|] == results;
  }

  function ValueFrom(st: State, results: seq<State>, k: string): Value {
    match LastWriter(st, results, k) case Some(i) => results[i].data[k] case None => Null
  }

  function SourceFrom(st: State, results: seq<State>, k: string): Value {
    match LastWriter(st, results, k) case Some(i) => ProvenanceOf(i, |results|) case None => Null
  }

  function ValuesFrom(st: State, results: seq<State>, done: set<string>): Fields {
    map k | k in done :: ValueFrom(st, results, k)
  }

  function SourcesFrom(st: State, results: seq<State>, done: set<string>): Fields {
    map k | k in done :: SourceFrom(st, results, k)
  }

  /** The state with the fields `done` merged. */
  function MergedSoFar(st: State, results: seq<State>, done: set<string>): State {
    State(st.data + ValuesFrom(st, results, done), st.version + |done|)
  }

  lemma MergeOne(st: State, results: seq<State>, done: set<string>, k: string)
    requires k !in done
    ensures MergedSoFar(st, results, done + {k}) == MergedSoFar(st, results, done).Set(k, ValueFrom(st, results, k))
    ensures SourcesFrom(st, results, done + {k}) == SourcesFrom(st, results, done)[k := SourceFrom(st, results, k)]
  {
    hide ValueFrom, SourceFrom;
    assert ValuesFrom(st, results, done + {k}) == ValuesFrom(st, results, done)[k := ValueFrom(st, results, k)];
    var vals := ValuesFrom(st, results, done);
    assert st.data + vals[k := ValueFrom(st, results, k)] == (st.data + vals)[k := ValueFrom(st, results, k)];
  }

  /** The merge does not depend on the order in which the changed fields are gone through. */
  method MergeByForce(st: State, results: seq<State>) returns (merged: State)
    ensures merged == ForceMerge(st, results)
  {
    hide ProvenanceOf, MergedSoFar, SourcesFrom, ForceMerge, ChangedKeys, LastWriter;
    var changed := CollectChanged(st, results);
    merged := st;
    var sources: Fields := map[];
    var left := changed;
    assert changed - left == {};
    NothingMerged(st, results);
    while left != {}
      invariant left <= changed
      invariant merged == MergedSoFar(st, results, changed - left) &&
                sources == SourcesFrom(st, results, changed - left)
      decreases left
    {
      var k :| k in left;
      var writer := FindWriter(st, results, k);
      ChangedHasWriter(st, results, k);
      MergeOne(st, results, changed - left, k);
      merged := merged.Set(k, results[writer.value].data[k]);
      sources := sources[k := ProvenanceOf(writer.value, |results|)];
      assert changed - (left - {k}) == (changed - left) + {k};
      left := left - {k};
    }
    assert changed - left == changed;
    MergeIsComplete(st, results);
    if sources != map[] { merged := merged.Set(PROVENANCE, Object(sources)); }
  }

  lemma NothingMerged(st: State, results: seq<State>)
    ensures MergedSoFar(st, results, {}) == st && SourcesFrom(st, results, {}) == map[]
  {
    assert st.data + map[] == st.data;
  }

  lemma ChangedHasWriter(st: State, results: seq<State>, k: string)
    requires k in ChangedKeys(st, results)
    ensures LastWriter(st, results, k).Some? && k in results[LastWriter(st, results, k).value].data
  {
  }

  lemma MergeIsComplete(st: State, results: seq<State>)
    ensures var changed := ChangedKeys(st, results);
            var merged, sources := MergedSoFar(st, results, changed), SourcesFrom(st, results, changed);
            ForceMerge(st, results) == if sources == map[] then merged else merged.Set(PROVENANCE, Object(sources))
  {
    hide Changes, ProvenanceOf, ChangedKeys, LastWriter;
    var changed := ChangedKeys(st, results);
    if changed == {} {
      NothingMerged(st, results);
    } else {
      var k :| k in changed;
      assert k in SourcesFrom(st, results, changed);
      forall k | k in changed
        ensures LastWriter(st, results, k).Some? && k in results[LastWriter(st, results, k).value].data
      {
        ChangedHasWriter(st, results, k);
      }
      assert ValuesFrom(st, results, changed)
          == map k | k in changed :: results[LastWriter(st, results, k).value].data[k];
      assert SourcesFrom(st, results, changed)
          == map k | k in changed :: ProvenanceOf(LastWriter(st, results, k).value, |results|);
    }
  }

  // ------------------------------------------------------------------------
  // Branches
  // ------------------------------------------------------------------------

  ghost function BranchRun(env: Env, reg: Registry, st: State, item: Value, c: Ctl): (r: Run)
    ensures Advances(c, r.ctl)
  {
    match ParseInstruction(item)
    case Err(e) => Run(Failed(e), c)
    case Ok(instr) => Execute(env, reg, st, instr, c)
  }

  /** The shared context after the first `n` branches. */
  ghost function After(env: Env, reg: Registry, st: State, items: seq<Value>, n: nat, c: Ctl): Ctl
    requires n <= |items|
  {
    if n == 0 then c
    else BranchRun(env, reg, st, items[n - 1], After(env, reg, st, items, n - 1, c)).ctl
  }

  /** Branch `i` as it runs when every branch before it has run. */
  ghost function NthRun(env: Env, reg: Registry, st: State, items: seq<Value>, i: nat, c: Ctl): Run
    requires i < |items|
  {
    BranchRun(env, reg, st, items[i], After(env, reg, st, items, i, c))
  }

  lemma {:induction false} AfterFirst(env: Env, reg: Registry, st: State, items: seq<Value>, n: nat, c: Ctl)
    requires 0 < n <= |items|
    ensures After(env, reg, st, items, n, c) ==
            After(env, reg, st, items[1..], n - 1, BranchRun(env, reg, st, items[0], c).ctl)
  {
    hide BranchRun;
    if n > 1 {
      AfterFirst(env, reg, st, items, n - 1, c);
      assert items[1..][n - 2] == items[n - 1];
    } else {
      assert After(env, reg, st, items, 0, c) == c;
    }
  }

  lemma NthOfRest(env: Env, reg: Registry, st: State, items: seq<Value>, i: nat, c: Ctl)
    requires 0 < i < |items|
    ensures NthRun(env, reg, st, items, i, c) ==
            NthRun(env, reg, st, items[1..], i - 1, BranchRun(env, reg, st, items[0], c).ctl)
  {
    hide BranchRun, After;
    AfterFirst(env, reg, st, items, i, c);
    assert items[1..][i - 1] == items[i];
  }

  /** `n` branches succeed with the given results, and the next one, if any, does not. */
  ghost predicate SucceedsUpTo(env: Env, reg: Registry, st: State, items: seq<Value>, c: Ctl, results: seq<State>) {
    |results| <= |items| &&
    (forall i | 0 <= i < |results| :: NthRun(env, reg, st, items, i, c).out == Done(results[i])) &&
    (|results| < |items| ==> !NthRun(env, reg, st, items, |results|, c).out.Done?)
  }

  lemma FirstSucceeds(env: Env, reg: Registry, st: State, items: seq<Value>, c: Ctl, results: seq<State>)
    requires items != [] && BranchRun(env, reg, st, items[0], c).out.Done?
    requires SucceedsUpTo(env, reg, st, items[1..], BranchRun(env, reg, st, items[0], c).ctl, results)
    ensures SucceedsUpTo(env, reg, st, items, c, [BranchRun(env, reg, st, items[0], c).out.st] + results)
  {
    hide BranchRun, After, NthRun;
    var r := BranchRun(env, reg, st, items[0], c);
    var all := [r.out.st] + results;
    forall i | 0 < i < |items|
      ensures NthRun(env, reg, st, items, i, c) == NthRun(env, reg, st, items[1..], i - 1, r.ctl)
    {
      NthOfRest(env, reg, st, items, i, c);
    }
    NthOfFirst(env, reg, st, items, c);
    forall i | 0 <= i < |all| ensures NthRun(env, reg, st, items, i, c).out == Done(all[i]) {
      if i > 0 { assert all[i] == results[i - 1]; }
    }
  }

  lemma NthOfFirst(env: Env, reg: Registry, st: State, items: seq<Value>, c: Ctl)
    requires items != []
    ensures NthRun(env, reg, st, items, 0, c) == BranchRun(env, reg, st, items[0], c)
  {
    hide BranchRun;
    assert After(env, reg, st, items, 0, c) == c;
  }

  lemma {:induction false} FailFastCollects(env: Env, reg: Registry, st: State, items: seq<Value>, b: Branches)
    returns (results: seq<State>)
    requires !b.diverged && b.lastError == None
    ensures var r := RunBranches(env, reg, st, items, true, b);
            r.results == b.results + results && SucceedsUpTo(env, reg, st, items, b.ctl, results) &&
            (|results| == |items| ==> r.lastError == None && !r.diverged) &&
            (|results| < |items| ==>
               match NthRun(env, reg, st, items, |results|, b.ctl).out
               case Failed(e) => r.lastError == Some(e) && !r.diverged
               case _ => r.diverged)
    decreases |items|
  {
    hide After, Execute, NthRun, ParseInstruction;
    results := [];
    if items != [] {
      NthOfFirst(env, reg, st, items, b.ctl);
      var r := BranchRun(env, reg, st, items[0], b.ctl);
      if r.out.Done? {
        var next := b.(results := b.results + [r.out.st], ctl := r.ctl);
        assert RunBranches(env, reg, st, items, true, b) == RunBranches(env, reg, st, items[1..], true, next);
        var rest := FailFastCollects(env, reg, st, items[1..], next);
        FirstSucceeds(env, reg, st, items, b.ctl, rest);
        if |rest| < |items| - 1 { NthOfRest(env, reg, st, items, |rest| + 1, b.ctl); }
        results := [r.out.st] + rest;
        assert b.results + [r.out.st] + rest == b.results + results;
      }
    }
  }

  /** Under "fail_fast" the results are those of the branches before the first that fails. */
  lemma FailFastKeepsPrefix(env: Env, reg: Registry, st: State, items: seq<Value>, c: Ctl)
    ensures SucceedsUpTo(env, reg, st, items, c,
            RunBranches(env, reg, st, items, true, Branches([], None, false, c)).results)
  {
    hide SucceedsUpTo, RunBranches;
    var start := Branches([], None, false, c);
    var results := FailFastCollects(env, reg, st, items, start);
    assert start.results + results == results;
  }

  /** The results of those of the first `n` branches that succeed, in order. */
  ghost function Successes(env: Env, reg: Registry, st: State, items: seq<Value>, n: nat, c: Ctl): seq<State>
    requires n <= |items|
  {
    if n == 0 then []
    else
      var r := NthRun(env, reg, st, items, n - 1, c);
      Successes(env, reg, st, items, n - 1, c) + if r.out.Done? then [r.out.st] else []
  }

  lemma {:induction false} SuccessesFirst(env: Env, reg: Registry, st: State, items: seq<Value>, n: nat, c: Ctl)
    requires 0 < n <= |items|
    ensures var r := BranchRun(env, reg, st, items[0], c);
            Successes(env, reg, st, items, n, c)
              == (if r.out.Done? then [r.out.st] else []) + Successes(env, reg, st, items[1..], n - 1, r.ctl)
  {
    hide BranchRun, NthRun, After;
    NthOfFirst(env, reg, st, items, c);
    if n > 1 {
      SuccessesFirst(env, reg, st, items, n - 1, c);
      NthOfRest(env, reg, st, items, n - 1, c);
    } else {
      assert Successes(env, reg, st, items, 0, c) == [];
    }
  }

  lemma {:induction false} ContinueCollects(env: Env, reg: Registry, st: State, items: seq<Value>, b: Branches)
    requires !b.diverged && !RunBranches(env, reg, st, items, false, b).diverged
    ensures RunBranches(env, reg, st, items, false, b).results ==
            b.results + Successes(env, reg, st, items, |items|, b.ctl)
    decreases |items|
  {
    hide After, Execute, NthRun, ParseInstruction, Successes;
    if items == [] {
      assert Successes(env, reg, st, items, 0, b.ctl) == [] by { NoSuccesses(env, reg, st, items, b.ctl); }
    } else {
      var r := BranchRun(env, reg, st, items[0], b.ctl);
      SuccessesFirst(env, reg, st, items, |items|, b.ctl);
      match r.out
      case Done(s) => ContinueCollects(env, reg, st, items[1..], b.(results := b.results + [s], ctl := r.ctl));
      case Failed(e) => ContinueCollects(env, reg, st, items[1..], b.(lastError := Some(e), ctl := r.ctl));
      case Diverged =>
    }
  }

  lemma NoSuccesses(env: Env, reg: Registry, st: State, items: seq<Value>, c: Ctl)
    ensures Successes(env, reg, st, items, 0, c) == []
  {
  }

  /** Under "continue" the results are those of all branches that succeed. */
  lemma ContinueKeepsSuccesses(env: Env, reg: Registry, st: State, items: seq<Value>, c: Ctl)
    requires !RunBranches(env, reg, st, items, false, Branches([], None, false, c)).diverged
    ensures RunBranches(env, reg, st, items, false, Branches([], None, false, c)).results
         == Successes(env, reg, st, items, |items|, c)
  {
    hide RunBranches, Successes;
    var start := Branches([], None, false, c);
    ContinueCollects(env, reg, st, items, start);
    assert start.results + Successes(env, reg, st, items, |items|, c) == Successes(env, reg, st, items, |items|, c);
  }

  /** The branches an instruction names and how it treats their errors. */
  predicate Forks(st: State, instr: Instruction, items: seq<Value>, failFast: bool) {
    instr.Param("branches").Some? && ResolvePath(st, instr.params["branches"]) == List(items) &&
    failFast == (TextParam(st, instr, "error_strategy", "fail_fast") == "fail_fast")
  }

  /** Under "fail_fast" parallel execution fails exactly when it has no branch or its first
      branch fails: a later failure does not make it fail. */
  lemma FailFastFailsExactly(env: Env, reg: Registry, st: State, instr: Instruction, items: seq<Value>, c: Ctl)
    requires Forks(st, instr, items, true)
    ensures RunParallel(env, reg, st, instr, c).out.Failed? <==>
            items == [] || BranchRun(env, reg, st, items[0], c).out.Failed?
  {
    hide RunBranches, NthRun, TextParam, ForceMerge, BranchRun, ResolvePath;
    var start := Branches([], None, false, c);
    var b := RunBranches(env, reg, st, items, true, start);
    var results := FailFastCollects(env, reg, st, items, start);
    assert start.results + results == results;
    if items != [] { NthOfFirst(env, reg, st, items, c); }
  }

  lemma {:induction false} ContinueDiverges(env: Env, reg: Registry, st: State, items: seq<Value>, b: Branches)
    requires !b.diverged
    ensures RunBranches(env, reg, st, items, false, b).diverged <==>
            exists i :: 0 <= i < |items| && NthRun(env, reg, st, items, i, b.ctl).out.Diverged?
    decreases |items|
  {
    hide After, Execute, NthRun, ParseInstruction;
    if items != [] {
      var r := BranchRun(env, reg, st, items[0], b.ctl);
      NthOfFirst(env, reg, st, items, b.ctl);
      forall i | 0 < i < |items|
        ensures NthRun(env, reg, st, items, i, b.ctl) == NthRun(env, reg, st, items[1..], i - 1, r.ctl)
      {
        NthOfRest(env, reg, st, items, i, b.ctl);
      }
      if r.out.Diverged? {
        assert NthRun(env, reg, st, items, 0, b.ctl).out.Diverged?;
      } else {
        var next := if r.out.Done? then b.(results := b.results + [r.out.st], ctl := r.ctl)
                    else b.(lastError := Some(r.out.error), ctl := r.ctl);
        ContinueDiverges(env, reg, st, items[1..], next);
        if i: nat :| i < |items| && NthRun(env, reg, st, items, i, b.ctl).out.Diverged? {
          assert NthRun(env, reg, st, items[1..], i - 1, r.ctl).out.Diverged?;
        }
        if i: nat :| i < |items[1..]| && NthRun(env, reg, st, items[1..], i, r.ctl).out.Diverged? {
          assert NthRun(env, reg, st, items, i + 1, b.ctl).out.Diverged?;
        }
      }
    }
  }

  lemma {:induction false} NoSuccessExactly(env: Env, reg: Registry, st: State, items: seq<Value>, n: nat, c: Ctl)
    requires n <= |items|
    ensures Successes(env, reg, st, items, n, c) == [] <==>
            forall i | 0 <= i < n :: !NthRun(env, reg, st, items, i, c).out.Done?
    decreases n
  {
    hide NthRun;
    if n > 0 { NoSuccessExactly(env, reg, st, items, n - 1, c); }
  }

  /** Under "continue" parallel execution fails exactly when every branch fails, each as it
      runs after those before it. */
  lemma ContinueFailsExactly(env: Env, reg: Registry, st: State, instr: Instruction, items: seq<Value>, c: Ctl)
    requires Forks(st, instr, items, false)
    ensures RunParallel(env, reg, st, instr, c).out.Failed? <==>
            forall i | 0 <= i < |items| :: NthRun(env, reg, st, items, i, c).out.Failed?
  {
    hide RunBranches, NthRun, TextParam, ForceMerge, ResolvePath, Successes;
    var start := Branches([], None, false, c);
    ContinueDiverges(env, reg, st, items, start);
    NoSuccessExactly(env, reg, st, items, |items|, c);
    if !RunBranches(env, reg, st, items, false, start).diverged { ContinueKeepsSuccesses(env, reg, st, items, c); }
  }

  /** Without the force merge the state of the last successful branch is the result: of the
      last before the first failure, or of the last of all. */
  lemma LastBranchWins(env: Env, reg: Registry, st: State, instr: Instruction, items: seq<Value>, failFast: bool,
                       c: Ctl)
    requires Forks(st, instr, items, failFast) && TextParam(st, instr, "merge", "last_wins") != "force"
    requires RunParallel(env, reg, st, instr, c).out.Done?
    ensures exists results :: WinsLast(env, reg, st, instr, items, failFast, c, results)
  {
    hide RunBranches, RunParallel, MergeBranches, NthRun, TextParam, BranchRun, ResolvePath, SucceedsUpTo, Successes;
    var b := RunBranches(env, reg, st, items, failFast, Branches([], None, false, c));
    ParallelMerges(env, reg, st, instr, items, failFast, c);
    LastOfResults(st, instr, b);
    if failFast {
      FailFastKeepsPrefix(env, reg, st, items, c);
    } else {
      ContinueKeepsSuccesses(env, reg, st, items, c);
    }
    assert WinsLast(env, reg, st, instr, items, failFast, c, b.results);
  }

  /** The last of `results`, which are those before the first failure or all successful ones,
      is what the call returns. */
  ghost predicate WinsLast(env: Env, reg: Registry, st: State, instr: Instruction, items: seq<Value>, failFast: bool,
                           c: Ctl, results: seq<State>) {
    results != [] && RunParallel(env, reg, st, instr, c).out == Done(results[|results| - 1]) &&
    if failFast then SucceedsUpTo(env, reg, st, items, c, results)
    else results == Successes(env, reg, st, items, |items|, c)
  }

  lemma ParallelMerges(env: Env, reg: Registry, st: State, instr: Instruction, items: seq<Value>, failFast: bool,
                       c: Ctl)
    requires Forks(st, instr, items, failFast)
    ensures RunParallel(env, reg, st, instr, c)
         == MergeBranches(st, instr, RunBranches(env, reg, st, items, failFast, Branches([], None, false, c)))
  {
    hide RunBranches, MergeBranches, TextParam, ResolvePath;
  }

  lemma LastOfResults(st: State, instr: Instruction, b: Branches)
    requires MergeBranches(st, instr, b).out.Done? && TextParam(st, instr, "merge", "last_wins") != "force"
    ensures b.results != [] && MergeBranches(st, instr, b).out == Done(b.results[|b.results| - 1]) && !b.diverged
  {
    hide TextParam, ForceMerge;
  }
}
