/** What trace steps record about dispatches. */
module Traces {
  import opened Values
  import opened Store
  import opened References
  import opened Control
  import opened Audit
  import opened Machine
  import opened Engine
  import opened Steps
  import ExecContext

  // ------------------------------------------------------------------------
  // Hashes around a dispatch
  // ------------------------------------------------------------------------

  lemma PutExecIsQuiet(st: State, c: ExecContext.Context)
    ensures ExecOf(PutExec(st, c)) == c && Business(PutExec(st, c)) == Business(st)
    ensures PutExec(st, c).Get(AUDIT_CHAIN) == st.Get(AUDIT_CHAIN)
    ensures ExecField(PutExec(st, c), "last_dispatch_hashes") == Some(c.dispatchHashes)
    ensures PutExec(st, c).BusinessSnapshot() == st.BusinessSnapshot()
  {
    hide ExecContext.Parse, ExecContext.ToValue;
    ExecContext.RoundTrip(c);
    ExecContext.DispatchFields(c);
    var system := {EXEC, AUDIT_CHAIN, AUDIT_TRACE, PROVENANCE};
    assert PutExec(st, c).data - system == st.data - system;
  }

  lemma PutChainIsRead(st: State, c: AuditChain)
    ensures ChainIn(PutChain(st, c)) == c
  {
    hide ParseChain, ChainToValue;
    ChainRoundTrip(c);
  }

  /** The trace step after a dispatch records the hashes of the business state before and
      after the case, links to the chain so far and carries the clock's time; the dispatch
      itself changes no business field beyond its case. */
  lemma DispatchIsRecorded(env: Env, before: State, after: State, tag: string, trace: Instruction, tick: nat)
    ensures var st := FinishDispatch(env, before, after, tag);
            var chain := TracedChain(env, st, trace, tick);
            Business(st) == Business(after) && StateHash(env, st) == StateHash(env, after) &&
            ChainIn(st) == ChainIn(after) && |chain.records| == |ChainIn(after).records| + 1 &&
            var r := chain.records[|chain.records| - 1];
            r.beforeHash == StateHash(env, before) && r.afterHash == StateHash(env, after) &&
            r.previousHash == ChainIn(after).latestHash && r.timestamp == AsI64(tick) && Verifies(env.digests, r) &&
            chain.latestHash == r.hash
  {
    hide ExecOf, PutExec, ExecField, Business, ParseChain, State.BusinessSnapshot, ContentHash;
    var hashes := Object(map[
      "before_hash" := Str(StateHash(env, before)),
      "after_hash" := Str(StateHash(env, after)),
      "case_key" := Str(tag)]);
    PutExecIsQuiet(after, ExecOf(after).(dispatchHashes := hashes));
    var noted := SetHashes(after, hashes);
    var queue := QueueOf(ExecOf(noted)) + [AdvanceInQueue];
    PutExecIsQuiet(noted, ExecOf(noted).(queue := List(queue)));
    var st := FinishDispatch(env, before, after, tag);
    assert ExecField(st, "last_dispatch_hashes") == Some(hashes);
    HashesAreRead(env, st, StateHash(env, before), StateHash(env, after), tag);
    RecordIsAppended(env, st, trace, tick);
  }

  lemma HashesAreRead(env: Env, st: State, before: string, after: string, tag: string)
    requires ExecField(st, "last_dispatch_hashes")
          == Some(Object(map["before_hash" := Str(before), "after_hash" := Str(after), "case_key" := Str(tag)]))
    ensures TraceHashes(env, st) == (before, after)
  {
    hide ExecField, ContentHash;
  }

  lemma RecordIsAppended(env: Env, st: State, trace: Instruction, tick: nat)
    ensures var chain := TracedChain(env, st, trace, tick);
            |chain.records| == |ChainIn(st).records| + 1 &&
            chain.records[..|ChainIn(st).records|] == ChainIn(st).records &&
            var r := chain.records[|chain.records| - 1];
            r.beforeHash == TraceHashes(env, st).0 && r.afterHash == TraceHashes(env, st).1 &&
            r.previousHash == ChainIn(st).latestHash && r.timestamp == AsI64(tick) && Verifies(env.digests, r) &&
            chain.latestHash == r.hash
  {
    hide TraceHashes, TraceSummary, CurrentTypeName, ExecField, ParseChain, DeriveId, DeriveNonce;
  }

  /** Where nothing was dispatched yet the state as it is gets hashed, but only as long as
      `__exec__` has not been rewritten; from then on both hashes are empty. */
  lemma UndispatchedHashes(env: Env, st: State, source: string)
    requires ExecField(st, "last_dispatch_hashes").None?
    ensures TraceHashes(env, st).0 == ContentHash(env.digests, [Object(st.data - {EXEC, AUDIT_CHAIN, PROVENANCE})])
    ensures TraceHashes(env, SetSource(st, source)) == ("", "")
  {
    hide ExecOf, PutExec, ContentHash, ExecField;
    var c := ExecOf(st).(traceSource := Str(source));
    PutExecIsQuiet(st, c);
    NoHashesParsed(st);
  }

  lemma NoHashesParsed(st: State)
    requires ExecField(st, "last_dispatch_hashes").None?
    ensures ExecOf(st).dispatchHashes == Null
  {
  }

  // ------------------------------------------------------------------------
  // The limit of the loop
  // ------------------------------------------------------------------------

  /** A limit from 1 to 100000 is taken as it is and a larger one cut off there; a negative one
      is cast to an unsigned word and is no limit to speak of. */
  lemma LimitAsGiven(instr: Instruction, n: I64)
    requires instr.Param("max_steps") == Some(Integer(n))
    ensures 0 <= n <= 100000 ==> MaxSteps(instr) == n
    ensures n > 100000 ==> MaxSteps(instr) == 100000
    ensures n < 0 ==> MaxSteps(instr) >= 0x8000_0000_0000_0000
  {
  }

  /** Without a limit, or with one that is no integer, the limit is 10000. */
  lemma LimitByDefault(instr: Instruction)
    requires "max_steps" in instr.params ==> !instr.params["max_steps"].Integer?
    ensures MaxSteps(instr) == 10000
  {
    assert Object(instr.params).GetInteger("max_steps") == None;
  }
}
