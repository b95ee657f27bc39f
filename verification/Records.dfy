/** What one trace step records: every field of the record and of the chain, and that no two
    records share an identifier or a nonce.
 */
module Records {
  import opened Values
  import opened Store
  import opened Encoding
  import opened Control
  import opened Audit
  import opened Machine
  import opened Engine
  import opened Steps
  import Decoding

  /** The type of the current instruction, if it is a text. */
  function CurrentName(st: State): Option<string> {
    match ExecField(st, "instruction")
    case Some(Object(m)) => if "type" in m && m["type"].Str? then Some(m["type"].s) else None
    case _ => None
  }

  /** The tag of the dispatch table, if there is one and it is a text. */
  function TableTag(st: State): Option<string> {
    match ExecField(st, "dispatch_table_version") case Some(Str(v)) => Some(v) case _ => None
  }

  /** A text among the parameters, or else `default`. */
  function Given(instr: Instruction, key: string, default: string): string {
    if key in instr.params && instr.params[key].Str? then instr.params[key].s else default
  }

  /** A label that is the current type itself stands alone; any other has that type in brackets
      before it, if there is one, and the table's tag behind it, if there is one. */
  function Summary(st: State, step: string): string {
    if CurrentName(st) == Some(step) then step
    else
      var front := if CurrentName(st).Some? then "[" + CurrentName(st).value + "] " else "";
      var back := if TableTag(st).Some? then " @" + TableTag(st).value else "";
      front + step + back
  }

  /** The record of a trace step taken at `tick`, but for the two hashes of the business fields. */
  ghost predicate Describes(env: Env, st: State, instr: Instruction, tick: nat, r: AuditRecord) {
    var current := if CurrentName(st).Some? then CurrentName(st).value else "unknown";
    r.ruleId == Given(instr, "rule_id", current) && r.timestamp == AsI64(tick) &&
    r.changeSummary == Some(Summary(st, Given(instr, "label", "step"))) &&
    r.executionResult == Success && r.errorMessage == None && r.version == 3 &&
    r.previousHash == ChainIn(st).latestHash &&
    r.id == env.digests.sha256(EncodeAll([Str(r.previousHash), Integer(AsI64(tick))])) &&
    r.nonce == env.digests.hmac(Utf8("evorule-audit-chain-v2"), Utf8(r.previousHash) + WordLE(AsU64(tick))) &&
    r.hash == env.digests.hmac(Utf8("evorule-audit-chain-v2"), SignedBytes(r))
  }

  /** The chain with `r` behind it: the first record is its root and sets its time of creation,
      every record its time of update; clock and version of the chain stay. */
  predicate Lengthens(c: AuditChain, r: AuditRecord, e: AuditChain) {
    e.records == c.records + [r] && e.latestHash == r.hash && e.updatedAt == r.timestamp &&
    (if c.records == [] then e.rootHash == r.hash && e.createdAt == r.timestamp
     else e.rootHash == c.rootHash && e.createdAt == c.createdAt) &&
    e.logicalTick == c.logicalTick && e.version == c.version
  }

  lemma TraceIsDescribed(env: Env, st: State, instr: Instruction, tick: nat)
    ensures var e := TracedChain(env, st, instr, tick);
            e.records != [] && var r := e.records[|e.records| - 1];
            Describes(env, st, instr, tick, r) && Lengthens(ChainIn(st), r, e) &&
            r.beforeHash == TraceHashes(env, st).0 && r.afterHash == TraceHashes(env, st).1
  {
    hide ParseChain, TraceHashes, SignedBytes, AsI64, AsU64, EncodeAll, WordLE, Utf8, TraceSummary, Summary, ExecField,
         CurrentName, CurrentTypeName;
    CurrentIsNamed(st);
    SummaryIsAsWritten(st, Given(instr, "label", "step"));
    var e := TracedChain(env, st, instr, tick);
    var r := e.records[|e.records| - 1];
    HashIsNotSigned(env.digests, r, "");
    GivenIsText(instr, "rule_id");
    GivenIsText(instr, "label");
  }

  lemma GivenIsText(instr: Instruction, key: string)
    ensures forall d :: TextOr(Object(instr.params).GetStr(key), d) == Given(instr, key, d)
  {
  }

  lemma CurrentIsNamed(st: State)
    ensures CurrentTypeName(st) == CurrentName(st)
  {
  }

  lemma SummaryIsAsWritten(st: State, step: string)
    ensures TraceSummary(CurrentTypeName(st), TableTag(st), step) == Summary(st, step)
  {
    hide ExecField;
    CurrentIsNamed(st);
    assert "" + step == step;
  }

  /** What a trace step leaves: with auditing off the state as it was; otherwise the chain with
      its record behind it, and nothing else. */
  ghost predicate Traced(env: Env, st: State, instr: Instruction, tick: nat, next: State) {
    if ExecField(st, "audit_on") == Some(Bool(false)) then next == st
    else
      var e := ChainIn(next);
      next.data - {AUDIT_CHAIN} == st.data - {AUDIT_CHAIN} && e.records != [] &&
      var r := e.records[|e.records| - 1];
      Describes(env, st, instr, tick, r) && Lengthens(ChainIn(st), r, e) &&
      r.beforeHash == TraceHashes(env, st).0 && r.afterHash == TraceHashes(env, st).1
  }

  /** The clock moves only for a record. */
  ghost predicate TracesOnce(env: Env, st: State, instr: Instruction, c: Ctl, r: Run) {
    r.out.Done? && Traced(env, st, instr, c.tick, r.out.st) &&
    r.ctl == c.(count := c.count + 1,
                tick := if ExecField(st, "audit_on") == Some(Bool(false)) then c.tick else c.tick + 1)
  }

  /** A trace step records itself while auditing is on, which it is unless it is switched off. */
  lemma TraceStepRuns(env: Env, reg: Registry, st: State, instr: Instruction, c: Ctl)
    requires instr.kind in reg && reg[instr.kind].TraceStep? && c.Refusal().None?
    ensures TracesOnce(env, st, instr, c, Execute(env, reg, st, instr, c))
  {
    hide Execute, TracedChain, ExecOf, ParseChain, ChainToValue, Describes, Lengthens, TraceHashes, PutChain;
    ExecuteRegistered(env, reg, st, instr, c);
    AuditIsDefault(st);
    TraceIsDescribed(env, st, instr, c.tick);
    ChainIsPut(st, TracedChain(env, st, instr, c.tick));
  }

  lemma AuditIsDefault(st: State)
    ensures ExecOf(st).auditOn <==> ExecField(st, "audit_on") != Some(Bool(false))
  {
  }

  lemma ChainIsPut(st: State, e: AuditChain)
    ensures ChainIn(PutChain(st, e)) == e && PutChain(st, e).data - {AUDIT_CHAIN} == st.data - {AUDIT_CHAIN}
  {
    hide ParseChain, ChainToValue;
    ChainRoundTrip(e);
  }

  /** Without a chain, or with something in its place that is none, the first record begins one:
      no records, 64 zeros for both hashes, and all clocks at zero. */
  lemma NoChainIsEmpty(st: State)
    requires ChainOf(st) == None
    ensures var c := ChainIn(st);
            c.records == [] && c.rootHash == c.latestHash && |c.latestHash| == 64 &&
            (forall i | 0 <= i < 64 :: c.latestHash[i] == '0') &&
            c.createdAt == 0 && c.updatedAt == 0 && c.logicalTick == 0 && c.version == 3
  {
    ZerosAreZeros(64);
  }

  lemma {:induction false} ZerosAreZeros(n: nat)
    ensures |Zeros(n)| == n && forall i | 0 <= i < n :: Zeros(n)[i] == '0'
  {
    if n > 0 { ZerosAreZeros(n - 1); }
  }

  // ------------------------------------------------------------------------
  // Identifiers and nonces
  // ------------------------------------------------------------------------

  ghost predicate ContentsDiffer(d: Digests) {
    forall a, b | d.sha256(a) == d.sha256(b) :: a == b
  }

  /** Without collisions a record's identifier and its nonce each tell the hash it links to and
      its time. */
  lemma PositionIsIdentified(d: Digests, p: string, q: string, s: U64, t: U64)
    requires ContentsDiffer(d) && CollisionFree(d) && TextFits(p) && TextFits(q)
    ensures DeriveId(d, p, s) == DeriveId(d, q, t) <==> p == q && s == t
    ensures DeriveNonce(d, p, s) == DeriveNonce(d, q, t) <==> p == q && s == t
  {
    hide DeriveId, DeriveNonce, Utf8, ContentsDiffer, CollisionFree;
    if DeriveId(d, p, s) == DeriveId(d, q, t) { SameId(d, p, q, s, t); }
    if DeriveNonce(d, p, s) == DeriveNonce(d, q, t) { SameNonce(d, p, q, s, t); }
  }

  lemma SameId(d: Digests, p: string, q: string, s: U64, t: U64)
    requires ContentsDiffer(d) && TextFits(p) && TextFits(q) && DeriveId(d, p, s) == DeriveId(d, q, t)
    ensures p == q && s == t
  {
    hide EncodeAll, AsI64, Utf8;
    var a, b := [Str(p), Integer(AsI64(s))], [Str(q), Integer(AsI64(t))];
    ContentsAreRead(a, b);
    assert a[0] == b[0] && a[1] == b[1];
    CastsRoundTrip(s, 0);
    CastsRoundTrip(t, 0);
  }

  lemma SameNonce(d: Digests, p: string, q: string, s: U64, t: U64)
    requires CollisionFree(d) && DeriveNonce(d, p, s) == DeriveNonce(d, q, t)
    ensures p == q && s == t
  {
    hide AsU64, WordLE, Utf8;
    var a, b := Utf8(p) + WordLE(AsU64(s)), Utf8(q) + WordLE(AsU64(t));
    assert d.hmac(HMAC_KEY, a) == d.hmac(HMAC_KEY, b);
    assert a == b;
    SplitEqual(Utf8(p), Utf8(q), WordLE(AsU64(s)), WordLE(AsU64(t)));
    WordsAreInjective(AsU64(s), AsU64(t));
    Utf8IsInjective(p, q);
  }

  lemma ContentsAreRead(a: seq<Value>, b: seq<Value>)
    requires EncodeAll(a) == EncodeAll(b)
    requires forall v | v in a + b :: NestsWithin(v, 128) && LengthsFit(v)
    ensures a == b
  {
    Decoding.ContentIsRead(a);
    Decoding.ContentIsRead(b);
  }
}
