/** The audit chain: records signed over an injective byte encoding, each linked to the hash
    of its predecessor.

    SHA-256 (FIPS 180-4) and HMAC (RFC 2104) are uninterpreted functions here; that they
    have no collisions is a hypothesis where it is needed.
    Main results: a chain is determined, record by record and field by field, by its last
    hash (`LatestHashDeterminesChain`); appending keeps a chain well formed; and a chain
    survives the value form it is stored in.
 */
module Audit {
  import opened Values
  import opened Encoding

  /** The hexadecimal digests. */
  datatype Digests = Digests(sha256: seq<Byte> -> string, hmac: (seq<Byte>, seq<Byte>) -> string)

  function ContentHash(d: Digests, values: seq<Value>): string {
    d.sha256(EncodeAll(values))
  }

  const HMAC_KEY: seq<Byte> := Utf8("evorule-audit-chain-v2")

  /** The previous hash of a first record: 64 zeros. */
  const GENESIS: string := Zeros(64)

  function Zeros(n: nat): string {
    if n == 0 then "" else Zeros(n - 1) + "0"
  }

  datatype ExecutionResult = Success | Failure | Skipped

  datatype AuditRecord = AuditRecord(
    id: string,
    ruleId: string,
    timestamp: I64,
    beforeHash: string,
    afterHash: string,
    changeSummary: Option<string>,
    executionResult: ExecutionResult,
    errorMessage: Option<string>,
    hash: string,
    previousHash: string,
    nonce: string,
    version: U32)

  const CURRENT_VERSION: U32 := 3

  // ------------------------------------------------------------------------
  // The signed bytes
  // ------------------------------------------------------------------------

  function TextBytes(s: string): seq<Byte> {
    LengthPrefixed(Utf8(s))
  }

  function OptionBytes(s: Option<string>): seq<Byte> {
    match s case Some(t) => [1] + TextBytes(t) case None => [0]
  }

  function ResultByte(r: ExecutionResult): Byte {
    match r case Success => 0 case Failure => 1 case Skipped => 2
  }

  function SignedOutcome(r: AuditRecord): seq<Byte> {
    [ResultByte(r.executionResult)] +
    (OptionBytes(r.changeSummary) + (OptionBytes(r.errorMessage) + LittleEndian(r.version, 4)))
  }

  /** The eleven signed fields, in the order in which they are fed to the MAC. */
  function SignedBytes(r: AuditRecord): seq<Byte> {
    TextBytes(r.id) + (TextBytes(r.nonce) + (TextBytes(r.ruleId) + (WordLE(AsU64(r.timestamp)) +
    (TextBytes(r.beforeHash) + (TextBytes(r.afterHash) + (TextBytes(r.previousHash) + SignedOutcome(r)))))))
  }

  function ComputeHash(d: Digests, r: AuditRecord): string {
    d.hmac(HMAC_KEY, SignedBytes(r))
  }

  lemma Feed(mac: seq<Byte>, chunk: seq<Byte>, rest: seq<Byte>)
    ensures mac + (chunk + rest) == mac + chunk + rest
  {
  }

  /** The hash as the code streams it into the MAC, update by update. */
  method StreamHash(d: Digests, r: AuditRecord) returns (hash: string)
    ensures hash == ComputeHash(d, r)
  {
    hide TextBytes, OptionBytes, WordLE, LittleEndian;
    ghost var r10 := LittleEndian(r.version, 4);
    ghost var r9 := OptionBytes(r.errorMessage) + r10;
    ghost var r8 := OptionBytes(r.changeSummary) + r9;
    ghost var r7 := SignedOutcome(r);
    ghost var r6 := TextBytes(r.previousHash) + r7;
    ghost var r5 := TextBytes(r.afterHash) + r6;
    ghost var r4 := TextBytes(r.beforeHash) + r5;
    ghost var r3 := WordLE(AsU64(r.timestamp)) + r4;
    ghost var r2 := TextBytes(r.ruleId) + r3;
    ghost var r1 := TextBytes(r.nonce) + r2;

    var mac := TextBytes(r.id);
    Feed(mac, TextBytes(r.nonce), r2);
    mac := mac + TextBytes(r.nonce);
    Feed(mac, TextBytes(r.ruleId), r3);
    mac := mac + TextBytes(r.ruleId);
    Feed(mac, WordLE(AsU64(r.timestamp)), r4);
    mac := mac + WordLE(AsU64(r.timestamp));
    Feed(mac, TextBytes(r.beforeHash), r5);
    mac := mac + TextBytes(r.beforeHash);
    Feed(mac, TextBytes(r.afterHash), r6);
    mac := mac + TextBytes(r.afterHash);
    Feed(mac, TextBytes(r.previousHash), r7);
    mac := mac + TextBytes(r.previousHash);
    Feed(mac, [ResultByte(r.executionResult)], r8);
    mac := mac + [ResultByte(r.executionResult)];
    Feed(mac, OptionBytes(r.changeSummary), r9);
    mac := mac + OptionBytes(r.changeSummary);
    Feed(mac, OptionBytes(r.errorMessage), r10);
    mac := mac + OptionBytes(r.errorMessage);
    mac := mac + LittleEndian(r.version, 4);
    hash := d.hmac(HMAC_KEY, mac);
  }

  predicate TextFits(s: string) {
    |Utf8(s)| < WORD_LIMIT
  }

  predicate OptionFits(s: Option<string>) {
    s.Some? ==> TextFits(s.value)
  }

  /** Every text of the record has a length that fits a 64-bit word, as in memory. */
  predicate RecordFits(r: AuditRecord) {
    TextFits(r.id) && TextFits(r.nonce) && TextFits(r.ruleId) && TextFits(r.beforeHash) &&
    TextFits(r.afterHash) && TextFits(r.previousHash) &&
    OptionFits(r.changeSummary) && OptionFits(r.errorMessage)
  }

  predicate AllFit(records: seq<AuditRecord>) {
    forall i | 0 <= i < |records| :: RecordFits(records[i])
  }

  lemma TextIsPrefixFree(s: string, t: string, x: seq<Byte>, y: seq<Byte>)
    requires TextFits(s) && TextFits(t) && TextBytes(s) + x == TextBytes(t) + y
    ensures s == t && x == y
  {
    LengthPrefixIsPrefixFree(Utf8(s), Utf8(t), x, y);
    Utf8IsInjective(s, t);
  }

  lemma OptionIsPrefixFree(s: Option<string>, t: Option<string>, x: seq<Byte>, y: seq<Byte>)
    requires OptionFits(s) && OptionFits(t) && OptionBytes(s) + x == OptionBytes(t) + y
    ensures s == t && x == y
  {
    assert OptionBytes(s)[0] == (OptionBytes(s) + x)[0] && OptionBytes(t)[0] == (OptionBytes(t) + y)[0];
    if s.Some? {
      DropTag(1, TextBytes(s.value), TextBytes(t.value), x, y);
      TextIsPrefixFree(s.value, t.value, x, y);
    } else {
      SplitEqual([0], [0], x, y);
    }
  }

  lemma OutcomeIsInjective(r: AuditRecord, q: AuditRecord)
    requires RecordFits(r) && RecordFits(q) && SignedOutcome(r) == SignedOutcome(q)
    ensures r.executionResult == q.executionResult && r.changeSummary == q.changeSummary
    ensures r.errorMessage == q.errorMessage && r.version == q.version
  {
    var tailR := OptionBytes(r.errorMessage) + LittleEndian(r.version, 4);
    var tailQ := OptionBytes(q.errorMessage) + LittleEndian(q.version, 4);
    SplitEqual([ResultByte(r.executionResult)], [ResultByte(q.executionResult)],
               OptionBytes(r.changeSummary) + tailR, OptionBytes(q.changeSummary) + tailQ);
    assert [ResultByte(r.executionResult)][0] == [ResultByte(q.executionResult)][0];
    OptionIsPrefixFree(r.changeSummary, q.changeSummary, tailR, tailQ);
    OptionIsPrefixFree(r.errorMessage, q.errorMessage, LittleEndian(r.version, 4), LittleEndian(q.version, 4));
    assert Capacity(4) == 0x1_0000_0000;
    LittleEndianIsInjective(r.version, q.version, 4);
  }

  /** Equal signed bytes mean equal fields: all of them but the hash itself. */
  lemma SignedBytesAreInjective(r: AuditRecord, q: AuditRecord)
    requires RecordFits(r) && RecordFits(q) && SignedBytes(r) == SignedBytes(q)
    ensures r.(hash := q.hash) == q
  {
    hide WordLE, TextBytes, SignedOutcome;
    var r7, q7 := SignedOutcome(r), SignedOutcome(q);
    var r6, q6 := TextBytes(r.previousHash) + r7, TextBytes(q.previousHash) + q7;
    var r5, q5 := TextBytes(r.afterHash) + r6, TextBytes(q.afterHash) + q6;
    var r4, q4 := TextBytes(r.beforeHash) + r5, TextBytes(q.beforeHash) + q5;
    var r3, q3 := WordLE(AsU64(r.timestamp)) + r4, WordLE(AsU64(q.timestamp)) + q4;
    var r2, q2 := TextBytes(r.ruleId) + r3, TextBytes(q.ruleId) + q3;
    TextIsPrefixFree(r.id, q.id, TextBytes(r.nonce) + r2, TextBytes(q.nonce) + q2);
    TextIsPrefixFree(r.nonce, q.nonce, r2, q2);
    TextIsPrefixFree(r.ruleId, q.ruleId, r3, q3);
    SplitEqual(WordLE(AsU64(r.timestamp)), WordLE(AsU64(q.timestamp)), r4, q4);
    WordsAreInjective(AsU64(r.timestamp), AsU64(q.timestamp));
    CastsRoundTrip(0, r.timestamp);
    CastsRoundTrip(0, q.timestamp);
    TextIsPrefixFree(r.beforeHash, q.beforeHash, r5, q5);
    TextIsPrefixFree(r.afterHash, q.afterHash, r6, q6);
    TextIsPrefixFree(r.previousHash, q.previousHash, r7, q7);
    OutcomeIsInjective(r, q);
  }

  // ------------------------------------------------------------------------
  // Chains
  // ------------------------------------------------------------------------

  datatype AuditChain = AuditChain(
    records: seq<AuditRecord>,
    rootHash: string,
    latestHash: string,
    createdAt: I64,
    updatedAt: I64,
    logicalTick: U64,
    version: U32)

  const EmptyChain: AuditChain := AuditChain([], GENESIS, GENESIS, 0, 0, 0, 3)

  predicate Verifies(d: Digests, r: AuditRecord) {
    r.hash == ComputeHash(d, r)
  }

  function LastHash(records: seq<AuditRecord>): string {
    if records == [] then GENESIS else records[|records| - 1].hash
  }

  /** Every record verifies and names the hash of the one before it. */
  predicate Linked(d: Digests, records: seq<AuditRecord>) {
    records == [] ||
    var n := |records| - 1;
    Verifies(d, records[n]) && records[n].previousHash == LastHash(records[..n]) && Linked(d, records[..n])
  }

  predicate WellFormed(d: Digests, c: AuditChain) {
    Linked(d, c.records) && c.latestHash == LastHash(c.records) &&
    c.rootHash == if c.records == [] then GENESIS else c.records[0].hash
  }

  function DeriveId(d: Digests, previousHash: string, tick: nat): string {
    ContentHash(d, [Str(previousHash), Integer(AsI64(tick))])
  }

  function DeriveNonce(d: Digests, previousHash: string, tick: nat): string {
    d.hmac(HMAC_KEY, Utf8(previousHash) + WordLE(AsU64(tick)))
  }

  function NewRecord(d: Digests, ruleId: string, tick: nat, before: string, after: string,
                     summary: Option<string>, previousHash: string): AuditRecord {
    var r := AuditRecord(DeriveId(d, previousHash, tick), ruleId, AsI64(tick), before, after, summary, Success, None,
                         "", previousHash, DeriveNonce(d, previousHash, tick), CURRENT_VERSION);
    r.(hash := ComputeHash(d, r))
  }

  /** The chain with one more record, as both `trace_step` and the fallback append it. */
  function Append(d: Digests, c: AuditChain, ruleId: string, tick: nat, before: string, after: string,
                  summary: Option<string>): AuditChain {
    var r := NewRecord(d, ruleId, tick, before, after, summary, c.latestHash);
    var first := c.records == [];
    AuditChain(c.records + [r],
               if first then r.hash else c.rootHash,
               r.hash,
               if first then AsI64(tick) else c.createdAt,
               AsI64(tick),
               c.logicalTick,
               c.version)
  }

  /** A chain while it is being extended. */
  class AuditChainState {
    var records: seq<AuditRecord>
    var rootHash: string
    var latestHash: string
    var createdAt: I64
    var updatedAt: I64
    var logicalTick: U64
    var version: U32

    function View(): AuditChain
      reads this
    {
      AuditChain(records, rootHash, latestHash, createdAt, updatedAt, logicalTick, version)
    }

    constructor (c: AuditChain)
      ensures View() == c
    {
      records, rootHash, latestHash := c.records, c.rootHash, c.latestHash;
      createdAt, updatedAt, logicalTick, version := c.createdAt, c.updatedAt, c.logicalTick, c.version;
    }

    /** The chain's own clock, which only the fallback uses; it wraps around. */
    method NextTick() returns (tick: U64)
      modifies this
      ensures tick == old(logicalTick) && View() == old(View()).(logicalTick := AsU64(tick + 1))
    {
      tick := logicalTick;
      logicalTick := AsU64(logicalTick + 1);
    }

    /** Signs a record that links to the last one and pushes it. */
    method Record(d: Digests, ruleId: string, tick: nat, before: string, after: string, summary: Option<string>)
      modifies this
      ensures View() == Append(d, old(View()), ruleId, tick, before, after, summary)
      ensures Extends(d, old(View()), View())
    {
      hide NewRecord, Extends;
      AppendExtends(d, View(), View().logicalTick, ruleId, tick, before, after, summary);
      var record := NewRecord(d, ruleId, tick, before, after, summary, latestHash);
      if records == [] {
        rootHash := record.hash;
        createdAt := AsI64(tick);
      }
      latestHash := record.hash;
      updatedAt := AsI64(tick);
      records := records + [record];
    }
  }

  /** `e` continues `c`: the records are kept, and each further one verifies and names the
      hash of the one before it, whatever the records of `c` are worth. */
  predicate Extends(d: Digests, c: AuditChain, e: AuditChain) {
    c.records <= e.records &&
    (forall i | |c.records| <= i < |e.records| :: Follows(d, c, e.records, i)) &&
    e.latestHash == (if |e.records| == |c.records| then c.latestHash else LastHash(e.records)) &&
    e.rootHash == if c.records == [] && e.records != [] then e.records[0].hash else c.rootHash
  }

  predicate Follows(d: Digests, c: AuditChain, records: seq<AuditRecord>, i: nat)
    requires |c.records| <= i < |records|
  {
    Verifies(d, records[i]) && records[i].previousHash == if i == |c.records| then c.latestHash else records[i - 1].hash
  }

  lemma ExtendsItself(d: Digests, c: AuditChain)
    ensures Extends(d, c, c)
  {
    hide Verifies;
  }

  lemma ExtendsThen(d: Digests, a: AuditChain, b: AuditChain, c: AuditChain)
    requires Extends(d, a, b) && Extends(d, b, c)
    ensures Extends(d, a, c)
  {
    hide Verifies;
    forall i | |a.records| <= i < |c.records| ensures Follows(d, a, c.records, i) {
      if i < |b.records| {
        assert Follows(d, a, b.records, i);
        assert c.records[i] == b.records[i] && (i > 0 ==> c.records[i - 1] == b.records[i - 1]);
      } else {
        assert Follows(d, b, c.records, i);
        assert i > 0 && i == |b.records| ==> c.records[i - 1] == b.records[i - 1];
      }
    }
  }

  /** The hash is not among the fields that are signed. */
  lemma HashIsNotSigned(d: Digests, r: AuditRecord, hash: string)
    ensures ComputeHash(d, r.(hash := hash)) == ComputeHash(d, r)
  {
    hide TextBytes, OptionBytes, WordLE, LittleEndian, AsU64;
  }

  lemma NewRecordVerifies(d: Digests, ruleId: string, tick: nat, before: string, after: string,
                          summary: Option<string>, previousHash: string)
    ensures var r := NewRecord(d, ruleId, tick, before, after, summary, previousHash);
            Verifies(d, r) && r.previousHash == previousHash && r.timestamp == AsI64(tick) && r.ruleId == ruleId
  {
    hide ComputeHash, DeriveId, DeriveNonce, AsI64;
    var r := AuditRecord(DeriveId(d, previousHash, tick), ruleId, AsI64(tick), before, after, summary, Success, None,
                         "", previousHash, DeriveNonce(d, previousHash, tick), CURRENT_VERSION);
    HashIsNotSigned(d, r, ComputeHash(d, r));
  }

  function AtTick(c: AuditChain, now: U64): AuditChain {
    c.(logicalTick := now)
  }

  /** Appending continues the chain, also where its own clock has moved. */
  lemma AppendExtends(d: Digests, c: AuditChain, now: U64, ruleId: string, tick: nat, before: string, after: string,
                      summary: Option<string>)
    ensures Extends(d, c, Append(d, AtTick(c, now), ruleId, tick, before, after, summary))
  {
    hide NewRecord, Verifies;
    NewRecordVerifies(d, ruleId, tick, before, after, summary, c.latestHash);
  }

  lemma {:induction false} ExtensionIsLinked(d: Digests, c: AuditChain, e: AuditChain, n: nat)
    requires Extends(d, c, e) && WellFormed(d, c) && |c.records| <= n <= |e.records|
    ensures Linked(d, e.records[..n])
    decreases n
  {
    hide Verifies;
    if n == |c.records| {
      assert e.records[..n] == c.records;
    } else {
      ExtensionIsLinked(d, c, e, n - 1);
      assert e.records[..n][..n - 1] == e.records[..n - 1];
      assert Follows(d, c, e.records, n - 1);
      assert e.records[..|c.records|] == c.records;
    }
  }

  /** What continues a well-formed chain is a well-formed chain. */
  lemma ExtensionIsWellFormed(d: Digests, c: AuditChain, e: AuditChain)
    requires Extends(d, c, e) && WellFormed(d, c)
    ensures WellFormed(d, e)
  {
    hide Verifies, Linked;
    ExtensionIsLinked(d, c, e, |e.records|);
    assert e.records[..|e.records|] == e.records;
  }

  // ------------------------------------------------------------------------
  // Tamper evidence
  // ------------------------------------------------------------------------

  ghost predicate CollisionFree(d: Digests) {
    forall a, b | d.hmac(HMAC_KEY, a) == d.hmac(HMAC_KEY, b) :: a == b
  }

  /** No signature is the string of 64 zeros. */
  ghost predicate NeverGenesis(d: Digests) {
    forall a :: d.hmac(HMAC_KEY, a) != GENESIS
  }

  lemma SameHashSameRecord(d: Digests, r: AuditRecord, q: AuditRecord)
    requires CollisionFree(d) && Verifies(d, r) && Verifies(d, q) && RecordFits(r) && RecordFits(q)
    requires r.hash == q.hash
    ensures r == q
  {
    SignedBytesAreInjective(r, q);
  }

  /** Without collisions two linked chains of one length with the same last hash are the same
      chain. */
  lemma {:induction false} TamperEvident(d: Digests, a: seq<AuditRecord>, b: seq<AuditRecord>)
    requires CollisionFree(d) && Linked(d, a) && Linked(d, b)
    requires AllFit(a) && AllFit(b)
    requires |a| == |b| && LastHash(a) == LastHash(b)
    ensures a == b
  {
    hide Verifies, RecordFits, Zeros;
    if a != [] {
      var n := |a| - 1;
      SameHashSameRecord(d, a[n], b[n]);
      TamperEvident(d, a[..n], b[..n]);
      assert a == a[..n] + [a[n]] && b == b[..n] + [b[n]];
    }
  }

  lemma SignedIsNotGenesis(d: Digests, records: seq<AuditRecord>)
    requires NeverGenesis(d) && Linked(d, records) && records != []
    ensures LastHash(records) != GENESIS
  {
    hide Zeros, SignedBytes;
  }

  lemma {:induction false} SameLastHashSameLength(d: Digests, a: seq<AuditRecord>, b: seq<AuditRecord>)
    requires CollisionFree(d) && NeverGenesis(d) && Linked(d, a) && Linked(d, b)
    requires AllFit(a) && AllFit(b)
    requires LastHash(a) == LastHash(b)
    ensures |a| == |b|
  {
    hide RecordFits, Zeros, Verifies, NeverGenesis;
    if a != [] { SignedIsNotGenesis(d, a); }
    if b != [] { SignedIsNotGenesis(d, b); }
    if a != [] && b != [] {
      var m, n := |a| - 1, |b| - 1;
      SameHashSameRecord(d, a[m], b[n]);
      SameLastHashSameLength(d, a[..m], b[..n]);
    }
  }

  /** If moreover no signature equals the genesis string, the latest hash alone determines
      the records of a well-formed chain, their number included. */
  lemma LatestHashDeterminesChain(d: Digests, a: AuditChain, b: AuditChain)
    requires CollisionFree(d) && NeverGenesis(d) && WellFormed(d, a) && WellFormed(d, b)
    requires AllFit(a.records) && AllFit(b.records)
    ensures a.latestHash == b.latestHash <==> a.records == b.records
  {
    hide RecordFits, Zeros, Linked;
    if a.latestHash == b.latestHash {
      SameLastHashSameLength(d, a.records, b.records);
      TamperEvident(d, a.records, b.records);
    }
  }

  // ------------------------------------------------------------------------
  // The value form
  // ------------------------------------------------------------------------

  function ResultName(r: ExecutionResult): string {
    match r case Success => "success" case Failure => "failure" case Skipped => "skipped"
  }

  function ParseResult(s: string): Option<ExecutionResult> {
    if s == "success" then Some(Success)
    else if s == "failure" then Some(Failure)
    else if s == "skipped" then Some(Skipped)
    else None
  }

  function RecordToValue(r: AuditRecord): Value {
    var m: map<string, Value> := map[
      "id" := Str(r.id),
      "rule_id" := Str(r.ruleId),
      "timestamp" := Integer(r.timestamp),
      "state_before_hash" := Str(r.beforeHash),
      "state_after_hash" := Str(r.afterHash),
      "execution_result" := Str(ResultName(r.executionResult)),
      "hash" := Str(r.hash),
      "previous_hash" := Str(r.previousHash),
      "nonce" := Str(r.nonce),
      "version" := Integer(r.version)];
    var m := if r.changeSummary.Some? then m["change_summary" := Str(r.changeSummary.value)] else m;
    var m := if r.errorMessage.Some? then m["error_message" := Str(r.errorMessage.value)] else m;
    Object(m)
  }

  function ParseRecord(v: Value): Option<AuditRecord> {
    match (v.GetStr("id"), v.GetStr("rule_id"), v.GetInteger("timestamp"),
           v.GetStr("state_before_hash"), v.GetStr("state_after_hash"))
    case (Some(id), Some(ruleId), Some(timestamp), Some(before), Some(after)) =>
      (match (v.GetStr("execution_result"), v.GetStr("hash"), v.GetStr("previous_hash"),
              v.GetStr("nonce"), v.GetInteger("version"))
       case (Some(name), Some(hash), Some(previous), Some(nonce), Some(version)) =>
         (match ParseResult(name)
          case Some(result) =>
            Some(AuditRecord(id, ruleId, timestamp, before, after, v.GetStr("change_summary"), result,
                             v.GetStr("error_message"), hash, previous, nonce, AsU32(version)))
          case None => None)
       case _ => None)
    case _ => None
  }

  lemma RecordIdentityFields(r: AuditRecord)
    ensures RecordToValue(r).GetStr("id") == Some(r.id)
    ensures RecordToValue(r).GetStr("rule_id") == Some(r.ruleId)
    ensures RecordToValue(r).GetInteger("timestamp") == Some(r.timestamp)
    ensures RecordToValue(r).GetStr("state_before_hash") == Some(r.beforeHash)
  {
  }

  lemma RecordOutcomeFields(r: AuditRecord)
    ensures RecordToValue(r).GetStr("state_after_hash") == Some(r.afterHash)
    ensures RecordToValue(r).GetStr("execution_result") == Some(ResultName(r.executionResult))
    ensures RecordToValue(r).GetStr("change_summary") == r.changeSummary
    ensures RecordToValue(r).GetStr("error_message") == r.errorMessage
  {
  }

  lemma RecordChainFields(r: AuditRecord)
    ensures RecordToValue(r).GetStr("hash") == Some(r.hash)
    ensures RecordToValue(r).GetStr("previous_hash") == Some(r.previousHash)
    ensures RecordToValue(r).GetStr("nonce") == Some(r.nonce)
    ensures RecordToValue(r).GetInteger("version") == Some(r.version)
  {
  }

  lemma RecordRoundTrip(r: AuditRecord)
    ensures ParseRecord(RecordToValue(r)) == Some(r)
  {
    hide RecordToValue;
    RecordIdentityFields(r);
    RecordOutcomeFields(r);
    RecordChainFields(r);
    assert ParseResult(ResultName(r.executionResult)) == Some(r.executionResult);
  }

  function RecordsToValue(records: seq<AuditRecord>): seq<Value> {
    if records == [] then [] else [RecordToValue(records[0])] + RecordsToValue(records[1..])
  }

  function ParseRecords(items: seq<Value>): Option<seq<AuditRecord>> {
    if items == [] then Some([])
    else
      match (ParseRecord(items[0]), ParseRecords(items[1..]))
      case (Some(r), Some(rest)) => Some([r] + rest)
      case _ => None
  }

  function ChainToValue(c: AuditChain): Value {
    Object(map[
      "records" := List(RecordsToValue(c.records)),
      "root_hash" := Str(c.rootHash),
      "latest_hash" := Str(c.latestHash),
      "created_at" := Integer(c.createdAt),
      "updated_at" := Integer(c.updatedAt),
      "logical_tick" := Integer(AsI64(c.logicalTick)),
      "version" := Integer(c.version)])
  }

  function ParseChain(v: Value): Option<AuditChain> {
    match v.Get("records")
    case Some(List(items)) =>
      (match (ParseRecords(items), v.GetStr("root_hash"), v.GetStr("latest_hash"),
              v.GetInteger("created_at"), v.GetInteger("updated_at"), v.GetInteger("version"))
       case (Some(records), Some(root), Some(latest), Some(created), Some(updated), Some(version)) =>
         var tick := match v.GetInteger("logical_tick") case Some(t) => AsU64(t) case None => 0;
         Some(AuditChain(records, root, latest, created, updated, tick, AsU32(version)))
       case _ => None)
    case _ => None
  }

  /** Parsing the records one by one, as the code does it. */
  method ReadRecords(items: seq<Value>) returns (records: Option<seq<AuditRecord>>)
    ensures records == ParseRecords(items)
  {
    var read: seq<AuditRecord> := [];
    assert items[0..] == items && forall rest: seq<AuditRecord> :: [] + rest == rest;
    for i := 0 to |items|
      invariant ParseRecords(items) ==
                  match ParseRecords(items[i..]) case Some(rest) => Some(read + rest) case None => None
    {
      assert items[i..][1..] == items[i + 1..];
      var r := ParseRecord(items[i]);
      if r.None? { return None; }
      assert forall rest: seq<AuditRecord> :: read + ([r.value] + rest) == read + [r.value] + rest;
      read := read + [r.value];
    }
    assert items[|items|..] == [] && read + [] == read;
    records := Some(read);
  }

  lemma {:induction false} RecordsRoundTrip(records: seq<AuditRecord>)
    ensures ParseRecords(RecordsToValue(records)) == Some(records)
  {
    if records != [] {
      RecordRoundTrip(records[0]);
      RecordsRoundTrip(records[1..]);
      assert RecordsToValue(records)[1..] == RecordsToValue(records[1..]);
      assert records == [records[0]] + records[1..];
    }
  }

  lemma ChainFields(c: AuditChain)
    ensures ChainToValue(c).Get("records") == Some(List(RecordsToValue(c.records)))
    ensures ChainToValue(c).GetStr("root_hash") == Some(c.rootHash)
    ensures ChainToValue(c).GetStr("latest_hash") == Some(c.latestHash)
    ensures ChainToValue(c).GetInteger("created_at") == Some(c.createdAt)
    ensures ChainToValue(c).GetInteger("updated_at") == Some(c.updatedAt)
    ensures ChainToValue(c).GetInteger("logical_tick") == Some(AsI64(c.logicalTick))
    ensures ChainToValue(c).GetInteger("version") == Some(c.version)
  {
  }

  /** A chain is read back from its value form unchanged. */
  lemma ChainRoundTrip(c: AuditChain)
    ensures ParseChain(ChainToValue(c)) == Some(c)
  {
    hide ChainToValue;
    ChainFields(c);
    RecordsRoundTrip(c.records);
    CastsRoundTrip(c.logicalTick, 0);
  }

  /** Of a stored chain only its clock may be missing, which is then at zero. */
  lemma OnlyClockMayBeMissing(c: AuditChain, key: string)
    ensures ParseChain(Object(ChainToValue(c).fields - {"logical_tick"})) == Some(c.(logicalTick := 0))
    ensures key in {"records", "root_hash", "latest_hash", "created_at", "updated_at", "version"} ==>
              ParseChain(Object(ChainToValue(c).fields - {key})) == None
  {
    hide ChainToValue;
    ChainFields(c);
    RecordsRoundTrip(c.records);
    var v, w := ChainToValue(c), Object(ChainToValue(c).fields - {"logical_tick"});
    assert v.Object? by { ChainIsObject(c); }
    StillThere(v, "logical_tick");
    StillThere(v, key);
  }

  lemma ChainIsObject(c: AuditChain)
    ensures ChainToValue(c).Object?
  {
  }

  lemma StillThere(v: Value, gone: string)
    requires v.Object?
    ensures Object(v.fields - {gone}).Get(gone) == None
    ensures forall key | key != gone :: Object(v.fields - {gone}).Get(key) == v.Get(key)
  {
  }

  /** Of a stored record only summary and error message may be missing. */
  lemma OnlyTextsMayBeMissing(r: AuditRecord, key: string)
    ensures key in {"id", "rule_id", "timestamp", "state_before_hash", "state_after_hash", "execution_result", "hash",
                    "previous_hash", "nonce", "version"} ==>
              ParseRecord(Object(RecordToValue(r).fields - {key})) == None
  {
    hide RecordToValue;
    assert RecordToValue(r).Object? by { RecordIsObject(r); }
    StillThere(RecordToValue(r), key);
  }

  lemma RecordIsObject(r: AuditRecord)
    ensures RecordToValue(r).Object?
  {
  }
}
