/** Error messages: what try-catch leaves behind, and exactly which places for the message
    keep the audit chain.

    A message is written as a string along the path `error_attr`. If that path leads into the
    chain, some writes do no harm: to a field that is not part of a chain, to its own clock,
    or of what stands there anyway. All others lose records or break links.
 */
module Messages {
  import opened Values
  import opened Store
  import opened References
  import opened Control
  import opened Audit
  import opened Machine
  import opened Steps
  import opened Engine
  import ExecContext

  // ------------------------------------------------------------------------
  // Harmless writes
  // ------------------------------------------------------------------------

  const REQUIRED: set<string> :=
    {"id", "rule_id", "timestamp", "state_before_hash", "state_after_hash", "execution_result", "hash",
     "previous_hash", "nonce", "version"}
  const OPTIONAL: set<string> := {"change_summary", "error_message"}

  /** Inside a record: a field it does not have, or what stands there anyway. A text that is
      missing stays missing if something is written below it. */
  predicate HarmlessInRecord(r: Fields, rest: seq<string>, text: string)
    requires rest != []
  {
    var h := rest[0];
    if ParseIndex(h).Some? then true
    else if h in REQUIRED then |rest| == 1 && h in r && r[h] == Str(text)
    else if h in OPTIONAL then
      if |rest| == 1 then h in r && r[h] == Str(text) else Object(r).GetStr(h).None?
    else true
  }

  predicate HarmlessInRecords(items: seq<Value>, rest: seq<string>, text: string)
    requires rest != []
  {
    match ParseIndex(rest[0])
    case Some(j) =>
      j < |items| && |rest| > 1 && items[j].Object? && HarmlessInRecord(items[j].fields, rest[1..], text)
    case None => true
  }

  const LINKS: set<string> := {"root_hash", "latest_hash"}
  const COUNTERS: set<string> := {"created_at", "updated_at", "version"}

  /** Inside a chain with these fields and records. */
  predicate HarmlessInChain(m: Fields, items: seq<Value>, rest: seq<string>, text: string) {
    rest != [] &&
    var f := rest[0];
    match ParseIndex(f)
    case Some(i) => ListKeys(m) != {"records"} || (i >= |items| && |rest| > 1)
    case None =>
      if f == "records" then |rest| > 1 && HarmlessInRecords(items, rest[1..], text)
      else if f in LINKS then |rest| == 1 && f in m && m[f] == Str(text)
      else f !in COUNTERS
  }

  /** Where there is a chain, a message may go anywhere but into the chain, to a harmless
      place in it, and, as long as it has no records, to any place but one of its two hashes. */
  predicate Harmless(st: State, path: string, text: string)
    requires ChainOf(st).Some?
  {
    path == "" ||
    var parts := SplitPath(path);
    parts == [] || parts[0] != AUDIT_CHAIN ||
    var m, rest := st.data[AUDIT_CHAIN].fields, parts[1..];
    var items := m["records"].items;
    HarmlessInChain(m, items, rest, text) || (items == [] && !(|rest| == 1 && rest[0] in LINKS))
  }

  // ------------------------------------------------------------------------
  // Records
  // ------------------------------------------------------------------------

  /** All that a record is read from. */
  predicate SameRecordFields(v: Value, w: Value) {
    v.GetStr("id") == w.GetStr("id") && v.GetStr("rule_id") == w.GetStr("rule_id") &&
    v.GetInteger("timestamp") == w.GetInteger("timestamp") &&
    v.GetStr("state_before_hash") == w.GetStr("state_before_hash") &&
    v.GetStr("state_after_hash") == w.GetStr("state_after_hash") &&
    v.GetStr("execution_result") == w.GetStr("execution_result") && v.GetStr("hash") == w.GetStr("hash") &&
    v.GetStr("previous_hash") == w.GetStr("previous_hash") && v.GetStr("nonce") == w.GetStr("nonce") &&
    v.GetInteger("version") == w.GetInteger("version") &&
    v.GetStr("change_summary") == w.GetStr("change_summary") && v.GetStr("error_message") == w.GetStr("error_message")
  }

  lemma SameFieldsSameRecord(v: Value, w: Value)
    requires SameRecordFields(v, w)
    ensures ParseRecord(v) == ParseRecord(w)
  {
    hide Value.GetStr, Value.GetInteger, ParseResult, AsU32;
  }

  /** Equal records were read from equal texts, and from numbers for time and version. */
  lemma SameRecordSameTexts(v: Value, w: Value)
    requires ParseRecord(v).Some? && ParseRecord(v) == ParseRecord(w)
    ensures v.GetStr("id") == w.GetStr("id") && v.GetStr("id").Some?
    ensures v.GetStr("rule_id") == w.GetStr("rule_id") && v.GetStr("rule_id").Some?
    ensures v.GetStr("state_before_hash") == w.GetStr("state_before_hash") && v.GetStr("state_before_hash").Some?
    ensures v.GetStr("state_after_hash") == w.GetStr("state_after_hash") && v.GetStr("state_after_hash").Some?
    ensures v.GetStr("execution_result") == w.GetStr("execution_result") && v.GetStr("execution_result").Some?
    ensures v.GetStr("hash") == w.GetStr("hash") && v.GetStr("hash").Some?
    ensures v.GetStr("previous_hash") == w.GetStr("previous_hash") && v.GetStr("previous_hash").Some?
    ensures v.GetStr("nonce") == w.GetStr("nonce") && v.GetStr("nonce").Some?
    ensures v.GetStr("change_summary") == w.GetStr("change_summary")
    ensures v.GetStr("error_message") == w.GetStr("error_message")
    ensures v.GetInteger("timestamp").Some? && v.GetInteger("version").Some?
    ensures w.GetInteger("timestamp").Some? && w.GetInteger("version").Some?
  {
    hide Value.GetStr, Value.GetInteger, AsU32, ParseResult;
    ResultNamesDiffer(TextOr(v.GetStr("execution_result"), ""), TextOr(w.GetStr("execution_result"), ""));
  }

  lemma ResultNamesDiffer(a: string, b: string)
    ensures ParseResult(a).Some? && ParseResult(a) == ParseResult(b) ==> a == b
  {
  }

  lemma FieldElsewhere(r: Fields, h: string, w: Value, key: string)
    requires key != h
    ensures Object(r[h := w]).GetStr(key) == Object(r).GetStr(key)
    ensures Object(r[h := w]).GetInteger(key) == Object(r).GetInteger(key)
  {
  }

  lemma ForeignFieldIsNotRead(r: Fields, h: string, w: Value)
    requires h !in REQUIRED && h !in OPTIONAL
    ensures ParseRecord(Object(r[h := w])) == ParseRecord(Object(r))
  {
    hide Value.GetStr, Value.GetInteger, ParseRecord;
    forall key | key in REQUIRED + OPTIONAL
      ensures Object(r[h := w]).GetStr(key) == Object(r).GetStr(key) &&
              Object(r[h := w]).GetInteger(key) == Object(r).GetInteger(key)
    {
      FieldElsewhere(r, h, w, key);
    }
    SameFieldsSameRecord(Object(r[h := w]), Object(r));
  }

  lemma MissingTextStaysMissing(r: Fields, h: string, w: Value)
    requires h in OPTIONAL && Object(r).GetStr(h).None? && !w.Str?
    ensures ParseRecord(Object(r[h := w])) == ParseRecord(Object(r))
  {
    hide Value.GetInteger, ParseRecord;
    OptionalIsNotRequired();
    forall key | key in REQUIRED + OPTIONAL && key != h
      ensures Object(r[h := w]).GetStr(key) == Object(r).GetStr(key) &&
              Object(r[h := w]).GetInteger(key) == Object(r).GetInteger(key)
    {
      FieldElsewhere(r, h, w, key);
    }
    SameFieldsSameRecord(Object(r[h := w]), Object(r));
  }

  lemma OptionalIsNotRequired()
    ensures REQUIRED !! OPTIONAL
  {
  }

  lemma TextIsRead(r: Fields, h: string, w: Value)
    ensures Object(r[h := w]).GetStr(h) == (if w.Str? then Some(w.s) else None)
    ensures !w.Integer? ==> Object(r[h := w]).GetInteger(h) == None
    ensures Object(r).GetStr(h).Some? ==> h in r && r[h] == Str(Object(r).GetStr(h).value)
  {
  }

  lemma NewTextIsNoticed(r: Fields, h: string, w: Value)
    requires ParseRecord(Object(r)).Some? && !w.Integer? && h in REQUIRED + OPTIONAL
    requires h in REQUIRED ==> !(h in r && r[h] == w)
    requires h in OPTIONAL ==> (if w.Str? then !(h in r && r[h] == w) else Object(r).GetStr(h).Some?)
    ensures ParseRecord(Object(r[h := w])) != ParseRecord(Object(r))
  {
    hide Value.GetStr, Value.GetInteger, ParseRecord;
    TextIsRead(r, h, w);
    if ParseRecord(Object(r[h := w])) == ParseRecord(Object(r)) {
      SameRecordSameTexts(Object(r[h := w]), Object(r));
    }
  }

  /** Below a field that is a text or a number, or not there, something else comes to stand. */
  lemma WriteBelow(m: Fields, rest: seq<string>, v: Value)
    requires |rest| > 1 && ParseIndex(rest[0]).None?
    ensures var n, h := Updated(m, rest, v), rest[0];
            n == m || (h in n && n == m[h := n[h]] && !n[h].Str? && !n[h].Integer?)
    ensures Updated(m, rest, v) == m ==> rest[0] in m && (m[rest[0]].List? || m[rest[0]].Object?)
  {
    hide WithElement, ParseIndex;
    var n, h := Updated(m, rest, v), rest[0];
    assert n == (match SetIn(m, rest, v) case Some(w) => w case None => m);
    assert n != m ==> n == m[h := n[h]];
  }

  lemma WriteAt(m: Fields, h: string, v: Value)
    requires ParseIndex(h).None?
    ensures Updated(m, [h], v) == m[h := v]
  {
    assert Updated(m, [h], v) == (match SetIn(m, [h], v) case Some(w) => w case None => m);
  }

  lemma OneListIsReplaced(m: Fields, index: nat, v: Value, isLast: bool)
    requires SetElement(m, index, v, isLast).Some?
    ensures var n := SetElement(m, index, v, isLast).value;
            exists key, items :: key in m && m[key].List? && ListKeys(m) == {key} && n == m[key := List(items)]
  {
    hide SetElement, Padded;
    SetElementEffect(m, index, v, isLast);
    var n := SetElement(m, index, v, isLast).value;
    var key :| key in m && ListKeys(m) == {key} && n.Keys == m.Keys &&
      (forall k | k in m && k != key :: n[k] == m[k]) &&
      n[key] == List(Padded(m[key].items, index)[index := v]);
    assert n == m[key := n[key]];
    assert key in ListKeys(m);
  }

  lemma WriteByIndex(m: Fields, rest: seq<string>, v: Value)
    requires rest != [] && ParseIndex(rest[0]).Some? && m != map[]
    ensures var n := Updated(m, rest, v);
            n == m ||
            exists key, items ::
              key in m && m[key].List? && ListKeys(m) == {key} && n == m[key := List(items)]
  {
    hide ParseIndex, Padded, SetElement;
    var index := ParseIndex(rest[0]).value;
    assert Updated(m, rest, v) == (match SetIn(m, rest, v) case Some(w) => w case None => m);
    if SetElement(m, index, v, |rest| == 1).Some? { OneListIsReplaced(m, index, v, |rest| == 1); }
  }

  /** A text written into a record changes what is read from it exactly when it is not
      harmless. */
  lemma RecordKeptExactly(r: Fields, rest: seq<string>, text: string)
    requires rest != [] && ParseRecord(Object(r)).Some?
    ensures ParseRecord(Object(Updated(r, rest, Str(text)))) == ParseRecord(Object(r)) <==>
            HarmlessInRecord(r, rest, text)
  {
    hide ParseRecord, ParseIndex, Updated, Value.GetStr;
    OptionalIsNotRequired();
    var h, n := rest[0], Updated(r, rest, Str(text));
    if ParseIndex(h).Some? {
      RecordIsNotEmpty(r);
      WriteByIndex(r, rest, Str(text));
      if n != r {
        var key, items :| key in r && r[key].List? && ListKeys(r) == {key} && n == r[key := List(items)];
        ListIsNotRead(r, key, List(items));
      }
    } else if |rest| == 1 {
      assert rest == [h];
      WriteAt(r, h, Str(text));
      if h !in REQUIRED && h !in OPTIONAL {
        ForeignFieldIsNotRead(r, h, Str(text));
      } else if h in r && r[h] == Str(text) {
        assert n == r;
      } else {
        NewTextIsNoticed(r, h, Str(text));
      }
    } else {
      WriteBelow(r, rest, Str(text));
      TextIsRead(r, h, Null);
      if h in REQUIRED { RequiredIsScalar(r, h); }
      if n != r {
        if h !in REQUIRED && h !in OPTIONAL {
          ForeignFieldIsNotRead(r, h, n[h]);
        } else if h in OPTIONAL && Object(r).GetStr(h).None? {
          MissingTextStaysMissing(r, h, n[h]);
        } else {
          NewTextIsNoticed(r, h, n[h]);
        }
      }
    }
  }

  lemma RecordIsNotEmpty(r: Fields)
    requires ParseRecord(Object(r)).Some?
    ensures r != map[]
  {
    hide ParseResult, AsU32;
    assert Object(r).GetStr("id").Some?;
  }

  lemma RequiredIsScalar(r: Fields, h: string)
    requires ParseRecord(Object(r)).Some? && h in REQUIRED
    ensures h in r && (r[h].Str? || r[h].Integer?)
  {
    hide ParseRecord, Value.GetStr, Value.GetInteger;
    SameRecordSameTexts(Object(r), Object(r));
    ScalarField(r, h);
  }

  lemma ScalarField(r: Fields, h: string)
    ensures Object(r).GetStr(h).Some? || Object(r).GetInteger(h).Some? ==> h in r && (r[h].Str? || r[h].Integer?)
  {
  }

  lemma ListIsNotRead(r: Fields, key: string, w: Value)
    requires ParseRecord(Object(r)).Some? && key in r && r[key].List? && w.List?
    ensures ParseRecord(Object(r[key := w])) == ParseRecord(Object(r))
  {
    hide ParseRecord, Value.GetInteger;
    if key in REQUIRED {
      RequiredIsScalar(r, key);
    } else if key in OPTIONAL {
      MissingTextStaysMissing(r, key, w);
    } else {
      ForeignFieldIsNotRead(r, key, w);
    }
  }

  // ------------------------------------------------------------------------
  // Lists of records
  // ------------------------------------------------------------------------

  lemma {:induction false} ParsedOneByOne(items: seq<Value>)
    ensures match ParseRecords(items)
            case Some(rs) => |rs| == |items| && forall i | 0 <= i < |items| :: ParseRecord(items[i]) == Some(rs[i])
            case None => exists i :: 0 <= i < |items| && ParseRecord(items[i]) == None
  {
    hide ParseRecord;
    if items != [] {
      ParsedOneByOne(items[1..]);
      match ParseRecords(items[1..])
      case Some(rs) =>
      case None =>
        var i :| 0 <= i < |items[1..]| && ParseRecord(items[1..][i]) == None;
        assert items[i + 1] == items[1..][i];
    }
  }

  lemma NoRecord(v: Value)
    requires !v.Object? || |v.fields| <= 1
    ensures ParseRecord(v) == None
  {
    hide ParseResult, AsU32;
    if v.Object? { TwoKeysAreTwo(v.fields, "id", "rule_id"); }
  }

  lemma TwoKeysAreTwo(m: Fields, a: string, b: string)
    requires a != b
    ensures a in m && b in m ==> |m| >= 2
  {
    if a in m && b in m {
      assert |m.Keys - {a, b}| == |m.Keys| - |{a, b}|;
    }
  }

  /** After a change of one element, or growth, the same records are read exactly if that
      element reads as before. */
  lemma ElementKeptExactly(items: seq<Value>, j: nat, w: Value)
    requires ParseRecords(items).Some?
    ensures var after := ParseRecords(Padded(items, j)[j := w]);
            after == ParseRecords(items) <==> j < |items| && ParseRecord(w) == ParseRecord(items[j])
    ensures j >= |items| && ParseRecord(w) == None ==> ParseRecords(Padded(items, j)[j := w]) == None
    ensures var after := ParseRecords(Padded(items, j)[j := w]);
            j < |items| && after.Some? ==> |after.value| == |items|
  {
    hide ParseRecord, ParseRecords;
    var next := Padded(items, j)[j := w];
    ParsedOneByOne(items);
    ParsedOneByOne(next);
    assert next[j] == w;
    var after, before := ParseRecords(next), ParseRecords(items);
    if j < |items| {
      assert forall i | 0 <= i < |items| && i != j :: next[i] == items[i];
      if ParseRecord(w) == ParseRecord(items[j]) {
        assert next == items[j := w];
        if after.Some? { assert after.value == before.value; }
      }
    }
  }

  /** Writing into the list of records. */
  lemma RecordsKeptExactly(items: seq<Value>, parts: seq<string>, rest: seq<string>, text: string)
    requires |parts| >= 2 && rest == parts[1..] && ParseIndex(rest[0]).Some? && ParseRecords(items).Some?
    ensures var j := ParseIndex(rest[0]).value;
            var after := ParseRecords(WithElement(items, j, parts, Str(text)));
            (after == ParseRecords(items) <==> HarmlessInRecords(items, rest, text)) &&
            (after != ParseRecords(items) ==>
               after == None || (|after.value| == |items| && after.value != ParseRecords(items).value))
  {
    hide ParseRecord, ParseRecords, ParseIndex, HarmlessInRecord;
    var j := ParseIndex(rest[0]).value;
    WithElementAt(items, j, parts, Str(text));
    assert parts[2..] == rest[1..];
    ParsedOneByOne(items);
    var w := if |parts| == 2 then Str(text) else Object(Updated(ElementFields(items, j), parts[2..], Str(text)));
    assert WithElement(items, j, parts, Str(text)) == Padded(items, j)[j := w];
    ElementKeptExactly(items, j, w);
    if |parts| == 2 {
      NoRecord(w);
      NothingIsRecord(items, j);
    } else if j >= |items| {
      FreshIsSmall(parts[2..], Str(text));
      NoRecord(w);
    } else {
      RecordIsObject(items[j]);
      RecordKeptExactly(items[j].fields, rest[1..], text);
    }
  }

  lemma NothingIsRecord(items: seq<Value>, j: nat)
    requires ParseRecords(items).Some?
    ensures j < |items| ==> ParseRecord(items[j]).Some?
  {
    hide ParseRecord;
    ParsedOneByOne(items);
  }

  lemma RecordIsObject(v: Value)
    requires ParseRecord(v).Some?
    ensures v.Object?
  {
    if !v.Object? { NoRecord(v); }
  }

  lemma FreshIsSmall(rest: seq<string>, v: Value)
    requires rest != []
    ensures |Updated(map[], rest, v)| <= 1
  {
    hide ParseIndex, WithElement, Padded;
    var n := Updated(map[], rest, v);
    assert n == (match SetIn(map[], rest, v) case Some(w) => w case None => map[]);
    assert n.Keys <= {rest[0]};
    if rest[0] in n { assert n.Keys == {rest[0]}; } else { assert n.Keys == {}; }
  }

  // ------------------------------------------------------------------------
  // Chains
  // ------------------------------------------------------------------------

  /** The chain is kept and still well formed. */
  predicate Survives(d: Digests, c: AuditChain, r: Option<AuditChain>) {
    var e := match r case Some(e) => e case None => EmptyChain;
    c.records <= e.records && WellFormed(d, e)
  }

  lemma LostSurvivesExactly(d: Digests, c: AuditChain)
    ensures Survives(d, c, None) <==> c.records == []
  {
  }

  lemma SameLinksSurvive(d: Digests, c: AuditChain, e: AuditChain)
    requires WellFormed(d, c) && e.records == c.records && e.rootHash == c.rootHash && e.latestHash == c.latestHash
    ensures Survives(d, c, Some(e))
  {
    hide Linked;
  }

  /** What a chain is read from, its own clock aside. */
  predicate SameChainFields(v: Value, w: Value) {
    v.Get("records") == w.Get("records") && v.GetStr("root_hash") == w.GetStr("root_hash") &&
    v.GetStr("latest_hash") == w.GetStr("latest_hash") && v.GetInteger("created_at") == w.GetInteger("created_at") &&
    v.GetInteger("updated_at") == w.GetInteger("updated_at") && v.GetInteger("version") == w.GetInteger("version")
  }

  lemma SameFieldsSurvive(d: Digests, v: Value, w: Value)
    requires SameChainFields(v, w) && ParseChain(v).Some? && WellFormed(d, ParseChain(v).value)
    ensures Survives(d, ParseChain(v).value, ParseChain(w))
  {
    hide Value.Get, Value.GetStr, Value.GetInteger, ParseRecords, AsU32, AsU64, Survives, WellFormed;
    SameLinksSurvive(d, ParseChain(v).value, ParseChain(w).value);
  }

  /** What the fields of a chain that parses hold. */
  lemma ChainIsRead(v: Value)
    requires ParseChain(v).Some?
    ensures var c := ParseChain(v).value;
            v.Object? && "records" in v.fields && v.fields["records"].List? &&
            ParseRecords(v.fields["records"].items) == Some(c.records) &&
            v.GetStr("root_hash") == Some(c.rootHash) && v.GetStr("latest_hash") == Some(c.latestHash) &&
            v.GetInteger("created_at").Some? && v.GetInteger("updated_at").Some? && v.GetInteger("version").Some?
  {
    hide ParseRecords, AsU32, AsU64;
  }

  lemma CountersAreNeeded(m: Fields, f: string, w: Value)
    requires f in COUNTERS && !w.Integer?
    ensures ParseChain(Object(m[f := w])) == None
  {
    hide ParseRecords, AsU32, AsU64, Value.GetInteger;
    TextIsRead(m, f, w);
  }

  lemma LinksAreTexts(m: Fields, f: string, w: Value)
    requires f in LINKS && !w.Str?
    ensures ParseChain(Object(m[f := w])) == None
  {
    hide ParseRecords, AsU32, AsU64, Value.GetStr, Value.GetInteger;
    TextIsRead(m, f, w);
  }

  lemma OtherFieldIsNotRead(d: Digests, m: Fields, f: string, w: Value)
    requires f != "records" && f !in LINKS && f !in COUNTERS
    requires ParseChain(Object(m)).Some? && WellFormed(d, ParseChain(Object(m)).value)
    ensures Survives(d, ParseChain(Object(m)).value, ParseChain(Object(m[f := w])))
  {
    hide ParseChain, Value.GetStr, Value.GetInteger, WellFormed, Survives;
    forall key | key in LINKS + COUNTERS + {"records"}
      ensures Object(m[f := w]).GetStr(key) == Object(m).GetStr(key)
      ensures Object(m[f := w]).GetInteger(key) == Object(m).GetInteger(key)
    {
      FieldElsewhere(m, f, w, key);
    }
    SameFieldsSurvive(d, Object(m), Object(m[f := w]));
  }

  /** A hash is overwritten by a text. */
  lemma LinkKeptExactly(d: Digests, m: Fields, f: string, text: string)
    requires f in LINKS && ParseChain(Object(m)).Some? && WellFormed(d, ParseChain(Object(m)).value)
    ensures Survives(d, ParseChain(Object(m)).value, ParseChain(Object(m[f := Str(text)]))) <==>
            f in m && m[f] == Str(text)
  {
    hide ParseRecords, AsU32, AsU64, Linked;
    var c, e := ParseChain(Object(m)).value, ParseChain(Object(m[f := Str(text)]));
    ChainIsRead(Object(m));
    assert e.Some? && e.value.records == c.records;
    if f in m && m[f] == Str(text) { assert m[f := Str(text)] == m; }
  }

  lemma RecordsReplaced(m: Fields, w: Value)
    requires ParseChain(Object(m)).Some?
    ensures var r := ParseChain(Object(m["records" := w]));
            match (if w.List? then ParseRecords(w.items) else None)
            case None => r == None
            case Some(records) => r == Some(ParseChain(Object(m)).value.(records := records))
  {
    hide ParseRecords, AsU32, AsU64, Value.GetStr, Value.GetInteger;
    forall key | key in LINKS + COUNTERS + {"logical_tick"}
      ensures Object(m["records" := w]).GetStr(key) == Object(m).GetStr(key)
      ensures Object(m["records" := w]).GetInteger(key) == Object(m).GetInteger(key)
    {
      FieldElsewhere(m, "records", w, key);
    }
  }

  /** Other records of the same number, or none that can be read. */
  lemma OtherRecordsAreLost(d: Digests, m: Fields, w: Value)
    requires ParseChain(Object(m)).Some?
    requires var before := ParseChain(Object(m)).value.records;
             match (if w.List? then ParseRecords(w.items) else None)
             case None => before != []
             case Some(after) => |after| == |before| && after != before
    ensures !Survives(d, ParseChain(Object(m)).value, ParseChain(Object(m["records" := w])))
  {
    hide ParseRecords, ParseChain, WellFormed;
    RecordsReplaced(m, w);
  }

  lemma SameRecordsSurvive(d: Digests, m: Fields, w: Value)
    requires ParseChain(Object(m)).Some? && WellFormed(d, ParseChain(Object(m)).value)
    requires w.List? && ParseRecords(w.items) == Some(ParseChain(Object(m)).value.records)
    ensures Survives(d, ParseChain(Object(m)).value, ParseChain(Object(m["records" := w])))
  {
    hide ParseRecords, ParseChain, WellFormed, Survives;
    RecordsReplaced(m, w);
    SameLinksSurvive(d, ParseChain(Object(m)).value, ParseChain(Object(m["records" := w])).value);
  }

  /** A text written into the list of records of a chain. */
  lemma WriteInRecordsKeptExactly(d: Digests, m: Fields, rest: seq<string>, text: string)
    requires ParseChain(Object(m)).Some? && WellFormed(d, ParseChain(Object(m)).value)
    requires |rest| > 1 && rest[0] == "records" && m["records"].items != []
    ensures Survives(d, ParseChain(Object(m)).value, ParseChain(Object(Updated(m, rest, Str(text))))) <==>
            HarmlessInRecords(m["records"].items, rest[1..], text)
  {
    hide ParseRecords, ParseChain, WellFormed, Survives, WithElement, HarmlessInRecord;
    ChainIsRead(Object(m));
    RecordsIsNoIndex();
    var items, c := m["records"].items, ParseChain(Object(m)).value;
    var n := Updated(m, rest, Str(text));
    assert n == (match SetIn(m, rest, Str(text)) case Some(w) => w case None => m);
    match ParseIndex(rest[1])
    case None => ItselfSurvives(d, c);
    case Some(j) =>
      var next := WithElement(items, j, rest, Str(text));
      assert n == m["records" := List(next)];
      RecordsKeptExactly(items, rest, rest[1..], text);
      ParsedOneByOne(items);
      if HarmlessInRecords(items, rest[1..], text) {
        SameRecordsSurvive(d, m, List(next));
      } else {
        OtherRecordsAreLost(d, m, List(next));
      }
  }

  lemma ItselfSurvives(d: Digests, c: AuditChain)
    requires WellFormed(d, c)
    ensures Survives(d, c, Some(c))
  {
  }

  lemma RecordsIsNoIndex()
    ensures ParseIndex("records").None?
  {
  }

  /** A text written by an index: into the list of records, if that is the only list. */
  lemma IndexWriteKeptExactly(d: Digests, m: Fields, rest: seq<string>, text: string)
    requires ParseChain(Object(m)).Some? && WellFormed(d, ParseChain(Object(m)).value)
    requires rest != [] && ParseIndex(rest[0]).Some? && m["records"].items != []
    ensures Survives(d, ParseChain(Object(m)).value, ParseChain(Object(Updated(m, rest, Str(text))))) <==>
            HarmlessInChain(m, m["records"].items, rest, text)
  {
    hide ParseRecords, ParseChain, WellFormed, Survives, ParseIndex;
    ChainIsRead(Object(m));
    var items, c, i := m["records"].items, ParseChain(Object(m)).value, ParseIndex(rest[0]).value;
    var n := Updated(m, rest, Str(text));
    IndexWrite(m, rest, i, Str(text));
    ParsedOneByOne(items);
    if ListKeys(m) == {"records"} && (i < |items| || |rest| == 1) {
      var next := Padded(items, i)[i := Str(text)];
      ElementKeptExactly(items, i, Str(text));
      NoRecord(Str(text));
      NothingIsRecord(items, i);
      OtherRecordsAreLost(d, m, List(next));
    } else {
      ItselfSurvives(d, c);
    }
  }

  /** What an index does to an object with a list of records. */
  lemma IndexWrite(m: Fields, rest: seq<string>, i: nat, v: Value)
    requires rest != [] && ParseIndex(rest[0]) == Some(i) && "records" in m && m["records"].List?
    ensures Updated(m, rest, v) ==
            if ListKeys(m) == {"records"} && (i < |m["records"].items| || |rest| == 1)
            then m["records" := List(Padded(m["records"].items, i)[i := v])] else m
  {
    hide ParseIndex, Padded;
    assert Updated(m, rest, v) == (match SetIn(m, rest, v) case Some(w) => w case None => m);
    OnlyListKey(m, "records");
    assert "records" in ListKeys(m);
    if |ListKeys(m)| == 1 { OnlyKeyIsIt(ListKeys(m), "records"); }
    PaddedWithin(m["records"].items, i);
  }

  lemma OnlyKeyIsIt(keys: set<string>, key: string)
    requires |keys| == 1 && key in keys
    ensures keys == {key}
  {
    assert |keys - {key}| == 0;
  }

  lemma PaddedWithin(items: seq<Value>, i: nat)
    ensures i < |items| ==> Padded(items, i) == items
  {
  }

  /** A text written into a well-formed chain that has records keeps it exactly when it is
      harmless there. */
  lemma ChainKeptExactly(d: Digests, m: Fields, rest: seq<string>, text: string)
    requires ParseChain(Object(m)).Some? && WellFormed(d, ParseChain(Object(m)).value)
    requires rest != [] && m["records"].items != []
    ensures Survives(d, ParseChain(Object(m)).value, ParseChain(Object(Updated(m, rest, Str(text))))) <==>
            HarmlessInChain(m, m["records"].items, rest, text)
  {
    hide ParseRecords, ParseChain, WellFormed, Survives, ParseIndex, HarmlessInRecords, Updated;
    ChainIsRead(Object(m));
    ParsedOneByOne(m["records"].items);
    var f, c, n := rest[0], ParseChain(Object(m)).value, Updated(m, rest, Str(text));
    RecordsIsNoIndex();
    LinksAreNoCounters();
    LostSurvivesExactly(d, c);
    if ParseIndex(f).Some? {
      IndexWriteKeptExactly(d, m, rest, text);
    } else if |rest| == 1 {
      assert rest == [f];
      WriteAt(m, f, Str(text));
      if f == "records" {
        OtherRecordsAreLost(d, m, Str(text));
      } else if f in LINKS {
        LinkKeptExactly(d, m, f, text);
      } else if f in COUNTERS {
        CountersAreNeeded(m, f, Str(text));
      } else {
        OtherFieldIsNotRead(d, m, f, Str(text));
      }
    } else if f == "records" {
      WriteInRecordsKeptExactly(d, m, rest, text);
    } else {
      WriteBelow(m, rest, Str(text));
      if n == m {
        ItselfSurvives(d, c);
        TextIsRead(m, f, Null);
        NumberIsRead(m, f);
      } else if f in LINKS {
        LinksAreTexts(m, f, n[f]);
      } else if f in COUNTERS {
        CountersAreNeeded(m, f, n[f]);
      } else {
        OtherFieldIsNotRead(d, m, f, n[f]);
      }
    }
  }

  lemma NumberIsRead(m: Fields, f: string)
    ensures Object(m).GetInteger(f).Some? ==> f in m && m[f].Integer?
  {
  }

  lemma LinksAreNoCounters()
    ensures LINKS !! COUNTERS && "records" !in LINKS && "records" !in COUNTERS
  {
  }

  // ------------------------------------------------------------------------
  // Chains without records
  // ------------------------------------------------------------------------

  /** A text makes no record: whatever is read afterwards has no more of them. */
  lemma NoRecordsAppear(d: Digests, m: Fields, rest: seq<string>, text: string)
    requires ParseChain(Object(m)).Some? && WellFormed(d, ParseChain(Object(m)).value)
    requires rest != [] && m["records"].items == []
    ensures Survives(d, ParseChain(Object(m)).value, ParseChain(Object(Updated(m, rest, Str(text))))) <==>
            HarmlessInChain(m, [], rest, text) || !(|rest| == 1 && rest[0] in LINKS)
  {
    hide ParseRecords, ParseChain, WellFormed, Survives, ParseIndex, HarmlessInRecords, Updated;
    ChainIsRead(Object(m));
    ParsedOneByOne(m["records"].items);
    var f, c, n := rest[0], ParseChain(Object(m)).value, Updated(m, rest, Str(text));
    RecordsIsNoIndex();
    LinksAreNoIndex();
    LinksAreNoCounters();
    assert c.records == [];
    LostSurvivesExactly(d, c);
    ItselfSurvives(d, c);
    if ParseIndex(f).Some? {
      IndexWrite(m, rest, ParseIndex(f).value, Str(text));
      if n != m { GrownListIsLost(m, ParseIndex(f).value, Str(text)); }
    } else if |rest| == 1 {
      assert rest == [f];
      WriteAt(m, f, Str(text));
      if f == "records" {
        RecordsReplaced(m, Str(text));
      } else if f in LINKS {
        LinkKeptExactly(d, m, f, text);
      } else if f in COUNTERS {
        CountersAreNeeded(m, f, Str(text));
      } else {
        OtherFieldIsNotRead(d, m, f, Str(text));
      }
    } else if f == "records" {
      DeepWriteInNoRecords(m, rest, Str(text));
    } else {
      WriteBelow(m, rest, Str(text));
      if n != m {
        if f in LINKS {
          LinksAreTexts(m, f, n[f]);
        } else if f in COUNTERS {
          CountersAreNeeded(m, f, n[f]);
        } else {
          OtherFieldIsNotRead(d, m, f, n[f]);
        }
      }
    }
  }

  lemma LinksAreNoIndex()
    ensures forall f | f in LINKS :: ParseIndex(f).None?
  {
    assert ParseIndex("root_hash").None? && ParseIndex("latest_hash").None?;
  }

  lemma GrownListIsLost(m: Fields, j: nat, w: Value)
    requires ParseChain(Object(m)).Some? && m["records"].items == [] && ParseRecord(w) == None
    ensures ParseChain(Object(m["records" := List(Padded([], j)[j := w])])) == None
  {
    hide ParseRecords, ParseRecord, ParseChain;
    ChainIsRead(Object(m));
    ElementKeptExactly([], j, w);
    RecordsReplaced(m, List(Padded([], j)[j := w]));
  }

  lemma FreshElementIsNoRecord(rest: seq<string>, v: Value)
    requires |rest| >= 2 && v.Str?
    ensures ParseRecord(if |rest| == 2 then v else Object(Updated(map[], rest[2..], v))) == None
  {
    hide ParseRecord, Updated;
    if |rest| == 2 {
      NoRecord(v);
    } else {
      FreshIsSmall(rest[2..], v);
      NoRecord(Object(Updated(map[], rest[2..], v)));
    }
  }

  lemma DeepWriteInNoRecords(m: Fields, rest: seq<string>, v: Value)
    requires ParseChain(Object(m)).Some? && m["records"].items == [] && |rest| > 1 && rest[0] == "records" && v.Str?
    ensures Updated(m, rest, v) == m || ParseChain(Object(Updated(m, rest, v))) == None
  {
    hide ParseRecords, ParseRecord, ParseChain, WithElement, ParseIndex;
    ChainIsRead(Object(m));
    RecordsIsNoIndex();
    assert Updated(m, rest, v) == (match SetIn(m, rest, v) case Some(w) => w case None => m);
    if ParseIndex(rest[1]).Some? {
      var j := ParseIndex(rest[1]).value;
      FreshElement(rest, j, v);
      FreshElementIsNoRecord(rest, v);
      GrownListIsLost(m, j, if |rest| == 2 then v else Object(Updated(map[], rest[2..], v)));
    }
  }

  lemma FreshElement(rest: seq<string>, j: nat, v: Value)
    requires |rest| >= 2
    ensures WithElement([], j, rest, v)
         == Padded([], j)[j := if |rest| == 2 then v else Object(Updated(map[], rest[2..], v))]
  {
    hide Updated;
  }

  // ------------------------------------------------------------------------
  // Messages in the state
  // ------------------------------------------------------------------------

  lemma ChainFieldsOf(st: State)
    requires ChainOf(st).Some?
    ensures AUDIT_CHAIN in st.data && st.data[AUDIT_CHAIN].Object?
    ensures var m := st.data[AUDIT_CHAIN].fields;
            ParseChain(Object(m)) == ChainOf(st) && "records" in m && m["records"].List?
  {
    hide ParseChain;
    ChainIsRead(st.data[AUDIT_CHAIN]);
  }

  /** Whatever the path: a message keeps a well-formed chain, with all its records, links and
      hashes, exactly when the place is harmless. */
  lemma MessageKeepsChainExactly(d: Digests, st: State, path: string, text: string)
    requires ChainOf(st).Some? && WellFormed(d, ChainIn(st)) && SetPath(st, path, Str(text)).Ok?
    ensures var next := SetPath(st, path, Str(text)).value;
            ChainIn(st).records <= ChainIn(next).records && WellFormed(d, ChainIn(next)) <==> Harmless(st, path, text)
  {
    hide ParseChain, SplitPath, WellFormed, SetIn, HarmlessInChain, ParseRecords, ParseIndex;
    ChainFieldsOf(st);
    var m := st.data[AUDIT_CHAIN].fields;
    var next := SetPath(st, path, Str(text)).value;
    assert Survives(d, ChainIn(st), ChainOf(next)) <==>
           ChainIn(st).records <= ChainIn(next).records && WellFormed(d, ChainIn(next));
    if path == "" {
      assert "" != AUDIT_CHAIN;
      ItselfSurvives(d, ChainIn(st));
    } else {
      MessageAlong(d, st, SplitPath(path), m, text, next);
    }
  }

  lemma MessageAlong(d: Digests, st: State, parts: seq<string>, m: Fields, text: string, next: State)
    requires AUDIT_CHAIN in st.data && st.data[AUDIT_CHAIN] == Object(m) && ParseChain(Object(m)).Some?
    requires WellFormed(d, ParseChain(Object(m)).value) && "records" in m && m["records"].List?
    requires if parts == [] then next == st
             else if |parts| == 1 then next == st.Set(parts[0], Str(text))
             else next.data == Updated(st.data, parts, Str(text))
    ensures Survives(d, ParseChain(Object(m)).value, ChainOf(next)) <==>
            parts == [] || parts[0] != AUDIT_CHAIN ||
            HarmlessInChain(m, m["records"].items, parts[1..], text) ||
            (m["records"].items == [] && !(|parts[1..]| == 1 && parts[1..][0] in LINKS))
  {
    hide ParseChain, WellFormed, ParseRecords, Survives, HarmlessInChain, ParseIndex;
    var c := ParseChain(Object(m)).value;
    ChainIsRead(Object(m));
    ParsedOneByOne(m["records"].items);
    ItselfSurvives(d, c);
    if parts == [] {
    } else if parts[0] != AUDIT_CHAIN {
      OtherPlaceKeepsChain(st, parts, Str(text), next);
    } else if |parts| == 1 {
      assert parts[1..] == [];
      LostSurvivesExactly(d, c);
      TextIsNoChain(text);
      NothingHarmless(m, m["records"].items, text);
    } else {
      ChainIsWrittenInto(st, parts, m, Str(text), next);
      if m["records"].items == [] {
        NoRecordsAppear(d, m, parts[1..], text);
      } else {
        ChainKeptExactly(d, m, parts[1..], text);
      }
    }
  }

  lemma NothingHarmless(m: Fields, items: seq<Value>, text: string)
    ensures !HarmlessInChain(m, items, [], text)
  {
  }

  lemma TextIsNoChain(text: string)
    ensures ParseChain(Str(text)) == None
  {
  }

  lemma OtherPlaceKeepsChain(st: State, parts: seq<string>, v: Value, next: State)
    requires parts != [] && parts[0] != AUDIT_CHAIN && st.Get(AUDIT_CHAIN).Some? && !st.Get(AUDIT_CHAIN).value.List?
    requires if |parts| == 1 then next == st.Set(parts[0], v) else next.data == Updated(st.data, parts, v)
    ensures next.Get(AUDIT_CHAIN) == st.Get(AUDIT_CHAIN)
  {
    hide ParseIndex, Padded, SetElement;
    if |parts| > 1 {
      if ParseIndex(parts[0]).None? {
        WriteTouchesHeadOnly(st.data, parts, v, AUDIT_CHAIN);
      } else {
        WriteByIndex(st.data, parts, v);
      }
    }
  }

  lemma ChainNameIsNoIndex()
    ensures ParseIndex(AUDIT_CHAIN).None?
  {
  }

  lemma ChainIsWrittenInto(st: State, parts: seq<string>, m: Fields, v: Value, next: State)
    requires |parts| > 1 && parts[0] == AUDIT_CHAIN && next.data == Updated(st.data, parts, v)
    requires AUDIT_CHAIN in st.data && st.data[AUDIT_CHAIN] == Object(m)
    ensures next.Get(AUDIT_CHAIN) == Some(Object(Updated(m, parts[1..], v)))
  {
    hide WithElement, ParseIndex;
    ChainNameIsNoIndex();
    assert next.data == (match SetIn(st.data, parts, v) case Some(w) => w case None => st.data);
  }

  /** Where there is no chain, no message makes one. */
  lemma NoChainFromMessages(st: State, path: string, text: string)
    requires AUDIT_CHAIN !in st.data && SetPath(st, path, Str(text)).Ok?
    ensures ChainOf(SetPath(st, path, Str(text)).value) == None
  {
    hide SplitPath, SetIn, ParseIndex, ParseChain;
    var parts, next := SplitPath(path), SetPath(st, path, Str(text)).value;
    TextIsNoChain(text);
    if path == "" {
      assert "" != AUDIT_CHAIN;
    } else if |parts| > 1 {
      ChainNameIsNoIndex();
      if parts[0] == AUDIT_CHAIN {
        FreshFieldIsNoChain(st.data, parts, Str(text));
      } else if ParseIndex(parts[0]).None? {
        WriteTouchesHeadOnly(st.data, parts, Str(text), AUDIT_CHAIN);
      } else {
        IndexWriteMakesNoField(st.data, parts, Str(text), AUDIT_CHAIN);
      }
    }
  }

  lemma IndexWriteMakesNoField(m: Fields, parts: seq<string>, v: Value, key: string)
    requires parts != [] && ParseIndex(parts[0]).Some? && key != parts[0] && key !in m
    ensures key !in Updated(m, parts, v)
  {
    hide ParseIndex, Padded, SetElement;
    assert Updated(m, parts, v) == (match SetIn(m, parts, v) case Some(w) => w case None => m);
    if m != map[] { WriteByIndex(m, parts, v); }
  }

  lemma FreshFieldIsNoChain(m: Fields, parts: seq<string>, v: Value)
    requires |parts| > 1 && ParseIndex(parts[0]).None? && parts[0] !in m
    ensures var n := Updated(m, parts, v); parts[0] in n && ParseChain(n[parts[0]]) == None
  {
    hide WithElement, ParseRecords, ParseIndex;
    var n := Updated(m, parts, v);
    assert n == (match SetIn(m, parts, v) case Some(w) => w case None => m);
    if ParseIndex(parts[1]).None? {
      FreshIsSmall(parts[1..], v);
      TwoKeysAreTwo(Updated(map[], parts[1..], v), "records", "root_hash");
    }
  }

  // ------------------------------------------------------------------------
  // Try and catch
  // ------------------------------------------------------------------------

  /** The instruction that is attempted and, if there is one, the handler, both well formed. */
  predicate Attempts(st: State, instr: Instruction, attempt: Instruction, rescue: Option<Instruction>) {
    instr.Param("try").Some? && ParseInstruction(ResolvePath(st, instr.params["try"])) == Ok(attempt) &&
    match instr.Param("catch")
    case None => rescue == None
    case Some(v) => rescue.Some? && ParseInstruction(ResolvePath(st, v)) == Ok(rescue.value)
  }

  /** A failed attempt leaves no trace but the message; a failing handler none but that. */
  lemma FailureRollsBack(env: Env, reg: Registry, st: State, instr: Instruction, attempt: Instruction,
                         rescue: Option<Instruction>, noted: State, c: Ctl)
    requires Attempts(st, instr, attempt, rescue) && Execute(env, reg, st, attempt, c).out.Failed?
    requires SetPath(st, ErrorAttr(st, instr), Str(env.errorText(Execute(env, reg, st, attempt, c).out.error))) ==
             Ok(noted)
    ensures var r := RunTryCatch(env, reg, st, instr, c);
            var d := Execute(env, reg, st, attempt, c).ctl;
            if rescue.None? || Execute(env, reg, noted, rescue.value, d).out.Failed? then r.out == Done(noted)
            else r == Execute(env, reg, noted, rescue.value, d)
  {
    hide Execute, ResolvePath, SetPath, ErrorAttr, ParseInstruction;
  }

  /** Errors of the attempt and of the handler never get out: try-catch fails exactly when
      the attempt fails and the place for the message is more than 64 segments deep. */
  lemma TryCatchFailsExactly(env: Env, reg: Registry, st: State, instr: Instruction, attempt: Instruction,
                             rescue: Option<Instruction>, c: Ctl)
    requires Attempts(st, instr, attempt, rescue)
    ensures RunTryCatch(env, reg, st, instr, c).out.Failed? <==>
            Execute(env, reg, st, attempt, c).out.Failed? && |SplitPath(ErrorAttr(st, instr))| > MAX_PATH_DEPTH
  {
    hide Execute, ResolvePath, ErrorAttr, ParseInstruction, SetIn;
    assert SplitPath("") == [];
    var r := Execute(env, reg, st, attempt, c);
    if r.out.Failed? {
      var text := Str(env.errorText(r.out.error));
      NotedUnlessTooDeep(st, ErrorAttr(st, instr), text);
      match SetPath(st, ErrorAttr(st, instr), text)
      case Ok(noted) => FailureRollsBack(env, reg, st, instr, attempt, rescue, noted, c);
      case Err(_) =>
    }
  }

  lemma NotedUnlessTooDeep(st: State, path: string, v: Value)
    ensures SetPath(st, path, v).Err? <==> |SplitPath(path)| > MAX_PATH_DEPTH
  {
    hide SetIn;
  }

  /** The attempt fails, the error is noted, and there is no handler or it fails as well. */
  ghost predicate Unrescued(env: Env, reg: Registry, st: State, instr: Instruction, attempt: Instruction,
                            rescue: Option<Instruction>, c: Ctl) {
    Attempts(st, instr, attempt, rescue) &&
    var r := Execute(env, reg, st, attempt, c);
    r.out.Failed? &&
    match SetPath(st, ErrorAttr(st, instr), Str(env.errorText(r.out.error)))
    case Ok(noted) => rescue == None || Execute(env, reg, noted, rescue.value, r.ctl).out.Failed?
    case Err(_) => false
  }

  lemma OnlyNoted(env: Env, reg: Registry, st: State, instr: Instruction, attempt: Instruction,
                  rescue: Option<Instruction>, c: Ctl) returns (text: string)
    requires Unrescued(env, reg, st, instr, attempt, rescue, c)
    ensures Execute(env, reg, st, attempt, c).out.Failed?
    ensures text == env.errorText(Execute(env, reg, st, attempt, c).out.error)
    ensures SetPath(st, ErrorAttr(st, instr), Str(text)).Ok? && |SplitPath(ErrorAttr(st, instr))| <= MAX_PATH_DEPTH
    ensures RunTryCatch(env, reg, st, instr, c).out == Done(SetPath(st, ErrorAttr(st, instr), Str(text)).value)
  {
    hide Execute, ResolvePath, ErrorAttr, ParseInstruction, SetPath, RunTryCatch, SplitPath;
    text := env.errorText(Execute(env, reg, st, attempt, c).out.error);
    NotedUnlessTooDeep(st, ErrorAttr(st, instr), Str(text));
    var noted := SetPath(st, ErrorAttr(st, instr), Str(text)).value;
    FailureRollsBack(env, reg, st, instr, attempt, rescue, noted, c);
  }

  /** After a failed attempt without a handler, or with one that fails as well, the chain is
      kept, and still well formed, exactly when the place for the message is harmless. */
  lemma FailedAttemptKeepsChainExactly(env: Env, reg: Registry, st: State, instr: Instruction, attempt: Instruction,
                                       rescue: Option<Instruction>, c: Ctl)
    requires Unrescued(env, reg, st, instr, attempt, rescue, c)
    requires ChainOf(st).Some? && WellFormed(env.digests, ChainIn(st))
    ensures match (Execute(env, reg, st, attempt, c).out, RunTryCatch(env, reg, st, instr, c).out)
            case (Failed(error), Done(next)) =>
              ChainIn(st).records <= ChainIn(next).records && WellFormed(env.digests, ChainIn(next)) <==>
              Harmless(st, ErrorAttr(st, instr), env.errorText(error))
            case _ => false
  {
    hide Execute, ErrorAttr, SetPath, Harmless, WellFormed, ChainIn, ChainOf, SplitPath, RunTryCatch, Unrescued;
    var text := OnlyNoted(env, reg, st, instr, attempt, rescue, c);
    MessageKeepsChainExactly(env.digests, st, ErrorAttr(st, instr), text);
  }

  /** A location that a write along `path` cannot reach: under another field, or diverging
      from the path where the write has a shape to land on. */
  predicate Spared(st: State, path: string, other: string) {
    var parts, others := SplitPath(path), SplitPath(other);
    other != "" && others != [] &&
    if path == "" then others[0] != ""
    else
      parts == [] || ((|parts| == 1 || ParseIndex(parts[0]).None?) && others[0] != parts[0]) ||
      (|parts| > 1 && Writable(st.data, parts) && KeepsNestedLists(st.data, parts) &&
       Diverges(st.ToValue(), parts, others) && GetPath(st, other).Some?)
  }

  /** Reading elsewhere is not disturbed by a message. */
  lemma ReadElsewhere(st: State, path: string, v: Value, other: string)
    requires Spared(st, path, other) && SetPath(st, path, v).Ok?
    ensures GetPath(SetPath(st, path, v).value, other) == GetPath(st, other)
  {
    hide SplitPath, Writable, KeepsNestedLists, SetIn, Diverges;
    var parts, others := SplitPath(path), SplitPath(other);
    var next := SetPath(st, path, v).value;
    if path == "" || (|parts| == 1 && others[0] != parts[0]) {
      OtherFieldIsRead(st, next, others);
    } else if |parts| > 1 && ParseIndex(parts[0]).None? && others[0] != parts[0] {
      SetPathWrites(st, path, v);
      WriteTouchesHeadOnly(st.data, parts, v, others[0]);
      OtherFieldIsRead(st, next, others);
    } else if |parts| > 1 {
      OtherReadsAreKept(st, path, v, other);
    }
  }

  lemma OtherFieldIsRead(a: State, b: State, parts: seq<string>)
    requires parts != [] && a.Get(parts[0]) == b.Get(parts[0])
    ensures Walk(a.ToValue(), parts) == Walk(b.ToValue(), parts)
  {
  }

  /** A failed attempt without a handler, or with one that fails as well, leaves nothing but the
      message: wherever the two may have written, every location off the place of the message
      reads as it did before. */
  lemma FailureLeavesOnlyMessage(env: Env, reg: Registry, st: State, instr: Instruction, attempt: Instruction,
                                 rescue: Option<Instruction>, c: Ctl, other: string)
    requires Unrescued(env, reg, st, instr, attempt, rescue, c) && Spared(st, ErrorAttr(st, instr), other)
    ensures match RunTryCatch(env, reg, st, instr, c).out
            case Done(next) => GetPath(next, other) == GetPath(st, other)
            case _ => false
  {
    hide Execute, ErrorAttr, SetPath, SplitPath, RunTryCatch, Spared, GetPath, Unrescued;
    var text := OnlyNoted(env, reg, st, instr, attempt, rescue, c);
    ReadElsewhere(st, ErrorAttr(st, instr), Str(text), other);
  }

  // ------------------------------------------------------------------------
  // A chain thrown away
  // ------------------------------------------------------------------------

  lemma PlainNameIsSet(st: State, name: string, v: Value)
    requires SplitPath(name) == [name]
    ensures SetPath(st, name, v) == Ok(st.Set(name, v))
  {
    hide SplitPath;
  }

  /** `execute_try_catch` on an unknown instruction, with the chain as the place for errors,
      throws the chain away. */
  lemma ErrorCanReplaceChain(env: Env, st: State, c: Ctl)
    requires c.depth + 1 < c.maxDepth && c.count + 1 < c.maxCount && ExecField(st, "dispatch_cases").None?
    ensures var reg := map["execute_try_catch" := TryCatch];
            var instr := Instruction("execute_try_catch",
              map["try" := Object(map["type" := Str("missing")]), "error_attr" := Str(AUDIT_CHAIN)], Null);
            var out := Execute(env, reg, st, instr, c).out;
            out.Done? && ChainIn(out.st).records == []
  {
    hide SplitPath, ParseChain, ExecField, Execute, RunTryCatch, RunCatch, Settles, Settle, SetPath,
         ParseInstruction, ChainIn;
    var reg := map["execute_try_catch" := TryCatch];
    var body := Object(map["type" := Str("missing")]);
    var instr := Instruction("execute_try_catch", map["try" := body, "error_attr" := Str(AUDIT_CHAIN)], Null);
    var d := c.Entered();
    ExecuteRegistered(env, reg, st, instr, c);
    MissingParses(st);
    var error := UnknownInstruction("missing");
    UnknownFails(env, reg, st, Simple("missing"), d);
    assert ErrorAttr(st, instr) == AUDIT_CHAIN;
    ChainNameIsPlain();
    var lost := st.Set(AUDIT_CHAIN, Str(env.errorText(error)));
    PlainNameIsSet(st, AUDIT_CHAIN, Str(env.errorText(error)));
    NoCatch(env, reg, st, lost, instr, d.Entered().Exited());
    LostChain(st, env.errorText(error));
    OnlyTry(env, reg, st, instr, body, d, lost);
  }

  lemma MissingParses(st: State)
    ensures var body := Object(map["type" := Str("missing")]);
            ParseInstruction(ResolvePath(st, body)) == Ok(Simple("missing"))
  {
  }

  lemma OnlyTry(env: Env, reg: Registry, st: State, instr: Instruction, body: Value, d: Ctl, noted: State)
    requires instr.Param("try") == Some(body) && ParseInstruction(ResolvePath(st, body)) == Ok(Simple("missing"))
    requires Execute(env, reg, st, Simple("missing"), d) ==
             Run(Failed(UnknownInstruction("missing")), d.Entered().Exited())
    requires SetPath(st, ErrorAttr(st, instr), Str(env.errorText(UnknownInstruction("missing")))) == Ok(noted)
    requires RunCatch(env, reg, st, noted, instr, d.Entered().Exited()).out == Done(noted)
    ensures RunTryCatch(env, reg, st, instr, d).out == Done(noted)
  {
    hide Execute, RunCatch, SetPath, ErrorAttr, ResolvePath, ParseInstruction;
  }

  lemma NoCatch(env: Env, reg: Registry, st: State, noted: State, instr: Instruction, c: Ctl)
    requires "catch" !in instr.params
    ensures RunCatch(env, reg, st, noted, instr, c) == Run(Done(noted), c)
  {
  }

  lemma UnknownFails(env: Env, reg: Registry, st: State, instr: Instruction, c: Ctl)
    requires instr.kind !in reg && ExecField(st, "dispatch_cases").None? && c.Refusal().None?
    ensures Execute(env, reg, st, instr, c) == Run(Failed(UnknownInstruction(instr.kind)), c.Entered().Exited())
  {
    SettleStep(env, reg, st, instr);
  }

  lemma LostChain(st: State, text: string)
    ensures ChainIn(st.Set(AUDIT_CHAIN, Str(text))) == EmptyChain
  {
  }

  lemma ChainNameIsPlain()
    ensures SplitPath(AUDIT_CHAIN) == [AUDIT_CHAIN]
  {
    SplitFromPlain(AUDIT_CHAIN, "", "");
    assert AUDIT_CHAIN + "" == AUDIT_CHAIN && "" + AUDIT_CHAIN == AUDIT_CHAIN;
  }
}
