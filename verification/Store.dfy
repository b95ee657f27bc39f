/** The immutable state and its path store: `split_path`, `get_path`, `set_path`.

    Main results: exactly which paths read back what was written to them, for every value
    (`ReadsBackExactly`); exactly when a write leaves every other location alone
    (`DivergingLocationsKeptExactly`); and that an unchanged version means unchanged data.
 */
module Store {
  import opened Values

  type Fields = map<string, Value>

  const MAX_PATH_DEPTH := 64

  const EXEC := "__exec__"
  const AUDIT_CHAIN := "__audit_chain"
  const AUDIT_TRACE := "__audit_trace"
  const PROVENANCE := "__parallel_provenance__"

  datatype State = State(data: Fields, version: nat)
  {
    function Get(key: string): Option<Value> {
      if key in data then Some(data[key]) else None
    }

    function Set(key: string, value: Value): State {
      State(data[key := value], version + 1)
    }

    function ToValue(): Value {
      Object(data)
    }

    /** The audited part of the state: everything but the four system fields. */
    function BusinessSnapshot(): Value {
      Object(data - {EXEC, AUDIT_CHAIN, AUDIT_TRACE, PROVENANCE})
    }
  }

  // ------------------------------------------------------------------------
  // Paths
  // ------------------------------------------------------------------------

  /** The segments of the rest of a path, `current` being the segment under way. */
  function SplitFrom(path: string, current: string, inBracket: bool): seq<string>
    decreases |path|
  {
    var done := if current == "" then [] else [current];
    if path == "" then done
    else if path[0] == '.' && !inBracket then done + SplitFrom(path[1..], "", inBracket)
    else if path[0] == '[' then done + SplitFrom(path[1..], "", true)
    else if path[0] == ']' then done + SplitFrom(path[1..], "", false)
    else SplitFrom(path[1..], current + [path[0]], inBracket)
  }

  function SplitPath(path: string): seq<string> {
    SplitFrom(path, "", false)
  }

  predicate Separates(c: char, inBracket: bool) {
    (c == '.' && !inBracket) || c == '[' || c == ']'
  }

  /** One character further: a separator closes the segment under way. */
  lemma SplitStep(path: string, i: nat, current: string, inBracket: bool, parts: seq<string>)
    requires i < |path|
    ensures var c := path[i];
            parts + SplitFrom(path[i..], current, inBracket) ==
              if Separates(c, inBracket)
              then (if current == "" then parts else parts + [current])
                   + SplitFrom(path[i + 1..], "", if c == '.' then inBracket else c == '[')
              else parts + SplitFrom(path[i + 1..], current + [c], inBracket)
  {
    assert path[i..][1..] == path[i + 1..];
    var c := path[i];
    var rest := SplitFrom(path[i + 1..], "", if c == '.' then inBracket else c == '[');
    assert [] + rest == rest;
    assert parts + ([current] + rest) == parts + [current] + rest;
  }

  method Split(path: string) returns (parts: seq<string>)
    ensures parts == SplitPath(path)
  {
    parts := [];
    var current, inBracket := "", false;
    for i := 0 to |path|
      invariant parts + SplitFrom(path[i..], current, inBracket) == SplitPath(path)
    {
      var ch := path[i];
      SplitStep(path, i, current, inBracket, parts);
      if Separates(ch, inBracket) {
        if current != "" { parts := parts + [current]; }
        current := "";
        if ch != '.' { inBracket := ch == '['; }
      } else {
        current := current + [ch];
      }
    }
    assert path[|path|..] == "";
    if current != "" { parts := parts + [current]; }
  }

  /** A segment that `split_path` keeps whole. */
  predicate PlainSegment(s: string) {
    s != "" && forall c | c in s :: c != '.' && c != '[' && c != ']'
  }

  function Dotted(parts: seq<string>): string {
    if parts == [] then ""
    else if |parts| == 1 then parts[0]
    else parts[0] + "." + Dotted(parts[1..])
  }

  lemma {:induction false} SplitFromPlain(s: string, rest: string, current: string)
    requires forall c | c in s :: c != '.' && c != '[' && c != ']'
    ensures SplitFrom(s + rest, current, false) == SplitFrom(rest, current + s, false)
    decreases |s|
  {
    if s == "" {
      assert s + rest == rest && current + s == current;
    } else {
      assert (s + rest)[1..] == s[1..] + rest && s[0] in s && (s + rest)[0] == s[0];
      assert forall c | c in s[1..] :: c in s;
      SplitFromPlain(s[1..], rest, current + [s[0]]);
      assert current + [s[0]] + s[1..] == current + s;
    }
  }

  /** Joining plain segments with dots and splitting again gives the segments. */
  lemma {:induction false} SplitOfDotted(parts: seq<string>)
    requires forall s | s in parts :: PlainSegment(s)
    ensures SplitPath(Dotted(parts)) == parts
  {
    if parts != [] {
      var s := parts[0];
      assert s in parts;
      if |parts| == 1 {
        SplitFromPlain(s, "", "");
        assert s + "" == s && "" + s == s;
      } else {
        var rest := Dotted(parts[1..]);
        SplitFromPlain(s, "." + rest, "");
        assert s + "." + rest == s + ("." + rest);
        assert ("." + rest)[1..] == rest && "" + s == s;
        SplitOfDotted(parts[1..]);
        assert parts == [s] + parts[1..];
      }
    }
  }

  /** A segment as it stands in a path: after a dot, or in brackets. */
  datatype Segment = Dot(name: string) | Bracket(name: string)

  /** In brackets a dot is part of the name. */
  predicate WellWritten(g: Segment) {
    match g
    case Dot(name) => PlainSegment(name)
    case Bracket(name) => name != "" && forall c | c in name :: c != '[' && c != ']'
  }

  /** The text of a path, without a dot in front of its first segment. */
  function PathText(segments: seq<Segment>, first: bool): string {
    if segments == [] then ""
    else
      match segments[0]
      case Dot(name) => (if first then name else "." + name) + PathText(segments[1..], false)
      case Bracket(name) => "[" + name + "]" + PathText(segments[1..], false)
  }

  function SegmentNames(segments: seq<Segment>): seq<string> {
    if segments == [] then [] else [segments[0].name] + SegmentNames(segments[1..])
  }

  lemma {:induction false} SplitFromBracket(s: string, rest: string, current: string)
    requires forall c | c in s :: c != '[' && c != ']'
    ensures SplitFrom(s + rest, current, true) == SplitFrom(rest, current + s, true)
    decreases |s|
  {
    if s == "" {
      assert s + rest == rest && current + s == current;
    } else {
      assert (s + rest)[1..] == s[1..] + rest && s[0] in s && (s + rest)[0] == s[0];
      assert forall c | c in s[1..] :: c in s;
      SplitFromBracket(s[1..], rest, current + [s[0]]);
      assert current + [s[0]] + s[1..] == current + s;
    }
  }

  /** Whatever segment is under way when the rest of a path begins is complete. */
  lemma {:induction false} SplitFromText(segments: seq<Segment>, current: string)
    requires forall g | g in segments :: WellWritten(g)
    ensures SplitFrom(PathText(segments, false), current, false) ==
            (if current == "" then [] else [current]) + SegmentNames(segments)
    decreases |segments|
  {
    hide SplitFrom, PathText, SegmentNames, WellWritten;
    if segments == [] {
      EndOfPath(current);
    } else {
      var g, rest := segments[0], segments[1..];
      assert forall h | h in rest :: h in segments;
      FirstSegment(segments);
      if g.Dot? {
        DotIsSplit(g.name, PathText(rest, false), current);
        SplitFromText(rest, g.name);
      } else {
        BracketIsSplit(g.name, PathText(rest, false), current);
        SplitFromText(rest, "");
      }
    }
  }

  lemma FirstSegment(segments: seq<Segment>)
    requires segments != [] && WellWritten(segments[0])
    ensures PathText(segments, false) ==
            (if segments[0].Dot? then "." + segments[0].name else "[" + segments[0].name + "]")
            + PathText(segments[1..], false)
    ensures SegmentNames(segments) == [segments[0].name] + SegmentNames(segments[1..])
    ensures segments[0].name != ""
    ensures if segments[0].Dot? then PlainSegment(segments[0].name)
            else forall c | c in segments[0].name :: c != '[' && c != ']'
  {
  }

  lemma EndOfPath(current: string)
    ensures SplitFrom(PathText([], false), current, false) ==
            (if current == "" then [] else [current]) + SegmentNames([])
  {
  }

  lemma DotIsSplit(name: string, rest: string, current: string)
    requires PlainSegment(name)
    ensures SplitFrom("." + name + rest, current, false) ==
            (if current == "" then [] else [current]) + SplitFrom(rest, name, false)
  {
    assert ("." + name + rest)[1..] == name + rest;
    SplitFromPlain(name, rest, "");
    assert "" + name == name;
  }

  lemma BracketIsSplit(name: string, rest: string, current: string)
    requires name != "" && forall c | c in name :: c != '[' && c != ']'
    ensures SplitFrom("[" + name + "]" + rest, current, false) ==
            (if current == "" then [] else [current]) + ([name] + SplitFrom(rest, "", false))
  {
    var path := "[" + name + "]" + rest;
    assert path[1..] == name + ("]" + rest);
    SplitFromBracket(name, "]" + rest, "");
    assert "" + name == name && ("]" + rest)[1..] == rest;
  }

  /** A path gives back the segments it was written from, with dots or in brackets. */
  lemma SplitOfPath(segments: seq<Segment>)
    requires forall g | g in segments :: WellWritten(g)
    ensures SplitPath(PathText(segments, true)) == SegmentNames(segments)
  {
    if segments != [] && segments[0].Dot? {
      var name, text := segments[0].name, PathText(segments[1..], false);
      assert segments[0] in segments && forall h | h in segments[1..] :: h in segments;
      SplitFromPlain(name, text, "");
      assert "" + name == name;
      SplitFromText(segments[1..], name);
    } else {
      SplitFromText(segments, "");
    }
  }

  function Digits(s: string, acc: nat): Option<nat>
    decreases |s|
  {
    if s == "" then Some(acc)
    else if '0' <= s[0] <= '9' then Digits(s[1..], 10 * acc + (s[0] as int - '0' as int))
    else None
  }

  /** `parse::<usize>` on a 64-bit machine: an optional plus sign, digits, no overflow. */
  function ParseIndex(s: string): Option<nat> {
    var digits := if s != "" && s[0] == '+' then s[1..] else s;
    if digits == "" then None
    else
      match Digits(digits, 0)
      case Some(n) => if n < 0x1_0000_0000_0000_0000 then Some(n) else None
      case None => None
  }

  /** The decimal text of a number. */
  function Decimal(n: nat): string {
    (if n < 10 then "" else Decimal(n / 10)) + [('0' as int + n % 10) as char]
  }

  function SignedDecimal(n: int): string {
    if n < 0 then "-" + Decimal(-n) else Decimal(n)
  }

  lemma {:induction false} DigitsThen(s: string, t: string, acc: nat)
    requires s != "" ==> Digits(s, acc).Some?
    ensures Digits(s + t, acc) == Digits(t, if s == "" then acc else Digits(s, acc).value)
    decreases |s|
  {
    if s == "" {
      assert s + t == t;
    } else {
      assert (s + t)[1..] == s[1..] + t;
      DigitsThen(s[1..], t, 10 * acc + (s[0] as int - '0' as int));
    }
  }

  lemma {:induction false} DecimalIsRead(n: nat)
    ensures Digits(Decimal(n), 0) == Some(n)
    ensures Decimal(n) != "" && '0' <= Decimal(n)[0] <= '9'
  {
    var last := [('0' as int + n % 10) as char];
    assert last[1..] == "";
    if n < 10 {
      assert "" + last == last;
    } else {
      DecimalIsRead(n / 10);
      DigitsThen(Decimal(n / 10), last, 0);
    }
  }

  predicate IsDigit(c: char) {
    '0' <= c <= '9'
  }

  /** The number that a text of digits stands for, leading zeros or not. */
  function Numeral(s: string): nat
    requires forall c | c in s :: IsDigit(c)
  {
    if s == "" then 0
    else
      var n := |s| - 1;
      assert IsDigit(s[n]) && forall c | c in s[..n] :: c in s;
      10 * Numeral(s[..n]) + (s[n] as int - '0' as int)
  }

  lemma {:induction false} DigitsExactly(s: string, acc: nat)
    ensures Digits(s, acc).Some? <==> forall c | c in s :: IsDigit(c)
    decreases |s|
  {
    if s != "" {
      if IsDigit(s[0]) { DigitsExactly(s[1..], 10 * acc + (s[0] as int - '0' as int)); }
      assert forall c :: c in s <==> c == s[0] || c in s[1..];
    }
  }

  lemma {:induction false} DigitsAreNumeral(s: string)
    requires forall c | c in s :: IsDigit(c)
    ensures Digits(s, 0) == Some(Numeral(s))
    decreases |s|
  {
    if s != "" {
      var n := |s| - 1;
      assert forall c | c in s[..n] :: c in s;
      DigitsAreNumeral(s[..n]);
      DigitsThen(s[..n], [s[n]], 0);
      assert s[..n] + [s[n]] == s && [s[n]][1..] == "" && s[n] in s;
    }
  }

  /** A segment is an index exactly if it consists of digits, at least one, after a plus sign or
      not, and the number fits a word. */
  lemma IndexesExactly(s: string)
    ensures var digits := if s != "" && s[0] == '+' then s[1..] else s;
            if digits != "" && (forall c | c in digits :: IsDigit(c)) && Numeral(digits) < 0x1_0000_0000_0000_0000
            then ParseIndex(s) == Some(Numeral(digits))
            else ParseIndex(s) == None
  {
    hide Digits, Numeral;
    var digits := if s != "" && s[0] == '+' then s[1..] else s;
    DigitsExactly(digits, 0);
    if forall c | c in digits :: IsDigit(c) { DigitsAreNumeral(digits); }
  }

  /** The text of an integer: a minus sign if it is negative, and then the digits of its size, the
      first of which is not zero unless it is all there is. */
  lemma {:induction false} IntegersAreSpelled(n: int)
    ensures var digits := if n < 0 then SignedDecimal(n)[1..] else SignedDecimal(n);
            (n < 0 ==> SignedDecimal(n)[0] == '-') && digits != "" && (forall c | c in digits :: IsDigit(c)) &&
            Numeral(digits) == (if n < 0 then -n else n) && (digits[0] == '0' ==> n == 0 && digits == "0")
  {
    var size := if n < 0 then -n else n;
    assert n < 0 ==> SignedDecimal(n)[1..] == Decimal(-n);
    DecimalIsCanonical(size);
  }

  lemma {:induction false} DecimalIsCanonical(n: nat)
    ensures Decimal(n) != "" && (forall c | c in Decimal(n) :: IsDigit(c)) && Numeral(Decimal(n)) == n
    ensures Decimal(n)[0] == '0' ==> Decimal(n) == "0"
    ensures n > 0 ==> Decimal(n)[0] != '0'
  {
    hide Numeral;
    var last := ('0' as int + n % 10) as char;
    var front := if n < 10 then "" else Decimal(n / 10);
    assert Decimal(n) == front + [last];
    if n < 10 {
      NothingIsZero();
    } else {
      DecimalIsCanonical(n / 10);
    }
    NumeralThen(front, last);
    assert n / 10 * 10 + n % 10 == n;
  }

  lemma NothingIsZero()
    ensures Numeral("") == 0
  {
  }

  lemma NumeralThen(s: string, c: char)
    requires IsDigit(c) && forall d | d in s :: IsDigit(d)
    ensures (forall d | d in s + [c] :: IsDigit(d)) && Numeral(s + [c]) == 10 * Numeral(s) + (c as int - '0' as int)
  {
    assert (s + [c])[..|s|] == s;
  }

  /** Decimal texts are read as the index they name, with or without a plus sign, as long as it
      fits a word. */
  lemma IndexesAreDecimal(n: nat)
    ensures ParseIndex(Decimal(n)) == if n < 0x1_0000_0000_0000_0000 then Some(n) else None
    ensures ParseIndex("+" + Decimal(n)) == ParseIndex(Decimal(n))
  {
    hide Digits, Decimal;
    DecimalIsRead(n);
    assert ("+" + Decimal(n))[1..] == Decimal(n);
  }

  // ------------------------------------------------------------------------
  // Reading
  // ------------------------------------------------------------------------

  /** Follows `parts` down from `v`; list segments are indexes, object segments are keys. */
  function Walk(v: Value, parts: seq<string>): Option<Value>
    decreases |parts|
  {
    if parts == [] then Some(v)
    else
      match v
      case Object(m) => if parts[0] in m then Walk(m[parts[0]], parts[1..]) else None
      case List(items) =>
        (match ParseIndex(parts[0])
         case Some(i) => if i < |items| then Walk(items[i], parts[1..]) else None
         case None => None)
      case _ => None
  }

  function GetPath(st: State, path: string): Option<Value> {
    if path == "" then Some(if "" in st.data then st.data[""] else st.ToValue())
    else
      var parts := SplitPath(path);
      if parts == [] then None else Walk(st.ToValue(), parts)
  }

  method ReadPath(st: State, path: string) returns (r: Option<Value>)
    ensures r == GetPath(st, path)
  {
    if path == "" {
      return Some(if "" in st.data then st.data[""] else st.ToValue());
    }
    var parts := Split(path);
    var current: Option<Value> := None;
    for i := 0 to |parts|
      invariant i == 0 ==> current == None
      invariant i > 0 ==> current.Some? && Walk(st.ToValue(), parts) == Walk(current.value, parts[i..])
    {
      assert i > 0 ==> parts[i..][1..] == parts[i + 1..];
      match current {
        case None => current := st.Get(parts[i]);
        case Some(Object(m)) => current := if parts[i] in m then Some(m[parts[i]]) else None;
        case Some(List(items)) =>
          var index := ParseIndex(parts[i]);
          if index.None? { return None; }
          current := if index.value < |items| then Some(items[index.value]) else None;
        case _ => return None;
      }
      if current.None? { return None; }
    }
    r := current;
  }

  // ------------------------------------------------------------------------
  // Writing
  // ------------------------------------------------------------------------

  /** `items` followed by as many nulls as index `j` needs. */
  function Padded(items: seq<Value>, j: nat): (r: seq<Value>)
    ensures |r| > j && |r| >= |items|
    ensures forall i | 0 <= i < |items| :: r[i] == items[i]
    ensures forall i | |items| <= i < |r| :: r[i] == Null
  {
    if j < |items| then items else items + seq(j + 1 - |items|, _ => Null)
  }

  method Pad(items: seq<Value>, j: nat) returns (r: seq<Value>)
    ensures r == Padded(items, j)
  {
    r := items;
    while |r| <= j
      invariant |items| <= |r| && (|items| <= j ==> |r| <= j + 1) && (j < |items| ==> r == items)
      invariant forall i | 0 <= i < |r| :: r[i] == if i < |items| then items[i] else Null
    {
      r := r + [Null];
    }
  }

  function ListKeys(m: Fields): set<string> {
    set k | k in m && m[k].List?
  }

  /** A bare index writes into the only list field; with no such field, or several, nothing
      is written. */
  function SetElement(m: Fields, index: nat, value: Value, isLast: bool): Option<Fields> {
    if |ListKeys(m)| != 1 then None
    else
      var key := SortedKeys(ListKeys(m))[0];
      assert key in SortedKeys(ListKeys(m));
      var items := m[key].items;
      if index < |items| then Some(m[key := List(items[index := value])])
      else if isLast then Some(m[key := List(Padded(items, index)[index := value])])
      else None
  }

  /** `set_path_recursive` on the segments still to go: the new fields, or None where the
      code hands back the state as it was. */
  function SetIn(m: Fields, parts: seq<string>, value: Value): Option<Fields>
    requires parts != []
    decreases |parts|, 1
  {
    var key := parts[0];
    match ParseIndex(key)
    case Some(index) =>
      if m == map[] then Some(map[key := List(Padded([], index)[index := value])])
      else SetElement(m, index, value, |parts| == 1)
    case None =>
      if |parts| == 1 then Some(m[key := value])
      else
        match (if key in m then m[key] else Null)
        case Object(sub) => Some(m[key := Object(Updated(sub, parts[1..], value))])
        case List(items) =>
          (match ParseIndex(parts[1])
           case Some(j) => Some(m[key := List(WithElement(items, j, parts, value))])
           case None => None)
        case _ =>
          (match ParseIndex(parts[1])
           case Some(j) => Some(m[key := List(WithElement([], j, parts, value))])
           case None => Some(m[key := Object(Updated(map[], parts[1..], value))]))
  }

  /** The fields after the write, changed or not. */
  function Updated(m: Fields, parts: seq<string>, value: Value): Fields
    requires parts != []
    decreases |parts|, 2
  {
    match SetIn(m, parts, value) case Some(n) => n case None => m
  }

  /** The list with the element at `j` replaced: by the value when the index is the last
      segment, else by the object found there, or a new one, after writing the rest. */
  function WithElement(items: seq<Value>, j: nat, parts: seq<string>, value: Value): seq<Value>
    requires |parts| >= 2
    decreases |parts|, 0
  {
    var element := if |parts| == 2 then value else Object(Updated(ElementFields(items, j), parts[2..], value));
    Padded(items, j)[j := element]
  }

  function ElementFields(items: seq<Value>, j: nat): Fields {
    if j < |items| && items[j].Object? then items[j].fields else map[]
  }

  function SetPath(st: State, path: string, value: Value): Result<State> {
    if path == "" then Ok(st.Set("", value))
    else
      var parts := SplitPath(path);
      if parts == [] then Ok(st)
      else if |parts| == 1 then Ok(st.Set(parts[0], value))
      else if |parts| > MAX_PATH_DEPTH then Err(PathDepthExceeded(|parts|, MAX_PATH_DEPTH))
      else
        match SetIn(st.data, parts, value)
        case Some(data) => Ok(State(data, st.version + 1))
        case None => Ok(st)
  }

  /** The version moves by at most one, and data only changes together with the version. */
  lemma UnchangedVersionMeansUnchangedData(st: State, path: string, value: Value)
    requires SetPath(st, path, value).Ok?
    ensures SetPath(st, path, value).value.version in {st.version, st.version + 1}
    ensures SetPath(st, path, value).value.version == st.version ==> SetPath(st, path, value).value == st
  {
  }

  /** A path of one segment is a key, whatever it looks like, and so is the empty path; one without
      segments writes nothing, and one of more than 64 is refused. */
  lemma ShortAndLongPaths(st: State, path: string, value: Value)
    ensures path == "" || SplitPath(path) == [path] ==>
              SetPath(st, path, value) == Ok(State(st.data[path := value], st.version + 1))
    ensures path != "" && SplitPath(path) == [] ==> SetPath(st, path, value) == Ok(st)
    ensures |SplitPath(path)| > 64 ==> SetPath(st, path, value) == Err(PathDepthExceeded(|SplitPath(path)|, 64))
  {
  }

  predicate OnlyList(m: Fields, key: string) {
    key in m && m[key].List? && forall k | k in m && m[k].List? :: k == key
  }

  /** A path that begins with an index, below the top or not, writes into the only list there is,
      over an element if it has that many, and whatever the path goes on with; past its end it
      is extended, with nulls in between, if the path ends with the index. Where there is nothing
      at all a new list is made, and otherwise nothing is written. */
  lemma IndexLedWrite(m: Fields, parts: seq<string>, value: Value, i: nat)
    requires parts != [] && ParseIndex(parts[0]) == Some(i)
    ensures m == map[] ==> SetIn(m, parts, value) == Some(map[parts[0] := List(seq(i, _ => Null) + [value])])
    ensures forall key | OnlyList(m, key) ::
              var items := m[key].items;
              SetIn(m, parts, value) ==
              if i < |items| then Some(m[key := List(items[i := value])])
              else if |parts| == 1 then Some(m[key := List(items + seq(i - |items|, _ => Null) + [value])])
              else None
    ensures m != map[] && (forall key :: !OnlyList(m, key)) ==> SetIn(m, parts, value) == None
  {
    if m == map[] { assert Padded([], i)[i := value] == seq(i, _ => Null) + [value]; }
    if |ListKeys(m)| == 1 {
      var key := SortedKeys(ListKeys(m))[0];
      OnlyListKey(m, key);
      assert key in ListKeys(m);
      forall k | k in m && m[k].List? ensures k == key { assert k in ListKeys(m); }
      assert OnlyList(m, key);
      var items := m[key].items;
      if i >= |items| { assert Padded(items, i)[i := value] == items + seq(i - |items|, _ => Null) + [value]; }
    }
    forall key | OnlyList(m, key) ensures |ListKeys(m)| == 1 && SortedKeys(ListKeys(m))[0] == key {
      assert ListKeys(m) == {key};
      OnlyListKey(m, key);
    }
  }

  /** A key below a list writes nothing, and the state is handed back as it was. */
  lemma KeyIntoListIsDropped(st: State, path: string, value: Value)
    requires path != "" && 2 <= |SplitPath(path)| <= 64
    requires var parts := SplitPath(path);
             ParseIndex(parts[0]) == None && ParseIndex(parts[1]) == None && parts[0] in st.data &&
             st.data[parts[0]].List?
    ensures SetPath(st, path, value) == Ok(st)
  {
  }

  // ------------------------------------------------------------------------
  // Reading back what was written
  // ------------------------------------------------------------------------

  /** The shapes of path and state for which a write lands where a read of the same path
      looks. An object met by an index, or a list met by a key, is not written; the one
      exception is an index written twice over, as in "[3][3]". */
  predicate Writable(m: Fields, parts: seq<string>)
    requires parts != []
    decreases |parts|
  {
    var key := parts[0];
    match ParseIndex(key)
    case Some(i) =>
      |parts| == 2 && ParseIndex(parts[1]) == Some(i) &&
      (m == map[] || (ListKeys(m) == {key} && i < |m[key].items|))
    case None =>
      |parts| == 1 ||
      match (if key in m then m[key] else Null)
      case Object(sub) => Writable(sub, parts[1..])
      case List(items) =>
        ParseIndex(parts[1]).Some? &&
        (|parts| == 2 || Writable(ElementFields(items, ParseIndex(parts[1]).value), parts[2..]))
      case _ =>
        if ParseIndex(parts[1]).Some? then |parts| == 2 || Writable(map[], parts[2..])
        else Writable(map[], parts[1..])
  }

  predicate PathWritable(st: State, path: string) {
    path == "" ||
    var parts := SplitPath(path);
    |parts| == 1 || (2 <= |parts| <= 64 && Writable(st.data, parts))
  }

  predicate ReadsBack(st: State, path: string, value: Value) {
    var r := SetPath(st, path, value);
    r.Ok? && GetPath(r.value, path) == Some(value)
  }

  lemma OnlyListKey(m: Fields, key: string)
    ensures |ListKeys(m)| == 1 && SortedKeys(ListKeys(m))[0] == key <==> ListKeys(m) == {key}
  {
    if |ListKeys(m)| == 1 {
      var k := SortedKeys(ListKeys(m))[0];
      assert k in SortedKeys(ListKeys(m));
      assert |ListKeys(m) - {k}| == 0;
      assert ListKeys(m) == {k};
    }
    if ListKeys(m) == {key} {
      assert SortedKeys(ListKeys(m))[0] in SortedKeys(ListKeys(m));
    }
  }

  lemma WalkInto(v: Value, parts: seq<string>)
    requires |parts| >= 2 && v.Object? && parts[0] in v.fields
    ensures v.fields[parts[0]].List? ==>
              Walk(v, parts) ==
                match ParseIndex(parts[1])
                case Some(j) =>
                  if j < |v.fields[parts[0]].items| then Walk(v.fields[parts[0]].items[j], parts[2..]) else None
                case None => None
    ensures Walk(v, parts) == Walk(v.fields[parts[0]], parts[1..])
  {
    assert parts[1..][1..] == parts[2..];
  }

  lemma {:induction false} WritableReadsBack(m: Fields, parts: seq<string>, value: Value)
    requires parts != [] && Writable(m, parts)
    ensures SetIn(m, parts, value).Some?
    ensures Walk(Object(Updated(m, parts, value)), parts) == Some(value)
    decreases |parts|
  {
    var n := Updated(m, parts, value);
    var key := parts[0];
    assert parts[1..] == [] ==> Walk(value, parts[1..]) == Some(value);
    if ParseIndex(key).Some? {
      OnlyListKey(m, key);
      assert SetIn(m, parts, value) == Some(n);
      WalkIfPresent(n, parts);
      assert parts[2..] == [] && Walk(value, parts[2..]) == Some(value);
    } else if |parts| > 1 {
      assert SetIn(m, parts, value) == Some(n);
      WalkIfPresent(n, parts);
      assert |parts| == 2 ==> parts[2..] == [] && Walk(value, parts[2..]) == Some(value);
      var found := if key in m then m[key] else Null;
      if found.Object? {
        WritableReadsBack(found.fields, parts[1..], value);
      } else if ParseIndex(parts[1]).Some? {
        var items := if found.List? then found.items else [];
        if |parts| > 2 { WritableReadsBack(ElementFields(items, ParseIndex(parts[1]).value), parts[2..], value); }
      } else {
        WritableReadsBack(map[], parts[1..], value);
      }
    }
  }

  predicate Misses(m: Fields, parts: seq<string>, b: bool)
    requires parts != []
  {
    Walk(Object(Updated(m, parts, Bool(b))), parts) != Some(Bool(b))
  }

  /** Outside the writable shapes at least one of the two booleans does not read back. */
  lemma {:induction false} UnwritableFails(m: Fields, parts: seq<string>)
    requires parts != [] && !Writable(m, parts)
    ensures Misses(m, parts, true) || Misses(m, parts, false)
    decreases |parts|
  {
    var key := parts[0];
    if ParseIndex(key).Some? {
      UnwritableIndexFails(m, parts);
    } else {
      var t, f := Updated(m, parts, Bool(true)), Updated(m, parts, Bool(false));
      assert t == (match SetIn(m, parts, Bool(true)) case Some(n) => n case None => m);
      assert f == (match SetIn(m, parts, Bool(false)) case Some(n) => n case None => m);
      WalkIfPresent(t, parts);
      WalkIfPresent(f, parts);
      var found := if key in m then m[key] else Null;
      if found.Object? {
        UnwritableFails(found.fields, parts[1..]);
      } else if ParseIndex(parts[1]).Some? {
        var items, j := if found.List? then found.items else [], ParseIndex(parts[1]).value;
        UnwritableFails(ElementFields(items, j), parts[2..]);
        WithElementAt(items, j, parts, Bool(true));
        WithElementAt(items, j, parts, Bool(false));
      } else if found.List? {
        assert t == m && f == m;
      } else {
        UnwritableFails(map[], parts[1..]);
      }
    }
  }

  lemma WalkIfPresent(m: Fields, parts: seq<string>)
    requires |parts| >= 2
    ensures parts[0] in m ==> Walk(Object(m), parts) == Walk(m[parts[0]], parts[1..])
    ensures parts[0] in m && m[parts[0]].List? ==>
              Walk(Object(m), parts) ==
                match ParseIndex(parts[1])
                case Some(j) => if j < |m[parts[0]].items| then Walk(m[parts[0]].items[j], parts[2..]) else None
                case None => None
  {
    if parts[0] in m { WalkInto(Object(m), parts); }
  }

  /** A write that starts with an index reads back at most what was there before. */
  lemma UnwritableIndexFails(m: Fields, parts: seq<string>)
    requires parts != [] && ParseIndex(parts[0]).Some? && !Writable(m, parts)
    ensures Misses(m, parts, true) || Misses(m, parts, false)
  {
    if !Misses(m, parts, true) && !Misses(m, parts, false) {
      IndexReadsOldOrNothing(m, parts, true);
      IndexReadsOldOrNothing(m, parts, false);
    }
  }

  lemma IndexReadsOldOrNothing(m: Fields, parts: seq<string>, b: bool)
    requires parts != [] && ParseIndex(parts[0]).Some? && !Writable(m, parts)
    requires !Misses(m, parts, b)
    ensures Walk(Object(m), parts) == Some(Bool(b))
  {
    var key, v := parts[0], Bool(b);
    var n := Updated(m, parts, v);
    assert n == (match SetIn(m, parts, v) case Some(w) => w case None => m);
    if |parts| >= 2 { WalkIfPresent(n, parts); WalkIfPresent(m, parts); }
    if |parts| > 2 { ScalarHasNoInside(b, parts[2..]); }
    if |parts| == 1 { assert parts[1..] == [] && (key in n ==> Walk(n[key], parts[1..]) == Some(n[key])); }
    if |parts| == 2 { assert parts[2..] == []; }
    if m != map[] {
      SetElementEffect(m, ParseIndex(key).value, v, |parts| == 1);
    }
  }

  lemma WithElementAt(items: seq<Value>, j: nat, parts: seq<string>, value: Value)
    requires |parts| >= 2
    ensures |WithElement(items, j, parts, value)| > j
    ensures WithElement(items, j, parts, value)[j] ==
              if |parts| == 2 then value else Object(Updated(ElementFields(items, j), parts[2..], value))
  {
  }

  lemma SetElementAt(m: Fields, index: nat, value: Value, isLast: bool) returns (key: string)
    requires SetElement(m, index, value, isLast).Some?
    ensures key in m && ListKeys(m) == {key}
    ensures SetElement(m, index, value, isLast) ==
            Some(m[key := List(Padded(m[key].items, index)[index := value])])
  {
    key := SortedKeys(ListKeys(m))[0];
    assert key in SortedKeys(ListKeys(m));
    OnlyListKey(m, key);
  }

  lemma SetElementEffect(m: Fields, index: nat, value: Value, isLast: bool)
    ensures var r := SetElement(m, index, value, isLast);
            r.Some? ==>
              exists key :: key in m && ListKeys(m) == {key} && r.value.Keys == m.Keys &&
                (forall k | k in m && k != key :: r.value[k] == m[k]) &&
                r.value[key] == List(Padded(m[key].items, index)[index := value]) &&
                (index < |m[key].items| || isLast)
  {
    if SetElement(m, index, value, isLast).Some? {
      var key := SortedKeys(ListKeys(m))[0];
      assert key in SortedKeys(ListKeys(m));
      OnlyListKey(m, key);
    }
  }

  lemma ScalarHasNoInside(b: bool, parts: seq<string>)
    requires parts != []
    ensures Walk(Bool(b), parts) == None
  {
  }

  lemma SetPathWrites(st: State, path: string, value: Value)
    requires path != "" && 2 <= |SplitPath(path)| <= MAX_PATH_DEPTH
    ensures SetPath(st, path, value).Ok?
    ensures SetPath(st, path, value).value.data == Updated(st.data, SplitPath(path), value)
  {
  }

  lemma MissingIsNotReadBack(st: State, path: string, b: bool)
    requires path != "" && 2 <= |SplitPath(path)| <= MAX_PATH_DEPTH
    requires Misses(st.data, SplitPath(path), b)
    ensures !ReadsBack(st, path, Bool(b))
  {
    SetPathWrites(st, path, Bool(b));
  }

  /** A path reads back every value written to it exactly when path and state have a
      writable shape. */
  lemma ReadsBackExactly(st: State, path: string)
    ensures (forall value :: ReadsBack(st, path, value)) <==> PathWritable(st, path)
  {
    if path != "" {
      var parts := SplitPath(path);
      if parts == [] || |parts| > MAX_PATH_DEPTH {
        assert !ReadsBack(st, path, Null);
      } else if |parts| > 1 {
        if Writable(st.data, parts) {
          forall value ensures ReadsBack(st, path, value) {
            SetPathWrites(st, path, value);
            WritableReadsBack(st.data, parts, value);
          }
        } else {
          UnwritableFails(st.data, parts);
          var b := Misses(st.data, parts, true);
          MissingIsNotReadBack(st, path, b);
        }
      } else {
        forall value ensures ReadsBack(st, path, value) {
          assert parts[1..] == [] && Walk(value, parts[1..]) == Some(value);
        }
      }
    }
  }

  /** Where nothing is there yet, paths that start with a key and never have two indexes in a
      row are writable. */
  predicate KeyLed(parts: seq<string>) {
    parts != [] && ParseIndex(parts[0]).None? &&
    forall i | 0 < i < |parts| :: ParseIndex(parts[i - 1]).None? || ParseIndex(parts[i]).None?
  }

  lemma {:induction false} KeyLedPathsAreWritableOnFreshKeys(m: Fields, parts: seq<string>)
    requires KeyLed(parts) && (parts[0] in m ==> !m[parts[0]].Object? && !m[parts[0]].List?)
    ensures Writable(m, parts)
    decreases |parts|
  {
    if |parts| > 1 {
      if ParseIndex(parts[1]).Some? {
        if |parts| > 2 {
          assert ParseIndex(parts[2 - 1]).None? || ParseIndex(parts[2]).None?;
          KeyLedPathsAreWritableOnFreshKeys(map[], parts[2..]);
        }
      } else {
        KeyLedPathsAreWritableOnFreshKeys(map[], parts[1..]);
      }
    }
  }

  // ------------------------------------------------------------------------
  // What a write leaves alone
  // ------------------------------------------------------------------------

  /** The paths `p` and `q` part company inside `v`: at an object by different keys, at a
      list by different indexes ("0" and "00" are the same index). */
  predicate Diverges(v: Value, p: seq<string>, q: seq<string>)
    decreases |p|
  {
    p != [] && q != [] &&
    match v
    case Object(m) => p[0] != q[0] || (p[0] in m && Diverges(m[p[0]], p[1..], q[1..]))
    case List(items) =>
      var i, j := ParseIndex(p[0]), ParseIndex(q[0]);
      i != j || i.None? || (i.value < |items| && Diverges(items[i.value], p[1..], q[1..]))
    case _ => false
  }

  /** The write does not go through an element of a list that is itself a list with something
      in it: such an element is replaced by a new object. */
  predicate KeepsNestedLists(m: Fields, parts: seq<string>)
    requires parts != []
    decreases |parts|
  {
    ParseIndex(parts[0]).Some? || |parts| == 1 ||
    match (if parts[0] in m then m[parts[0]] else Null)
    case Object(sub) => KeepsNestedLists(sub, parts[1..])
    case List(items) =>
      (match ParseIndex(parts[1])
       case Some(j) =>
         |parts| == 2 ||
         (!(j < |items| && items[j].List? && items[j].items != []) &&
           KeepsNestedLists(ElementFields(items, j), parts[2..]))
       case None => true)
    case _ => true
  }

  /** Every location that could be read before the write and diverges from the written path
      still reads the same. */
  lemma {:induction false} WriteKeepsDivergingLocations(m: Fields, parts: seq<string>, value: Value, q: seq<string>)
    requires parts != [] && Writable(m, parts) && KeepsNestedLists(m, parts)
    requires Diverges(Object(m), parts, q) && Walk(Object(m), q).Some?
    ensures Walk(Object(Updated(m, parts, value)), q) == Walk(Object(m), q)
    decreases |parts|, 1
  {
    var n, key := Updated(m, parts, value), parts[0];
    assert n == (match SetIn(m, parts, value) case Some(w) => w case None => m);
    if ParseIndex(key).Some? {
      WriteByIndexKeepsOthers(m, parts, value, q);
    } else if q[0] == key {
      assert |parts| > 1 && key in n && Diverges(m[key], parts[1..], q[1..]);
      if m[key].Object? {
        WriteKeepsDivergingLocations(m[key].fields, parts[1..], value, q[1..]);
      } else {
        WriteKeepsOtherElements(m, parts, value, q);
      }
    }
  }

  lemma WriteByIndexKeepsOthers(m: Fields, parts: seq<string>, value: Value, q: seq<string>)
    requires parts != [] && Writable(m, parts) && ParseIndex(parts[0]).Some?
    requires Diverges(Object(m), parts, q) && Walk(Object(m), q).Some?
    ensures Walk(Object(Updated(m, parts, value)), q) == Walk(Object(m), q)
  {
    var n, key := Updated(m, parts, value), parts[0];
    assert n == (match SetIn(m, parts, value) case Some(w) => w case None => m);
    SetElementEffect(m, ParseIndex(key).value, value, false);
    if q[0] == key {
      var below := q[1..];
      assert parts[1..][0] == parts[1] && parts[1..][1..] == [];
      assert Diverges(m[key], parts[1..], below);
      assert !Diverges(m[key].items[ParseIndex(key).value], [], below[1..]);
      assert ParseIndex(below[0]) != ParseIndex(key);
    }
  }

  lemma {:induction false} WriteKeepsOtherElements(m: Fields, parts: seq<string>, value: Value, q: seq<string>)
    requires |parts| >= 2 && Writable(m, parts) && KeepsNestedLists(m, parts)
    requires q != [] && ParseIndex(parts[0]).None? && parts[0] in m && m[parts[0]].List?
    requires Diverges(m[parts[0]], parts[1..], q[1..]) && Walk(m[parts[0]], q[1..]).Some?
    ensures ParseIndex(parts[1]).Some?
    ensures Walk(List(WithElement(m[parts[0]].items, ParseIndex(parts[1]).value, parts, value)), q[1..])
         == Walk(m[parts[0]], q[1..])
    decreases |parts|, 0
  {
    var items, j, below := m[parts[0]].items, ParseIndex(parts[1]).value, q[1..];
    WithElementAt(items, j, parts, value);
    assert parts[1..][1..] == parts[2..];
    if ParseIndex(below[0]) == Some(j) {
      assert Diverges(items[j], parts[2..], below[1..]);
      WriteKeepsDivergingLocations(ElementFields(items, j), parts[2..], value, below[1..]);
    }
  }

  ghost predicate KeepsAllDiverging(m: Fields, parts: seq<string>)
    requires parts != []
  {
    forall value, q | Diverges(Object(m), parts, q) && Walk(Object(m), q).Some? ::
      Walk(Object(Updated(m, parts, value)), q) == Walk(Object(m), q)
  }

  lemma WriteOnNothing(parts: seq<string>, value: Value)
    requires parts != [] && ParseIndex(parts[0]).None?
    ensures Updated(map[], parts, value).Keys == {parts[0]} && KeepsNestedLists(map[], parts)
  {
    assert Updated(map[], parts, value) == (match SetIn(map[], parts, value) case Some(w) => w case None => map[]);
  }

  /** A location that a write through a nested list loses. */
  lemma {:induction false} LostLocation(m: Fields, parts: seq<string>, value: Value) returns (q: seq<string>)
    requires KeyLed(parts) && Writable(m, parts) && !KeepsNestedLists(m, parts)
    ensures Diverges(Object(m), parts, q) && Walk(Object(m), q).Some?
    ensures Walk(Object(Updated(m, parts, value)), q) != Walk(Object(m), q)
    decreases |parts|, 1
  {
    hide ParseIndex, WithElement;
    var n, key := Updated(m, parts, value), parts[0];
    assert n == (match SetIn(m, parts, value) case Some(w) => w case None => m);
    assert |parts| > 2 ==> ParseIndex(parts[2 - 1]).None? || ParseIndex(parts[2]).None?;
    if m[key].Object? {
      var below := LostLocation(m[key].fields, parts[1..], value);
      q := [key] + below;
      assert q[1..] == below;
    } else {
      var below := LostElement(m[key].items, parts, value);
      q := [key] + below;
      assert q[1..] == below;
    }
  }

  lemma {:induction false} LostElement(items: seq<Value>, parts: seq<string>, value: Value) returns (q: seq<string>)
    requires |parts| > 2 && KeyLed(parts) && KeyLed(parts[2..]) && ParseIndex(parts[1]).Some?
    requires Writable(ElementFields(items, ParseIndex(parts[1]).value), parts[2..])
    requires var j := ParseIndex(parts[1]).value;
             (j < |items| && items[j].List? && items[j].items != []) ||
               !KeepsNestedLists(ElementFields(items, j), parts[2..])
    ensures Diverges(List(items), parts[1..], q) && Walk(List(items), q).Some?
    ensures Walk(List(WithElement(items, ParseIndex(parts[1]).value, parts, value)), q) != Walk(List(items), q)
    decreases |parts|, 0
  {
    hide ParseIndex, WithElement, Writable;
    var j := ParseIndex(parts[1]).value;
    WithElementAt(items, j, parts, value);
    assert parts[1..][1..] == parts[2..];
    if j < |items| && items[j].List? && items[j].items != [] {
      q := [parts[1], "0"];
      ZeroIsIndex();
      WriteOnNothing(parts[2..], value);
      assert q[1..] == ["0"] && ["0"][1..] == [];
      WalkToEnd(items[j].items[0]);
      assert Walk(items[j], ["0"]) == Some(items[j].items[0]);
      assert Walk(Object(Updated(map[], parts[2..], value)), ["0"]) == None;
    } else {
      WriteOnNothing(parts[2..], value);
      var below := LostLocation(ElementFields(items, j), parts[2..], value);
      q := [parts[1]] + below;
      assert q[1..] == below;
    }
  }

  lemma ZeroIsIndex()
    ensures ParseIndex("0") == Some(0)
  {
  }

  lemma WalkToEnd(v: Value)
    ensures Walk(v, []) == Some(v)
  {
  }

  /** On paths led by a key and without two indexes in a row, where the write reads back:
      every location that diverges from the path keeps its value, whatever is written, exactly
      when the path does not lead through a list inside a list. */
  lemma DivergingLocationsKeptExactly(m: Fields, parts: seq<string>)
    requires KeyLed(parts) && Writable(m, parts)
    ensures KeepsAllDiverging(m, parts) <==> KeepsNestedLists(m, parts)
  {
    if KeepsNestedLists(m, parts) {
      forall value, q | Diverges(Object(m), parts, q) && Walk(Object(m), q).Some?
        ensures Walk(Object(Updated(m, parts, value)), q) == Walk(Object(m), q)
      {
        WriteKeepsDivergingLocations(m, parts, value, q);
      }
    } else {
      var q := LostLocation(m, parts, Null);
    }
  }

  /** The same of whole states: reading anywhere else is not disturbed by a write. */
  lemma OtherReadsAreKept(st: State, path: string, value: Value, other: string)
    requires path != "" && other != "" && 2 <= |SplitPath(path)| <= MAX_PATH_DEPTH
    requires Writable(st.data, SplitPath(path)) && KeepsNestedLists(st.data, SplitPath(path))
    requires Diverges(st.ToValue(), SplitPath(path), SplitPath(other)) && GetPath(st, other).Some?
    ensures SetPath(st, path, value).Ok? && GetPath(SetPath(st, path, value).value, other) == GetPath(st, other)
  {
    hide SplitPath, Writable, KeepsNestedLists, Diverges, SetIn;
    SetPathWrites(st, path, value);
    assert SplitPath(other) != [] by { DivergesSomewhere(st.ToValue(), SplitPath(path), SplitPath(other)); }
    WriteKeepsDivergingLocations(st.data, SplitPath(path), value, SplitPath(other));
  }

  lemma DivergesSomewhere(v: Value, p: seq<string>, q: seq<string>)
    requires Diverges(v, p, q)
    ensures q != []
  {
  }

  /** A list inside a list is lost when a path goes through it. */
  lemma NestedListIsReplaced(value: Value)
    ensures var m: Fields := map["a" := List([List([Null])])];
            var p, q := ["a", "0", "x"], ["a", "0", "0"];
            Writable(m, p) && Diverges(Object(m), p, q) && Walk(Object(m), q) == Some(Null) &&
            Walk(Object(Updated(m, p, value)), q) == None
  {
    var m: Fields := map["a" := List([List([Null])])];
    var p, q := ["a", "0", "x"], ["a", "0", "0"];
    assert ParseIndex("0") == Some(0) && ParseIndex("a") == None && ParseIndex("x") == None;
    assert p[1..] == ["0", "x"] && p[2..] == ["x"] && q[1..] == ["0", "0"] && q[2..] == ["0"];
    assert q[1..][1..] == ["0"] && q[2..][1..] == [] && p[1..][1..] == ["x"];
    WithElementAt([List([Null])], 0, p, value);
    assert Updated(map[], ["x"], value) == map["x" := value];
    assert Updated(m, p, value) == (match SetIn(m, p, value) case Some(w) => w case None => m);
    assert Walk(Object(map["x" := value]), ["0"]) == None;
  }
}
