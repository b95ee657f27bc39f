/** A reader for the canonical encoding, which the program does not have: it fixes the format
    byte by byte, by its tags, its two byte orders, its lengths and its texts.

    Main result: what was encoded is read back, for every sequence of values nested at most
    128 deep.
 */
module Decoding {
  import opened Values
  import opened Encoding

  // ------------------------------------------------------------------------
  // Words
  // ------------------------------------------------------------------------

  /** The number whose most significant byte comes first. */
  function ReadBE(bytes: seq<Byte>): nat {
    if bytes == [] then 0 else 256 * ReadBE(bytes[..|bytes| - 1]) + bytes[|bytes| - 1]
  }

  /** The number whose least significant byte comes first. */
  function ReadLE(bytes: seq<Byte>): nat {
    if bytes == [] then 0 else bytes[0] + 256 * ReadLE(bytes[1..])
  }

  lemma {:induction false} WordIsRead(n: nat, width: nat)
    requires n < Capacity(width)
    ensures ReadBE(BigEndian(n, width)) == n && ReadLE(LittleEndian(n, width)) == n
  {
    if width > 0 {
      WordIsRead(n / 256, width - 1);
      var b, l := BigEndian(n, width), LittleEndian(n, width);
      assert b[..|b| - 1] == BigEndian(n / 256, width - 1) && l[1..] == LittleEndian(n / 256, width - 1);
    }
  }

  // ------------------------------------------------------------------------
  // Texts
  // ------------------------------------------------------------------------

  /** The six bits that a byte after the first one carries. */
  function Bits(b: Byte): int {
    b as int - 0x80
  }

  /** The code point of a character encoded in all of `bytes` (RFC 3629, section 3). */
  function CodePoint(bytes: seq<Byte>): int {
    if bytes == [] then -1
    else
      var first := bytes[0] as int;
      match |bytes|
      case 1 => first
      case 2 => (first - 0xC0) * 0x40 + Bits(bytes[1])
      case 3 => (first - 0xE0) * 0x1000 + Bits(bytes[1]) * 0x40 + Bits(bytes[2])
      case 4 => (first - 0xF0) * 0x4_0000 + Bits(bytes[1]) * 0x1000 + Bits(bytes[2]) * 0x40 + Bits(bytes[3])
      case _ => -1
  }

  function ReadText(bytes: seq<Byte>): Option<string> {
    if bytes == [] then Some("")
    else
      var width := Utf8Width(bytes[0]);
      if |bytes| < width then None
      else
        var n := CodePoint(bytes[..width]);
        if 0 <= n < 0xD800 || 0xE000 <= n < 0x11_0000 then
          match ReadText(bytes[width..]) case Some(s) => Some([n as char] + s) case None => None
        else None
  }

  lemma CodePointIsRead(c: char)
    ensures CodePoint(Utf8Char(c)) == c as int
  {
    var n := c as int;
    SixBits(n);
    SixBits(n / 64);
    if n >= 0x1_0000 {
      FourBytesAreRead(c);
    } else if n >= 0x800 {
      ThreeBytesAreRead(c);
    }
  }

  lemma SixBits(n: nat)
    ensures n == n / 64 * 64 + n % 64
  {
  }

  lemma ThreeBytesAreRead(c: char)
    requires 0x800 <= c as int < 0x1_0000
    ensures CodePoint(Utf8Char(c)) == c as int
  {
    var n := c as int;
    SixBits(n);
    SixBits(n / 64);
    assert n / 4096 == n / 64 / 64;
  }

  lemma FourBytesAreRead(c: char)
    requires 0x1_0000 <= c as int
    ensures CodePoint(Utf8Char(c)) == c as int
  {
    var n := c as int;
    SixBits(n);
    SixBits(n / 64);
    SixBits(n / 4096);
    assert n / 4096 == n / 64 / 64 && n / 262144 == n / 4096 / 64;
  }

  lemma {:induction false} TextIsRead(s: string)
    ensures ReadText(Utf8(s)) == Some(s)
  {
    if s != [] {
      hide Utf8Char, CodePoint;
      var c, rest := s[0], Utf8(s[1..]);
      var bytes := Utf8Char(c) + rest;
      Utf8FirstByte(c);
      CodePointIsRead(c);
      TextIsRead(s[1..]);
      assert bytes[0] == Utf8Char(c)[0];
      assert bytes[..|Utf8Char(c)|] == Utf8Char(c) && bytes[|Utf8Char(c)|..] == rest;
      assert s == [c] + s[1..];
    }
  }

  // ------------------------------------------------------------------------
  // Values
  // ------------------------------------------------------------------------

  /** What was read, and the bytes behind it. */
  type Read<T> = Option<(T, seq<Byte>)>

  function ReadWord(bytes: seq<Byte>): (r: Read<nat>)
    ensures r.Some? ==> |r.value.1| < |bytes|
  {
    if |bytes| < 8 then None else Some((ReadBE(bytes[..8]), bytes[8..]))
  }

  function ReadPrefixed(bytes: seq<Byte>): (r: Read<seq<Byte>>)
    ensures r.Some? ==> |r.value.1| < |bytes|
  {
    match ReadWord(bytes)
    case Some((n, rest)) => if |rest| < n then None else Some((rest[..n], rest[n..]))
    case None => None
  }

  function ReadString(bytes: seq<Byte>): (r: Read<string>)
    ensures r.Some? ==> |r.value.1| < |bytes|
  {
    match ReadPrefixed(bytes)
    case Some((text, rest)) => (match ReadText(text) case Some(s) => Some((s, rest)) case None => None)
    case None => None
  }

  /** An integer or a float: eight bytes, the least significant one first. */
  function ReadNumber(bytes: seq<Byte>, signed: bool): (r: Read<Value>)
    ensures r.Some? ==> |r.value.1| < |bytes|
  {
    if |bytes| < 8 then None
    else
      var n := AsU64(ReadLE(bytes[..8]));
      Some((if signed then Integer(AsI64(n)) else Float(n), bytes[8..]))
  }

  function ReadValue(bytes: seq<Byte>): (r: Read<Value>)
    ensures r.Some? ==> |r.value.1| < |bytes|
    decreases |bytes|, 0
  {
    if bytes == [] then None
    else
      var tag, body := bytes[0], bytes[1..];
      if tag == 0 then Some((Null, body))
      else if tag == 1 then
        if body != [] && body[0] <= 1 then Some((Bool(body[0] == 1), body[1..])) else None
      else if tag == 2 || tag == 3 then ReadNumber(body, tag == 2)
      else if tag == 4 then
        match ReadString(body) case Some((s, rest)) => Some((Str(s), rest)) case None => None
      else if tag == 5 || tag == 6 then
        match ReadWord(body)
        case None => None
        case Some((n, rest)) =>
          if tag == 5 then
            match ReadItems(rest, n) case Some((items, more)) => Some((List(items), more)) case None => None
          else
            match ReadFields(rest, n) case Some((fields, more)) => Some((Object(fields), more)) case None => None
      else if tag == 8 then
        match ReadPrefixed(body) case Some((raw, rest)) => Some((Bytes(raw), rest)) case None => None
      else None
  }

  function ReadItems(bytes: seq<Byte>, n: nat): (r: Read<seq<Value>>)
    ensures r.Some? ==> |r.value.1| <= |bytes|
    decreases |bytes|, 1
  {
    if n == 0 then Some(([], bytes))
    else
      match ReadValue(bytes)
      case None => None
      case Some((v, rest)) =>
        match ReadItems(rest, n - 1) case Some((vs, more)) => Some(([v] + vs, more)) case None => None
  }

  function ReadFields(bytes: seq<Byte>, n: nat): (r: Read<map<string, Value>>)
    ensures r.Some? ==> |r.value.1| <= |bytes|
    decreases |bytes|, 1
  {
    if n == 0 then Some((map[], bytes))
    else
      match ReadString(bytes)
      case None => None
      case Some((key, rest)) =>
        match ReadValue(rest)
        case None => None
        case Some((v, left)) =>
          match ReadFields(left, n - 1) case Some((m, more)) => Some((m[key := v], more)) case None => None
  }

  lemma PrefixedIsRead(raw: seq<Byte>, rest: seq<Byte>)
    requires |raw| < WORD_LIMIT
    ensures ReadPrefixed(LengthPrefixed(raw) + rest) == Some((raw, rest))
  {
    CountIsRead(|raw|, raw + rest);
    assert LengthPrefixed(raw) + rest == WordBE(AsU64(|raw|)) + (raw + rest);
    assert (raw + rest)[..|raw|] == raw && (raw + rest)[|raw|..] == rest;
  }

  lemma CountIsRead(n: nat, rest: seq<Byte>)
    requires n < WORD_LIMIT
    ensures ReadWord(WordBE(AsU64(n)) + rest) == Some((n, rest))
  {
    CapacityOf8();
    WordIsRead(n, 8);
    var bytes := WordBE(AsU64(n)) + rest;
    assert bytes[..8] == WordBE(AsU64(n)) && bytes[8..] == rest;
  }

  lemma StringIsRead(s: string, rest: seq<Byte>)
    requires |Utf8(s)| < WORD_LIMIT
    ensures ReadString(LengthPrefixed(Utf8(s)) + rest) == Some((s, rest))
  {
    hide LengthPrefixed, ReadText, Utf8, ReadPrefixed;
    PrefixedIsRead(Utf8(s), rest);
    TextIsRead(s);
  }

  lemma NumberIsRead(n: U64, signed: bool, rest: seq<Byte>)
    ensures ReadNumber(WordLE(n) + rest, signed) == Some((if signed then Integer(AsI64(n)) else Float(n), rest))
  {
    CapacityOf8();
    WordIsRead(n, 8);
    assert (WordLE(n) + rest)[..8] == WordLE(n) && (WordLE(n) + rest)[8..] == rest;
  }

  lemma ScalarIsRead(v: Value, depth: nat, rest: seq<Byte>)
    requires depth <= 128 && (v.Null? || v.Bool? || v.Integer? || v.Float?)
    ensures ReadValue(EncodeAt(v, depth) + rest) == Some((v, rest))
  {
    hide ReadPrefixed, ReadString, ReadNumber, ReadWord, ReadItems, ReadFields, WordLE, AsU64, AsI64;
    var bytes := EncodeAt(v, depth) + rest;
    match v
    case Null => assert bytes[1..] == rest;
    case Bool(b) => assert bytes[1..][1..] == rest;
    case Integer(i) =>
      assert bytes[1..] == WordLE(AsU64(i)) + rest;
      NumberIsRead(AsU64(i), true, rest);
      CastsRoundTrip(0, i);
    case Float(bits) =>
      assert bytes[1..] == WordLE(bits) + rest;
      NumberIsRead(bits, false, rest);
    case _ =>
  }

  lemma TextualIsRead(v: Value, depth: nat, rest: seq<Byte>)
    requires depth <= 128 && LengthsFit(v) && (v.Str? || v.Bytes?)
    ensures ReadValue(EncodeAt(v, depth) + rest) == Some((v, rest))
  {
    hide ReadPrefixed, ReadString, ReadNumber, ReadWord, ReadItems, ReadFields, LengthPrefixed, Utf8;
    var bytes := EncodeAt(v, depth) + rest;
    if v.Str? {
      assert bytes[1..] == LengthPrefixed(Utf8(v.s)) + rest;
      StringIsRead(v.s, rest);
    } else {
      assert bytes[1..] == LengthPrefixed(v.raw) + rest;
      PrefixedIsRead(v.raw, rest);
    }
  }

  lemma ListIsRead(items: seq<Value>, depth: nat, body: seq<Byte>, rest: seq<Byte>)
    requires depth <= 128 && |items| < WORD_LIMIT && body == EncodeItems(items, depth + 1)
    requires ReadItems(body + rest, |items|) == Some((items, rest))
    ensures ReadValue(EncodeAt(List(items), depth) + rest) == Some((List(items), rest))
  {
    hide ReadPrefixed, ReadString, ReadNumber, ReadWord, ReadItems, ReadFields, WordBE, EncodeItems;
    var bytes := EncodeAt(List(items), depth) + rest;
    assert bytes[1..] == WordBE(AsU64(|items|)) + (body + rest);
    CountIsRead(|items|, body + rest);
  }

  lemma ObjectIsRead(m: map<string, Value>, depth: nat, body: seq<Byte>, rest: seq<Byte>)
    requires depth <= 128 && |m| < WORD_LIMIT && body == EncodeFields(Object(m), SortedKeys(m.Keys), depth + 1)
    requires ReadFields(body + rest, |m|) == Some((m, rest))
    ensures ReadValue(EncodeAt(Object(m), depth) + rest) == Some((Object(m), rest))
  {
    hide ReadPrefixed, ReadString, ReadNumber, ReadWord, ReadItems, ReadFields, WordBE, EncodeFields, SortedKeys, Utf8,
         LengthPrefixed;
    var bytes := EncodeAt(Object(m), depth) + rest;
    assert bytes[1..] == WordBE(AsU64(|m|)) + (body + rest);
    CountIsRead(|m|, body + rest);
  }

  lemma ItemsFit(items: seq<Value>, levels: nat)
    requires NestsWithin(List(items), levels) && LengthsFit(List(items))
    ensures |items| < WORD_LIMIT && (items == [] || levels > 0)
    ensures forall i | 0 <= i < |items| :: NestsWithin(items[i], levels - 1) && LengthsFit(items[i])
  {
    if items != [] { assert NestsWithin(items[0], levels - 1); }
  }

  lemma FieldsFit(m: map<string, Value>, levels: nat)
    requires NestsWithin(Object(m), levels) && LengthsFit(Object(m))
    ensures |m| < WORD_LIMIT && (m == map[] || levels > 0)
    ensures forall k | k in m :: NestsWithin(m[k], levels - 1) && LengthsFit(m[k]) && |Utf8(k)| < WORD_LIMIT
  {
    hide Utf8;
    if m != map[] {
      var k :| k in m;
      assert NestsWithin(m[k], levels - 1);
    }
  }

  lemma AllFields(m: map<string, Value>)
    ensures |SortedKeys(m.Keys)| == |m| && StrictlyOrdered(SortedKeys(m.Keys))
    ensures (map k | k in SortedKeys(m.Keys) :: m[k]) == m
    ensures m == map[] ==> SortedKeys(m.Keys) == []
  {
    assert |m| == |m.Keys|;
    SortedKeysAreOrdered(m.Keys);
  }

  /** Whatever follows, the encoding of a value is read as that value. */
  lemma {:induction false} ValueIsRead(v: Value, depth: nat, rest: seq<Byte>)
    requires depth <= 128 && NestsWithin(v, 128 - depth) && LengthsFit(v)
    ensures ReadValue(EncodeAt(v, depth) + rest) == Some((v, rest))
    decreases v, 1, 0
  {
    hide ReadValue, ReadItems, ReadFields, EncodeAt, EncodeItems, EncodeFields, NestsWithin, LengthsFit, SortedKeys;
    match v
    case List(items) =>
      ItemsFit(items, 128 - depth);
      ItemsAreRead(items, depth + 1, rest);
      ListIsRead(items, depth, EncodeItems(items, depth + 1), rest);
    case Object(m) =>
      FieldsFit(m, 128 - depth);
      AllFields(m);
      FieldsAreRead(v, SortedKeys(m.Keys), depth + 1, rest);
      ObjectIsRead(m, depth, EncodeFields(v, SortedKeys(m.Keys), depth + 1), rest);
    case Null => ScalarIsRead(v, depth, rest);
    case Bool(_) => ScalarIsRead(v, depth, rest);
    case Integer(_) => ScalarIsRead(v, depth, rest);
    case Float(_) => ScalarIsRead(v, depth, rest);
    case Str(_) => TextualIsRead(v, depth, rest);
    case Bytes(_) => TextualIsRead(v, depth, rest);
  }

  lemma {:induction false} ItemsAreRead(items: seq<Value>, depth: nat, rest: seq<Byte>)
    requires 0 < depth && (depth <= 128 || items == [])
    requires forall i | 0 <= i < |items| :: NestsWithin(items[i], 128 - depth) && LengthsFit(items[i])
    ensures ReadItems(EncodeItems(items, depth) + rest, |items|) == Some((items, rest))
    decreases items, 0, 0
  {
    hide EncodeAt, ReadValue, LengthsFit, NestsWithin;
    if items == [] {
      assert [] + rest == rest;
    } else {
      var more := EncodeItems(items[1..], depth) + rest;
      assert EncodeItems(items, depth) + rest == EncodeAt(items[0], depth) + more;
      ValueIsRead(items[0], depth, more);
      ItemsAreRead(items[1..], depth, rest);
      assert items == [items[0]] + items[1..];
    }
  }

  lemma {:induction false} FieldsAreRead(v: Value, keys: seq<string>, depth: nat, rest: seq<Byte>)
    requires v.Object? && 0 < depth && (depth <= 128 || keys == []) && StrictlyOrdered(keys)
    requires forall k | k in keys ::
               k in v.fields && NestsWithin(v.fields[k], 128 - depth) && LengthsFit(v.fields[k]) &&
               |Utf8(k)| < WORD_LIMIT
    ensures ReadFields(EncodeFields(v, keys, depth) + rest, |keys|) == Some((map k | k in keys :: v.fields[k], rest))
    decreases v, 0, |keys|
  {
    hide EncodeAt, ReadValue, LengthsFit, NestsWithin, LengthPrefixed, Utf8, ReadString;
    if keys == [] {
      assert [] + rest == rest;
    } else {
      var key, later := keys[0], keys[1..];
      var more := EncodeFields(v, later, depth) + rest;
      assert EncodeFields(v, keys, depth) + rest ==
             LengthPrefixed(Utf8(key)) + (EncodeAt(v.fields[key], depth) + more);
      StringIsRead(key, EncodeAt(v.fields[key], depth) + more);
      ValueIsRead(v.fields[key], depth, more);
      FieldsAreRead(v, later, depth, rest);
      BeforeIsTotal(key, key);
      assert forall i | 0 <= i < |later| :: later[i] == keys[i + 1];
      assert key !in later;
      assert (map k | k in later :: v.fields[k])[key := v.fields[key]] == map k | k in keys :: v.fields[k];
    }
  }

  function ReadAll(bytes: seq<Byte>): Option<seq<Value>>
    decreases |bytes|
  {
    if bytes == [] then Some([])
    else
      match ReadValue(bytes)
      case None => None
      case Some((v, rest)) => match ReadAll(rest) case Some(vs) => Some([v] + vs) case None => None
  }

  /** The bytes that are hashed are read back as the values they were made of. */
  lemma {:induction false} ContentIsRead(values: seq<Value>)
    requires forall v | v in values :: NestsWithin(v, 128) && LengthsFit(v)
    ensures ReadAll(EncodeAll(values)) == Some(values)
  {
    hide EncodeAt, ReadValue, LengthsFit, NestsWithin;
    if values != [] {
      ValueIsRead(values[0], 0, EncodeAll(values[1..]));
      ContentIsRead(values[1..]);
      assert values == [values[0]] + values[1..];
    }
  }
}
