/** The byte encoding that is fed to SHA-256 by `content_hash`: tagged, length-prefixed,
    with the keys of an object in order, and cut off below nesting depth 128.

    Main result: two sequences of values have the same encoding exactly when they agree
    element by element down to the cut-off.
 */
module Encoding {
  import opened Values

  // ------------------------------------------------------------------------
  // Fixed-width integers
  // ------------------------------------------------------------------------

  function BigEndian(n: nat, width: nat): (r: seq<Byte>)
    ensures |r| == width
  {
    if width == 0 then [] else BigEndian(n / 256, width - 1) + [n % 256]
  }

  function LittleEndian(n: nat, width: nat): (r: seq<Byte>)
    ensures |r| == width
  {
    if width == 0 then [] else [n % 256] + LittleEndian(n / 256, width - 1)
  }

  function Capacity(width: nat): (c: nat)
    ensures c >= 1
  {
    if width == 0 then 1 else 256 * Capacity(width - 1)
  }

  lemma {:induction false} BigEndianIsInjective(m: nat, n: nat, width: nat)
    requires m < Capacity(width) && n < Capacity(width)
    requires BigEndian(m, width) == BigEndian(n, width)
    ensures m == n
  {
    if width > 0 {
      var a, b := BigEndian(m / 256, width - 1), BigEndian(n / 256, width - 1);
      assert (a + [m % 256])[..width - 1] == a && (b + [n % 256])[..width - 1] == b;
      assert (a + [m % 256])[width - 1] == m % 256 && (b + [n % 256])[width - 1] == n % 256;
      BigEndianIsInjective(m / 256, n / 256, width - 1);
    }
  }

  lemma {:induction false} LittleEndianIsInjective(m: nat, n: nat, width: nat)
    requires m < Capacity(width) && n < Capacity(width)
    requires LittleEndian(m, width) == LittleEndian(n, width)
    ensures m == n
  {
    if width > 0 {
      var a, b := LittleEndian(m, width), LittleEndian(n, width);
      assert a[0] == b[0] && a[1..] == b[1..];
      LittleEndianIsInjective(m / 256, n / 256, width - 1);
    }
  }

  function WordBE(n: U64): (r: seq<Byte>)
    ensures |r| == 8
  {
    BigEndian(n, 8)
  }

  function WordLE(n: U64): (r: seq<Byte>)
    ensures |r| == 8
  {
    LittleEndian(n, 8)
  }

  lemma WordsAreInjective(m: U64, n: U64)
    ensures WordBE(m) == WordBE(n) ==> m == n
    ensures WordLE(m) == WordLE(n) ==> m == n
  {
    CapacityOf8();
    if WordBE(m) == WordBE(n) { BigEndianIsInjective(m, n, 8); }
    if WordLE(m) == WordLE(n) { LittleEndianIsInjective(m, n, 8); }
  }

  lemma CapacityOf8()
    ensures Capacity(8) == 0x1_0000_0000_0000_0000
  {
    assert Capacity(4) == 0x1_0000_0000;
  }

  // ------------------------------------------------------------------------
  // UTF-8 (RFC 3629, section 3)
  // ------------------------------------------------------------------------

  function Utf8Char(c: char): (r: seq<Byte>)
    ensures 1 <= |r| <= 4
  {
    var n := c as int;
    if n < 0x80 then [n]
    else if n < 0x800 then [0xC0 + n / 64, 0x80 + n % 64]
    else if n < 0x1_0000 then [0xE0 + n / 4096, 0x80 + n / 64 % 64, 0x80 + n % 64]
    else [0xF0 + n / 262144, 0x80 + n / 4096 % 64, 0x80 + n / 64 % 64, 0x80 + n % 64]
  }

  function Utf8(s: string): seq<Byte> {
    if s == [] then [] else Utf8Char(s[0]) + Utf8(s[1..])
  }

  lemma SplitEqual<T>(a: seq<T>, b: seq<T>, x: seq<T>, y: seq<T>)
    requires a + x == b + y && |a| == |b|
    ensures a == b && x == y
  {
    assert a == (a + x)[..|a|] && b == (b + y)[..|b|];
    assert x == (a + x)[|a|..] && y == (b + y)[|b|..];
  }

  /** The first byte of a character tells the length of its encoding. */
  function Utf8Width(first: Byte): nat {
    if first < 0xC0 then 1 else if first < 0xE0 then 2 else if first < 0xF0 then 3 else 4
  }

  lemma Utf8FirstByte(c: char)
    ensures |Utf8Char(c)| == Utf8Width(Utf8Char(c)[0])
  {
  }

  lemma Utf8CharIsInjective(c: char, d: char)
    requires Utf8Char(c) == Utf8Char(d)
    ensures c == d
  {
    var m, n := c as int, d as int;
    Utf8FirstByte(c);
    assert m < 0x80 ==> m == n;
    assert 0x80 <= m < 0x800 ==> m == n by {
      if 0x80 <= m < 0x800 {
        assert Utf8Char(c)[0] == Utf8Char(d)[0] && Utf8Char(c)[1] == Utf8Char(d)[1];
      }
    }
    assert 0x800 <= m < 0x1_0000 ==> m == n by {
      if 0x800 <= m < 0x1_0000 {
        assert Utf8Char(c)[0] == Utf8Char(d)[0] && Utf8Char(c)[1] == Utf8Char(d)[1] && Utf8Char(c)[2] == Utf8Char(d)[2];
        DigitsDetermine(m / 64, n / 64);
      }
    }
    assert 0x1_0000 <= m ==> m == n by {
      if 0x1_0000 <= m {
        assert Utf8Char(c)[0] == Utf8Char(d)[0] && Utf8Char(c)[1] == Utf8Char(d)[1]
            && Utf8Char(c)[2] == Utf8Char(d)[2] && Utf8Char(c)[3] == Utf8Char(d)[3];
        DigitsDetermine(m / 4096, n / 4096);
        DigitsDetermine(m / 64, n / 64);
      }
    }
  }

  lemma DigitsDetermine(m: nat, n: nat)
    requires m / 64 == n / 64 && m % 64 == n % 64
    ensures m == n
  {
  }

  lemma Utf8CharIsPrefixFree(c: char, d: char, x: seq<Byte>, y: seq<Byte>)
    requires Utf8Char(c) + x == Utf8Char(d) + y
    ensures c == d && x == y
  {
    assert Utf8Char(c)[0] == (Utf8Char(c) + x)[0] && Utf8Char(d)[0] == (Utf8Char(d) + y)[0];
    Utf8FirstByte(c);
    Utf8FirstByte(d);
    SplitEqual(Utf8Char(c), Utf8Char(d), x, y);
    Utf8CharIsInjective(c, d);
  }

  lemma {:induction false} Utf8IsInjective(s: string, t: string)
    requires Utf8(s) == Utf8(t)
    ensures s == t
  {
    if s != [] && t != [] {
      Utf8CharIsPrefixFree(s[0], t[0], Utf8(s[1..]), Utf8(t[1..]));
      Utf8IsInjective(s[1..], t[1..]);
      assert s == [s[0]] + s[1..] && t == [t[0]] + t[1..];
    }
  }

  // ------------------------------------------------------------------------
  // The encoding of values
  // ------------------------------------------------------------------------

  const MAX_HASH_DEPTH := 128

  /** Bytes after their length as a big-endian 64-bit word. */
  function LengthPrefixed(bytes: seq<Byte>): seq<Byte> {
    WordBE(AsU64(|bytes|)) + bytes
  }

  function EncodeAt(v: Value, depth: nat): (r: seq<Byte>)
    ensures |r| >= 1
    decreases v, 1, 0
  {
    if depth > MAX_HASH_DEPTH then [0x07]
    else
      match v
      case Null => [0x00]
      case Bool(b) => [0x01, if b then 1 else 0]
      case Integer(i) => [0x02] + WordLE(AsU64(i))
      case Float(bits) => [0x03] + WordLE(bits)
      case Str(s) => [0x04] + LengthPrefixed(Utf8(s))
      case List(items) => [0x05] + (WordBE(AsU64(|items|)) + EncodeItems(items, depth + 1))
      case Object(m) => [0x06] + (WordBE(AsU64(|m|)) + EncodeFields(v, SortedKeys(m.Keys), depth + 1))
      case Bytes(raw) => [0x08] + LengthPrefixed(raw)
  }

  function EncodeItems(items: seq<Value>, depth: nat): seq<Byte>
    decreases items, 0, 0
  {
    if items == [] then [] else EncodeAt(items[0], depth) + EncodeItems(items[1..], depth)
  }

  function EncodeFields(v: Value, keys: seq<string>, depth: nat): seq<Byte>
    requires v.Object? && forall k | k in keys :: k in v.fields
    decreases v, 0, |keys|
  {
    if keys == [] then []
    else LengthPrefixed(Utf8(keys[0])) + (EncodeAt(v.fields[keys[0]], depth) + EncodeFields(v, keys[1..], depth))
  }

  /** What `content_hash` feeds to the hash function. */
  function EncodeAll(values: seq<Value>): seq<Byte> {
    EncodeItems(values, 0)
  }

  // ------------------------------------------------------------------------
  // Agreement down to the cut-off
  // ------------------------------------------------------------------------

  /** `v` and `w` are the same as far as nesting depth 128, counting from `depth`. */
  ghost predicate AgreeFrom(v: Value, w: Value, depth: nat) {
    depth > MAX_HASH_DEPTH ||
    match v
    case List(items) =>
      w.List? && |items| == |w.items| &&
      forall i | 0 <= i < |items| :: AgreeFrom(items[i], w.items[i], depth + 1)
    case Object(m) =>
      w.Object? && m.Keys == w.fields.Keys &&
      forall k | k in m :: AgreeFrom(m[k], w.fields[k], depth + 1)
    case _ => v == w
  }

  const WORD_LIMIT := 0x1_0000_0000_0000_0000

  /** Every length in the value fits the 64-bit length word, as any length in memory does. */
  ghost predicate LengthsFit(v: Value) {
    match v
    case Str(s) => |Utf8(s)| < WORD_LIMIT
    case Bytes(raw) => |raw| < WORD_LIMIT
    case List(items) => |items| < WORD_LIMIT && forall i | 0 <= i < |items| :: LengthsFit(items[i])
    case Object(m) => |m| < WORD_LIMIT && forall k | k in m :: |Utf8(k)| < WORD_LIMIT && LengthsFit(m[k])
    case _ => true
  }

  /** `v` has at most `levels` levels of containers below it. */
  ghost predicate NestsWithin(v: Value, levels: nat) {
    match v
    case List(items) =>
      forall i | 0 <= i < |items| :: levels > 0 && NestsWithin(items[i], levels - 1)
    case Object(m) => forall k | k in m :: levels > 0 && NestsWithin(m[k], levels - 1)
    case _ => true
  }

  lemma LengthPrefixIsPrefixFree(a: seq<Byte>, b: seq<Byte>, x: seq<Byte>, y: seq<Byte>)
    requires |a| < WORD_LIMIT && |b| < WORD_LIMIT
    requires LengthPrefixed(a) + x == LengthPrefixed(b) + y
    ensures a == b && x == y
  {
    var m, n := WordBE(AsU64(|a|)), WordBE(AsU64(|b|));
    assert m + (a + x) == LengthPrefixed(a) + x && n + (b + y) == LengthPrefixed(b) + y;
    SplitEqual(m, n, a + x, b + y);
    WordsAreInjective(|a|, |b|);
    SplitEqual(a, b, x, y);
  }

  /** Different values never get encodings one of which starts the other, unless they agree
      down to the cut-off; then the encodings are equal. */
  lemma {:induction false} EncodingIsPrefixFree(v: Value, w: Value, depth: nat, x: seq<Byte>, y: seq<Byte>)
    requires LengthsFit(v) && LengthsFit(w)
    requires EncodeAt(v, depth) + x == EncodeAt(w, depth) + y
    ensures AgreeFrom(v, w, depth) && x == y
    decreases v, 1, 0
  {
    if depth > MAX_HASH_DEPTH {
      SplitEqual([0x07], [0x07], x, y);
      return;
    }
    TagsAreEqual(v, w, depth, x, y);
    if v.List? {
      var e, f := EncodeItems(v.items, depth + 1), EncodeItems(w.items, depth + 1);
      DropTagAndCount(0x05, |v.items|, |w.items|, e, f, x, y);
      ItemsArePrefixFree(v.items, w.items, depth + 1, x, y);
    } else if v.Object? {
      ObjectsArePrefixFree(v, w, depth, x, y);
    } else {
      ScalarsArePrefixFree(v, w, depth, x, y);
    }
  }

  /** The first byte is the tag of the value's variant. */
  lemma TagsAreEqual(v: Value, w: Value, depth: nat, x: seq<Byte>, y: seq<Byte>)
    requires EncodeAt(v, depth) + x == EncodeAt(w, depth) + y
    requires depth <= MAX_HASH_DEPTH
    ensures v.Null? == w.Null? && v.Bool? == w.Bool? && v.Integer? == w.Integer? && v.Float? == w.Float?
    ensures v.Str? == w.Str? && v.List? == w.List? && v.Object? == w.Object? && v.Bytes? == w.Bytes?
  {
    var a, b := EncodeAt(v, depth), EncodeAt(w, depth);
    assert a[0] == (a + x)[0] && b[0] == (b + y)[0];
    TagOf(v, depth);
    TagOf(w, depth);
  }

  lemma TagOf(v: Value, depth: nat)
    requires depth <= MAX_HASH_DEPTH
    ensures EncodeAt(v, depth)[0] ==
            match v
            case Null => 0 case Bool(_) => 1 case Integer(_) => 2 case Float(_) => 3
            case Str(_) => 4 case List(_) => 5 case Object(_) => 6 case Bytes(_) => 8
  {
  }

  lemma ScalarsArePrefixFree(v: Value, w: Value, depth: nat, x: seq<Byte>, y: seq<Byte>)
    requires LengthsFit(v) && LengthsFit(w) && depth <= MAX_HASH_DEPTH && !v.List? && !v.Object?
    requires EncodeAt(v, depth) + x == EncodeAt(w, depth) + y
    ensures v == w && x == y
  {
    TagsAreEqual(v, w, depth, x, y);
    match v
    case Null => SplitEqual([0x00], [0x00], x, y);
    case Bool(_) => SplitEqual(EncodeAt(v, depth), EncodeAt(w, depth), x, y);
    case Integer(i) =>
      DropTag(0x02, WordLE(AsU64(i)), WordLE(AsU64(w.i)), x, y);
      SplitEqual(WordLE(AsU64(i)), WordLE(AsU64(w.i)), x, y);
      WordsAreInjective(AsU64(i), AsU64(w.i));
      CastsRoundTrip(0, i);
      CastsRoundTrip(0, w.i);
    case Float(bits) =>
      DropTag(0x03, WordLE(bits), WordLE(w.bits), x, y);
      SplitEqual(WordLE(bits), WordLE(w.bits), x, y);
      WordsAreInjective(bits, w.bits);
    case Str(s) =>
      DropTag(0x04, LengthPrefixed(Utf8(s)), LengthPrefixed(Utf8(w.s)), x, y);
      LengthPrefixIsPrefixFree(Utf8(s), Utf8(w.s), x, y);
      Utf8IsInjective(s, w.s);
    case Bytes(raw) =>
      DropTag(0x08, LengthPrefixed(raw), LengthPrefixed(w.raw), x, y);
      LengthPrefixIsPrefixFree(raw, w.raw, x, y);
  }

  lemma {:induction false} ObjectsArePrefixFree(v: Value, w: Value, depth: nat, x: seq<Byte>, y: seq<Byte>)
    requires LengthsFit(v) && LengthsFit(w) && depth <= MAX_HASH_DEPTH && v.Object? && w.Object?
    requires EncodeAt(v, depth) + x == EncodeAt(w, depth) + y
    ensures AgreeFrom(v, w, depth) && x == y
    decreases v, 0, |v.fields| + 1
  {
    ObjectBodiesAlign(v, w, depth, x, y);
    var ks, js := SortedKeys(v.fields.Keys), SortedKeys(w.fields.Keys);
    FieldsArePrefixFree(v, w, ks, js, depth + 1, x, y);
    FieldwiseAgreement(v, w, depth);
  }

  lemma ObjectBodiesAlign(v: Value, w: Value, depth: nat, x: seq<Byte>, y: seq<Byte>)
    requires LengthsFit(v) && LengthsFit(w) && depth <= MAX_HASH_DEPTH && v.Object? && w.Object?
    requires EncodeAt(v, depth) + x == EncodeAt(w, depth) + y
    ensures |v.fields.Keys| == |w.fields.Keys|
    ensures EncodeFields(v, SortedKeys(v.fields.Keys), depth + 1) + x
         == EncodeFields(w, SortedKeys(w.fields.Keys), depth + 1) + y
  {
    var e := EncodeFields(v, SortedKeys(v.fields.Keys), depth + 1);
    var f := EncodeFields(w, SortedKeys(w.fields.Keys), depth + 1);
    DropTagAndCount(0x06, |v.fields|, |w.fields|, e, f, x, y);
  }

  lemma FieldwiseAgreement(v: Value, w: Value, depth: nat)
    requires v.Object? && w.Object?
    requires SortedKeys(v.fields.Keys) == SortedKeys(w.fields.Keys)
    requires forall i | 0 <= i < |v.fields.Keys| ::
               var k := SortedKeys(v.fields.Keys)[i];
               k in v.fields && k in w.fields && AgreeFrom(v.fields[k], w.fields[k], depth + 1)
    ensures AgreeFrom(v, w, depth)
  {
    var m, n, ks := v.fields, w.fields, SortedKeys(v.fields.Keys);
    forall k ensures k in m <==> k in n {
      assert k in ks <==> k in SortedKeys(n.Keys);
    }
    assert m.Keys == n.Keys;
    forall k | k in m ensures AgreeFrom(m[k], n[k], depth + 1) {
      assert k in ks;
      var i :| 0 <= i < |ks| && ks[i] == k;
    }
  }

  lemma DropTag(tag: Byte, a: seq<Byte>, b: seq<Byte>, x: seq<Byte>, y: seq<Byte>)
    requires [tag] + a + x == [tag] + b + y
    ensures a + x == b + y
  {
    assert [tag] + a + x == [tag] + (a + x) && [tag] + b + y == [tag] + (b + y);
    SplitEqual([tag], [tag], a + x, b + y);
  }

  lemma DropTagAndCount(tag: Byte, m: nat, n: nat, a: seq<Byte>, b: seq<Byte>, x: seq<Byte>, y: seq<Byte>)
    requires m < WORD_LIMIT && n < WORD_LIMIT
    requires [tag] + (WordBE(AsU64(m)) + a) + x == [tag] + (WordBE(AsU64(n)) + b) + y
    ensures m == n && a + x == b + y
  {
    var p, q := WordBE(AsU64(m)), WordBE(AsU64(n));
    DropTag(tag, p + a, q + b, x, y);
    assert p + a + x == p + (a + x) && q + b + y == q + (b + y);
    SplitEqual(p, q, a + x, b + y);
    WordsAreInjective(m, n);
  }

  lemma {:induction false} ItemsArePrefixFree(
      vs: seq<Value>, ws: seq<Value>, depth: nat, x: seq<Byte>, y: seq<Byte>)
    requires |vs| == |ws|
    requires forall i | 0 <= i < |vs| :: LengthsFit(vs[i]) && LengthsFit(ws[i])
    requires EncodeItems(vs, depth) + x == EncodeItems(ws, depth) + y
    ensures x == y && forall i | 0 <= i < |vs| :: AgreeFrom(vs[i], ws[i], depth)
    decreases vs, 0, 0
  {
    hide EncodeAt, AgreeFrom, LengthsFit;
    if vs == [] {
      assert [] + x == x && [] + y == y;
    } else {
      var a, b := EncodeItems(vs[1..], depth), EncodeItems(ws[1..], depth);
      assert EncodeAt(vs[0], depth) + a + x == EncodeAt(vs[0], depth) + (a + x);
      assert EncodeAt(ws[0], depth) + b + y == EncodeAt(ws[0], depth) + (b + y);
      EncodingIsPrefixFree(vs[0], ws[0], depth, a + x, b + y);
      ItemsArePrefixFree(vs[1..], ws[1..], depth, x, y);
      forall i | 0 <= i < |vs| ensures AgreeFrom(vs[i], ws[i], depth) {
        if i > 0 { assert AgreeFrom(vs[1..][i - 1], ws[1..][i - 1], depth); }
      }
    }
  }

  lemma {:induction false} FieldsArePrefixFree(
      v: Value, w: Value, ks: seq<string>, js: seq<string>, depth: nat, x: seq<Byte>, y: seq<Byte>)
    requires LengthsFit(v) && LengthsFit(w) && v.Object? && w.Object? && |ks| == |js|
    requires (forall k | k in ks :: k in v.fields) && (forall k | k in js :: k in w.fields)
    requires EncodeFields(v, ks, depth) + x == EncodeFields(w, js, depth) + y
    ensures ks == js && x == y
    ensures forall i | 0 <= i < |ks| :: AgreeFrom(v.fields[ks[i]], w.fields[ks[i]], depth)
    decreases v, 0, |ks|
  {
    hide EncodeAt, AgreeFrom;
    if ks == [] {
      assert [] + x == x && [] + y == y;
    } else {
      var k, j := ks[0], js[0];
      var e, f := EncodeFields(v, ks[1..], depth), EncodeFields(w, js[1..], depth);
      DropKey(k, j, EncodeAt(v.fields[k], depth), EncodeAt(w.fields[j], depth), e, f, x, y);
      EncodingIsPrefixFree(v.fields[k], w.fields[j], depth, e + x, f + y);
      FieldsArePrefixFree(v, w, ks[1..], js[1..], depth, x, y);
      assert ks == [k] + ks[1..] && js == [j] + js[1..];
      forall i | 0 <= i < |ks| ensures AgreeFrom(v.fields[ks[i]], w.fields[ks[i]], depth) {
        if i > 0 { assert ks[i] == ks[1..][i - 1]; }
      }
    }
  }

  lemma Reassociate(p: seq<Byte>, a: seq<Byte>, e: seq<Byte>, x: seq<Byte>)
    ensures p + (a + e) + x == p + (a + (e + x))
  {
  }

  lemma DropKey(k: string, j: string, a: seq<Byte>, b: seq<Byte>,
                e: seq<Byte>, f: seq<Byte>, x: seq<Byte>, y: seq<Byte>)
    requires |Utf8(k)| < WORD_LIMIT && |Utf8(j)| < WORD_LIMIT
    requires LengthPrefixed(Utf8(k)) + (a + e) + x == LengthPrefixed(Utf8(j)) + (b + f) + y
    ensures k == j && a + (e + x) == b + (f + y)
  {
    var p, q := LengthPrefixed(Utf8(k)), LengthPrefixed(Utf8(j));
    Reassociate(p, a, e, x);
    Reassociate(q, b, f, y);
    LengthPrefixIsPrefixFree(Utf8(k), Utf8(j), a + (e + x), b + (f + y));
    Utf8IsInjective(k, j);
  }

  lemma {:induction false} AgreeingEncodeAlike(v: Value, w: Value, depth: nat)
    requires AgreeFrom(v, w, depth)
    ensures EncodeAt(v, depth) == EncodeAt(w, depth)
    decreases v, 1, 0
  {
    if depth <= MAX_HASH_DEPTH {
      match v
      case List(items) => AgreeingItemsEncodeAlike(items, w.items, depth + 1);
      case Object(m) =>
        assert |m| == |m.Keys| && |w.fields| == |w.fields.Keys|;
        AgreeingFieldsEncodeAlike(v, w, SortedKeys(m.Keys), depth + 1);
      case _ =>
    }
  }

  lemma {:induction false} AgreeingItemsEncodeAlike(vs: seq<Value>, ws: seq<Value>, depth: nat)
    requires |vs| == |ws| && forall i | 0 <= i < |vs| :: AgreeFrom(vs[i], ws[i], depth)
    ensures EncodeItems(vs, depth) == EncodeItems(ws, depth)
    decreases vs, 0, 0
  {
    if vs != [] {
      AgreeingEncodeAlike(vs[0], ws[0], depth);
      AgreeingItemsEncodeAlike(vs[1..], ws[1..], depth);
    }
  }

  lemma {:induction false} AgreeingFieldsEncodeAlike(v: Value, w: Value, keys: seq<string>, depth: nat)
    requires v.Object? && w.Object?
    requires forall k | k in keys :: k in v.fields && k in w.fields && AgreeFrom(v.fields[k], w.fields[k], depth)
    ensures EncodeFields(v, keys, depth) == EncodeFields(w, keys, depth)
    decreases v, 0, |keys|
  {
    if keys != [] {
      AgreeingEncodeAlike(v.fields[keys[0]], w.fields[keys[0]], depth);
      AgreeingFieldsEncodeAlike(v, w, keys[1..], depth);
    }
  }

  /** The bytes hashed for two sequences of values are the same exactly when the sequences
      agree element by element down to depth 128. */
  lemma {:induction false} SameBytesIffAgreeing(vs: seq<Value>, ws: seq<Value>)
    requires forall v | v in vs :: LengthsFit(v)
    requires forall w | w in ws :: LengthsFit(w)
    ensures EncodeAll(vs) == EncodeAll(ws)
       <==> |vs| == |ws| && forall i | 0 <= i < |vs| :: AgreeFrom(vs[i], ws[i], 0)
  {
    if vs == [] || ws == [] {
    } else if EncodeAll(vs) == EncodeAll(ws) {
      EncodingIsPrefixFree(vs[0], ws[0], 0, EncodeAll(vs[1..]), EncodeAll(ws[1..]));
      SameBytesIffAgreeing(vs[1..], ws[1..]);
      forall i | 0 <= i < |vs| ensures AgreeFrom(vs[i], ws[i], 0) {
        if i > 0 { assert AgreeFrom(vs[1..][i - 1], ws[1..][i - 1], 0); }
      }
    } else if |vs| == |ws| && forall i | 0 <= i < |vs| :: AgreeFrom(vs[i], ws[i], 0) {
      AgreeingItemsEncodeAlike(vs, ws, 0);
    }
  }

  lemma {:induction false} AgreeingShallowValuesAreEqual(v: Value, w: Value, depth: nat)
    requires depth <= MAX_HASH_DEPTH && AgreeFrom(v, w, depth)
    requires NestsWithin(v, MAX_HASH_DEPTH - depth)
    ensures v == w
    decreases v
  {
    match v
    case List(items) =>
      forall i | 0 <= i < |items| ensures items[i] == w.items[i] {
        AgreeingShallowValuesAreEqual(items[i], w.items[i], depth + 1);
      }
    case Object(m) =>
      forall k | k in m ensures m[k] == w.fields[k] {
        AgreeingShallowValuesAreEqual(m[k], w.fields[k], depth + 1);
      }
    case _ =>
  }

  /** On values nested at most 128 deep the encoding is injective, down to float bits. */
  lemma ShallowEncodingIsInjective(v: Value, w: Value)
    requires LengthsFit(v) && LengthsFit(w) && NestsWithin(v, 128)
    ensures EncodeAll([v]) == EncodeAll([w]) <==> v == w
  {
    SameBytesIffAgreeing([v], [w]);
    if EncodeAll([v]) == EncodeAll([w]) {
      assert AgreeFrom([v][0], [w][0], 0);
      AgreeingShallowValuesAreEqual(v, w, 0);
    }
  }
}
