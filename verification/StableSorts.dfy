/** Stable descending sorts by an integer key: what they are, that there is only one for
    given items, that a merge sort computes it, and that insertion keeps to it. */
module StableSorts {

  ghost predicate Descending<T>(key: T -> int, items: seq<T>) {
    |items| <= 1 || (key(items[0]) >= key(items[1]) && Descending(key, items[1..]))
  }

  /** In a descending sequence every earlier key is at least every later one. */
  lemma {:induction false} EarlierIsNotLess<T>(key: T -> int, items: seq<T>, i: nat, j: nat)
    requires Descending(key, items) && i < j < |items|
    ensures key(items[i]) >= key(items[j])
  {
    if i > 0 {
      EarlierIsNotLess(key, items[1..], i - 1, j - 1);
    } else if j > 1 {
      EarlierIsNotLess(key, items[1..], 0, j - 1);
    }
  }

  lemma HeadIsGreatest<T>(key: T -> int, items: seq<T>, x: T)
    requires Descending(key, items) && x in items
    ensures key(items[0]) >= key(x)
  {
    var j :| 0 <= j < |items| && items[j] == x;
    if j > 0 { EarlierIsNotLess(key, items, 0, j); }
  }

  /** The items of one key, in their order. */
  function OfKey<T>(key: T -> int, items: seq<T>, w: int): seq<T> {
    if items == [] then []
    else (if key(items[0]) == w then [items[0]] else []) + OfKey(key, items[1..], w)
  }

  /** `sorted` is a stable descending sort of `items`: in order, and items of equal key
      stand as they stood. */
  ghost predicate StablySorts<T>(key: T -> int, items: seq<T>, sorted: seq<T>) {
    Descending(key, sorted) && forall w :: OfKey(key, items, w) == OfKey(key, sorted, w)
  }

  lemma Associates<T>(a: seq<T>, b: seq<T>, c: seq<T>)
    ensures a + (b + c) == a + b + c
  {
  }

  lemma OfKeyCons<T>(key: T -> int, x: T, items: seq<T>, w: int)
    ensures OfKey(key, [x] + items, w) == (if key(x) == w then [x] else []) + OfKey(key, items, w)
  {
    assert ([x] + items)[1..] == items;
  }

  lemma {:induction false} OfKeyConcat<T>(key: T -> int, a: seq<T>, b: seq<T>, w: int)
    ensures OfKey(key, a + b, w) == OfKey(key, a, w) + OfKey(key, b, w)
  {
    if a == [] {
      assert a + b == b;
    } else {
      OfKeyConcat(key, a[1..], b, w);
      assert a + b == [a[0]] + (a[1..] + b) by { assert a == [a[0]] + a[1..]; }
      OfKeyCons(key, a[0], a[1..] + b, w);
      Associates(if key(a[0]) == w then [a[0]] else [], OfKey(key, a[1..], w), OfKey(key, b, w));
    }
  }

  lemma {:induction false} OfKeyMembers<T>(key: T -> int, items: seq<T>, w: int)
    ensures forall r :: r in OfKey(key, items, w) <==> r in items && key(r) == w
  {
    if items != [] {
      OfKeyMembers(key, items[1..], w);
      assert items == [items[0]] + items[1..];
    }
  }

  lemma {:induction false} OfKeyCounts<T>(key: T -> int, items: seq<T>, r: T)
    ensures multiset(items)[r] == multiset(OfKey(key, items, key(r)))[r]
  {
    if items != [] {
      OfKeyCounts(key, items[1..], r);
      assert items == [items[0]] + items[1..];
    }
  }

  /** A stable sort has exactly the given items. */
  lemma StableSortConserves<T>(key: T -> int, items: seq<T>, sorted: seq<T>)
    requires StablySorts(key, items, sorted)
    ensures multiset(items) == multiset(sorted)
  {
    forall r: T ensures multiset(items)[r] == multiset(sorted)[r] {
      OfKeyCounts(key, items, r);
      OfKeyCounts(key, sorted, r);
    }
  }

  /** There is only one stable descending sort. */
  lemma {:induction false} StableSortIsUnique<T>(key: T -> int, a: seq<T>, b: seq<T>)
    requires Descending(key, a) && Descending(key, b) && forall w :: OfKey(key, a, w) == OfKey(key, b, w)
    ensures a == b
  {
    if a == [] {
      if b != [] { HeadIsFirst(key, b); }
    } else if b == [] {
      HeadIsFirst(key, a);
    } else {
      HeadsAreEqual(key, a, b);
      forall w ensures OfKey(key, a[1..], w) == OfKey(key, b[1..], w) {
        assert OfKey(key, a, w) == OfKey(key, b, w);
        var head := if key(a[0]) == w then [a[0]] else [];
        assert (head + OfKey(key, a[1..], w))[|head|..] == OfKey(key, a[1..], w);
        assert (head + OfKey(key, b[1..], w))[|head|..] == OfKey(key, b[1..], w);
      }
      StableSortIsUnique(key, a[1..], b[1..]);
    }
  }

  lemma HeadIsFirst<T>(key: T -> int, a: seq<T>)
    requires a != []
    ensures OfKey(key, a, key(a[0])) != [] && OfKey(key, a, key(a[0]))[0] == a[0]
  {
  }

  lemma HeadsAreEqual<T>(key: T -> int, a: seq<T>, b: seq<T>)
    requires a != [] && b != [] && Descending(key, a) && Descending(key, b)
    requires forall w :: OfKey(key, a, w) == OfKey(key, b, w)
    ensures a[0] == b[0]
  {
    HeadIsFirst(key, a);
    HeadIsFirst(key, b);
    var wa, wb := key(a[0]), key(b[0]);
    assert OfKey(key, a, wa) == OfKey(key, b, wa) && OfKey(key, a, wb) == OfKey(key, b, wb);
    OfKeyMembers(key, b, wa);
    OfKeyMembers(key, a, wb);
    assert OfKey(key, a, wa)[0] in OfKey(key, b, wa) && OfKey(key, b, wb)[0] in OfKey(key, a, wb);
    HeadIsGreatest(key, b, a[0]);
    HeadIsGreatest(key, a, b[0]);
  }

  lemma {:induction false} SmallerHaveNone<T>(key: T -> int, items: seq<T>, w: int)
    requires Descending(key, items) && (items != [] ==> key(items[0]) < w)
    ensures OfKey(key, items, w) == []
  {
    if items != [] { SmallerHaveNone(key, items[1..], w); }
  }

  // ------------------------------------------------------------------------
  // The library's sort, as a merge sort
  // ------------------------------------------------------------------------

  function Merge<T>(key: T -> int, a: seq<T>, b: seq<T>): seq<T> {
    if a == [] then b
    else if b == [] then a
    else if key(a[0]) >= key(b[0]) then [a[0]] + Merge(key, a[1..], b)
    else [b[0]] + Merge(key, a, b[1..])
  }

  function SortByKey<T>(key: T -> int, items: seq<T>): seq<T> {
    if |items| <= 1 then items
    else Merge(key, SortByKey(key, items[..|items| / 2]), SortByKey(key, items[|items| / 2..]))
  }

  lemma {:induction false} MergeDescends<T>(key: T -> int, a: seq<T>, b: seq<T>)
    requires Descending(key, a) && Descending(key, b)
    ensures Descending(key, Merge(key, a, b))
  {
    if a != [] && b != [] {
      if key(a[0]) >= key(b[0]) {
        MergeDescends(key, a[1..], b);
        DescendingCons(key, a[0], Merge(key, a[1..], b));
      } else {
        MergeDescends(key, a, b[1..]);
        DescendingCons(key, b[0], Merge(key, a, b[1..]));
      }
    }
  }

  lemma DescendingCons<T>(key: T -> int, x: T, items: seq<T>)
    requires Descending(key, items) && (items != [] ==> key(x) >= key(items[0]))
    ensures Descending(key, [x] + items)
  {
    assert ([x] + items)[1..] == items;
  }

  lemma {:induction false} MergeIsStable<T>(key: T -> int, a: seq<T>, b: seq<T>, w: int)
    requires Descending(key, a) && Descending(key, b)
    ensures OfKey(key, Merge(key, a, b), w) == OfKey(key, a, w) + OfKey(key, b, w)
  {
    if a == [] {
    } else if b == [] {
      assert OfKey(key, a, w) + [] == OfKey(key, a, w);
    } else if key(a[0]) >= key(b[0]) {
      MergeIsStable(key, a[1..], b, w);
      MergeTakesLeft(key, a, b, w);
    } else {
      MergeIsStable(key, a, b[1..], w);
      MergeTakesRight(key, a, b, w);
    }
  }

  lemma MergeTakesLeft<T>(key: T -> int, a: seq<T>, b: seq<T>, w: int)
    requires a != [] && b != [] && key(a[0]) >= key(b[0])
    requires OfKey(key, Merge(key, a[1..], b), w) == OfKey(key, a[1..], w) + OfKey(key, b, w)
    ensures OfKey(key, Merge(key, a, b), w) == OfKey(key, a, w) + OfKey(key, b, w)
  {
    OfKeyCons(key, a[0], Merge(key, a[1..], b), w);
    Associates(if key(a[0]) == w then [a[0]] else [], OfKey(key, a[1..], w), OfKey(key, b, w));
  }

  lemma MergeTakesRight<T>(key: T -> int, a: seq<T>, b: seq<T>, w: int)
    requires a != [] && b != [] && key(a[0]) < key(b[0]) && Descending(key, a)
    requires OfKey(key, Merge(key, a, b[1..]), w) == OfKey(key, a, w) + OfKey(key, b[1..], w)
    ensures OfKey(key, Merge(key, a, b), w) == OfKey(key, a, w) + OfKey(key, b, w)
  {
    OfKeyCons(key, b[0], Merge(key, a, b[1..]), w);
    if key(b[0]) == w { SmallerHaveNone(key, a, w); }
    MovesPastEmpty(if key(b[0]) == w then [b[0]] else [], OfKey(key, a, w), OfKey(key, b[1..], w));
  }

  lemma MovesPastEmpty<T>(a: seq<T>, b: seq<T>, c: seq<T>)
    requires a == [] || b == []
    ensures a + (b + c) == b + (a + c)
  {
  }

  lemma {:induction false} SortKeeps<T>(key: T -> int, items: seq<T>, w: int)
    ensures Descending(key, SortByKey(key, items))
    ensures OfKey(key, SortByKey(key, items), w) == OfKey(key, items, w)
  {
    if |items| > 1 {
      var a, b := items[..|items| / 2], items[|items| / 2..];
      SortKeeps(key, a, w);
      SortKeeps(key, b, w);
      MergeDescends(key, SortByKey(key, a), SortByKey(key, b));
      MergeIsStable(key, SortByKey(key, a), SortByKey(key, b), w);
      OfKeyConcat(key, a, b, w);
      assert items == a + b;
    }
  }

  lemma SortIsStable<T>(key: T -> int, items: seq<T>)
    ensures StablySorts(key, items, SortByKey(key, items))
  {
    forall w ensures OfKey(key, items, w) == OfKey(key, SortByKey(key, items), w) {
      SortKeeps(key, items, w);
    }
    SortKeeps(key, items, 0);
  }

  // ------------------------------------------------------------------------
  // Inserting one rule
  // ------------------------------------------------------------------------

  /** The first position of an item with a smaller key, or the end. */
  function Position<T>(key: T -> int, items: seq<T>, w: int): (p: nat)
    ensures p <= |items|
  {
    if items == [] || key(items[0]) < w then 0 else 1 + Position(key, items[1..], w)
  }

  function Inserted<T>(key: T -> int, items: seq<T>, x: T): seq<T> {
    var p := Position(key, items, key(x));
    items[..p] + [x] + items[p..]
  }

  lemma {:induction false} InsertedDescends<T>(key: T -> int, items: seq<T>, x: T)
    requires Descending(key, items)
    ensures Descending(key, Inserted(key, items, x))
  {
    if items != [] && key(items[0]) >= key(x) {
      InsertedDescends(key, items[1..], x);
      InsertedCons(key, items, x);
      DescendingCons(key, items[0], Inserted(key, items[1..], x));
    } else {
      assert Inserted(key, items, x) == [x] + items;
      DescendingCons(key, x, items);
    }
  }

  lemma InsertedCons<T>(key: T -> int, items: seq<T>, x: T)
    requires items != [] && key(items[0]) >= key(x)
    ensures Inserted(key, items, x) == [items[0]] + Inserted(key, items[1..], x)
  {
  }

  lemma {:induction false} InsertedKeeps<T>(key: T -> int, items: seq<T>, x: T, w: int)
    requires Descending(key, items)
    ensures OfKey(key, Inserted(key, items, x), w) == OfKey(key, items, w) + (if key(x) == w then [x] else [])
  {
    if items != [] && key(items[0]) >= key(x) {
      InsertedKeeps(key, items[1..], x, w);
      InsertedCons(key, items, x);
      OfKeyCons(key, items[0], Inserted(key, items[1..], x), w);
    } else {
      assert Inserted(key, items, x) == [x] + items;
      OfKeyCons(key, x, items, w);
      if key(x) == w { SmallerHaveNone(key, items, w); }
    }
  }

  lemma PositionStep<T>(key: T -> int, items: seq<T>, from: nat, w: int)
    requires from < |items|
    ensures Position(key, items[from..], w) ==
            if key(items[from]) < w then 0 else 1 + Position(key, items[from + 1..], w)
  {
    assert items[from..][1..] == items[from + 1..];
  }

  /** Where to insert: a scan for the first smaller key. */
  method FindPosition<T>(key: T -> int, items: seq<T>, w: int) returns (pos: nat)
    ensures pos == Position(key, items, w)
  {
    pos := 0;
    assert items[0..] == items;
    while pos < |items| && key(items[pos]) >= w
      invariant pos <= |items|
      invariant Position(key, items, w) == pos + Position(key, items[pos..], w)
    {
      PositionStep(key, items, pos, w);
      pos := pos + 1;
    }
    if pos < |items| { PositionStep(key, items, pos, w); }
  }

  lemma {:induction false} RemovalDescends<T>(key: T -> int, items: seq<T>, i: nat)
    requires Descending(key, items) && i < |items|
    ensures Descending(key, items[..i] + items[i + 1..])
  {
    if i == 0 {
      assert items[..0] + items[1..] == items[1..];
    } else {
      RemovalDescends(key, items[1..], i - 1);
      var rest := items[1..][..i - 1] + items[1..][i..];
      assert items[..i] + items[i + 1..] == [items[0]] + rest;
      if rest != [] {
        assert rest[0] in items;
        HeadIsGreatest(key, items, rest[0]);
      }
      DescendingCons(key, items[0], rest);
    }
  }

  /** A new item goes behind the items of its key: the insertion is the stable sort of the
      items with the new one last. */
  lemma InsertionIsStable<T>(key: T -> int, items: seq<T>, x: T)
    requires Descending(key, items)
    ensures StablySorts(key, items + [x], Inserted(key, items, x))
  {
    InsertedDescends(key, items, x);
    forall w ensures OfKey(key, items + [x], w) == OfKey(key, Inserted(key, items, x), w) {
      OfKeyConcat(key, items, [x], w);
      InsertedKeeps(key, items, x, w);
      OfKeyCons(key, x, [], w);
      assert [x] + [] == [x];
    }
  }

  function AddAll<T>(key: T -> int, items: seq<T>, added: seq<T>): seq<T>
    decreases added
  {
    if added == [] then items else AddAll(key, Inserted(key, items, added[0]), added[1..])
  }

  lemma {:induction false} AddingIsStable<T>(key: T -> int, items: seq<T>, added: seq<T>)
    requires Descending(key, items)
    ensures StablySorts(key, items + added, AddAll(key, items, added))
    decreases added
  {
    if added == [] {
      assert items + added == items;
    } else {
      var r, rest := added[0], added[1..];
      InsertionIsStable(key, items, r);
      AddingIsStable(key, Inserted(key, items, r), rest);
      forall w ensures OfKey(key, items + added, w) == OfKey(key, AddAll(key, items, added), w) {
        assert items + added == (items + [r]) + rest;
        OfKeyConcat(key, items + [r], rest, w);
        OfKeyConcat(key, Inserted(key, items, r), rest, w);
        assert OfKey(key, items + [r], w) == OfKey(key, Inserted(key, items, r), w);
        assert OfKey(key, Inserted(key, items, r) + rest, w) == OfKey(key, AddAll(key, items, added), w);
      }
    }
  }

  /** Adding items one by one to an empty collection gives what sorting them all at once gives. */
  lemma AddingOneByOneIsSorting<T>(key: T -> int, items: seq<T>)
    ensures AddAll(key, [], items) == SortByKey(key, items)
  {
    AddingIsStable(key, [], items);
    SortIsStable(key, items);
    assert [] + items == items;
    forall w ensures OfKey(key, AddAll(key, [], items), w) == OfKey(key, SortByKey(key, items), w) {
      assert OfKey(key, [] + items, w) == OfKey(key, AddAll(key, [], items), w);
    }
    StableSortIsUnique(key, AddAll(key, [], items), SortByKey(key, items));
  }
}
