/**
 * The filter/sort engine: from the full list of cards, the two filter flags
 * and the sort key, the list the page displays. The flags keep the records
 * that are road legal and/or suitable for heavy waste; the list is then
 * sorted in place, stably, ascending by price when the key is "price" and by
 * size for any other key.
 */
module FilterSort {
  import opened Records

  /** Whether a record passes every active flag. */
  predicate Matches(s: Skip, roadOnly: bool, heavyOnly: bool) {
    (!roadOnly || s.roadLegal) && (!heavyOnly || s.heavyWasteSuitable)
  }

  /** The records that pass every active flag, in list order. */
  function FilterFlags(xs: seq<Skip>, roadOnly: bool, heavyOnly: bool): (r: seq<Skip>)
    ensures |r| <= |xs|
  {
    if xs == [] then []
    else (if Matches(xs[0], roadOnly, heavyOnly) then [xs[0]] else [])
         + FilterFlags(xs[1..], roadOnly, heavyOnly)
  }

  /** The filter step as the engine performs it: road-legal first, then heavy waste. */
  function Filtered(full: seq<Skip>, roadOnly: bool, heavyOnly: bool): seq<Skip> {
    var afterRoad := if roadOnly then FilterFlags(full, true, false) else full;
    if heavyOnly then FilterFlags(afterRoad, false, true) else afterRoad
  }

  /** Whether a sort key selects the price comparator; any other key sorts by size. */
  predicate ByPrice(sortBy: string) {
    sortBy == "price"
  }

  /** The sort key: the final price when sorting by price, the size otherwise. */
  function Key(s: Skip, byPrice: bool): int {
    if byPrice then s.priceNumeric else s.size
  }

  /** Ascending by key, stated pair by adjacent pair; SortedPairwise gives every pair. */
  predicate Sorted(xs: seq<Skip>, byPrice: bool)
    decreases |xs|
  {
    |xs| < 2 || (Key(xs[0], byPrice) <= Key(xs[1], byPrice) && Sorted(xs[1..], byPrice))
  }

  /** The records whose key is k, in list order: what a stable sort must not reorder. */
  function WithKey(xs: seq<Skip>, k: int, byPrice: bool): seq<Skip> {
    if xs == [] then []
    else (if Key(xs[0], byPrice) == k then [xs[0]] else []) + WithKey(xs[1..], k, byPrice)
  }

  /** Inserts x after every leading record whose key does not exceed its own. */
  function Insert(xs: seq<Skip>, x: Skip, byPrice: bool): (r: seq<Skip>)
    ensures |r| == |xs| + 1
  {
    if xs == [] then [x]
    else if Key(x, byPrice) < Key(xs[0], byPrice) then [x] + xs
    else [xs[0]] + Insert(xs[1..], x, byPrice)
  }

  /** Stable insertion sort: the reference for what the in-place sort computes. */
  function StableSorted(xs: seq<Skip>, byPrice: bool): (r: seq<Skip>)
    ensures Sorted(r, byPrice)
    ensures |r| == |xs|
  {
    if xs == [] then []
    else
      InsertSorted(StableSorted(xs[..|xs| - 1], byPrice), xs[|xs| - 1], byPrice);
      Insert(StableSorted(xs[..|xs| - 1], byPrice), xs[|xs| - 1], byPrice)
  }

  /** The displayed list: the filtered records, stably sorted by the key. */
  function Displayed(full: seq<Skip>, roadOnly: bool, heavyOnly: bool, sortBy: string): seq<Skip> {
    StableSorted(Filtered(full, roadOnly, heavyOnly), ByPrice(sortBy))
  }

  // ---------------------------------------------------------------------
  // The engine, as the page runs it
  // ---------------------------------------------------------------------

  /** Sorts the array in place, as `filtered.sort(comparator)` does. */
  method SortInPlace(a: array<Skip>, byPrice: bool)
    modifies a
    ensures a[..] == StableSorted(old(a[..]), byPrice)
  {
    ghost var orig := a[..];
    var i := 0;
    while i < a.Length
      invariant 0 <= i <= a.Length
      invariant a[..i] == StableSorted(orig[..i], byPrice)
      invariant a[i..] == orig[i..]
    {
      ghost var rest := a[i..];
      InsertNext(a, i, byPrice);
      StableSortedSnoc(orig, i, byPrice);
      assert a[i + 1..] == rest[1..] == orig[i + 1..];
      i := i + 1;
    }
    assert orig[..a.Length] == orig;
  }

  lemma StableSortedSnoc(s: seq<Skip>, i: nat, byPrice: bool)
    requires i < |s|
    ensures StableSorted(s[..i + 1], byPrice) == Insert(StableSorted(s[..i], byPrice), s[i], byPrice)
  {
    assert s[..i + 1][..i] == s[..i];
  }

  /**
   * One step of the insertion sort: a[i] moves left past every record of
   * the sorted prefix whose key is greater than its own.
   */
  method InsertNext(a: array<Skip>, i: nat, byPrice: bool)
    requires i < a.Length
    requires Sorted(a[..i], byPrice)
    modifies a
    ensures a[..i + 1] == Insert(old(a[..i]), old(a[i]), byPrice)
    ensures a[i + 1..] == old(a[i + 1..])
  {
    var x := a[i];
    ghost var done := a[..i];
    var j := ShiftGreater(a, i, x, byPrice);
    a[j] := x;
    PlaceAt(a[..], old(a[..]), done, x, j, i);
    PrefixAtMost(done, x, j, byPrice);
    InsertAt(done, x, j, byPrice);
    assert a[..i + 1] == a[..][..i + 1] && a[i + 1..] == a[..][i + 1..];
  }

  /**
   * The shifting loop: moves each record left of position i whose key
   * exceeds x's one place right, stopping at the first that does not, and
   * returns the gap left behind.
   */
  method ShiftGreater(a: array<Skip>, i: nat, x: Skip, byPrice: bool) returns (j: nat)
    requires i < a.Length
    modifies a
    ensures j <= i
    ensures forall m :: 0 <= m < j ==> a[m] == old(a[m])
    ensures forall m :: j < m <= i ==> a[m] == old(a[m - 1])
    ensures forall m :: i < m < a.Length ==> a[m] == old(a[m])
    ensures j > 0 ==> Key(a[j - 1], byPrice) <= Key(x, byPrice)
    ensures forall m :: j <= m < i ==> Key(x, byPrice) < Key(old(a[m]), byPrice)
  {
    j := i;
    while j > 0 && Key(a[j - 1], byPrice) > Key(x, byPrice)
      invariant j <= i
      invariant forall m :: 0 <= m < j ==> a[m] == old(a[m])
      invariant forall m :: j < m <= i ==> a[m] == old(a[m - 1])
      invariant forall m :: i < m < a.Length ==> a[m] == old(a[m])
      invariant forall m :: j <= m < i ==> Key(x, byPrice) < Key(old(a[m]), byPrice)
    {
      a[j] := a[j - 1];
      j := j - 1;
    }
  }

  /** In a sorted list, every record up to one whose key is at most x's has a key at most x's. */
  lemma PrefixAtMost(xs: seq<Skip>, x: Skip, j: nat, byPrice: bool)
    requires Sorted(xs, byPrice) && j <= |xs|
    requires j > 0 ==> Key(xs[j - 1], byPrice) <= Key(x, byPrice)
    ensures forall m :: 0 <= m < j ==> Key(xs[m], byPrice) <= Key(x, byPrice)
  {
    forall m | 0 <= m < j
      ensures Key(xs[m], byPrice) <= Key(x, byPrice)
    {
      SortedPairwise(xs, m, j - 1, byPrice);
    }
  }

  /** Writing x into the gap left by the shifting loop gives prefix, x, rest. */
  lemma PlaceAt(r: seq<Skip>, orig: seq<Skip>, done: seq<Skip>, x: Skip, j: nat, i: nat)
    requires j <= i < |r| == |orig| && |done| == i
    requires r[j] == x
    requires forall m :: 0 <= m < j ==> r[m] == done[m]
    requires forall m :: j < m <= i ==> r[m] == done[m - 1]
    requires forall m :: i < m < |r| ==> r[m] == orig[m]
    ensures r[..i + 1] == done[..j] + [x] + done[j..]
    ensures r[i + 1..] == orig[i + 1..]
  {
  }

  /** The filter/sort effect: copy, filter by each active flag, sort. */
  method FilterAndSort(full: seq<Skip>, roadOnly: bool, heavyOnly: bool, sortBy: string)
    returns (shown: seq<Skip>)
    ensures shown == Displayed(full, roadOnly, heavyOnly, sortBy)
  {
    var filtered := full;
    if roadOnly {
      filtered := FilterFlags(filtered, true, false);
    }
    if heavyOnly {
      filtered := FilterFlags(filtered, false, true);
    }
    var a := new Skip[|filtered|](i requires 0 <= i < |filtered| => filtered[i]);
    assert a[..] == filtered;
    SortInPlace(a, ByPrice(sortBy));
    shown := a[..];
  }

  // ---------------------------------------------------------------------
  // Insertion
  // ---------------------------------------------------------------------

  /** Inserting into a sorted list keeps it sorted. */
  lemma {:induction false} InsertSorted(xs: seq<Skip>, x: Skip, byPrice: bool)
    requires Sorted(xs, byPrice)
    ensures Sorted(Insert(xs, x, byPrice), byPrice)
    decreases |xs|
  {
    if xs == [] {
    } else if Key(x, byPrice) < Key(xs[0], byPrice) {
      assert ([x] + xs)[1..] == xs;
    } else {
      var rest := Insert(xs[1..], x, byPrice);
      InsertSorted(xs[1..], x, byPrice);
      assert rest[0] == x || rest[0] == xs[1];
      assert ([xs[0]] + rest)[1..] == rest;
    }
  }

  /** Insertion adds x and loses nothing. */
  lemma {:induction false} InsertPermutes(xs: seq<Skip>, x: Skip, byPrice: bool)
    ensures multiset(Insert(xs, x, byPrice)) == multiset(xs) + multiset{x}
    decreases |xs|
  {
    if xs != [] && Key(x, byPrice) >= Key(xs[0], byPrice) {
      InsertPermutes(xs[1..], x, byPrice);
      assert xs == [xs[0]] + xs[1..];
    }
  }

  /** The reference sort is a permutation of its input. */
  lemma {:induction false} StableSortedPermutes(xs: seq<Skip>, byPrice: bool)
    ensures multiset(StableSorted(xs, byPrice)) == multiset(xs)
    decreases |xs|
  {
    if xs != [] {
      var init, last := xs[..|xs| - 1], xs[|xs| - 1];
      calc {
        multiset(StableSorted(xs, byPrice));
        multiset(Insert(StableSorted(init, byPrice), last, byPrice));
        { InsertPermutes(StableSorted(init, byPrice), last, byPrice); }
        multiset(StableSorted(init, byPrice)) + multiset{last};
        { StableSortedPermutes(init, byPrice); }
        multiset(init) + multiset{last};
        { assert xs == init + [last]; }
        multiset(xs);
      }
    }
  }

  /** Every pair of a sorted list is in order, not only adjacent ones. */
  lemma {:induction false} SortedPairwise(xs: seq<Skip>, i: nat, j: nat, byPrice: bool)
    requires Sorted(xs, byPrice) && i <= j < |xs|
    ensures Key(xs[i], byPrice) <= Key(xs[j], byPrice)
    decreases j
  {
    if i < j {
      SortedPairwise(xs[1..], if i == 0 then 0 else i - 1, j - 1, byPrice);
    }
  }

  /**
   * Where the shifting loop stops is where Insert puts the record: after
   * every record whose key does not exceed x's, before the first that does.
   */
  lemma {:induction false} InsertAt(xs: seq<Skip>, x: Skip, j: nat, byPrice: bool)
    requires j <= |xs|
    requires forall m :: 0 <= m < j ==> Key(xs[m], byPrice) <= Key(x, byPrice)
    requires j < |xs| ==> Key(x, byPrice) < Key(xs[j], byPrice)
    ensures Insert(xs, x, byPrice) == xs[..j] + [x] + xs[j..]
    decreases j
  {
    if j == 0 {
      assert xs[..0] + [x] + xs[0..] == [x] + xs;
    } else {
      var tail := xs[1..];
      calc {
        Insert(xs, x, byPrice);
        [xs[0]] + Insert(tail, x, byPrice);
        { InsertAt(tail, x, j - 1, byPrice); }
        [xs[0]] + (tail[..j - 1] + [x] + tail[j - 1..]);
        ([xs[0]] + tail[..j - 1]) + [x] + tail[j - 1..];
        { SplitAfterHead(xs, j); }
        xs[..j] + [x] + xs[j..];
      }
    }
  }

  lemma SplitAfterHead(xs: seq<Skip>, j: nat)
    requires 0 < j <= |xs|
    ensures xs[..j] == [xs[0]] + xs[1..][..j - 1]
    ensures xs[j..] == xs[1..][j - 1..]
  {
  }

  // ---------------------------------------------------------------------
  // Filtering
  // ---------------------------------------------------------------------

  /** Filtering twice is filtering once by the union of the active flags. */
  lemma {:induction false} FilterCompose(xs: seq<Skip>, r1: bool, h1: bool, r2: bool, h2: bool)
    ensures FilterFlags(FilterFlags(xs, r1, h1), r2, h2) == FilterFlags(xs, r1 || r2, h1 || h2)
    decreases |xs|
  {
    if xs != [] {
      FilterCompose(xs[1..], r1, h1, r2, h2);
      var head := if Matches(xs[0], r1, h1) then [xs[0]] else [];
      FilterAppend(head, FilterFlags(xs[1..], r1, h1), r2, h2);
      if Matches(xs[0], r1, h1) {
        assert FilterFlags(head, r2, h2) == (if Matches(xs[0], r2, h2) then [xs[0]] else []) + FilterFlags([], r2, h2);
      }
    }
  }

  lemma {:induction false} FilterAppend(a: seq<Skip>, b: seq<Skip>, roadOnly: bool, heavyOnly: bool)
    ensures FilterFlags(a + b, roadOnly, heavyOnly) == FilterFlags(a, roadOnly, heavyOnly) + FilterFlags(b, roadOnly, heavyOnly)
    decreases |a|
  {
    if a == [] {
      assert a + b == b;
    } else {
      var head := if Matches(a[0], roadOnly, heavyOnly) then [a[0]] else [];
      var fa, fb := FilterFlags(a[1..], roadOnly, heavyOnly), FilterFlags(b, roadOnly, heavyOnly);
      calc {
        FilterFlags(a + b, roadOnly, heavyOnly);
        { assert a + b == [a[0]] + (a[1..] + b); }
        FilterFlags([a[0]] + (a[1..] + b), roadOnly, heavyOnly);
        { FilterCons(a[0], a[1..] + b, roadOnly, heavyOnly); }
        head + FilterFlags(a[1..] + b, roadOnly, heavyOnly);
        { FilterAppend(a[1..], b, roadOnly, heavyOnly); }
        head + (fa + fb);
        (head + fa) + fb;
        { FilterCons(a[0], a[1..], roadOnly, heavyOnly); assert a == [a[0]] + a[1..]; }
        FilterFlags(a, roadOnly, heavyOnly) + fb;
      }
    }
  }

  lemma FilterCons(x: Skip, xs: seq<Skip>, roadOnly: bool, heavyOnly: bool)
    ensures FilterFlags([x] + xs, roadOnly, heavyOnly)
         == (if Matches(x, roadOnly, heavyOnly) then [x] else []) + FilterFlags(xs, roadOnly, heavyOnly)
  {
    assert ([x] + xs)[1..] == xs;
  }

  /** With no flag active, every record is kept, in order. */
  lemma {:induction false} FilterNothing(xs: seq<Skip>)
    ensures FilterFlags(xs, false, false) == xs
    decreases |xs|
  {
    if xs != [] {
      FilterNothing(xs[1..]);
    }
  }

  /** The two successive filters keep exactly the records that pass both active flags. */
  lemma FilteredIsConjunction(full: seq<Skip>, roadOnly: bool, heavyOnly: bool)
    ensures Filtered(full, roadOnly, heavyOnly) == FilterFlags(full, roadOnly, heavyOnly)
  {
    FilterNothing(full);
    FilterCompose(full, true, false, false, true);
  }

  /** Applying the same flags again changes nothing. */
  lemma FilterIdempotent(xs: seq<Skip>, roadOnly: bool, heavyOnly: bool)
    ensures FilterFlags(FilterFlags(xs, roadOnly, heavyOnly), roadOnly, heavyOnly)
         == FilterFlags(xs, roadOnly, heavyOnly)
  {
    FilterCompose(xs, roadOnly, heavyOnly, roadOnly, heavyOnly);
  }

  /** Heavy-waste-then-road-legal gives the same list as road-legal-then-heavy-waste. */
  lemma FilterOrderIrrelevant(xs: seq<Skip>)
    ensures FilterFlags(FilterFlags(xs, false, true), true, false)
         == FilterFlags(FilterFlags(xs, true, false), false, true)
  {
    FilterCompose(xs, false, true, true, false);
    FilterCompose(xs, true, false, false, true);
  }

  // ---------------------------------------------------------------------
  // Sorting
  // ---------------------------------------------------------------------

  lemma {:induction false} WithKeyAppend(a: seq<Skip>, b: seq<Skip>, k: int, byPrice: bool)
    ensures WithKey(a + b, k, byPrice) == WithKey(a, k, byPrice) + WithKey(b, k, byPrice)
    decreases |a|
  {
    if a != [] {
      WithKeyAppend(a[1..], b, k, byPrice);
      assert (a + b)[1..] == a[1..] + b;
    } else {
      assert a + b == b;
    }
  }

  lemma {:induction false} WithKeyMembers(xs: seq<Skip>, k: int, byPrice: bool, y: Skip)
    ensures y in WithKey(xs, k, byPrice) <==> y in xs && Key(y, byPrice) == k
    decreases |xs|
  {
    if xs != [] {
      WithKeyMembers(xs[1..], k, byPrice, y);
      assert y in xs <==> y == xs[0] || y in xs[1..];
    }
  }

  /** Inserting into a sorted list puts x after every record sharing its key. */
  lemma {:induction false} InsertWithKey(xs: seq<Skip>, x: Skip, k: int, byPrice: bool)
    requires Sorted(xs, byPrice)
    ensures WithKey(Insert(xs, x, byPrice), k, byPrice) == WithKey(xs + [x], k, byPrice)
    decreases |xs|
  {
    WithKeyAppend(xs, [x], k, byPrice);
    if xs == [] {
    } else if Key(x, byPrice) < Key(xs[0], byPrice) {
      WithKeyAppend([x], xs, k, byPrice);
      if Key(x, byPrice) == k {
        WithKeyBelowHead(xs, k, byPrice);
      }
    } else {
      SortedTail(xs, byPrice);
      InsertWithKey(xs[1..], x, k, byPrice);
      WithKeyAppend(xs[1..], [x], k, byPrice);
      InsertWithKeyPastHead(xs, x, k, byPrice);
    }
  }

  lemma {:induction false} InsertWithKeyPastHead(xs: seq<Skip>, x: Skip, k: int, byPrice: bool)
    requires xs != [] && Key(x, byPrice) >= Key(xs[0], byPrice)
    requires WithKey(Insert(xs[1..], x, byPrice), k, byPrice) == WithKey(xs[1..], k, byPrice) + WithKey([x], k, byPrice)
    ensures WithKey(Insert(xs, x, byPrice), k, byPrice) == WithKey(xs, k, byPrice) + WithKey([x], k, byPrice)
  {
    var head, tail := [xs[0]], xs[1..];
    var rest := Insert(tail, x, byPrice);
    var a, b, c := WithKey(head, k, byPrice), WithKey(tail, k, byPrice), WithKey([x], k, byPrice);
    calc {
      WithKey(Insert(xs, x, byPrice), k, byPrice);
      { assert Insert(xs, x, byPrice) == head + rest; }
      WithKey(head + rest, k, byPrice);
      { WithKeyAppend(head, rest, k, byPrice); }
      a + WithKey(rest, k, byPrice);
      a + (b + c);
      (a + b) + c;
      { WithKeyAppend(head, tail, k, byPrice); assert xs == head + tail; }
      WithKey(xs, k, byPrice) + c;
    }
  }

  /** A sorted list holds no record with a key below its first one. */
  lemma WithKeyBelowHead(xs: seq<Skip>, k: int, byPrice: bool)
    requires Sorted(xs, byPrice) && xs != [] && k < Key(xs[0], byPrice)
    ensures WithKey(xs, k, byPrice) == []
  {
    if WithKey(xs, k, byPrice) != [] {
      var y := WithKey(xs, k, byPrice)[0];
      WithKeyMembers(xs, k, byPrice, y);
      SortedHead(xs, y, byPrice);
    }
  }

  /** The reference sort is stable: records with equal keys keep their order. */
  lemma {:induction false} StableSortedIsStable(xs: seq<Skip>, k: int, byPrice: bool)
    ensures WithKey(StableSorted(xs, byPrice), k, byPrice) == WithKey(xs, k, byPrice)
    decreases |xs|
  {
    if xs != [] {
      var init, last := xs[..|xs| - 1], xs[|xs| - 1];
      StableSortedIsStable(init, k, byPrice);
      InsertWithKey(StableSorted(init, byPrice), last, k, byPrice);
      WithKeyAppend(StableSorted(init, byPrice), [last], k, byPrice);
      WithKeyAppend(init, [last], k, byPrice);
      assert xs == init + [last];
    }
  }

  /** A list that is already sorted is left as it is. */
  lemma {:induction false} SortedIsFixedPoint(xs: seq<Skip>, byPrice: bool)
    requires Sorted(xs, byPrice)
    ensures StableSorted(xs, byPrice) == xs
    decreases |xs|
  {
    if xs != [] {
      var init, last := xs[..|xs| - 1], xs[|xs| - 1];
      SortedInit(xs, byPrice);
      forall m | 0 <= m < |init|
        ensures Key(init[m], byPrice) <= Key(last, byPrice)
      {
        SortedPairwise(xs, m, |xs| - 1, byPrice);
      }
      calc {
        StableSorted(xs, byPrice);
        Insert(StableSorted(init, byPrice), last, byPrice);
        { SortedIsFixedPoint(init, byPrice); }
        Insert(init, last, byPrice);
        { InsertAt(init, last, |init|, byPrice); }
        init[..|init|] + [last] + init[|init|..];
        xs;
      }
    }
  }

  lemma {:induction false} SortedInit(xs: seq<Skip>, byPrice: bool)
    requires Sorted(xs, byPrice) && xs != []
    ensures Sorted(xs[..|xs| - 1], byPrice)
    ensures |xs| > 1 ==> Key(xs[|xs| - 2], byPrice) <= Key(xs[|xs| - 1], byPrice)
    decreases |xs|
  {
    if |xs| > 2 {
      SortedInit(xs[1..], byPrice);
      assert xs[..|xs| - 1][1..] == xs[1..][..|xs| - 2];
    }
  }

  lemma SortedHead(xs: seq<Skip>, y: Skip, byPrice: bool)
    requires Sorted(xs, byPrice) && y in xs
    ensures Key(xs[0], byPrice) <= Key(y, byPrice)
  {
    var i :| 0 <= i < |xs| && xs[i] == y;
    SortedPairwise(xs, 0, i, byPrice);
  }

  /**
   * Sortedness and stability pin the result down: two sorted lists that
   * hold the same records of every key in the same order are equal.
   */
  lemma {:induction false} SortedStableUnique(r: seq<Skip>, t: seq<Skip>, byPrice: bool)
    requires Sorted(r, byPrice) && Sorted(t, byPrice)
    requires forall k :: WithKey(r, k, byPrice) == WithKey(t, k, byPrice)
    ensures r == t
    decreases |r|
  {
    if r == [] || t == [] {
      if r != [] {
        NonEmptyWithKey(r, byPrice);
      } else if t != [] {
        NonEmptyWithKey(t, byPrice);
      }
    } else {
      SameHead(r, t, byPrice);
      forall k ensures WithKey(r[1..], k, byPrice) == WithKey(t[1..], k, byPrice) {
        DropHead(r, t, k, byPrice);
      }
      SortedStableUnique(r[1..], t[1..], byPrice);
      assert r == [r[0]] + r[1..] && t == [t[0]] + t[1..];
    }
  }

  lemma NonEmptyWithKey(xs: seq<Skip>, byPrice: bool)
    requires xs != []
    ensures WithKey(xs, Key(xs[0], byPrice), byPrice) != []
  {
  }

  /** Both lists start with the first record of the smallest key. */
  lemma SameHead(r: seq<Skip>, t: seq<Skip>, byPrice: bool)
    requires Sorted(r, byPrice) && Sorted(t, byPrice) && r != [] && t != []
    requires forall k :: WithKey(r, k, byPrice) == WithKey(t, k, byPrice)
    ensures r[0] == t[0]
  {
    var k0, k1 := Key(r[0], byPrice), Key(t[0], byPrice);
    NonEmptyWithKey(r, byPrice);
    NonEmptyWithKey(t, byPrice);
    assert WithKey(r, k0, byPrice) == WithKey(t, k0, byPrice);
    assert WithKey(r, k1, byPrice) == WithKey(t, k1, byPrice);
    var y0 := WithKey(t, k0, byPrice)[0];
    WithKeyMembers(t, k0, byPrice, y0);
    SortedHead(t, y0, byPrice);
    var y1 := WithKey(r, k1, byPrice)[0];
    WithKeyMembers(r, k1, byPrice, y1);
    SortedHead(r, y1, byPrice);
    assert k0 == k1;
  }

  lemma DropHead(r: seq<Skip>, t: seq<Skip>, k: int, byPrice: bool)
    requires r != [] && t != [] && r[0] == t[0]
    requires WithKey(r, k, byPrice) == WithKey(t, k, byPrice)
    ensures WithKey(r[1..], k, byPrice) == WithKey(t[1..], k, byPrice)
  {
    var p := if Key(r[0], byPrice) == k then [r[0]] else [];
    assert WithKey(r, k, byPrice) == p + WithKey(r[1..], k, byPrice);
    assert WithKey(t, k, byPrice) == p + WithKey(t[1..], k, byPrice);
    assert (p + WithKey(r[1..], k, byPrice))[|p|..] == WithKey(r[1..], k, byPrice);
    assert (p + WithKey(t[1..], k, byPrice))[|p|..] == WithKey(t[1..], k, byPrice);
  }

  lemma SortedTail(xs: seq<Skip>, byPrice: bool)
    requires Sorted(xs, byPrice) && xs != []
    ensures Sorted(xs[1..], byPrice)
  {
  }

  /** Any stable ascending arrangement of a list is the one StableSorted gives. */
  lemma StableSortIsUnique(r: seq<Skip>, xs: seq<Skip>, byPrice: bool)
    requires Sorted(r, byPrice)
    requires forall k :: WithKey(r, k, byPrice) == WithKey(xs, k, byPrice)
    ensures r == StableSorted(xs, byPrice)
  {
    forall k ensures WithKey(r, k, byPrice) == WithKey(StableSorted(xs, byPrice), k, byPrice) {
      StableSortedIsStable(xs, k, byPrice);
    }
    SortedStableUnique(r, StableSorted(xs, byPrice), byPrice);
  }

  // ---------------------------------------------------------------------
  // The displayed list
  // ---------------------------------------------------------------------

  /**
   * Every displayed record passes each active flag, every record of the full
   * list that passes them is displayed, and nothing else is: the display is
   * a permutation of the filtered list and never longer than the full list.
   */
  lemma DisplayedContents(full: seq<Skip>, roadOnly: bool, heavyOnly: bool, sortBy: string)
    ensures forall x :: x in Displayed(full, roadOnly, heavyOnly, sortBy) <==> x in full && Matches(x, roadOnly, heavyOnly)
    ensures multiset(Displayed(full, roadOnly, heavyOnly, sortBy)) == multiset(FilterFlags(full, roadOnly, heavyOnly))
    ensures |Displayed(full, roadOnly, heavyOnly, sortBy)| <= |full|
    ensures !roadOnly && !heavyOnly ==> multiset(Displayed(full, roadOnly, heavyOnly, sortBy)) == multiset(full)
  {
    FilteredIsConjunction(full, roadOnly, heavyOnly);
    FilterNothing(full);
    StableSortedPermutes(Filtered(full, roadOnly, heavyOnly), ByPrice(sortBy));
    var f := FilterFlags(full, roadOnly, heavyOnly);
    var d := Displayed(full, roadOnly, heavyOnly, sortBy);
    forall x ensures x in d <==> x in full && Matches(x, roadOnly, heavyOnly) {
      calc {
        x in d;
        x in multiset(d);
        x in multiset(f);
        x in f;
        { FilterMembers(full, roadOnly, heavyOnly, x); }
        x in full && Matches(x, roadOnly, heavyOnly);
      }
    }
  }

  /**
   * A record that passes the active flags is displayed as often as it occurs
   * in the full list; any other record is not displayed at all.
   */
  lemma DisplayedMultiplicity(full: seq<Skip>, roadOnly: bool, heavyOnly: bool, sortBy: string, x: Skip)
    ensures multiset(Displayed(full, roadOnly, heavyOnly, sortBy))[x]
         == if Matches(x, roadOnly, heavyOnly) then multiset(full)[x] else 0
  {
    DisplayedContents(full, roadOnly, heavyOnly, sortBy);
    FilterCount(full, roadOnly, heavyOnly, x);
  }

  lemma {:induction false} FilterCount(xs: seq<Skip>, roadOnly: bool, heavyOnly: bool, x: Skip)
    ensures multiset(FilterFlags(xs, roadOnly, heavyOnly))[x]
         == if Matches(x, roadOnly, heavyOnly) then multiset(xs)[x] else 0
    decreases |xs|
  {
    if xs != [] {
      FilterCount(xs[1..], roadOnly, heavyOnly, x);
      assert xs == [xs[0]] + xs[1..];
    }
  }

  lemma {:induction false} FilterMembers(xs: seq<Skip>, roadOnly: bool, heavyOnly: bool, x: Skip)
    ensures x in FilterFlags(xs, roadOnly, heavyOnly) <==> x in xs && Matches(x, roadOnly, heavyOnly)
    decreases |xs|
  {
    if xs != [] {
      FilterMembers(xs[1..], roadOnly, heavyOnly, x);
      assert x in xs <==> x == xs[0] || x in xs[1..];
    }
  }

  /** The display is ascending by the key: by price for "price", by size otherwise. */
  lemma DisplayedSorted(full: seq<Skip>, roadOnly: bool, heavyOnly: bool, sortBy: string)
    ensures var d := Displayed(full, roadOnly, heavyOnly, sortBy);
      sortBy == "price" ==> forall i, j :: 0 <= i < j < |d| ==> d[i].priceNumeric <= d[j].priceNumeric
    ensures var d := Displayed(full, roadOnly, heavyOnly, sortBy);
      sortBy != "price" ==> forall i, j :: 0 <= i < j < |d| ==> d[i].size <= d[j].size
  {
    var d := Displayed(full, roadOnly, heavyOnly, sortBy);
    forall i, j | 0 <= i < j < |d| ensures Key(d[i], ByPrice(sortBy)) <= Key(d[j], ByPrice(sortBy)) {
      SortedPairwise(d, i, j, ByPrice(sortBy));
    }
  }

  lemma {:induction false} FilterWithKeyCommute(xs: seq<Skip>, k: int, roadOnly: bool, heavyOnly: bool, byPrice: bool)
    ensures WithKey(FilterFlags(xs, roadOnly, heavyOnly), k, byPrice) == FilterFlags(WithKey(xs, k, byPrice), roadOnly, heavyOnly)
    decreases |xs|
  {
    if xs != [] {
      FilterWithKeyCommute(xs[1..], k, roadOnly, heavyOnly, byPrice);
      var f := if Matches(xs[0], roadOnly, heavyOnly) then [xs[0]] else [];
      var w := if Key(xs[0], byPrice) == k then [xs[0]] else [];
      WithKeyAppend(f, FilterFlags(xs[1..], roadOnly, heavyOnly), k, byPrice);
      FilterAppend(w, WithKey(xs[1..], k, byPrice), roadOnly, heavyOnly);
      assert WithKey(f, k, byPrice) == FilterFlags(w, roadOnly, heavyOnly) by {
        if Matches(xs[0], roadOnly, heavyOnly) {
          assert WithKey(f, k, byPrice) == w + WithKey([], k, byPrice);
        }
        if Key(xs[0], byPrice) == k {
          assert FilterFlags(w, roadOnly, heavyOnly) == f + FilterFlags([], roadOnly, heavyOnly);
        }
      }
    }
  }

  /**
   * Stability relative to the full list: the displayed records with any one
   * key are the full list's records with that key that pass the flags, in
   * the full list's order.
   */
  lemma DisplayedStable(full: seq<Skip>, roadOnly: bool, heavyOnly: bool, sortBy: string, k: int)
    ensures WithKey(Displayed(full, roadOnly, heavyOnly, sortBy), k, ByPrice(sortBy))
         == FilterFlags(WithKey(full, k, ByPrice(sortBy)), roadOnly, heavyOnly)
  {
    FilteredIsConjunction(full, roadOnly, heavyOnly);
    StableSortedIsStable(Filtered(full, roadOnly, heavyOnly), k, ByPrice(sortBy));
    FilterWithKeyCommute(full, k, roadOnly, heavyOnly, ByPrice(sortBy));
  }

  /**
   * Whatever stable sorting algorithm produced it, a sorted arrangement of
   * the filtered list that keeps equal keys in list order is the display.
   */
  lemma DisplayedIsTheStableSort(r: seq<Skip>, full: seq<Skip>, roadOnly: bool, heavyOnly: bool, sortBy: string)
    requires Sorted(r, ByPrice(sortBy))
    requires forall k :: WithKey(r, k, ByPrice(sortBy)) == WithKey(Filtered(full, roadOnly, heavyOnly), k, ByPrice(sortBy))
    ensures r == Displayed(full, roadOnly, heavyOnly, sortBy)
  {
    StableSortIsUnique(r, Filtered(full, roadOnly, heavyOnly), ByPrice(sortBy));
  }

  /** Running the engine on its own output with the same settings changes nothing. */
  lemma DisplayedIdempotent(full: seq<Skip>, roadOnly: bool, heavyOnly: bool, sortBy: string)
    ensures Displayed(Displayed(full, roadOnly, heavyOnly, sortBy), roadOnly, heavyOnly, sortBy)
         == Displayed(full, roadOnly, heavyOnly, sortBy)
  {
    var d := Displayed(full, roadOnly, heavyOnly, sortBy);
    DisplayedContents(full, roadOnly, heavyOnly, sortBy);
    FilteredIsConjunction(d, roadOnly, heavyOnly);
    AllMatch(d, roadOnly, heavyOnly);
    SortedIsFixedPoint(d, ByPrice(sortBy));
  }

  lemma {:induction false} AllMatch(xs: seq<Skip>, roadOnly: bool, heavyOnly: bool)
    requires forall x :: x in xs ==> Matches(x, roadOnly, heavyOnly)
    ensures FilterFlags(xs, roadOnly, heavyOnly) == xs
    decreases |xs|
  {
    if xs != [] {
      assert xs[0] in xs;
      AllMatch(xs[1..], roadOnly, heavyOnly);
    }
  }
}
