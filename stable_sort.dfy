/**
 * `Array.prototype.sort` with a comparator, as ECMAScript 2019 and later define it:
 * a stable sort, where a comparator result <= 0 keeps the earlier element first.
 * For a consistent comparator the stable sorted order is unique, so it is modelled
 * here by insertion sort.
 */
module StableSort {

  /**
   * The "consistent comparator" conditions: the sign of `c(a, b)` is the opposite of
   * the sign of `c(b, a)`, and "goes no later than" (`c(a, b) <= 0`) is transitive.
   */
  ghost predicate Consistent<T(!new)>(c: (T, T) -> int)
  {
    && (forall a, b :: c(a, b) < 0 <==> c(b, a) > 0)
    && (forall a, b, d :: c(a, b) <= 0 && c(b, d) <= 0 ==> c(a, d) <= 0)
  }

  /** Every element goes no later than every element after it. */
  ghost predicate Sorted<T>(s: seq<T>, c: (T, T) -> int)
  {
    forall i, j :: 0 <= i < j < |s| ==> c(s[i], s[j]) <= 0
  }

  /** Inserts `x`, which came before all of `s` in the input, into the sorted `s`. */
  function Insert<T>(x: T, s: seq<T>, c: (T, T) -> int): (r: seq<T>)
    ensures multiset(r) == multiset(s) + multiset{x}
    ensures |r| == |s| + 1
  {
    if s == [] then [x]
    else if c(x, s[0]) <= 0 then [x] + s
    else
      assert s == [s[0]] + s[1..];
      [s[0]] + Insert(x, s[1..], c)
  }

  /** The stable sort of `s` under the comparator `c`. */
  function Sort<T>(s: seq<T>, c: (T, T) -> int): (r: seq<T>)
    ensures multiset(r) == multiset(s)
    ensures |r| == |s|
  {
    if s == [] then []
    else
      assert s == [s[0]] + s[1..];
      Insert(s[0], Sort(s[1..], c), c)
  }

  /** `[x]` when `x` compares equal to `y`, and nothing otherwise. */
  function TieOf<T>(x: T, y: T, c: (T, T) -> int): seq<T>
  {
    if c(x, y) == 0 then [x] else []
  }

  /** The elements of `s` that compare equal to `y`, in their order in `s`. */
  function Ties<T>(s: seq<T>, y: T, c: (T, T) -> int): seq<T>
  {
    if s == [] then [] else TieOf(s[0], y, c) + Ties(s[1..], y, c)
  }

  lemma ConsistentReflexive<T(!new)>(c: (T, T) -> int, a: T)
    requires Consistent(c)
    ensures c(a, a) == 0
  {
  }

  /** Under a consistent comparator, comparing equal is an equivalence. */
  lemma ConsistentTie<T(!new)>(c: (T, T) -> int, x: T, e: T, y: T)
    requires Consistent(c)
    ensures c(x, y) == 0 && c(e, y) == 0 ==> c(x, e) == 0
  {
    if c(x, y) == 0 && c(e, y) == 0 {
      assert c(y, e) <= 0 && c(y, x) <= 0;
    }
  }

  /** `y` goes no later than any element of `s`. */
  ghost predicate NoLaterThanAll<T>(y: T, s: seq<T>, c: (T, T) -> int)
  {
    forall e :: e in s ==> c(y, e) <= 0
  }

  lemma SortedCons<T>(y: T, t: seq<T>, c: (T, T) -> int)
    requires Sorted(t, c) && NoLaterThanAll(y, t, c)
    ensures Sorted([y] + t, c)
  {
    var r := [y] + t;
    forall i, j | 0 <= i < j < |r| ensures c(r[i], r[j]) <= 0 {
      if i == 0 {
        assert r[j] == t[j - 1] && r[j] in t;
      } else {
        assert r[i] == t[i - 1] && r[j] == t[j - 1];
      }
    }
  }

  /** The first element of a sorted sequence goes no later than any of its elements. */
  lemma SortedHeadFirst<T(!new)>(s: seq<T>, c: (T, T) -> int)
    requires Consistent(c) && Sorted(s, c) && s != []
    ensures NoLaterThanAll(s[0], s, c)
  {
    forall e | e in s ensures c(s[0], e) <= 0 {
      var k :| 0 <= k < |s| && s[k] == e;
      if k == 0 {
        ConsistentReflexive(c, e);
      }
    }
  }

  lemma InsertMembers<T>(x: T, s: seq<T>, c: (T, T) -> int, e: T)
    ensures e in Insert(x, s, c) ==> e == x || e in s
  {
    var r := Insert(x, s, c);
    if e in r {
      assert e in multiset(r);
    }
  }

  lemma {:induction false} InsertSorted<T(!new)>(x: T, s: seq<T>, c: (T, T) -> int)
    requires Consistent(c) && Sorted(s, c)
    ensures Sorted(Insert(x, s, c), c)
  {
    if s == [] {
    } else if c(x, s[0]) <= 0 {
      SortedHeadFirst(s, c);
      forall e | e in s ensures c(x, e) <= 0 {
        assert c(s[0], e) <= 0;
      }
      SortedCons(x, s, c);
    } else {
      InsertSorted(x, s[1..], c);
      var t := Insert(x, s[1..], c);
      forall e | e in t ensures c(s[0], e) <= 0 {
        InsertMembers(x, s[1..], c, e);
        if e != x {
          var k :| 0 <= k < |s[1..]| && s[1..][k] == e;
          assert s[k + 1] == e;
        }
      }
      SortedCons(s[0], t, c);
    }
  }

  /** The output of `Sort` is ordered by a consistent comparator. */
  lemma {:induction false} SortSorted<T(!new)>(s: seq<T>, c: (T, T) -> int)
    requires Consistent(c)
    ensures Sorted(Sort(s, c), c)
  {
    if s != [] {
      SortSorted(s[1..], c);
      InsertSorted(s[0], Sort(s[1..], c), c);
    }
  }

  lemma {:induction false} TiesAppend<T>(a: seq<T>, b: seq<T>, y: T, c: (T, T) -> int)
    ensures Ties(a + b, y, c) == Ties(a, y, c) + Ties(b, y, c)
  {
    if a == [] {
      assert a + b == b;
    } else {
      var head := TieOf(a[0], y, c);
      assert (a + b)[0] == a[0];
      assert (a + b)[1..] == a[1..] + b;
      TiesAppend(a[1..], b, y, c);
      calc {
        Ties(a + b, y, c);
        head + Ties(a[1..] + b, y, c);
        head + (Ties(a[1..], y, c) + Ties(b, y, c));
        (head + Ties(a[1..], y, c)) + Ties(b, y, c);
      }
    }
  }

  /** Inserting `x` puts it among the ties of `y` at their front, if it ties with `y` and with all of them. */
  lemma {:induction false} InsertTies<T(!new)>(x: T, s: seq<T>, y: T, c: (T, T) -> int)
    requires forall e :: c(x, y) == 0 && c(e, y) == 0 ==> c(x, e) == 0
    ensures Ties(Insert(x, s, c), y, c) == TieOf(x, y, c) + Ties(s, y, c)
  {
    if s == [] {
    } else if c(x, s[0]) <= 0 {
      TiesAppend([x], s, y, c);
    } else {
      var t := Insert(x, s[1..], c);
      assert Insert(x, s, c) == [s[0]] + t;
      InsertTies(x, s[1..], y, c);
      TiesAppend([s[0]], t, y, c);
      assert Ties(s, y, c) == TieOf(s[0], y, c) + Ties(s[1..], y, c);
      assert TieOf(s[0], y, c) == [] || TieOf(x, y, c) == [];
    }
  }

  /**
   * Stability: for every `y`, the elements comparing equal to `y` appear in the output
   * in the same order as in the input.
   */
  lemma {:induction false} SortStable<T(!new)>(s: seq<T>, y: T, c: (T, T) -> int)
    requires Consistent(c)
    ensures Ties(Sort(s, c), y, c) == Ties(s, y, c)
  {
    if s != [] {
      SortStable(s[1..], y, c);
      forall e | c(s[0], y) == 0 && c(e, y) == 0
        ensures c(s[0], e) == 0
      {
        ConsistentTie(c, s[0], e, y);
      }
      InsertTies(s[0], Sort(s[1..], c), y, c);
      assert Ties(s, y, c) == TieOf(s[0], y, c) + Ties(s[1..], y, c);
    }
  }

  /** `Sort` depends only on the values of its comparator. */
  lemma {:induction false} SortSameComparator<T(!new)>(s: seq<T>, c1: (T, T) -> int, c2: (T, T) -> int)
    requires forall a, b :: c1(a, b) == c2(a, b)
    ensures Sort(s, c1) == Sort(s, c2)
  {
    if s != [] {
      SortSameComparator(s[1..], c1, c2);
      InsertSameComparator(s[0], Sort(s[1..], c1), c1, c2);
    }
  }

  lemma {:induction false} InsertSameComparator<T(!new)>(x: T, s: seq<T>, c1: (T, T) -> int, c2: (T, T) -> int)
    requires forall a, b :: c1(a, b) == c2(a, b)
    ensures Insert(x, s, c1) == Insert(x, s, c2)
  {
    if s != [] && c1(x, s[0]) > 0 {
      InsertSameComparator(x, s[1..], c1, c2);
    }
  }

  /** Sequence reversal. */
  function Reverse<T>(s: seq<T>): (r: seq<T>)
    ensures |r| == |s|
    ensures forall i :: 0 <= i < |s| ==> r[i] == s[|s| - 1 - i]
  {
    if s == [] then [] else Reverse(s[1..]) + [s[0]]
  }

  lemma {:induction false} ReverseMultiset<T>(s: seq<T>)
    ensures multiset(Reverse(s)) == multiset(s)
  {
    if s != [] {
      ReverseMultiset(s[1..]);
      assert s == [s[0]] + s[1..];
    }
  }

  /** No two different elements of `s` compare equal. */
  ghost predicate NoTies<T>(s: seq<T>, c: (T, T) -> int)
  {
    forall a, b :: a in s && b in s && c(a, b) == 0 ==> a == b
  }

  /**
   * Two sorted sequences holding the same elements are equal when no two different
   * elements compare equal.
   */
  lemma MultisetTail<T>(a: seq<T>, b: seq<T>)
    requires a != [] && b != [] && a[0] == b[0] && multiset(a) == multiset(b)
    ensures multiset(a[1..]) == multiset(b[1..])
  {
    assert a == [a[0]] + a[1..] && b == [b[0]] + b[1..];
    assert multiset(a[1..]) == multiset(a) - multiset{a[0]};
    assert multiset(b[1..]) == multiset(b) - multiset{a[0]};
  }

  lemma SortedSameHead<T(!new)>(a: seq<T>, b: seq<T>, c: (T, T) -> int)
    requires Consistent(c)
    requires a != [] && multiset(a) == multiset(b)
    requires Sorted(a, c) && Sorted(b, c) && NoTies(a, c)
    ensures b != [] && a[0] == b[0]
  {
    assert |a| == |multiset(a)| == |b|;
    assert a[0] in multiset(b) && b[0] in multiset(a);
    SortedHeadFirst(a, c);
    SortedHeadFirst(b, c);
    assert c(a[0], b[0]) <= 0 && c(b[0], a[0]) <= 0;
  }

  lemma {:induction false} SortedUnique<T(!new)>(a: seq<T>, b: seq<T>, c: (T, T) -> int)
    requires Consistent(c)
    requires multiset(a) == multiset(b)
    requires Sorted(a, c) && Sorted(b, c) && NoTies(a, c)
    ensures a == b
    decreases |a|
  {
    if a == [] {
      assert |b| == |multiset(b)| == 0;
    } else {
      SortedSameHead(a, b, c);
      MultisetTail(a, b);
      SortedUnique(a[1..], b[1..], c);
      assert a == [a[0]] + a[1..] && b == [b[0]] + b[1..];
    }
  }

  /**
   * Sorting with the arguments of the comparator swapped gives the reverse order,
   * when no two different elements compare equal.
   */
  lemma SwappedSortIsReverse<T(!new)>(s: seq<T>, c: (T, T) -> int, swapped: (T, T) -> int)
    requires Consistent(c)
    requires forall a, b :: swapped(a, b) == c(b, a)
    requires NoTies(s, c)
    ensures Sort(s, swapped) == Reverse(Sort(s, c))
  {
    var up := Sort(s, c);
    var down := Sort(s, swapped);
    var rev := Reverse(up);
    assert Consistent(swapped);
    SortSorted(s, c);
    SortSorted(s, swapped);
    ReverseMultiset(up);
    assert Sorted(rev, swapped) by {
      forall i, j | 0 <= i < j < |rev| ensures swapped(rev[i], rev[j]) <= 0 {
        assert c(up[|up| - 1 - j], up[|up| - 1 - i]) <= 0;
      }
    }
    forall x, y | x in down && y in down && swapped(x, y) == 0 ensures x == y {
      assert x in multiset(down) && y in multiset(down);
      assert x in s && y in s;
    }
    SortedUnique(down, rev, swapped);
  }
}
