/** Result types, 64-bit limits and the sequence vocabulary shared by every component. */
module Base {
  datatype Option<+T> = None | Some(value: T)

  datatype Result<+T, +E> = Ok(value: T) | Err(error: E)

  const I64_MAX: int := 0x7FFF_FFFF_FFFF_FFFF
  const U64_MAX: int := 0xFFFF_FFFF_FFFF_FFFF

  function Max(a: int, b: int): int {
    if a >= b then a else b
  }

  function Min(a: int, b: int): int {
    if a <= b then a else b
  }
}

/** Table-like operations on sequences of rows. */
module Rows {
  /** The rows satisfying p, in table order. */
  function Filter<T(!new)>(s: seq<T>, p: T -> bool): (r: seq<T>)
    ensures forall x :: x in r <==> x in s && p(x)
    ensures |r| <= |s|
  {
    if s == [] then []
    else
      var rest := Filter(s[..|s| - 1], p);
      if p(s[|s| - 1]) then rest + [s[|s| - 1]] else rest
  }

  /** SUM(f) over a table. */
  function Sum<T>(s: seq<T>, f: T -> int): int {
    if s == [] then 0 else Sum(s[..|s| - 1], f) + f(s[|s| - 1])
  }

  /** The identifiers of a table strictly increase: rows are appended, never reordered. */
  ghost predicate Ascending<T>(s: seq<T>, id: T -> int) {
    forall i, j :: 0 <= i < j < |s| ==> id(s[i]) < id(s[j])
  }

  /** Rowid allocation: one more than the largest rowid in use, starting at 1. */
  function NextId<T>(s: seq<T>, id: T -> int): int {
    if s == [] then 1 else id(s[|s| - 1]) + 1
  }

  lemma {:induction false} FilterAscending<T(!new)>(s: seq<T>, p: T -> bool, id: T -> int)
    requires Ascending(s, id)
    ensures Ascending(Filter(s, p), id)
  {
    if s != [] {
      FilterAscending(s[..|s| - 1], p, id);
      forall x | x in Filter(s[..|s| - 1], p) ensures id(x) < id(s[|s| - 1]) {
        var k :| 0 <= k < |s| - 1 && s[k] == x;
      }
    }
  }

  lemma {:induction false} FilterAll<T(!new)>(s: seq<T>, p: T -> bool)
    requires forall x :: x in s ==> p(x)
    ensures Filter(s, p) == s
  {
    if s != [] {
      FilterAll(s[..|s| - 1], p);
    }
  }

  lemma {:induction false} FilterUnchanged<T(!new)>(s: seq<T>, p: T -> bool)
    requires |Filter(s, p)| == |s|
    ensures Filter(s, p) == s
  {
    if s != [] {
      FilterUnchanged(s[..|s| - 1], p);
    }
  }

  lemma {:induction false} SubsetSize<T>(a: set<T>, b: set<T>)
    requires a <= b
    ensures |a| <= |b|
  {
    assert b == a + (b - a);
  }

  /** Deleting the rows that satisfy p takes exactly their share out of a sum. */
  lemma {:induction false} SumSplit<T(!new)>(s: seq<T>, p: T -> bool, q: T -> bool, f: T -> int)
    requires forall x :: x in s ==> p(x) == !q(x)
    ensures Sum(Filter(s, p), f) + Sum(Filter(s, q), f) == Sum(s, f)
    ensures |Filter(s, p)| + |Filter(s, q)| == |s|
  {
    if s != [] {
      var m := |s| - 1;
      SumSplit(s[..m], p, q, f);
      SumAppend(Filter(s[..m], p), s[m], f);
      SumAppend(Filter(s[..m], q), s[m], f);
    }
  }

  lemma SumAppend<T>(s: seq<T>, x: T, f: T -> int)
    ensures Sum(s + [x], f) == Sum(s, f) + f(x)
  {
    assert (s + [x])[..|s|] == s;
  }

  lemma {:induction false} AscendingUnique<T>(s: seq<T>, id: T -> int, x: T, y: T)
    requires Ascending(s, id) && x in s && y in s && id(x) == id(y)
    ensures x == y
  {
    var i :| 0 <= i < |s| && s[i] == x;
    var j :| 0 <= j < |s| && s[j] == y;
    if i < j {
    } else if j < i {
    }
  }

  /** An identifier names one position. */
  lemma AscendingIndex<T>(s: seq<T>, id: T -> int, i: nat, j: nat)
    requires Ascending(s, id) && i < |s| && j < |s| && id(s[i]) == id(s[j])
    ensures i == j
  {
  }

  lemma {:induction false} SumRemove<T>(s: seq<T>, i: nat, f: T -> int)
    requires i < |s|
    ensures Sum(s[..i] + s[i + 1..], f) == Sum(s, f) - f(s[i])
  {
    var m := |s| - 1;
    if i == m {
      assert s[..i] + s[i + 1..] == s[..m];
    } else {
      SumRemove(s[..m], i, f);
      assert s[..i] + s[i + 1..] == (s[..m][..i] + s[..m][i + 1..]) + [s[m]];
      SumAppend(s[..m][..i] + s[..m][i + 1..], s[m], f);
    }
  }

  lemma RemovedOnce<T>(s: seq<T>, k: nat)
    requires k < |s|
    ensures multiset(s[..k] + s[k + 1..]) == multiset(s) - multiset{s[k]}
  {
    assert s == s[..k] + [s[k]] + s[k + 1..];
  }

  lemma SameSize<T>(s: seq<T>, t: seq<T>)
    requires multiset(s) == multiset(t)
    ensures |s| == |t|
  {
    assert |s| == |multiset(s)| && |t| == |multiset(t)|;
  }

  /** A sum does not depend on the order of its rows. */
  lemma {:induction false} SumPermutation<T>(s: seq<T>, t: seq<T>, f: T -> int)
    requires multiset(s) == multiset(t)
    ensures Sum(s, f) == Sum(t, f) && |s| == |t|
    decreases |s|
  {
    SameSize(s, t);
    if s != [] {
      var m := |s| - 1;
      RemovedOnce(s, m);
      assert s[..m] + s[m + 1..] == s[..m];
      assert s[m] in multiset(s);
      var k :| 0 <= k < |t| && t[k] == s[m];
      RemovedOnce(t, k);
      SumPermutation(s[..m], t[..k] + t[k + 1..], f);
      SumRemove(t, k, f);
    }
  }
}

/** ORDER BY on up to three columns. */
module Ordering {
  datatype Key = Key(first: int, second: int, third: int)

  predicate Before(x: Key, y: Key) {
    x.first < y.first ||
    (x.first == y.first && (x.second < y.second || (x.second == y.second && x.third < y.third)))
  }

  function Insert<T(==)>(x: T, s: seq<T>, key: T -> Key): (r: seq<T>)
    ensures multiset(r) == multiset(s) + multiset{x}
  {
    if s == [] || !Before(key(s[0]), key(x)) then [x] + s
    else
      assert s == [s[0]] + s[1..];
      [s[0]] + Insert(x, s[1..], key)
  }

  function Sort<T(==)>(s: seq<T>, key: T -> Key): (r: seq<T>)
    ensures multiset(r) == multiset(s)
    ensures |r| == |s|
  {
    if s == [] then []
    else
      assert s == s[..|s| - 1] + [s[|s| - 1]];
      var r := Insert(s[|s| - 1], Sort(s[..|s| - 1], key), key);
      assert |r| == |multiset(r)| && |s| == |multiset(s)|;
      r
  }

  lemma SortMembers<T>(s: seq<T>, key: T -> Key)
    ensures forall x :: x in Sort(s, key) <==> x in s
  {
    forall x
      ensures x in Sort(s, key) <==> x in s
    {
      assert x in Sort(s, key) <==> x in multiset(Sort(s, key));
      assert x in s <==> x in multiset(s);
    }
  }

  ghost predicate Distinct<T>(s: seq<T>) {
    forall i, j :: 0 <= i < j < |s| ==> s[i] != s[j]
  }

  lemma {:induction false} DistinctMultiset<T>(s: seq<T>)
    ensures Distinct(s) <==> forall x :: multiset(s)[x] <= 1
  {
    if s != [] {
      var m := |s| - 1;
      assert s == s[..m] + [s[m]];
      DistinctMultiset(s[..m]);
      if Distinct(s) {
        assert s[m] !in s[..m];
        assert s[m] !in multiset(s[..m]);
      }
      if forall x :: multiset(s)[x] <= 1 {
        forall x ensures multiset(s[..m])[x] <= 1 {
          assert multiset(s)[x] <= 1;
        }
        assert multiset(s)[s[m]] <= 1;
        assert s[m] !in multiset(s[..m]);
        forall i, j | 0 <= i < j < |s| ensures s[i] != s[j] {
          assert s[i] in multiset(s[..m]);
          if j < m { assert s[..m][i] != s[..m][j]; }
        }
      }
    }
  }

  lemma SortDistinct<T>(s: seq<T>, key: T -> Key)
    requires Distinct(s)
    ensures Distinct(Sort(s, key))
  {
    DistinctMultiset(s);
    DistinctMultiset(Sort(s, key));
  }

  ghost predicate Sorted<T>(s: seq<T>, key: T -> Key) {
    forall i, j :: 0 <= i < j < |s| ==> !Before(key(s[j]), key(s[i]))
  }

  lemma {:induction false} InsertSorted<T>(x: T, s: seq<T>, key: T -> Key)
    requires Sorted(s, key)
    ensures Sorted(Insert(x, s, key), key)
  {
    if s != [] && Before(key(s[0]), key(x)) {
      InsertSorted(x, s[1..], key);
      var rest := Insert(x, s[1..], key);
      forall y | y in rest ensures !Before(key(y), key(s[0])) {
        assert y in multiset(rest);
        assert y == x || y in multiset(s[1..]);
        if y != x {
          assert y in s[1..];
        }
      }
    }
  }

  /** Sort really orders by the key, so the first k rows are the k smallest. */
  lemma {:induction false} SortSorted<T>(s: seq<T>, key: T -> Key)
    ensures Sorted(Sort(s, key), key)
  {
    if s != [] {
      SortSorted(s[..|s| - 1], key);
      InsertSorted(s[|s| - 1], Sort(s[..|s| - 1], key), key);
    }
  }
}

/** DELETE ... WHERE id IN (...) on a table with increasing identifiers. */
module Deletion {
  import opened Rows
  import opened Ordering

  function Ids<T(==,!new)>(rows: seq<T>, id: T -> int): set<int> {
    set r | r in rows :: id(r)
  }

  function Without<T(!new)>(rows: seq<T>, id: T -> int, gone: set<int>): (r: seq<T>)
    ensures forall x :: x in r <==> x in rows && id(x) !in gone
    ensures |r| <= |rows|
  {
    Filter(rows, x => id(x) !in gone)
  }

  /** Deleting by one column keeps the table ordered by another. */
  lemma WithoutAscending<T(!new)>(rows: seq<T>, id: T -> int, gone: set<int>, order: T -> int)
    requires Ascending(rows, order)
    ensures Ascending(Without(rows, id, gone), order)
  {
    FilterAscending(rows, x => id(x) !in gone, order);
  }

  lemma AscendingDistinct<T>(rows: seq<T>, id: T -> int)
    requires Ascending(rows, id)
    ensures Distinct(rows)
  {
    forall i, j | 0 <= i < j < |rows| ensures rows[i] != rows[j] {
      assert id(rows[i]) < id(rows[j]);
    }
  }

  lemma SameMembersSameMultiset<T>(s: seq<T>, t: seq<T>)
    requires Distinct(s) && Distinct(t) && forall x :: x in s <==> x in t
    ensures multiset(s) == multiset(t)
  {
    DistinctMultiset(s);
    DistinctMultiset(t);
    forall x ensures multiset(s)[x] == multiset(t)[x] {
      assert x in s <==> x in multiset(s);
      assert x in t <==> x in multiset(t);
    }
  }

  /** Deleting some rows of a table takes away exactly them, from the count and from every sum. */
  lemma WithoutTotals<T(!new)>(rows: seq<T>, id: T -> int, gone: seq<T>, f: T -> int)
    requires Ascending(rows, id) && Distinct(gone) && forall g :: g in gone ==> g in rows
    ensures var kept := Without(rows, id, Ids(gone, id));
            && |kept| == |rows| - |gone|
            && Sum(kept, f) == Sum(rows, f) - Sum(gone, f)
            && forall x :: x in kept <==> x in rows && x !in gone
  {
    hide Filter, Sum;
    var ids := Ids(gone, id);
    var taken := Filter(rows, x => id(x) in ids);
    forall x | x in rows ensures id(x) in ids <==> x in gone {
      if id(x) in ids {
        var g :| g in gone && id(g) == id(x);
        AscendingUnique(rows, id, x, g);
      }
    }
    SumSplit(rows, x => id(x) !in ids, x => id(x) in ids, f);
    FilterAscending(rows, x => id(x) in ids, id);
    AscendingDistinct(taken, id);
    SameMembersSameMultiset(taken, gone);
    SumPermutation(taken, gone, f);
  }
}
