/**
 * What `ORDER BY` and `WHERE` do to a set of rows: a filter, and a sort on
 * a comparable key.  Keys are integer sequences compared lexicographically;
 * `NameKey` encodes the two-column key `(apellido, nombre)`.
 */
module Ordering {
  import opened Wrappers

  /** Lexicographic order on integer sequences (a proper prefix comes first). */
  predicate LexLe(a: seq<int>, b: seq<int>)
    decreases |a|
  {
    |a| == 0 || (|b| > 0 && (a[0] < b[0] || (a[0] == b[0] && LexLe(a[1..], b[1..]))))
  }

  lemma {:induction false} LexLeReflexive(a: seq<int>)
    ensures LexLe(a, a)
    decreases |a|
  {
    if |a| > 0 {
      LexLeReflexive(a[1..]);
    }
  }

  lemma {:induction false} LexLeTotal(a: seq<int>, b: seq<int>)
    ensures LexLe(a, b) || LexLe(b, a)
    decreases |a|
  {
    if |a| > 0 && |b| > 0 && a[0] == b[0] {
      LexLeTotal(a[1..], b[1..]);
    }
  }

  lemma {:induction false} LexLeTransitive(a: seq<int>, b: seq<int>, c: seq<int>)
    requires LexLe(a, b) && LexLe(b, c)
    ensures LexLe(a, c)
    decreases |a|
  {
    if |a| > 0 && a[0] == b[0] && b[0] == c[0] {
      LexLeTransitive(a[1..], b[1..], c[1..]);
    }
  }

  lemma {:induction false} LexLeAntisymmetric(a: seq<int>, b: seq<int>)
    requires LexLe(a, b) && LexLe(b, a)
    ensures a == b
    decreases |a|
  {
    if |a| > 0 {
      LexLeAntisymmetric(a[1..], b[1..]);
      assert a == [a[0]] + a[1..] && b == [b[0]] + b[1..];
    }
  }

  /** Every earlier element's key is at most every later element's key. */
  predicate SortedBy<T>(xs: seq<T>, key: T -> seq<int>) {
    forall i, j :: 0 <= i < j < |xs| ==> LexLe(key(xs[i]), key(xs[j]))
  }

  /** `x` goes in front of the first element whose key is not below it. */
  function InsertBy<T>(x: T, xs: seq<T>, key: T -> seq<int>): (r: seq<T>)
    requires SortedBy(xs, key)
    ensures SortedBy(r, key)
    ensures multiset(r) == multiset(xs) + multiset{x}
    decreases |xs|
  {
    if xs == [] then [x]
    else if LexLe(key(x), key(xs[0])) then
      InsertInFront(x, xs, key);
      [x] + xs
    else
      var rest := InsertBy(x, xs[1..], key);
      LexLeTotal(key(x), key(xs[0]));
      InsertAfterHead(xs, x, rest, key);
      assert xs == [xs[0]] + xs[1..];
      [xs[0]] + rest
  }

  lemma InsertInFront<T>(x: T, xs: seq<T>, key: T -> seq<int>)
    requires SortedBy(xs, key)
    requires xs != [] && LexLe(key(x), key(xs[0]))
    ensures SortedBy([x] + xs, key)
  {
    var r := [x] + xs;
    forall i, j | 0 <= i < j < |r| ensures LexLe(key(r[i]), key(r[j])) {
      if i == 0 && j > 1 {
        LexLeTransitive(key(x), key(xs[0]), key(xs[j - 1]));
      }
    }
  }

  lemma InsertAfterHead<T>(xs: seq<T>, x: T, rest: seq<T>, key: T -> seq<int>)
    requires SortedBy(xs, key) && xs != []
    requires LexLe(key(xs[0]), key(x))
    requires SortedBy(rest, key)
    requires multiset(rest) == multiset(xs[1..]) + multiset{x}
    ensures SortedBy([xs[0]] + rest, key)
  {
    var r := [xs[0]] + rest;
    forall i, j | 0 <= i < j < |r| ensures LexLe(key(r[i]), key(r[j])) {
      if i == 0 {
        var y := rest[j - 1];
        assert y in multiset(rest);
        if y != x {
          assert y in multiset(xs[1..]);
          var k :| 0 <= k < |xs[1..]| && xs[1..][k] == y;
          assert xs[k + 1] == y;
        }
      }
    }
  }

  /** Insertion sort: a sorted permutation of `xs`. */
  function SortBy<T>(xs: seq<T>, key: T -> seq<int>): (r: seq<T>)
    ensures SortedBy(r, key)
    ensures multiset(r) == multiset(xs)
    decreases |xs|
  {
    if xs == [] then []
    else
      assert xs == [xs[0]] + xs[1..];
      InsertBy(xs[0], SortBy(xs[1..], key), key)
  }

  /** The elements of `xs` that satisfy `p`, in their order. */
  function Filter<T(!new)>(xs: seq<T>, p: T -> bool): (r: seq<T>)
    ensures forall x :: x in r <==> x in xs && p(x)
    ensures |r| <= |xs|
    decreases |xs|
  {
    if xs == [] then []
    else
      assert xs == [xs[0]] + xs[1..];
      (if p(xs[0]) then [xs[0]] else []) + Filter(xs[1..], p)
  }

  /**
   * The rows of a table with identifiers `1..n`, in ascending identifier
   * order: the order of a primary-key scan.
   */
  function RowsUpTo<T(!new)>(table: map<int, T>, n: int): (r: seq<(int, T)>)
    ensures forall x :: x in r ==> 1 <= x.0 <= n && x.0 in table && x.1 == table[x.0]
    ensures forall id :: 1 <= id <= n && id in table ==> (id, table[id]) in r
    ensures forall i, j :: 0 <= i < j < |r| ==> r[i].0 < r[j].0
    decreases n
  {
    if n < 1 then []
    else RowsUpTo(table, n - 1) + (if n in table then [(n, table[n])] else [])
  }

  /** An inner join: each row that finds its partners yields one result, in row order. */
  function Joined<T(!new), V(!new)>(rows: seq<(int, T)>, join: (int, T) -> Option<V>): (r: seq<V>)
    ensures forall v :: v in r ==> exists x :: x in rows && join(x.0, x.1) == Some(v)
    ensures forall x :: x in rows && join(x.0, x.1).Some? ==> join(x.0, x.1).value in r
    decreases |rows|
  {
    if rows == [] then []
    else
      assert rows == [rows[0]] + rows[1..];
      var head := join(rows[0].0, rows[0].1);
      (if head.Some? then [head.value] else []) + Joined(rows[1..], join)
  }

  /** A join that keeps the identifier of the row it starts from, readable back through `idOf`. */
  ghost predicate KeepsId<T(!new), V>(join: (int, T) -> Option<V>, idOf: V -> int) {
    forall id, t :: join(id, t).Some? ==> idOf(join(id, t).value) == id
  }

  /**
   * `SELECT ... FROM table JOIN ... WHERE keep ORDER BY key` over the rows
   * with identifiers `1..n`: exactly the joined rows that pass `keep`, sorted.
   */
  function Select<T(!new), V(!new)>(table: map<int, T>, n: int, join: (int, T) -> Option<V>, idOf: V -> int,
                                    keep: V -> bool, key: V -> seq<int>): (r: seq<V>)
    requires KeepsId(join, idOf)
    ensures SortedBy(r, key)
    ensures forall i :: 0 <= i < |r| ==>
              keep(r[i]) && 1 <= idOf(r[i]) <= n && idOf(r[i]) in table && join(idOf(r[i]), table[idOf(r[i])]) == Some(r[i])
    ensures forall id :: 1 <= id <= n && id in table && join(id, table[id]).Some? && keep(join(id, table[id]).value) ==>
              join(id, table[id]).value in r
    ensures forall i, j :: 0 <= i < j < |r| ==> idOf(r[i]) != idOf(r[j])
  {
    var rows := RowsUpTo(table, n);
    var kept := Filter(Joined(rows, join), keep);
    SelectSound(table, n, join, idOf, keep);
    SelectComplete(table, n, join, keep);
    SortedMembers(kept, key);
    JoinedIncreasing(rows, join, idOf);
    FilterIncreasing(Joined(rows, join), keep, idOf);
    PermutationKeepsIdsDistinct(kept, SortBy(kept, key), idOf);
    SortBy(kept, key)
  }

  /** Identifiers strictly increase along `xs`. */
  predicate IdsIncreasing<V>(xs: seq<V>, idOf: V -> int) {
    forall i, j :: 0 <= i < j < |xs| ==> idOf(xs[i]) < idOf(xs[j])
  }

  /** An element below everything in an ascending sequence can go in front of it. */
  lemma ConsIncreasing<V>(x: V, rest: seq<V>, idOf: V -> int)
    requires IdsIncreasing(rest, idOf)
    requires forall v :: v in rest ==> idOf(x) < idOf(v)
    ensures IdsIncreasing([x] + rest, idOf)
  {
    var r := [x] + rest;
    forall i, j | 0 <= i < j < |r|
      ensures idOf(r[i]) < idOf(r[j])
    {
      assert r[j] == rest[j - 1];
      if i > 0 {
        assert r[i] == rest[i - 1];
      }
    }
  }

  /** A join that keeps identifiers keeps a scan's ascending identifier order. */
  lemma {:induction false} JoinedIncreasing<T(!new), V(!new)>(rows: seq<(int, T)>, join: (int, T) -> Option<V>, idOf: V -> int)
    requires KeepsId(join, idOf)
    requires forall i, j :: 0 <= i < j < |rows| ==> rows[i].0 < rows[j].0
    ensures IdsIncreasing(Joined(rows, join), idOf)
    ensures rows != [] ==> forall v :: v in Joined(rows, join) ==> rows[0].0 <= idOf(v)
    decreases |rows|
  {
    if rows != [] {
      var tail := rows[1..];
      assert forall i, j :: 0 <= i < j < |tail| ==> tail[i].0 < tail[j].0 by {
        forall i, j | 0 <= i < j < |tail|
          ensures tail[i].0 < tail[j].0
        {
          assert tail[i] == rows[i + 1] && tail[j] == rows[j + 1];
        }
      }
      JoinedIncreasing(tail, join, idOf);
      var rest := Joined(tail, join);
      var head := join(rows[0].0, rows[0].1);
      assert Joined(rows, join) == (if head.Some? then [head.value] else []) + rest;
      if tail != [] {
        assert rows[0].0 < tail[0].0;
      }
      if head.Some? {
        assert idOf(head.value) == rows[0].0;
        ConsIncreasing(head.value, rest, idOf);
      }
    }
  }

  /** Filtering keeps ascending identifiers ascending. */
  lemma {:induction false} FilterIncreasing<V(!new)>(xs: seq<V>, p: V -> bool, idOf: V -> int)
    requires IdsIncreasing(xs, idOf)
    ensures IdsIncreasing(Filter(xs, p), idOf)
    ensures xs != [] ==> forall v :: v in Filter(xs, p) ==> idOf(xs[0]) <= idOf(v)
    decreases |xs|
  {
    if xs != [] {
      var tail := xs[1..];
      assert IdsIncreasing(tail, idOf) by {
        forall i, j | 0 <= i < j < |tail|
          ensures idOf(tail[i]) < idOf(tail[j])
        {
          assert tail[i] == xs[i + 1] && tail[j] == xs[j + 1];
        }
      }
      FilterIncreasing(tail, p, idOf);
      var rest := Filter(tail, p);
      assert Filter(xs, p) == (if p(xs[0]) then [xs[0]] else []) + rest;
      if tail != [] {
        assert idOf(xs[0]) < idOf(tail[0]);
      }
      if p(xs[0]) {
        ConsIncreasing(xs[0], rest, idOf);
      }
    }
  }

  /** In a sequence of ascending identifiers each element occurs once. */
  lemma OccursOnce<V>(xs: seq<V>, a: int, idOf: V -> int)
    requires IdsIncreasing(xs, idOf) && 0 <= a < |xs|
    ensures multiset(xs)[xs[a]] == 1
  {
    var before, after := xs[..a], xs[a + 1..];
    assert xs == before + [xs[a]] + after;
    forall k | 0 <= k < |before|
      ensures before[k] != xs[a]
    {
      assert idOf(xs[k]) < idOf(xs[a]);
    }
    forall k | 0 <= k < |after|
      ensures after[k] != xs[a]
    {
      assert idOf(xs[a]) < idOf(xs[a + 1 + k]);
    }
    assert xs[a] !in before && xs[a] !in after;
  }

  /** An element at two positions occurs at least twice. */
  lemma OccursTwice<V>(r: seq<V>, i: int, j: int)
    requires 0 <= i < j < |r|
    ensures r[i] == r[j] ==> multiset(r)[r[i]] >= 2
  {
    var front, back := r[..j], r[j..];
    assert r == front + back;
    assert front[i] == r[i] && back[0] == r[j];
  }

  /** A permutation of a sequence with ascending identifiers repeats no identifier. */
  lemma PermutationKeepsIdsDistinct<V>(xs: seq<V>, r: seq<V>, idOf: V -> int)
    requires IdsIncreasing(xs, idOf)
    requires multiset(r) == multiset(xs)
    ensures forall i, j :: 0 <= i < j < |r| ==> idOf(r[i]) != idOf(r[j])
  {
    forall i, j | 0 <= i < j < |r|
      ensures idOf(r[i]) != idOf(r[j])
    {
      assert r[i] in multiset(xs) && r[j] in multiset(xs);
      var a :| 0 <= a < |xs| && xs[a] == r[i];
      var b :| 0 <= b < |xs| && xs[b] == r[j];
      OccursOnce(xs, a, idOf);
      OccursTwice(r, i, j);
      assert a != b;
      assert idOf(xs[a]) != idOf(xs[b]);
    }
  }

  /** Sorting neither adds nor drops elements. */
  lemma SortedMembers<V>(xs: seq<V>, key: V -> seq<int>)
    ensures forall i :: 0 <= i < |SortBy(xs, key)| ==> SortBy(xs, key)[i] in xs
    ensures forall x :: x in xs ==> x in SortBy(xs, key)
  {
    var r := SortBy(xs, key);
    forall i | 0 <= i < |r| ensures r[i] in xs {
      assert r[i] in multiset(xs);
    }
    forall x | x in xs ensures x in r {
      assert x in multiset(r);
    }
  }

  /** Every joined row that passes the filter comes from the table. */
  lemma SelectSound<T(!new), V(!new)>(table: map<int, T>, n: int, join: (int, T) -> Option<V>, idOf: V -> int,
                                      keep: V -> bool)
    requires KeepsId(join, idOf)
    ensures forall v :: v in Filter(Joined(RowsUpTo(table, n), join), keep) ==>
              keep(v) && 1 <= idOf(v) <= n && idOf(v) in table && join(idOf(v), table[idOf(v)]) == Some(v)
  {
    var rows := RowsUpTo(table, n);
    forall v | v in Joined(rows, join)
      ensures 1 <= idOf(v) <= n && idOf(v) in table && join(idOf(v), table[idOf(v)]) == Some(v)
    {
      var x :| x in rows && join(x.0, x.1) == Some(v);
    }
  }

  /** Every table row that joins and passes the filter is kept. */
  lemma SelectComplete<T(!new), V(!new)>(table: map<int, T>, n: int, join: (int, T) -> Option<V>, keep: V -> bool)
    ensures forall id :: 1 <= id <= n && id in table && join(id, table[id]).Some? && keep(join(id, table[id]).value) ==>
              join(id, table[id]).value in Filter(Joined(RowsUpTo(table, n), join), keep)
  {
  }

  /** The concatenation of `f` over `xs`, left to right. */
  function FlatMap<T, U>(xs: seq<T>, f: T -> seq<U>): seq<U>
    decreases |xs|
  {
    if xs == [] then [] else FlatMap(xs[..|xs| - 1], f) + f(xs[|xs| - 1])
  }

  lemma {:induction false} FlatMapAppend<T, U>(a: seq<T>, b: seq<T>, f: T -> seq<U>)
    ensures FlatMap(a + b, f) == FlatMap(a, f) + FlatMap(b, f)
    decreases |b|
  {
    if b == [] {
      assert a + b == a;
    } else {
      var init := b[..|b| - 1];
      FlatMapAppend(a, init, f);
      assert (a + b)[..|a + b| - 1] == a + init;
      assert (a + b)[|a + b| - 1] == b[|b| - 1];
    }
  }

  /** A string as the sequence of its character codes. */
  function Ords(s: string): (r: seq<int>)
    ensures |r| == |s| && forall i :: 0 <= i < |s| ==> r[i] == s[i] as int
  {
    seq(|s|, i requires 0 <= i < |s| => s[i] as int)
  }

  /** Character-code order on strings. */
  predicate StrLe(a: string, b: string) {
    LexLe(Ords(a), Ords(b))
  }

  /** The key of `ORDER BY apellido, nombre`: the surname, a separator below every character, the name. */
  function NameKey(apellido: string, nombre: string): seq<int> {
    Ords(apellido) + [-1] + Ords(nombre)
  }

  /** `NameKey` orders by surname first, and by name among equal surnames. */
  lemma {:induction false} NameKeyOrder(a1: string, n1: string, a2: string, n2: string)
    ensures LexLe(NameKey(a1, n1), NameKey(a2, n2)) <==>
              (StrLe(a1, a2) && a1 != a2) || (a1 == a2 && StrLe(n1, n2))
    decreases |a1|
  {
    var k1, k2 := NameKey(a1, n1), NameKey(a2, n2);
    if a1 == [] && a2 == [] {
      assert k1[1..] == Ords(n1) && k2[1..] == Ords(n2);
    } else if a1 == [] {
      assert k1[0] == -1 && k2[0] == a2[0] as int;
    } else if a2 == [] {
      assert k1[0] == a1[0] as int && k2[0] == -1;
    } else {
      assert k1[0] == a1[0] as int && k2[0] == a2[0] as int;
      if a1[0] == a2[0] {
        NameKeyOrder(a1[1..], n1, a2[1..], n2);
        assert k1[1..] == NameKey(a1[1..], n1);
        assert k2[1..] == NameKey(a2[1..], n2);
        assert Ords(a1)[1..] == Ords(a1[1..]) && Ords(a2)[1..] == Ords(a2[1..]);
        assert a1 == [a1[0]] + a1[1..] && a2 == [a2[0]] + a2[1..];
        assert a1 == a2 <==> a1[1..] == a2[1..];
      }
    }
  }
}
