/** Sorting by a text key, and what a list says apart from its order. */
module Ordering {
  import opened Digraph
  import Text

  ghost predicate Sorted<T(!new)>(s: seq<T>, key: T -> string) {
    forall i, j :: 0 <= i < j < |s| ==> Text.AtMost(key(s[i]), key(s[j]))
  }

  function Insert<T>(s: seq<T>, x: T, key: T -> string): seq<T> {
    if s == [] || Text.AtMost(key(x), key(s[0])) then [x] + s
    else [s[0]] + Insert(s[1..], x, key)
  }

  /** A stable sort: equal keys keep their order. */
  function Sort<T>(s: seq<T>, key: T -> string): seq<T> {
    if s == [] then [] else Insert(Sort(s[1..], key), s[0], key)
  }

  lemma {:induction false} InsertSorts<T(!new)>(s: seq<T>, x: T, key: T -> string)
    requires Sorted(s, key)
    ensures Sorted(Insert(s, x, key), key) && multiset(Insert(s, x, key)) == multiset(s) + multiset{x}
  {
    if s == [] {
    } else if Text.AtMost(key(x), key(s[0])) {
      forall j | 0 <= j < |s|
        ensures Text.AtMost(key(x), key(s[j]))
      {
        AtMostIsTransitive(key(x), key(s[0]), key(s[j]));
      }
    } else {
      var rest := Insert(s[1..], x, key);
      assert s == [s[0]] + s[1..];
      InsertSorts(s[1..], x, key);
      Text.BeforeIsTotal(key(x), key(s[0]));
      forall j | 0 <= j < |rest|
        ensures Text.AtMost(key(s[0]), key(rest[j]))
      {
        assert rest[j] in multiset(s[1..]) + multiset{x};
        assert rest[j] == x || rest[j] in s[1..];
      }
    }
  }

  lemma AtMostIsTransitive(a: string, b: string, c: string)
    requires Text.AtMost(a, b) && Text.AtMost(b, c)
    ensures Text.AtMost(a, c)
  {
    if a != b && b != c {
      Text.BeforeIsTransitive(a, b, c);
    }
  }

  /** The sorted list holds the same elements in key order. */
  lemma {:induction false} SortSorts<T(!new)>(s: seq<T>, key: T -> string)
    ensures Sorted(Sort(s, key), key) && multiset(Sort(s, key)) == multiset(s)
  {
    if s != [] {
      SortSorts(s[1..], key);
      InsertSorts(Sort(s[1..], key), s[0], key);
      assert s == [s[0]] + s[1..];
    }
  }

  ghost predicate KeyedApart<T(!new)>(s: seq<T>, key: T -> string) {
    forall x, y :: x in s && y in s && key(x) == key(y) ==> x == y
  }

  lemma HeadIsLeast<T(!new)>(s: seq<T>, x: T, key: T -> string)
    requires Sorted(s, key) && x in s
    ensures Text.AtMost(key(s[0]), key(x))
  {
    var i :| 0 <= i < |s| && s[i] == x;
    assert i == 0 || Text.AtMost(key(s[0]), key(s[i]));
  }

  lemma HeadsAgree<T(!new)>(a: seq<T>, b: seq<T>, key: T -> string)
    requires Sorted(a, key) && Sorted(b, key) && multiset(a) == multiset(b) && KeyedApart(a, key) && a != [] && b != []
    ensures a[0] == b[0]
  {
    assert a[0] in multiset(b) && b[0] in multiset(a);
    HeadIsLeast(a, b[0], key);
    HeadIsLeast(b, a[0], key);
    if Text.Before(key(a[0]), key(b[0])) {
      Text.BeforeIsAsymmetric(key(a[0]), key(b[0]));
    }
  }

  lemma Cancel<T>(a: multiset<T>, b: multiset<T>, x: T)
    requires a + multiset{x} == b + multiset{x}
    ensures a == b
  {
    assert a == (a + multiset{x}) - multiset{x};
    assert b == (b + multiset{x}) - multiset{x};
  }

  lemma HeadSplits<T>(s: seq<T>)
    requires s != []
    ensures multiset(s) == multiset(s[1..]) + multiset{s[0]}
  {
    assert s == [s[0]] + s[1..];
  }

  /** A list sorted by a key that tells its elements apart is determined by its elements. */
  lemma {:induction false} SortedIsUnique<T(!new)>(a: seq<T>, b: seq<T>, key: T -> string)
    requires Sorted(a, key) && Sorted(b, key) && multiset(a) == multiset(b) && KeyedApart(a, key)
    ensures a == b
  {
    assert |a| == |multiset(a)| && |b| == |multiset(b)|;
    if a != [] {
      HeadsAgree(a, b, key);
      HeadSplits(a);
      HeadSplits(b);
      Cancel(multiset(a[1..]), multiset(b[1..]), a[0]);
      SortedIsUnique(a[1..], b[1..], key);
    }
  }

  /** Two rearrangements of one list sort to the same list when the key tells elements apart. */
  lemma SortForgetsOrder<T(!new)>(a: seq<T>, b: seq<T>, key: T -> string)
    requires multiset(a) == multiset(b) && KeyedApart(a, key)
    ensures Sort(a, key) == Sort(b, key)
  {
    SortSorts(a, key);
    SortSorts(b, key);
    assert forall x :: x in Sort(a, key) <==> x in multiset(Sort(a, key));
    SortedIsUnique(Sort(a, key), Sort(b, key), key);
  }

  // ---------------------------------------------------------------- mapping over rearranged lists

  function Map<T, U>(f: T -> U, s: seq<T>): (r: seq<U>)
    ensures |r| == |s| && forall i :: 0 <= i < |s| ==> r[i] == f(s[i])
  {
    seq(|s|, i requires 0 <= i < |s| => f(s[i]))
  }

  function Drop<T>(s: seq<T>, j: nat): (r: seq<T>)
    requires j < |s|
    ensures forall x :: x in r ==> x in s
    ensures |r| == |s| - 1
  {
    s[..j] + s[j + 1..]
  }

  lemma MapSplits<T, U>(f: T -> U, s: seq<T>, j: nat)
    requires j < |s|
    ensures multiset(Map(f, s)) == multiset(Map(f, Drop(s, j))) + multiset{f(s[j])}
  {
    assert Map(f, s) == Map(f, s)[..j] + [f(s[j])] + Map(f, s)[j + 1..];
    assert Map(f, Drop(s, j)) == Map(f, s)[..j] + Map(f, s)[j + 1..];
  }

  /** The first element of one list has a twin of the same shape in the other; the rests still agree. */
  lemma Twin<T, S>(a: seq<T>, b: seq<T>, shape: T -> S) returns (j: nat)
    requires multiset(Map(shape, a)) == multiset(Map(shape, b)) && a != []
    ensures j < |b| && shape(b[j]) == shape(a[0])
    ensures multiset(Map(shape, Drop(a, 0))) == multiset(Map(shape, Drop(b, j)))
  {
    assert Map(shape, a)[0] in multiset(Map(shape, b));
    var k :| 0 <= k < |b| && Map(shape, b)[k] == Map(shape, a)[0];
    j := k;
    MapSplits(shape, a, 0);
    MapSplits(shape, b, j);
    Cancel(multiset(Map(shape, Drop(a, 0))), multiset(Map(shape, Drop(b, j))), shape(a[0]));
  }

  lemma SameLength<T, S>(a: seq<T>, b: seq<T>, shape: T -> S)
    requires multiset(Map(shape, a)) == multiset(Map(shape, b))
    ensures |a| == |b|
  {
    assert |Map(shape, a)| == |multiset(Map(shape, a))| && |Map(shape, b)| == |multiset(Map(shape, b))|;
  }

  /** A function that only looks at the shape maps lists of the same shapes to the same elements. */
  lemma {:induction false} MapRespects<T(!new), S, U>(a: seq<T>, b: seq<T>, shape: T -> S, f: T -> U)
    requires multiset(Map(shape, a)) == multiset(Map(shape, b))
    requires forall x, y :: x in a && y in b && shape(x) == shape(y) ==> f(x) == f(y)
    ensures multiset(Map(f, a)) == multiset(Map(f, b))
    decreases |a|
  {
    SameLength(a, b, shape);
    if a != [] {
      var j := Twin(a, b, shape);
      MapRespects(Drop(a, 0), Drop(b, j), shape, f);
      MapSplits(f, a, 0);
      MapSplits(f, b, j);
    }
  }

  function Flat<T, U>(f: T -> seq<U>, s: seq<T>): seq<U> {
    if s == [] then [] else f(s[0]) + Flat(f, s[1..])
  }

  lemma {:induction false} FlatSplits<T, U>(f: T -> seq<U>, s: seq<T>, j: nat)
    requires j < |s|
    ensures multiset(Flat(f, s)) == multiset(Flat(f, Drop(s, j))) + multiset(f(s[j]))
  {
    if j == 0 {
      assert Drop(s, 0) == s[1..];
    } else {
      FlatSplits(f, s[1..], j - 1);
      assert Drop(s[1..], j - 1) == Drop(s, j)[1..];
    }
  }

  lemma {:induction false} FlatRespects<T(!new), S, U>(a: seq<T>, b: seq<T>, shape: T -> S, f: T -> seq<U>)
    requires multiset(Map(shape, a)) == multiset(Map(shape, b))
    requires forall x, y :: x in a && y in b && shape(x) == shape(y) ==> multiset(f(x)) == multiset(f(y))
    ensures multiset(Flat(f, a)) == multiset(Flat(f, b))
    decreases |a|
  {
    SameLength(a, b, shape);
    if a != [] {
      var j := Twin(a, b, shape);
      FlatRespects(Drop(a, 0), Drop(b, j), shape, f);
      FlatSplits(f, a, 0);
      FlatSplits(f, b, j);
    }
  }

  /** Every element of one list has one of the same shape in the other. */
  lemma SameShapes<T(!new), S>(a: seq<T>, b: seq<T>, shape: T -> S, x: T) returns (y: T)
    requires multiset(Map(shape, a)) == multiset(Map(shape, b)) && x in a
    ensures y in b && shape(y) == shape(x)
  {
    var i :| 0 <= i < |a| && a[i] == x;
    assert Map(shape, a)[i] in multiset(Map(shape, b));
    var j :| 0 <= j < |b| && Map(shape, b)[j] == Map(shape, a)[i];
    y := b[j];
  }

  // ---------------------------------------------------------------- distinctness

  lemma {:induction false} DistinctCountsOnce<T>(s: seq<T>, x: T)
    requires Distinct(s)
    ensures multiset(s)[x] == if x in s then 1 else 0
  {
    if s != [] {
      assert s == [s[0]] + s[1..];
      DistinctCountsOnce(s[1..], x);
      assert s[0] !in s[1..];
    }
  }

  /** Whether a list repeats itself does not depend on its order. */
  lemma DistinctForgetsOrder(a: seq<string>, b: seq<string>)
    requires multiset(a) == multiset(b) && Distinct(a)
    ensures Distinct(b)
  {
    forall i, j | 0 <= i < j < |b|
      ensures b[i] != b[j]
    {
      DistinctCountsOnce(a, b[i]);
      assert b == b[..j] + b[j..];
      assert b[..j][i] in b[..j] && b[j..][0] in b[j..];
      assert multiset(b)[b[i]] == multiset(b[..j])[b[i]] + multiset(b[j..])[b[i]];
    }
  }

  lemma AppendDistinct(s: seq<string>, x: string)
    ensures Distinct(s + [x]) <==> Distinct(s) && x !in s
  {
    var t := s + [x];
    assert forall i :: 0 <= i < |s| ==> t[i] == s[i];
    if Distinct(t) {
      assert forall i :: 0 <= i < |s| ==> t[i] != t[|s|];
      assert forall i, j :: 0 <= i < j < |s| ==> s[i] == t[i] != t[j] == s[j];
    }
  }

  lemma MapAppend<T, U>(f: T -> U, s: seq<T>, i: nat)
    requires i < |s|
    ensures Map(f, s[..i + 1]) == Map(f, s[..i]) + [f(s[i])]
  {
  }

  lemma {:induction false} FlatAppend<T>(f: T -> seq<string>, s: seq<T>, x: T)
    ensures Flat(f, s + [x]) == Flat(f, s) + f(x)
  {
    if s == [] {
      assert s + [x] == [x] && [x][1..] == [];
    } else {
      assert (s + [x])[1..] == s[1..] + [x];
      FlatAppend(f, s[1..], x);
    }
  }

  lemma {:induction false} DistinctJoin(a: seq<string>, b: seq<string>)
    ensures Distinct(a + b) <==> Distinct(a) && Distinct(b) && forall x :: x in a ==> x !in b
  {
    if b == [] {
      assert a + b == a;
    } else {
      var init, last := b[..|b| - 1], b[|b| - 1];
      assert b == init + [last] && a + b == (a + init) + [last];
      DistinctJoin(a, init);
      AppendDistinct(a + init, last);
      AppendDistinct(init, last);
    }
  }
}
