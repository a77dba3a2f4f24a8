/**
 * Sequences kept as sorted sets: Python's `sorted(set(xs))`.
 * The order is a parameter so that the same definitions serve ports
 * (integers) and services/sources (strings compared by code point).
 */
module SortedSets {

  ghost predicate StrictTotalOrder<T(!new)>(lt: (T, T) -> bool) {
    && (forall x :: !lt(x, x))
    && (forall x, y, z :: lt(x, y) && lt(y, z) ==> lt(x, z))
    && (forall x, y :: x != y ==> lt(x, y) || lt(y, x))
  }

  ghost predicate StrictlyAscending<T>(s: seq<T>, lt: (T, T) -> bool) {
    forall i, j :: 0 <= i < j < |s| ==> lt(s[i], s[j])
  }

  ghost function Elems<T>(s: seq<T>): set<T> {
    set x | x in s
  }

  lemma ElemsEmpty<T>(s: seq<T>)
    ensures Elems(s) == {} <==> s == []
  {
    if s != [] {
      assert s[0] in Elems(s);
    }
  }

  lemma ElemsConcat<T>(a: seq<T>, b: seq<T>)
    ensures Elems(a + b) == Elems(a) + Elems(b)
  {
    forall x | x in Elems(a + b)
      ensures x in Elems(a) + Elems(b)
    {
      var i :| 0 <= i < |a + b| && (a + b)[i] == x;
      if i < |a| {
        assert a[i] == x;
      } else {
        assert b[i - |a|] == x;
      }
    }
    forall x | x in Elems(a) + Elems(b)
      ensures x in Elems(a + b)
    {
      if x in a {
        var i :| 0 <= i < |a| && a[i] == x;
        assert (a + b)[i] == x;
      } else {
        var i :| 0 <= i < |b| && b[i] == x;
        assert (a + b)[|a| + i] == x;
      }
    }
  }

  /** Python's `<` on `int`. */
  predicate IntLess(a: int, b: int) {
    a < b
  }

  /** Python's `<` on `str`: lexicographic by code point, a proper prefix first. */
  predicate StrLess(a: string, b: string)
    decreases |a|
  {
    if a == [] then b != []
    else if b == [] then false
    else if a[0] != b[0] then a[0] < b[0]
    else StrLess(a[1..], b[1..])
  }

  lemma IntLessIsStrictTotal()
    ensures StrictTotalOrder(IntLess)
  {
  }

  lemma {:induction false} StrLessIrreflexive(a: string)
    ensures !StrLess(a, a)
    decreases |a|
  {
    if a != [] {
      StrLessIrreflexive(a[1..]);
    }
  }

  lemma {:induction false} StrLessTransitive(a: string, b: string, c: string)
    requires StrLess(a, b) && StrLess(b, c)
    ensures StrLess(a, c)
    decreases |a|
  {
    if a != [] && b != [] && c != [] && a[0] == b[0] && b[0] == c[0] {
      StrLessTransitive(a[1..], b[1..], c[1..]);
    }
  }

  lemma {:induction false} StrLessTotal(a: string, b: string)
    requires a != b
    ensures StrLess(a, b) || StrLess(b, a)
    decreases |a|
  {
    if a != [] && b != [] && a[0] == b[0] {
      assert a == [a[0]] + a[1..] && b == [b[0]] + b[1..];
      StrLessTotal(a[1..], b[1..]);
    }
  }

  /** Python's ordering of strings is a strict total order. */
  lemma StrLessIsStrictTotal()
    ensures StrictTotalOrder(StrLess)
  {
    forall a: string
      ensures !StrLess(a, a)
    {
      StrLessIrreflexive(a);
    }
    forall a: string, b: string, c: string | StrLess(a, b) && StrLess(b, c)
      ensures StrLess(a, c)
    {
      StrLessTransitive(a, b, c);
    }
    forall a: string, b: string | a != b
      ensures StrLess(a, b) || StrLess(b, a)
    {
      StrLessTotal(a, b);
    }
  }

  /** The last case of `Insert`: `x` goes after the head, into the tail. */
  lemma InsertAfterHead<T(!new)>(x: T, s: seq<T>, tail: seq<T>, lt: (T, T) -> bool)
    requires StrictTotalOrder(lt) && StrictlyAscending(s, lt)
    requires s != [] && x != s[0] && !lt(x, s[0])
    requires StrictlyAscending(tail, lt) && Elems(tail) == Elems(s[1..]) + {x}
    ensures StrictlyAscending([s[0]] + tail, lt)
    ensures Elems([s[0]] + tail) == Elems(s) + {x}
  {
    assert s == [s[0]] + s[1..];
    ElemsConcat([s[0]], s[1..]);
    ElemsConcat([s[0]], tail);
    forall y | y in tail
      ensures lt(s[0], y)
    {
      assert y in Elems(tail);
    }
  }

  /** Inserts `x` into a sorted set, keeping it a sorted set. */
  function Insert<T(==,!new)>(x: T, s: seq<T>, lt: (T, T) -> bool): (r: seq<T>)
    requires StrictTotalOrder(lt) && StrictlyAscending(s, lt)
    ensures StrictlyAscending(r, lt)
    ensures Elems(r) == Elems(s) + {x}
    decreases |s|
  {
    if s == [] then [x]
    else if x == s[0] then s
    else if lt(x, s[0]) then [x] + s
    else
      var tail := Insert(x, s[1..], lt);
      InsertAfterHead(x, s, tail, lt);
      [s[0]] + tail
  }

  /** `sorted(set(xs))`: the elements of `xs`, without repetition, in ascending order. */
  function Canon<T(==,!new)>(xs: seq<T>, lt: (T, T) -> bool): (r: seq<T>)
    requires StrictTotalOrder(lt)
    ensures StrictlyAscending(r, lt)
    ensures Elems(r) == Elems(xs)
    decreases |xs|
  {
    if xs == [] then []
    else
      var init := xs[..|xs| - 1];
      assert xs == init + [xs[|xs| - 1]];
      ElemsConcat(init, [xs[|xs| - 1]]);
      Insert(xs[|xs| - 1], Canon(init, lt), lt)
  }

  /** Python's `sorted(set(xs))` on a list of integers. */
  function SortedInts(xs: seq<int>): (r: seq<int>)
    ensures StrictlyAscending(r, IntLess) && Elems(r) == Elems(xs)
  {
    IntLessIsStrictTotal();
    Canon(xs, IntLess)
  }

  /** Python's `sorted(set(xs))` on a list of strings. */
  function SortedStrings(xs: seq<string>): (r: seq<string>)
    ensures StrictlyAscending(r, StrLess) && Elems(r) == Elems(xs)
  {
    StrLessIsStrictTotal();
    Canon(xs, StrLess)
  }

  /** A sorted set is determined by its elements. */
  lemma {:induction false} AscendingUnique<T(!new)>(a: seq<T>, b: seq<T>, lt: (T, T) -> bool)
    requires StrictTotalOrder(lt)
    requires StrictlyAscending(a, lt) && StrictlyAscending(b, lt)
    requires Elems(a) == Elems(b)
    ensures a == b
    decreases |a|
  {
    if a == [] {
      ElemsEmpty(b);
    } else {
      assert a[0] in Elems(b);
      assert b != [];
      assert b[0] in Elems(a);
      if a[0] != b[0] {
        assert false;
      }
      assert Elems(a[1..]) == Elems(b[1..]) by {
        forall x | x in Elems(a[1..])
          ensures x in Elems(b[1..])
        {
          var i :| 1 <= i < |a| && a[i] == x;
          assert x in Elems(b);
          var j :| 0 <= j < |b| && b[j] == x;
          if j == 0 {
            assert false;
          }
        }
        forall x | x in Elems(b[1..])
          ensures x in Elems(a[1..])
        {
          var j :| 1 <= j < |b| && b[j] == x;
          assert x in Elems(a);
          var i :| 0 <= i < |a| && a[i] == x;
          if i == 0 {
            assert false;
          }
        }
      }
      AscendingUnique(a[1..], b[1..], lt);
      assert a == [a[0]] + a[1..] && b == [b[0]] + b[1..];
    }
  }

  /** The elements of `xs` that do not occur in `ys`, in their order in `xs`. */
  function Without<T(==)>(xs: seq<T>, ys: seq<T>): (r: seq<T>)
    ensures Elems(r) == Elems(xs) - Elems(ys)
    decreases |xs|
  {
    if xs == [] then []
    else
      assert xs == [xs[0]] + xs[1..];
      ElemsConcat([xs[0]], xs[1..]);
      ElemsConcat(if xs[0] in ys then [] else [xs[0]], Without(xs[1..], ys));
      (if xs[0] in ys then [] else [xs[0]]) + Without(xs[1..], ys)
  }
}
