/**
 * Python's `list.sort` / `sorted` with a key, as a stable insertion sort over a total preorder
 * `le` ("the key of a is at most the key of b"). Each element is inserted before the first
 * element it is `le`-below, so elements with equal keys keep their original order.
 */
module Sorting {

  ghost predicate TotalPreorder<T(!new)>(le: (T, T) -> bool) {
    && (forall a, b :: le(a, b) || le(b, a))
    && (forall a, b, c :: le(a, b) && le(b, c) ==> le(a, c))
  }

  ghost predicate Sorted<T>(s: seq<T>, le: (T, T) -> bool) {
    forall i, j :: 0 <= i < j < |s| ==> le(s[i], s[j])
  }

  /** Insert `x` before the first element it is `le`-below, keeping a sorted list sorted. */
  function Insert<T(==,!new)>(x: T, s: seq<T>, le: (T, T) -> bool): (r: seq<T>)
    ensures multiset(r) == multiset(s) + multiset{x}
    ensures TotalPreorder(le) && Sorted(s, le) ==> Sorted(r, le)
  {
    if s == [] then [x]
    else if le(x, s[0]) then
      InsertHere(x, s, le);
      [x] + s
    else
      var rest := Insert(x, s[1..], le);
      assert s == [s[0]] + s[1..];
      InsertLater(x, s, rest, le);
      [s[0]] + rest
  }

  /** A sorted list stays sorted under a new head that is below every element. */
  lemma PrependSorted<T>(h: T, s: seq<T>, le: (T, T) -> bool)
    requires Sorted(s, le)
    requires forall e :: e in s ==> le(h, e)
    ensures Sorted([h] + s, le)
  {
    forall i, j | 0 <= i < j < |s| + 1
      ensures le(([h] + s)[i], ([h] + s)[j])
    {
      assert ([h] + s)[j] == s[j - 1];
      if i > 0 {
        assert ([h] + s)[i] == s[i - 1];
      }
    }
  }

  lemma InsertHere<T(!new)>(x: T, s: seq<T>, le: (T, T) -> bool)
    requires s != [] && le(x, s[0])
    ensures TotalPreorder(le) && Sorted(s, le) ==> Sorted([x] + s, le)
  {
    if TotalPreorder(le) && Sorted(s, le) {
      forall e | e in s
        ensures le(x, e)
      {
        var k :| 0 <= k < |s| && s[k] == e;
        assert k == 0 || le(s[0], s[k]);
      }
      PrependSorted(x, s, le);
    }
  }

  lemma InsertLater<T(!new)>(x: T, s: seq<T>, rest: seq<T>, le: (T, T) -> bool)
    requires s != [] && !le(x, s[0])
    requires multiset(rest) == multiset(s[1..]) + multiset{x}
    requires TotalPreorder(le) && Sorted(s[1..], le) ==> Sorted(rest, le)
    ensures TotalPreorder(le) && Sorted(s, le) ==> Sorted([s[0]] + rest, le)
  {
    if TotalPreorder(le) && Sorted(s, le) {
      assert Sorted(s[1..], le);
      forall e | e in rest
        ensures le(s[0], e)
      {
        assert e in multiset(rest);
        if e != x {
          assert e in multiset(s[1..]);
          var k :| 0 <= k < |s[1..]| && s[1..][k] == e;
          assert s[k + 1] == e;
        }
      }
      PrependSorted(s[0], rest, le);
    }
  }

  /** `sorted(s, key=...)`: a sorted permutation of `s`. */
  function Sort<T(==,!new)>(s: seq<T>, le: (T, T) -> bool): (r: seq<T>)
    ensures multiset(r) == multiset(s)
    ensures TotalPreorder(le) ==> Sorted(r, le)
  {
    if s == [] then []
    else
      assert s == [s[0]] + s[1..];
      Insert(s[0], Sort(s[1..], le), le)
  }
}
