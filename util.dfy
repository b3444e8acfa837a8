/**
 * Helpers shared by several parts of the toolkit: turning a set of characters or
 * integers into its sorted sequence (what `Vec::from_iter` followed by `sort` does
 * on a `HashSet`), duplicate-freedom of sequences, and the cardinality facts the
 * termination arguments rest on.
 */
module Util {

  /** The elements of a sequence, as a set. */
  function Elems<T>(s: seq<T>): set<T>
  {
    set x | x in s
  }

  /** No element occurs twice. */
  predicate NoDup<T(==)>(s: seq<T>)
  {
    forall i, j :: 0 <= i < j < |s| ==> s[i] != s[j]
  }

  /** Appending an element that does not occur keeps a sequence duplicate-free. */
  lemma NoDupAppend<T>(s: seq<T>, x: T)
    requires NoDup(s) && x !in s
    ensures NoDup(s + [x])
  {
    forall i, j | 0 <= i < j < |s| + 1 ensures (s + [x])[i] != (s + [x])[j] {
      if j == |s| {
        assert s[i] in s;
      }
    }
  }

  predicate StrictlyIncreasingChars(s: seq<char>)
  {
    forall i, j :: 0 <= i < j < |s| ==> s[i] < s[j]
  }

  predicate StrictlyIncreasingInts(s: seq<int>)
  {
    forall i, j :: 0 <= i < j < |s| ==> s[i] < s[j]
  }

  lemma {:induction false} CharMinimumExists(s: set<char>)
    requires s != {}
    ensures exists m :: m in s && forall x :: x in s ==> m <= x
  {
    var y :| y in s;
    if s != {y} {
      CharMinimumExists(s - {y});
      var m :| m in s - {y} && forall x :: x in s - {y} ==> m <= x;
      var least := if y < m then y else m;
      forall x | x in s ensures least <= x {
        if x != y { assert x in s - {y}; }
      }
    } else {
      assert forall x :: x in s ==> x == y;
    }
  }

  /** Extensionality spelled out for integer sets, so that an element can be picked. */
  lemma IntSetEmptyOrInhabited(s: set<int>)
    ensures s == {} || exists z :: z in s
  {
    if forall z :: z !in s {
      assert s == {};
    }
  }

  lemma {:induction false} IntMinimumExists(s: set<int>)
    requires s != {}
    ensures exists m :: m in s && forall x :: x in s ==> m <= x
  {
    IntSetEmptyOrInhabited(s);
    var y :| y in s;
    if s != {y} {
      IntMinimumExists(s - {y});
      var m :| m in s - {y} && forall x :: x in s - {y} ==> m <= x;
      var least := if y < m then y else m;
      forall x | x in s ensures least <= x {
        if x != y { assert x in s - {y}; }
      }
    } else {
      assert forall x :: x in s ==> x == y;
    }
  }

  /** The smallest element of a non-empty set of characters. */
  function MinChar(s: set<char>): (m: char)
    requires s != {}
    ensures m in s && forall x :: x in s ==> m <= x
  {
    CharMinimumExists(s);
    var m :| m in s && forall x :: x in s ==> m <= x;
    m
  }

  /** The smallest element of a non-empty set of integers. */
  function MinInt(s: set<int>): (m: int)
    requires s != {}
    ensures m in s && forall x :: x in s ==> m <= x
  {
    IntMinimumExists(s);
    var m :| m in s && forall x :: x in s ==> m <= x;
    m
  }

  /** The elements of `s` in ascending order, each once. */
  function SortedChars(s: set<char>): (r: seq<char>)
    ensures StrictlyIncreasingChars(r)
    ensures forall c :: c in r <==> c in s
    ensures |r| == |s|
    decreases |s|
  {
    if s == {} then []
    else
      var m := MinChar(s);
      [m] + SortedChars(s - {m})
  }

  /** The elements of `s` in ascending order, each once. */
  function SortedInts(s: set<int>): (r: seq<int>)
    ensures StrictlyIncreasingInts(r)
    ensures forall c :: c in r <==> c in s
    ensures |r| == |s|
    decreases |s|
  {
    if s == {} then []
    else
      var m := MinInt(s);
      [m] + SortedInts(s - {m})
  }

  /** A duplicate-free sequence has as many elements as its set. */
  lemma {:induction false} NoDupCard<T>(s: seq<T>)
    requires NoDup(s)
    ensures |Elems(s)| == |s|
  {
    if s != [] {
      var t := s[..|s| - 1];
      assert NoDup(t);
      NoDupCard(t);
      assert Elems(s) == Elems(t) + {s[|s| - 1]};
      assert s[|s| - 1] !in Elems(t);
    } else {
      assert Elems(s) == {};
    }
  }

  /** A duplicate-free sequence drawn from `u` is no longer than `u` is large. */
  lemma NoDupBound<T>(s: seq<T>, u: set<T>)
    requires NoDup(s)
    requires forall x :: x in s ==> x in u
    ensures |s| <= |u|
  {
    NoDupCard(s);
    assert Elems(s) <= u;
    SubsetCard(Elems(s), u);
  }

  lemma {:induction false} SubsetCard<T>(a: set<T>, b: set<T>)
    requires a <= b
    ensures |a| <= |b|
  {
    if a != {} {
      var x :| x in a;
      SubsetCard(a - {x}, b - {x});
    }
  }

  /** A set of integers drawn from 0 .. n-1 has at most n members. */
  lemma {:induction false} RangeCard(s: set<int>, n: nat)
    requires forall x :: x in s ==> 0 <= x < n
    ensures |s| <= n
  {
    if n == 0 {
      IntSetEmptyOrInhabited(s);
    } else {
      RangeCard(s - {n - 1}, n - 1);
    }
  }

  /** A strictly increasing sequence of integers is duplicate free. */
  lemma IncreasingNoDup(s: seq<int>)
    requires StrictlyIncreasingInts(s)
    ensures NoDup(s)
  {
  }

  function Pow2(n: nat): (r: nat)
    ensures r >= 1
  {
    if n == 0 then 1 else 2 * Pow2(n - 1)
  }

  /** Removing one element from each member of a family that all contain it loses no member. */
  lemma {:induction false} RemoveElemKeepsCard<T>(f: set<set<T>>, x: T)
    requires forall s :: s in f ==> x in s
    ensures |set s | s in f :: s - {x}| == |f|
  {
    if f != {} {
      var s0 :| s0 in f;
      var rest := f - {s0};
      RemoveElemKeepsCard(rest, x);
      var img := set s | s in f :: s - {x};
      var imgRest := set s | s in rest :: s - {x};
      assert img == imgRest + {s0 - {x}};
      forall s1 | s1 in rest ensures s1 - {x} != s0 - {x} {
        assert s1 == (s1 - {x}) + {x};
        assert s0 == (s0 - {x}) + {x};
      }
      assert s0 - {x} !in imgRest;
    } else {
      assert (set s | s in f :: s - {x}) == {};
    }
  }

  /**
   * A family of distinct subsets of `u` has at most 2^|u| members; this bounds the
   * number of states the worklist constructions can create.
   */
  lemma {:induction false} FamilyBound<T>(f: set<set<T>>, u: set<T>)
    requires forall s :: s in f ==> s <= u
    ensures |f| <= Pow2(|u|)
    decreases |u|
  {
    if u == {} {
      assert f <= {{}} by {
        forall s | s in f ensures s == {} { }
      }
      SubsetCard(f, {{}});
    } else {
      var x :| x in u;
      var u' := u - {x};
      var without := set s | s in f && x !in s;
      var with := set s | s in f && x in s;
      assert f == without + with;
      assert without !! with;
      FamilyBound(without, u');
      RemoveElemKeepsCard(with, x);
      var shrunk := set s | s in with :: s - {x};
      FamilyBound(shrunk, u');
      assert |u'| == |u| - 1;
    }
  }
}
