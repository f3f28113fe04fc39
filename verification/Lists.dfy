/** Filtering of lists, defined from the back so that a loop over a list extends it by one step. */
module Lists {
  import opened Sorting

  function Kept<T>(x: T, keep: T -> bool): seq<T> {
    if keep(x) then [x] else []
  }

  function Filter<T>(s: seq<T>, keep: T -> bool): (r: seq<T>)
    ensures |r| <= |s|
  {
    if s == [] then [] else Filter(s[..|s| - 1], keep) + Kept(s[|s| - 1], keep)
  }

  lemma FilterPrefix<T>(s: seq<T>, i: int, keep: T -> bool)
    requires 0 <= i < |s|
    ensures Filter(s[..i + 1], keep) == Filter(s[..i], keep) + Kept(s[i], keep)
  {
    assert s[..i + 1] == s[..i] + [s[i]];
  }

  lemma {:induction false} FilterElements<T>(s: seq<T>, keep: T -> bool)
    ensures forall x :: x in Filter(s, keep) <==> x in s && keep(x)
    ensures NoDup(s) ==> NoDup(Filter(s, keep))
  {
    if s != [] {
      var t := s[..|s| - 1];
      FilterElements(t, keep);
      assert s == t + [s[|s| - 1]];
    }
  }

  lemma {:induction false} FilterAppend<T>(a: seq<T>, b: seq<T>, keep: T -> bool)
    ensures Filter(a + b, keep) == Filter(a, keep) + Filter(b, keep)
  {
    if b == [] {
      assert a + b == a;
    } else {
      var c, x := b[..|b| - 1], b[|b| - 1];
      FilterAppend(a, c, keep);
      assert b == c + [x];
      Associative(a, c, [x]);
      Associative(Filter(a, keep), Filter(c, keep), Kept(x, keep));
    }
  }

  lemma Associative<T>(a: seq<T>, b: seq<T>, c: seq<T>)
    ensures a + b + c == a + (b + c)
  {
  }

  lemma {:induction false} FilterSame<T>(s: seq<T>, keep: T -> bool, keep': T -> bool)
    requires forall x :: x in s ==> keep(x) == keep'(x)
    ensures Filter(s, keep) == Filter(s, keep')
  {
    if s != [] {
      var t := s[..|s| - 1];
      assert s[|s| - 1] in s;
      assert forall x :: x in t ==> x in s;
      FilterSame(t, keep, keep');
    }
  }

  lemma {:induction false} FilterAll<T>(s: seq<T>, keep: T -> bool)
    requires forall x :: x in s ==> keep(x)
    ensures Filter(s, keep) == s
  {
    if s != [] {
      var t, x := s[..|s| - 1], s[|s| - 1];
      assert s == t + [x];
      FilterAll(t, keep);
    }
  }

  lemma {:induction false} FilterNone<T>(s: seq<T>, keep: T -> bool)
    requires forall x :: x in s ==> !keep(x)
    ensures Filter(s, keep) == []
  {
    if s != [] {
      FilterNone(s[..|s| - 1], keep);
    }
  }

  function Both<T>(first: T -> bool, second: T -> bool): T -> bool {
    x => first(x) && second(x)
  }

  /** Two filters one after the other are one filter. */
  lemma {:induction false} FilterTwice<T>(s: seq<T>, first: T -> bool, second: T -> bool)
    ensures Filter(Filter(s, first), second) == Filter(s, Both(first, second))
  {
    if s != [] {
      var t, x := s[..|s| - 1], s[|s| - 1];
      FilterTwice(t, first, second);
      if !first(x) {
        assert Filter(t, first) + [] == Filter(t, first);
      }
    }
  }

  function Not<T>(keep: T -> bool): T -> bool {
    x => !keep(x)
  }

  /** What is kept and what is dropped add up. */
  lemma {:induction false} FilterSplit<T>(s: seq<T>, keep: T -> bool)
    ensures |Filter(s, keep)| + |Filter(s, Not(keep))| == |s|
  {
    if s != [] {
      FilterSplit(s[..|s| - 1], keep);
    }
  }

  lemma {:induction false} ElementCount<T>(s: seq<T>)
    requires NoDup(s)
    ensures |set x | x in s| == |s|
  {
    if s != [] {
      var t := s[..|s| - 1];
      ElementCount(t);
      assert s == t + [s[|s| - 1]];
      assert (set x | x in s) == (set x | x in t) + {s[|s| - 1]};
      assert s[|s| - 1] !in t;
    }
  }

  lemma SmallerSet<T>(a: set<T>, b: set<T>)
    requires a <= b
    ensures |a| <= |b|
  {
    assert b == a + (b - a);
  }

  lemma NothingElse<T>(a: seq<T>, b: seq<T>)
    requires NoDup(a) && NoDup(b) && |a| == |b| && forall x :: x in a ==> x in b
    ensures forall x :: x in b ==> x in a
  {
    var s, t := set x | x in a, set x | x in b;
    ElementCount(a);
    ElementCount(b);
    assert t == s + (t - s);
    forall x | x in b ensures x in a {
      assert x in t;
    }
  }

  /** Where nothing new is kept, no more is kept. */
  lemma {:induction false} FilterShrinks<T>(before: seq<T>, after: seq<T>, keep: T -> bool)
    requires |before| == |after|
    requires forall i :: 0 <= i < |before| && keep(after[i]) ==> keep(before[i])
    ensures |Filter(after, keep)| <= |Filter(before, keep)|
  {
    if before != [] {
      FilterShrinks(before[..|before| - 1], after[..|after| - 1], keep);
    }
  }

  /** In a list sorted by a key, the elements whose key is small enough come first. */
  lemma {:induction false} SmallKeysFirst<T>(s: seq<T>, key: T -> int, small: T -> bool, bound: int)
    requires SortedBy(s, ByKey(key)) && forall x :: x in s ==> (small(x) <==> key(x) <= bound)
    ensures forall i :: 0 <= i < |s| ==> (small(s[i]) <==> i < |Filter(s, small)|)
  {
    if s != [] {
      var t, x := s[..|s| - 1], s[|s| - 1];
      if small(x) {
        forall y | y in s ensures small(y) {
          assert ByKey(key)(y, x) || y == x;
        }
        FilterAll(s, small);
      } else {
        SmallKeysFirst(t, key, small, bound);
      }
    }
  }

  /** So a prefix of the list holds nothing else, or all of them. */
  lemma SmallKeysFillPrefix<T>(s: seq<T>, key: T -> int, small: T -> bool, bound: int, w: nat)
    requires SortedBy(s, ByKey(key)) && forall x :: x in s ==> (small(x) <==> key(x) <= bound)
    requires w <= |Filter(s, small)|
    ensures Filter(s[..w], small) == s[..w]
  {
    SmallKeysFirst(s, key, small, bound);
    forall x | x in s[..w] ensures small(x) {
      var i :| 0 <= i < w && s[i] == x;
    }
    FilterAll(s[..w], small);
  }

  lemma SmallKeysInPrefix<T>(s: seq<T>, key: T -> int, small: T -> bool, bound: int, w: nat)
    requires SortedBy(s, ByKey(key)) && forall x :: x in s ==> (small(x) <==> key(x) <= bound)
    requires |Filter(s, small)| <= w <= |s|
    ensures Filter(s[..w], small) == Filter(s, small)
    ensures forall x :: x in s && small(x) ==> x in s[..w]
  {
    SmallKeysFirst(s, key, small, bound);
    assert s == s[..w] + s[w..];
    assert forall x :: x in s[w..] ==> !small(x);
    FilterNone(s[w..], small);
    FilterAppend(s[..w], s[w..], small);
  }

  lemma {:induction false} FilterCons<T>(x: T, s: seq<T>, keep: T -> bool)
    ensures Filter([x] + s, keep) == Kept(x, keep) + Filter(s, keep)
  {
    if s == [] {
      assert [x] + s == [x] && [x][..0] == [];
    } else {
      var t, y := s[..|s| - 1], s[|s| - 1];
      FilterCons(x, t, keep);
      assert ([x] + s)[..|s|] == [x] + t;
      Associative(Kept(x, keep), Filter(t, keep), Kept(y, keep));
    }
  }

  /** The elements kept all count as equal. */
  ghost predicate OneClass<T(!new)>(le: (T, T) -> bool, keep: T -> bool) {
    forall y, z :: keep(y) && keep(z) ==> le(y, z)
  }

  /** At most one of two elements is kept, so their order does not matter. */
  lemma KeptSwap<T>(x: T, y: T, rest: seq<T>, keep: T -> bool)
    requires !keep(x) || !keep(y)
    ensures Kept(x, keep) + (Kept(y, keep) + rest) == Kept(y, keep) + (Kept(x, keep) + rest)
  {
  }

  lemma {:induction false} InsertStable<T(!new)>(x: T, s: seq<T>, le: (T, T) -> bool, keep: T -> bool)
    requires OneClass(le, keep)
    ensures Filter(Insert(x, s, le), keep) == Kept(x, keep) + Filter(s, keep)
  {
    if s == [] || le(x, s[0]) {
      FilterCons(x, s, keep);
      assert [x] + [] == [x];
    } else {
      var y, rest := s[0], s[1..];
      assert s == [y] + rest;
      InsertStable(x, rest, le, keep);
      FilterCons(y, Insert(x, rest, le), keep);
      FilterCons(y, rest, keep);
      KeptSwap(x, y, Filter(rest, keep), keep);
    }
  }

  /** Sorting keeps the order of elements that count as equal. */
  lemma {:induction false} SortStable<T(!new)>(s: seq<T>, le: (T, T) -> bool, keep: T -> bool)
    requires OneClass(le, keep)
    ensures Filter(Sort(s, le), keep) == Filter(s, keep)
  {
    if s != [] {
      assert s == [s[0]] + s[1..];
      SortStable(s[1..], le, keep);
      InsertStable(s[0], Sort(s[1..], le), le, keep);
      FilterCons(s[0], s[1..], keep);
    }
  }
}
