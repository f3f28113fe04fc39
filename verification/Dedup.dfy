/** Dropping the elements of a list whose key was seen before. */
module Dedup {
  ghost function Keys<T>(s: seq<T>, key: T -> string): set<string> {
    set x | x in s :: key(x)
  }

  ghost function Deduped<T>(s: seq<T>, key: T -> string): seq<T> {
    if s == [] then []
    else
      var rest, x := s[..|s| - 1], s[|s| - 1];
      if key(x) in Keys(rest, key) then Deduped(rest, key) else Deduped(rest, key) + [x]
  }

  ghost predicate DistinctKeys<T>(s: seq<T>, key: T -> string) {
    forall i, j :: 0 <= i < j < |s| ==> key(s[i]) != key(s[j])
  }

  method DedupStep<T>(ghost before: seq<T>, x: T, key: T -> string, seen: set<string>, kept: seq<T>)
      returns (seen': set<string>, kept': seq<T>)
    requires seen == Keys(before, key) && kept == Deduped(before, key)
    ensures seen' == Keys(before + [x], key) && kept' == Deduped(before + [x], key)
  {
    var k := key(x);
    if k in seen {
      assert seen + {k} == seen;
      return seen, kept;
    }
    seen' := seen + {k};
    kept' := kept + [x];
  }

  method Dedup<T>(s: seq<T>, key: T -> string) returns (kept: seq<T>)
    ensures kept == Deduped(s, key)
  {
    var seen: set<string> := {};
    kept := [];
    for i := 0 to |s|
      invariant seen == Keys(s[..i], key) && kept == Deduped(s[..i], key)
    {
      assert s[..i + 1] == s[..i] + [s[i]];
      seen, kept := DedupStep(s[..i], s[i], key, seen, kept);
    }
    assert s[..|s|] == s;
  }

  lemma {:induction false} DedupedIsShorter<T>(s: seq<T>, key: T -> string)
    ensures |Deduped(s, key)| <= |s|
  {
    if s != [] {
      DedupedIsShorter(s[..|s| - 1], key);
    }
  }

  lemma DistinctSnoc<T>(s: seq<T>, x: T, key: T -> string)
    ensures DistinctKeys(s + [x], key) <==> DistinctKeys(s, key) && key(x) !in Keys(s, key)
  {
    var all := s + [x];
    if DistinctKeys(all, key) {
      forall i, j | 0 <= i < j < |s| ensures key(s[i]) != key(s[j]) {
        assert all[i] == s[i] && all[j] == s[j];
      }
      forall y | y in s ensures key(y) != key(x) {
        var i :| 0 <= i < |s| && s[i] == y;
        assert all[i] == y && all[|s|] == x;
      }
    } else {
      var i, j :| 0 <= i < j < |all| && key(all[i]) == key(all[j]);
      assert all[i] == s[i] && s[i] in s;
      assert j < |s| ==> all[j] == s[j];
    }
  }

  /** Nothing is dropped exactly when no key occurs twice. */
  lemma {:induction false} NothingDroppedExactlyWhen<T>(s: seq<T>, key: T -> string)
    ensures Deduped(s, key) == s <==> DistinctKeys(s, key)
  {
    if s != [] {
      var rest, x := s[..|s| - 1], s[|s| - 1];
      assert s == rest + [x];
      NothingDroppedExactlyWhen(rest, key);
      DedupedIsShorter(rest, key);
      DistinctSnoc(rest, x, key);
      SameEnd(Deduped(rest, key), rest, x);
    }
  }

  lemma KeysSnoc<T>(s: seq<T>, x: T, key: T -> string)
    ensures Keys(s + [x], key) == Keys(s, key) + {key(x)}
  {
  }

  /** Every key is kept, once, and nothing is added. */
  lemma {:induction false} DedupedKeepsKeys<T>(s: seq<T>, key: T -> string)
    ensures DistinctKeys(Deduped(s, key), key) && Keys(Deduped(s, key), key) == Keys(s, key)
    ensures forall x :: x in Deduped(s, key) ==> x in s
  {
    if s != [] {
      var rest, x := s[..|s| - 1], s[|s| - 1];
      assert s == rest + [x];
      DedupedKeepsKeys(rest, key);
      KeysSnoc(rest, x, key);
      if key(x) !in Keys(rest, key) {
        DistinctSnoc(Deduped(rest, key), x, key);
        KeysSnoc(Deduped(rest, key), x, key);
      }
    }
  }

  lemma SameEnd<T>(a: seq<T>, b: seq<T>, x: T)
    ensures a + [x] == b + [x] <==> a == b
  {
    if a + [x] == b + [x] {
      assert a == (a + [x])[..|a|] && b == (b + [x])[..|b|];
    }
  }

  ghost predicate NoCommonKey<T>(a: seq<T>, b: seq<T>, key: T -> string) {
    forall x, y :: x in a && y in b ==> key(x) != key(y)
  }

  // ---- Numbered lists, one after the other ----

  function Concat<T>(f: int -> seq<T>, n: int): seq<T>
    decreases n
  {
    if n <= 0 then [] else Concat(f, n - 1) + f(n - 1)
  }

  lemma {:induction false} ConcatContains<T>(f: int -> seq<T>, n: int, k: int, x: T)
    requires 0 <= k < n && x in f(k)
    ensures x in Concat(f, n)
    decreases n
  {
    if k < n - 1 {
      ConcatContains(f, n - 1, k, x);
    }
  }

  lemma {:induction false} ConcatHasNoCommonKey<T>(f: int -> seq<T>, n: int, b: seq<T>, key: T -> string)
    requires forall k :: 0 <= k < n ==> NoCommonKey(f(k), b, key)
    ensures NoCommonKey(Concat(f, n), b, key)
    decreases n
  {
    if n > 0 {
      ConcatHasNoCommonKey(f, n - 1, b, key);
      assert NoCommonKey(f(n - 1), b, key);
    }
  }

  /** Distinct lists without a common key are distinct one after the other. */
  lemma {:induction false} ConcatIsDistinct<T>(f: int -> seq<T>, n: int, key: T -> string)
    requires forall k :: 0 <= k < n ==> DistinctKeys(f(k), key)
    requires forall j, k :: 0 <= j < k < n ==> NoCommonKey(f(j), f(k), key)
    ensures DistinctKeys(Concat(f, n), key)
    decreases n
  {
    if n > 0 {
      ConcatIsDistinct(f, n - 1, key);
      ConcatHasNoCommonKey(f, n - 1, f(n - 1), key);
    }
  }
}
