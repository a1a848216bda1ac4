/** Sequence operations shared by every screen: the `filter`, `find`, `map`,
    `reduce` and `includes` the screens apply to their collections, with the
    facts about them that the screen-level proofs rely on. */
module Seqs {
  import opened Wrappers

  /** `r` keeps some elements of `s` in their original order. */
  predicate IsSubsequence<T(==)>(r: seq<T>, s: seq<T>)
    decreases |s|
  {
    if |r| == 0 then true
    else if |s| == 0 then false
    else if r[|r| - 1] == s[|s| - 1] && IsSubsequence(r[..|r| - 1], s[..|s| - 1]) then true
    else IsSubsequence(r, s[..|s| - 1])
  }

  /** The elements of `s` satisfying `p`, in order (JavaScript `Array.filter`). */
  function Filter<T(!new)>(s: seq<T>, p: T -> bool): (r: seq<T>)
    ensures |r| <= |s|
    ensures forall i :: 0 <= i < |r| ==> r[i] in s && p(r[i])
    ensures forall i :: 0 <= i < |s| && p(s[i]) ==> s[i] in r
    ensures IsSubsequence(r, s)
    ensures forall x {:trigger multiset(r)[x]} :: multiset(r)[x] == if p(x) then multiset(s)[x] else 0
    decreases |s|
  {
    if |s| == 0 then []
    else
      var init := s[..|s| - 1];
      var last := s[|s| - 1];
      assert s == init + [last];
      var rest := Filter(init, p);
      var r := if p(last) then rest + [last] else rest;
      FilterMultisetStep(s, init, last, rest, r, p);
      r
  }

  /** The step of `Filter` that keeps every copy: appending `last` to the input
      adds its copy to the output exactly when it passes. */
  lemma FilterMultisetStep<T(!new)>(s: seq<T>, init: seq<T>, last: T, rest: seq<T>, r: seq<T>, p: T -> bool)
    requires s == init + [last]
    requires forall x {:trigger multiset(rest)[x]} :: multiset(rest)[x] == if p(x) then multiset(init)[x] else 0
    requires r == if p(last) then rest + [last] else rest
    ensures forall x {:trigger multiset(r)[x]} :: multiset(r)[x] == if p(x) then multiset(s)[x] else 0
  {
    assert multiset(s) == multiset(init) + multiset{last};
    if p(last) {
      assert multiset(r) == multiset(rest) + multiset{last};
    }
  }

  lemma FilterSnoc<T(!new)>(s: seq<T>, x: T, p: T -> bool)
    ensures Filter(s + [x], p) == if p(x) then Filter(s, p) + [x] else Filter(s, p)
  {
    assert (s + [x])[..|s|] == s;
  }

  /** Filtering twice is filtering once by both conditions. */
  lemma {:induction false} FilterFilter<T(!new)>(s: seq<T>, p: T -> bool, q: T -> bool, both: T -> bool)
    requires forall x :: both(x) == (p(x) && q(x))
    ensures Filter(Filter(s, p), q) == Filter(s, both)
    decreases |s|
  {
    if |s| > 0 {
      var init := s[..|s| - 1];
      var last := s[|s| - 1];
      assert s == init + [last];
      FilterFilter(init, p, q, both);
      FilterSnoc(init, last, p);
      FilterSnoc(init, last, both);
      FilterSnoc(Filter(init, p), last, q);
    }
  }

  /** Conditions that agree on every element filter alike. */
  lemma {:induction false} FilterSame<T(!new)>(s: seq<T>, p: T -> bool, q: T -> bool)
    requires forall x :: p(x) == q(x)
    ensures Filter(s, p) == Filter(s, q)
    decreases |s|
  {
    if |s| > 0 {
      FilterSame(s[..|s| - 1], p, q);
    }
  }

  /** A filter that every element passes keeps the whole sequence. */
  lemma {:induction false} FilterKeepsAll<T(!new)>(s: seq<T>, p: T -> bool)
    requires forall i :: 0 <= i < |s| ==> p(s[i])
    ensures Filter(s, p) == s
    decreases |s|
  {
    if |s| > 0 {
      FilterKeepsAll(s[..|s| - 1], p);
    }
  }

  /** Index of the first element satisfying `p` (JavaScript `Array.findIndex`). */
  function FindIndex<T>(s: seq<T>, p: T -> bool): (r: Option<nat>)
    ensures r.Some? ==> r.value < |s| && p(s[r.value])
    ensures r.Some? ==> forall j :: 0 <= j < r.value ==> !p(s[j])
    ensures r.None? <==> forall j :: 0 <= j < |s| ==> !p(s[j])
    decreases |s|
  {
    if |s| == 0 then None
    else if p(s[0]) then Some(0)
    else
      match FindIndex(s[1..], p)
      case None => None
      case Some(k) => Some(k + 1)
  }

  /** The first element satisfying `p` (JavaScript `Array.find`). */
  function Find<T>(s: seq<T>, p: T -> bool): (r: Option<T>)
    ensures r.Some? <==> exists i :: 0 <= i < |s| && p(s[i])
    ensures r.Some? ==> exists i :: 0 <= i < |s| && s[i] == r.value && p(s[i]) &&
                                    forall j :: 0 <= j < i ==> !p(s[j])
  {
    match FindIndex(s, p)
    case None => None
    case Some(i) => Some(s[i])
  }

  /** `f` applied to every element (JavaScript `Array.map`). */
  function Map<T, U>(s: seq<T>, f: T -> U): (r: seq<U>)
    ensures |r| == |s|
    ensures forall i :: 0 <= i < |s| ==> r[i] == f(s[i])
  {
    seq(|s|, i requires 0 <= i < |s| => f(s[i]))
  }

  /** `s` with every element satisfying `p` replaced by `x`, and nothing else
      touched (the `map(t => cond ? updated : t)` idiom of the screens). */
  function Replace<T>(s: seq<T>, p: T -> bool, x: T): (r: seq<T>)
    ensures |r| == |s|
    ensures forall i :: 0 <= i < |s| && p(s[i]) ==> r[i] == x
    ensures forall i :: 0 <= i < |s| && !p(s[i]) ==> r[i] == s[i]
  {
    seq(|s|, i requires 0 <= i < |s| => if p(s[i]) then x else s[i])
  }

  /** The sum of `f` over `s` (JavaScript `reduce((sum, x) => sum + f(x), 0)`). */
  function Sum<T>(s: seq<T>, f: T -> int): int
    decreases |s|
  {
    if |s| == 0 then 0 else Sum(s[..|s| - 1], f) + f(s[|s| - 1])
  }

  lemma SumSnoc<T>(s: seq<T>, x: T, f: T -> int)
    ensures Sum(s + [x], f) == Sum(s, f) + f(x)
  {
    assert (s + [x])[..|s|] == s;
  }

  /** The sum over a sequence is non-negative when every term is. */
  lemma {:induction false} SumNonNegative<T>(s: seq<T>, f: T -> int)
    ensures (forall i :: 0 <= i < |s| ==> f(s[i]) >= 0) ==> Sum(s, f) >= 0
    decreases |s|
  {
    if |s| > 0 {
      SumNonNegative(s[..|s| - 1], f);
    }
  }

  /** Two sequences of equal length that differ in one position by one unit of `f`
      have sums that differ by one. */
  lemma {:induction false} SumPointIncrement<T>(a: seq<T>, b: seq<T>, k: nat, f: T -> int)
    requires |a| == |b| && k < |a|
    requires forall i :: 0 <= i < |a| && i != k ==> f(a[i]) == f(b[i])
    requires f(b[k]) == f(a[k]) + 1
    ensures Sum(b, f) == Sum(a, f) + 1
    decreases |a|
  {
    var n := |a| - 1;
    if k == n {
      SumEqual(a[..n], b[..n], f);
    } else {
      SumPointIncrement(a[..n], b[..n], k, f);
    }
  }

  /** Sums agree on sequences whose terms agree pointwise. */
  lemma {:induction false} SumEqual<T>(a: seq<T>, b: seq<T>, f: T -> int)
    requires |a| == |b|
    requires forall i :: 0 <= i < |a| ==> f(a[i]) == f(b[i])
    ensures Sum(a, f) == Sum(b, f)
    decreases |a|
  {
    if |a| > 0 {
      SumEqual(a[..|a| - 1], b[..|b| - 1], f);
    }
  }

  /** When every term lies between `lo` and `hi`, so does the sum, scaled by the length. */
  lemma {:induction false} SumBounds<T>(s: seq<T>, f: T -> int, lo: int, hi: int)
    requires forall i :: 0 <= i < |s| ==> lo <= f(s[i]) <= hi
    ensures |s| * lo <= Sum(s, f) <= |s| * hi
    decreases |s|
  {
    if |s| > 0 {
      var n := |s| - 1;
      SumBounds(s[..n], f, lo, hi);
      assert |s| * lo == n * lo + lo && |s| * hi == n * hi + hi;
    }
  }

  /** Every element weighs one: used to count with `Sum`. */
  function One<T>(x: T): int { 1 }

  lemma {:induction false} SumOneIsLength<T>(s: seq<T>)
    ensures Sum(s, One) == |s|
    decreases |s|
  {
    if |s| > 0 {
      SumOneIsLength(s[..|s| - 1]);
    }
  }

  /** No value occurs twice. */
  predicate Distinct<T(==)>(s: seq<T>) {
    forall i, j :: 0 <= i < j < |s| ==> s[i] != s[j]
  }

  /** The elements of `s` whose `key` is `k`. */
  function WithKey<T(!new), K(==)>(s: seq<T>, key: T -> K, k: K): (r: seq<T>)
    ensures forall i :: 0 <= i < |r| ==> r[i] in s && key(r[i]) == k
    ensures forall i :: 0 <= i < |s| && key(s[i]) == k ==> s[i] in r
    ensures IsSubsequence(r, s)
    ensures forall x {:trigger multiset(r)[x]} :: multiset(r)[x] == if key(x) == k then multiset(s)[x] else 0
  {
    Filter(s, x => key(x) == k)
  }

  /** Appending one element adds it to its own key's selection only. */
  lemma WithKeySnoc<T(!new), K>(s: seq<T>, x: T, key: T -> K, k: K)
    ensures WithKey(s + [x], key, k) == if key(x) == k then WithKey(s, key, k) + [x] else WithKey(s, key, k)
  {
    FilterSnoc(s, x, y => key(y) == k);
  }

  /** Selecting by key is filtering by any condition that tests that key. */
  lemma WithKeyIsFilter<T(!new), K>(s: seq<T>, key: T -> K, k: K, p: T -> bool)
    requires forall x :: p(x) == (key(x) == k)
    ensures WithKey(s, key, k) == Filter(s, p)
  {
    FilterSame(s, x => key(x) == k, p);
  }

  /** A key every element has selects the whole sequence. */
  lemma WithKeyKeepsAll<T(!new), K>(s: seq<T>, key: T -> K, k: K)
    requires forall i :: 0 <= i < |s| ==> key(s[i]) == k
    ensures WithKey(s, key, k) == s
  {
    FilterKeepsAll(s, x => key(x) == k);
  }

  /** The group of `k` is non-empty exactly when some element has key `k`. */
  lemma WithKeyNonEmpty<T(!new), K>(s: seq<T>, key: T -> K, k: K)
    ensures |WithKey(s, key, k)| > 0 <==> exists i :: 0 <= i < |s| && key(s[i]) == k
  {
    if exists i :: 0 <= i < |s| && key(s[i]) == k {
      var i :| 0 <= i < |s| && key(s[i]) == k;
      assert s[i] in WithKey(s, key, k);
    }
  }

  /** The sum of `f` over each key group, added up over `keys`. */
  function KeyedTotal<T(!new), K(==)>(s: seq<T>, key: T -> K, keys: seq<K>, f: T -> int): int
    decreases |keys|
  {
    if |keys| == 0 then 0
    else KeyedTotal(s, key, keys[..|keys| - 1], f) + Sum(WithKey(s, key, keys[|keys| - 1]), f)
  }

  lemma {:induction false} KeyedTotalSnoc<T(!new), K>(s: seq<T>, x: T, key: T -> K, keys: seq<K>, f: T -> int)
    requires Distinct(keys)
    ensures KeyedTotal(s + [x], key, keys, f) ==
            KeyedTotal(s, key, keys, f) + (if key(x) in keys then f(x) else 0)
    decreases |keys|
  {
    if |keys| > 0 {
      var init := keys[..|keys| - 1];
      var k := keys[|keys| - 1];
      assert keys == init + [k];
      KeyedTotalSnoc(s, x, key, init, f);
      FilterSnoc(s, x, y => key(y) == k);
      SumSnoc(WithKey(s, key, k), x, f);
      assert key(x) in keys <==> key(x) in init || key(x) == k;
      assert key(x) == k ==> key(x) !in init;
    }
  }

  /** Grouping by a key that always falls among `keys` loses and duplicates nothing:
      the group sums add up to the sum over the whole sequence. */
  lemma {:induction false} KeyedPartition<T(!new), K>(s: seq<T>, key: T -> K, keys: seq<K>, f: T -> int)
    requires Distinct(keys)
    requires forall i :: 0 <= i < |s| ==> key(s[i]) in keys
    ensures KeyedTotal(s, key, keys, f) == Sum(s, f)
    decreases |s|
  {
    if |s| == 0 {
      KeyedTotalEmpty(key, keys, f);
    } else {
      var init := s[..|s| - 1];
      var last := s[|s| - 1];
      assert s == init + [last];
      KeyedPartition(init, key, keys, f);
      KeyedTotalSnoc(init, last, key, keys, f);
    }
  }

  lemma {:induction false} KeyedTotalEmpty<T(!new), K>(key: T -> K, keys: seq<K>, f: T -> int)
    ensures KeyedTotal([], key, keys, f) == 0
    decreases |keys|
  {
    if |keys| > 0 {
      KeyedTotalEmpty(key, keys[..|keys| - 1], f);
    }
  }

  /** `needle` occurs in `hay` starting at position `i`. */
  predicate OccursAt(hay: string, needle: string, i: nat) {
    i + |needle| <= |hay| && hay[i..i + |needle|] == needle
  }

  /** JavaScript `String.includes`: `needle` occurs somewhere in `hay`. */
  function Contains(hay: string, needle: string): (r: bool)
    ensures r <==> exists i: nat :: OccursAt(hay, needle, i)
    decreases |hay|
  {
    if needle <= hay then
      assert OccursAt(hay, needle, 0);
      true
    else if |hay| == 0 then
      assert forall i: nat :: !OccursAt(hay, needle, i);
      false
    else
      var r := Contains(hay[1..], needle);
      assert r ==> exists i: nat :: OccursAt(hay, needle, i) by {
        if r {
          var j: nat :| OccursAt(hay[1..], needle, j);
          assert hay[1..][j..j + |needle|] == hay[j + 1..j + 1 + |needle|];
          assert OccursAt(hay, needle, j + 1);
        }
      }
      assert (exists i: nat :: OccursAt(hay, needle, i)) ==> r by {
        if exists i: nat :: OccursAt(hay, needle, i) {
          var i: nat :| OccursAt(hay, needle, i);
          assert i != 0;
          assert hay[1..][i - 1..i - 1 + |needle|] == hay[i..i + |needle|];
          assert OccursAt(hay[1..], needle, i - 1);
        }
      }
      r
  }

  /** Lower-cases the ASCII letters A-Z and leaves every other character alone. */
  function LowerChar(c: char): (r: char)
    ensures 'A' <= c <= 'Z' ==> 'a' <= r <= 'z' && r as int - c as int == 'a' as int - 'A' as int
    ensures !('A' <= c <= 'Z') ==> r == c
  {
    if 'A' <= c <= 'Z' then (c as int - 'A' as int + 'a' as int) as char else c
  }

  function ToLower(s: string): (r: string)
    ensures |r| == |s|
    ensures forall i :: 0 <= i < |s| ==> r[i] == LowerChar(s[i])
  {
    Map(s, LowerChar)
  }
}
