/** What the list endpoints share: multi-key sorting, the store's skip/limit window,
    the page count, and the rounded percentage. */
module Listing {
  import opened Documents

  /** A sort key: the sort fields in priority order, each already turned so that smaller sorts first. */
  type Key = seq<int>

  /** Lexicographic order on keys; a key that is a prefix of another sorts first. */
  predicate KeyLe(a: Key, b: Key)
    decreases |a|
  {
    |a| == 0 || (|b| > 0 && (a[0] < b[0] || (a[0] == b[0] && KeyLe(a[1..], b[1..]))))
  }

  lemma {:induction false} KeyLeTotal(a: Key, b: Key)
    ensures KeyLe(a, b) || KeyLe(b, a)
    decreases |a|
  {
    if |a| > 0 && |b| > 0 && a[0] == b[0] {
      KeyLeTotal(a[1..], b[1..]);
    }
  }

  lemma {:induction false} KeyLeTrans(a: Key, b: Key, c: Key)
    requires KeyLe(a, b) && KeyLe(b, c)
    ensures KeyLe(a, c)
    decreases |a|
  {
    if |a| > 0 && a[0] == b[0] && b[0] == c[0] {
      KeyLeTrans(a[1..], b[1..], c[1..]);
    }
  }

  lemma {:induction false} KeyLeAntisymmetric(a: Key, b: Key)
    requires KeyLe(a, b) && KeyLe(b, a)
    ensures a == b
    decreases |a|
  {
    if |a| > 0 {
      KeyLeAntisymmetric(a[1..], b[1..]);
      assert a == [a[0]] + a[1..] && b == [b[0]] + b[1..];
    }
  }

  /** Keys of one element and of two elements compare field by field. */
  lemma KeyLeOne(a: int, b: int)
    ensures KeyLe([a], [b]) <==> a <= b
  {
    assert [a][1..] == [];
  }

  lemma KeyLeTwo(a1: int, a2: int, b1: int, b2: int)
    ensures KeyLe([a1, a2], [b1, b2]) <==> a1 < b1 || (a1 == b1 && a2 <= b2)
  {
    assert [a1, a2][1..] == [a2] && [b1, b2][1..] == [b2];
    KeyLeOne(a2, b2);
  }

  lemma KeyLeThree(a1: int, a2: int, a3: int, b1: int, b2: int, b3: int)
    ensures KeyLe([a1, a2, a3], [b1, b2, b3]) <==> a1 < b1 || (a1 == b1 && KeyLe([a2, a3], [b2, b3]))
  {
    assert [a1, a2, a3][1..] == [a2, a3] && [b1, b2, b3][1..] == [b2, b3];
  }

  /** Every earlier element's key is at most every later element's key. */
  ghost predicate SortedBy<T>(s: seq<T>, key: T -> Key) {
    forall i, j :: 0 <= i < j < |s| ==> KeyLe(key(s[i]), key(s[j]))
  }

  /** Inserts x before the first element whose key is not smaller, so equal keys keep their order. */
  function Insert<T>(x: T, s: seq<T>, key: T -> Key): (r: seq<T>)
    ensures |r| == |s| + 1
    ensures multiset(r) == multiset(s) + multiset{x}
  {
    if s == [] || KeyLe(key(x), key(s[0])) then [x] + s
    else
      assert s == [s[0]] + s[1..];
      [s[0]] + Insert(x, s[1..], key)
  }

  lemma {:induction false} InsertSorted<T>(x: T, s: seq<T>, key: T -> Key)
    requires SortedBy(s, key)
    ensures SortedBy(Insert(x, s, key), key)
  {
    if s == [] {
    } else if KeyLe(key(x), key(s[0])) {
      forall j | 1 <= j < |s| ensures KeyLe(key(x), key(s[j])) {
        KeyLeTrans(key(x), key(s[0]), key(s[j]));
      }
      var r := [x] + s;
      forall i, j | 0 <= i < j < |r| ensures KeyLe(key(r[i]), key(r[j])) {
        if i > 0 {
          assert r[i] == s[i - 1] && r[j] == s[j - 1];
        }
      }
    } else {
      KeyLeTotal(key(x), key(s[0]));
      var tail := s[1..];
      assert SortedBy(tail, key) by {
        forall i, j | 0 <= i < j < |tail| ensures KeyLe(key(tail[i]), key(tail[j])) {
          assert tail[i] == s[i + 1] && tail[j] == s[j + 1];
        }
      }
      InsertSorted(x, tail, key);
      var rest := Insert(x, tail, key);
      forall j | 0 <= j < |rest| ensures KeyLe(key(s[0]), key(rest[j])) {
        assert rest[j] in multiset(rest);
        if rest[j] != x {
          assert rest[j] in multiset(tail);
          var k :| 0 <= k < |tail| && tail[k] == rest[j];
          assert tail[k] == s[k + 1];
        }
      }
      var r := [s[0]] + rest;
      assert r == Insert(x, s, key);
      forall i, j | 0 <= i < j < |r| ensures KeyLe(key(r[i]), key(r[j])) {
        if i > 0 {
          assert r[i] == rest[i - 1] && r[j] == rest[j - 1];
        } else {
          assert r[j] == rest[j - 1];
        }
      }
    }
  }

  /** The store's `.sort(...)`: a stable sort by key; the result is a permutation of the input. */
  function SortBy<T>(s: seq<T>, key: T -> Key): (r: seq<T>)
    ensures |r| == |s|
    ensures multiset(r) == multiset(s)
  {
    if s == [] then []
    else
      assert s == [s[0]] + s[1..];
      Insert(s[0], SortBy(s[1..], key), key)
  }

  /** The sorted output is in key order (stated apart from SortBy so that only the proofs that
      need the order pay for it). */
  lemma {:induction false} SortBySorted<T>(s: seq<T>, key: T -> Key)
    ensures SortedBy(SortBy(s, key), key)
  {
    if s != [] {
      SortBySorted(s[1..], key);
      InsertSorted(s[0], SortBy(s[1..], key), key);
    }
  }

  /** Any two elements of the sorted output are in key order (one pair at a time). */
  lemma SortedPair<T>(s: seq<T>, key: T -> Key, i: nat, j: nat)
    requires i < j < |s|
    ensures KeyLe(key(SortBy(s, key)[i]), key(SortBy(s, key)[j]))
  {
    SortBySorted(s, key);
  }

  /** Sorting loses no element: what stood at position k of the input stands somewhere in the output. */
  lemma SortByKeeps<T>(s: seq<T>, key: T -> Key, k: nat)
    requires k < |s|
    ensures exists i :: 0 <= i < |s| && SortBy(s, key)[i] == s[k]
  {
    var r := SortBy(s, key);
    assert s[k] in multiset(s);
    assert s[k] in multiset(r);
    assert s[k] in r;
  }

  /** Sorting invents no element: what stands at position i of the output stood somewhere in the input. */
  lemma SortByDrawsFrom<T>(s: seq<T>, key: T -> Key, i: nat)
    requires i < |s|
    ensures exists k :: 0 <= k < |s| && SortBy(s, key)[i] == s[k]
  {
    var r := SortBy(s, key);
    assert r[i] in multiset(r);
    assert r[i] in multiset(s);
    assert r[i] in s;
  }

  function Min(a: int, b: int): int {
    if a <= b then a else b
  }

  /** How many documents the store's `.limit(n)` lets through: 0 means no limit, and a negative n counts as |n|. */
  function LimitCap(n: int): Option<nat> {
    if n == 0 then None else if n < 0 then Some(-n) else Some(n)
  }

  /** The store's `.skip(skip).limit(limit)` applied to an already sorted sequence. */
  function Window<T>(s: seq<T>, skip: nat, limit: int): (r: seq<T>)
    ensures skip >= |s| ==> r == []
    ensures skip < |s| ==>
      |r| == (if LimitCap(limit).None? then |s| - skip else Min(|s| - skip, LimitCap(limit).value))
    ensures forall i :: 0 <= i < |r| ==> skip + i < |s| && r[i] == s[skip + i]
  {
    if skip >= |s| then []
    else
      var cap := LimitCap(limit);
      var end := if cap.None? then |s| else skip + Min(|s| - skip, cap.value);
      s[skip..end]
  }

  /** Two positions of a window, read back in the underlying sequence. */
  lemma WindowPair<T>(s: seq<T>, skip: nat, limit: int, i: nat, j: nat)
    requires i < j < |Window(s, skip, limit)|
    ensures skip + j < |s| && Window(s, skip, limit)[i] == s[skip + i] && Window(s, skip, limit)[j] == s[skip + j]
  {
  }

  /** Any two elements of a window over the sorted sequence are in key order. */
  lemma WindowInOrder<T>(s: seq<T>, key: T -> Key, skip: nat, limit: int, i: nat, j: nat)
    requires i < j < |Window(SortBy(s, key), skip, limit)|
    ensures KeyLe(key(Window(SortBy(s, key), skip, limit)[i]), key(Window(SortBy(s, key), skip, limit)[j]))
  {
    WindowPair(SortBy(s, key), skip, limit, i, j);
    SortedPair(s, key, skip + i, skip + j);
  }

  /** Every element of a window over the sorted sequence comes from the unsorted one. */
  lemma WindowDrawsFrom<T>(s: seq<T>, key: T -> Key, skip: nat, limit: int, w: seq<T>)
    requires w == Window(SortBy(s, key), skip, limit)
    ensures forall i :: 0 <= i < |w| ==> w[i] in s
  {
    forall i | 0 <= i < |w| ensures w[i] in s {
      SortByDrawsFrom(s, key, skip + i);
    }
  }

  /** The page-2-of-10 window is elements 10 to 19 of the sorted sequence. */
  lemma WindowIsSlice<T>(s: seq<T>, page: nat, limit: nat)
    requires page >= 1 && limit >= 1 && page * limit <= |s|
    ensures Window(s, (page - 1) * limit, limit) == s[(page - 1) * limit .. page * limit]
  {
    var skip := (page - 1) * limit;
    assert skip + limit == page * limit;
  }

  /** `Math.ceil(total / limit)`; a zero limit gives Infinity or NaN, which the JSON reply carries as null. */
  function PageCount(total: nat, limit: int): (r: Option<int>)
    ensures r.None? <==> limit == 0
    ensures limit > 0 ==> r.value >= 0 && (r.value - 1) * limit < total <= r.value * limit
    ensures limit < 0 ==> r.value <= 0 && r.value * limit <= total < (r.value - 1) * limit
  {
    if limit == 0 then None
    else if limit > 0 then Some((total + limit - 1) / limit)
    else
      var q := total / (-limit);
      assert q * (-limit) <= total < (q + 1) * (-limit);
      Some(-q)
  }

  /** `Math.round(votes / total * 100)`, and 0 when there is no total: the nearest whole percentage, halves rounded up. */
  function RoundPercent(votes: nat, total: nat): (r: nat)
    ensures total == 0 ==> r == 0
    ensures total > 0 ==> 2 * total * r <= 200 * votes + total < 2 * total * (r + 1)
  {
    if total == 0 then 0
    else
      var n, d := 200 * votes + total, 2 * total;
      assert d * (n / d) + n % d == n;
      n / d
  }

  /** A positive factor can be cancelled from a strict inequality between products. */
  lemma MulLessCancel(a: nat, b: nat, c: nat)
    requires a > 0 && a * b < a * c
    ensures b < c
  {
    assert a * c - a * b == a * (c - b);
  }

  /** The percentage never exceeds 100 while the counter does not exceed the total. */
  lemma PercentAtMost100(votes: nat, total: nat)
    requires votes <= total
    ensures RoundPercent(votes, total) <= 100
  {
    if total > 0 {
      var r := RoundPercent(votes, total);
      assert 2 * total * r <= 200 * votes + total <= 201 * total < 2 * total * 101;
      MulLessCancel(2 * total, r, 101);
    }
  }

  /** How many elements satisfy p (the store's `countDocuments(filter)`). */
  function Count<T>(s: seq<T>, p: T -> bool): (n: nat)
    ensures n <= |s|
  {
    if s == [] then 0 else Count(s[..|s| - 1], p) + (if p(s[|s| - 1]) then 1 else 0)
  }

  lemma CountAppend<T>(s: seq<T>, x: T, p: T -> bool)
    ensures Count(s + [x], p) == Count(s, p) + (if p(x) then 1 else 0)
  {
    assert (s + [x])[..|s|] == s;
  }

  /** Nothing is counted when no element satisfies p. */
  lemma {:induction false} CountNone<T>(s: seq<T>, p: T -> bool)
    requires forall i :: 0 <= i < |s| ==> !p(s[i])
    ensures Count(s, p) == 0
  {
    if s != [] {
      CountNone(s[..|s| - 1], p);
    }
  }

  /** The elements that satisfy p, in their order (the store's `find(filter)`). */
  function Where<T>(s: seq<T>, p: T -> bool): (r: seq<T>)
    ensures |r| == Count(s, p)
    ensures forall i :: 0 <= i < |r| ==> p(r[i])
    ensures multiset(r) <= multiset(s)
    ensures forall i :: 0 <= i < |s| && p(s[i]) ==> s[i] in r
  {
    if s == [] then []
    else
      var init := Where(s[..|s| - 1], p);
      var last := s[|s| - 1];
      assert s == s[..|s| - 1] + [last];
      if p(last) then init + [last] else init
  }

  /** The filter `{ field: k }` for the field that key reads. */
  function Matches<T, K(==)>(key: T -> K, k: K): T -> bool {
    x => key(x) == k
  }

  lemma MatchesApply<T, K>(key: T -> K, k: K, x: T)
    ensures Matches(key, k)(x) <==> key(x) == k
  {
  }

  /** Sorting what a filter selects keeps exactly the elements that pass it. */
  lemma SortedWhere<T>(s: seq<T>, p: T -> bool, key: T -> Key)
    ensures forall i :: 0 <= i < |SortBy(Where(s, p), key)| ==> SortBy(Where(s, p), key)[i] in s && p(SortBy(Where(s, p), key)[i])
    ensures forall i :: 0 <= i < |s| && p(s[i]) ==> s[i] in SortBy(Where(s, p), key)
  {
    var w := Where(s, p);
    var r := SortBy(w, key);
    forall i | 0 <= i < |r| ensures r[i] in s && p(r[i]) {
      assert r[i] in multiset(r);
      assert r[i] in multiset(w);
    }
    forall i | 0 <= i < |s| && p(s[i]) ensures s[i] in r {
      assert s[i] in multiset(w);
      assert s[i] in multiset(r);
    }
  }

  /** The `reduce` that tallies a sequence by key: a map from each key that occurs to how often it occurs. */
  function CountBy<T, K(==)>(s: seq<T>, key: T -> K): map<K, nat> {
    if s == [] then map[]
    else
      var acc := CountBy(s[..|s| - 1], key);
      var k := key(s[|s| - 1]);
      acc[k := (if k in acc then acc[k] else 0) + 1]
  }

  /** The tally holds exactly the keys that occur, each with its number of occurrences. */
  lemma {:induction false} CountByCounts<T, K>(s: seq<T>, key: T -> K, k: K)
    ensures k in CountBy(s, key) <==> Count(s, Matches(key, k)) > 0
    ensures k in CountBy(s, key) ==> CountBy(s, key)[k] == Count(s, Matches(key, k))
  {
    if s != [] {
      CountByCounts(s[..|s| - 1], key, k);
    }
  }
}
