/**
 * The order in which the bot's queries return rows. Text columns (deadlines,
 * release dates, names, roles) are compared code point by code point, as
 * Python compares `str` and as PostgreSQL compares text under the "C"
 * collation. `ORDER BY` is modelled by a stable insertion sort: rows with
 * equal keys keep their table order, which SQL leaves unspecified.
 */
module Ordering {
  import opened Wrappers

  /** `a < b` on strings: lexicographic by code point, a proper prefix first. */
  predicate Less(a: string, b: string)
    decreases |a|
  {
    if |a| == 0 then |b| > 0
    else if |b| == 0 then false
    else if a[0] != b[0] then a[0] < b[0]
    else Less(a[1..], b[1..])
  }

  lemma {:induction false} LessIrreflexive(a: string)
    ensures !Less(a, a)
    decreases |a|
  {
    if |a| > 0 { LessIrreflexive(a[1..]); }
  }

  lemma {:induction false} LessTransitive(a: string, b: string, c: string)
    requires Less(a, b) && Less(b, c)
    ensures Less(a, c)
    decreases |a|
  {
    if |a| > 0 && |b| > 0 && |c| > 0 && a[0] == b[0] && b[0] == c[0] {
      LessTransitive(a[1..], b[1..], c[1..]);
    }
  }

  /** Any two strings are equal or ordered one way, never both ways. */
  lemma {:induction false} LessTrichotomy(a: string, b: string)
    ensures a == b || Less(a, b) || Less(b, a)
    ensures !(Less(a, b) && Less(b, a))
    decreases |a|
  {
    if |a| > 0 && |b| > 0 && a[0] == b[0] {
      LessTrichotomy(a[1..], b[1..]);
      if a[1..] == b[1..] {
        assert a == [a[0]] + a[1..] && b == [b[0]] + b[1..];
      }
    }
  }

  /** "At most" is transitive. */
  lemma NotLessTransitive(a: string, b: string, c: string)
    requires !Less(b, a) && !Less(c, b)
    ensures !Less(c, a)
  {
    LessTrichotomy(a, b);
    if Less(c, a) && Less(a, b) { LessTransitive(c, a, b); }
  }

  /** Texts that agree up to a first differing character compare as that character. */
  lemma {:induction false} LessAfterCommon(p: string, a: char, x: string, b: char, y: string)
    requires a < b
    ensures Less(p + [a] + x, p + [b] + y)
    decreases |p|
  {
    if |p| > 0 {
      assert (p + [a] + x)[1..] == p[1..] + [a] + x;
      assert (p + [b] + y)[1..] == p[1..] + [b] + y;
      LessAfterCommon(p[1..], a, x, b, y);
    }
  }

  /** `x` is strictly ahead of `y` in `ORDER BY key` (`ASC`, or `DESC` when `desc`). */
  predicate Ahead<T>(key: T -> string, desc: bool, x: T, y: T)
  {
    if desc then Less(key(y), key(x)) else Less(key(x), key(y))
  }

  /** No row is followed by a row that is strictly ahead of it. */
  predicate SortedBy<T>(s: seq<T>, key: T -> string, desc: bool)
  {
    forall i, j :: 0 <= i < j < |s| ==> !Ahead(key, desc, s[j], s[i])
  }

  lemma AheadAsymmetric<T>(key: T -> string, desc: bool, x: T, y: T)
    requires Ahead(key, desc, x, y)
    ensures !Ahead(key, desc, y, x)
  {
    LessTrichotomy(key(x), key(y));
  }

  lemma NotAheadTransitive<T>(key: T -> string, desc: bool, x: T, y: T, z: T)
    requires !Ahead(key, desc, y, x) && !Ahead(key, desc, z, y)
    ensures !Ahead(key, desc, z, x)
  {
    if desc {
      NotLessTransitive(key(z), key(y), key(x));
    } else {
      NotLessTransitive(key(x), key(y), key(z));
    }
  }

  /** Puts `x` after every element strictly ahead of it and before the rest. */
  function Insert<T>(x: T, s: seq<T>, key: T -> string, desc: bool): (r: seq<T>)
    ensures multiset(r) == multiset(s) + multiset{x}
  {
    if |s| == 0 then [x]
    else
      assert s == [s[0]] + s[1..];
      if Ahead(key, desc, s[0], x) then [s[0]] + Insert(x, s[1..], key, desc)
      else [x] + s
  }

  lemma {:induction false} InsertSorted<T>(x: T, s: seq<T>, key: T -> string, desc: bool)
    requires SortedBy(s, key, desc)
    ensures SortedBy(Insert(x, s, key, desc), key, desc)
    decreases |s|
  {
    if |s| > 0 {
      if Ahead(key, desc, s[0], x) {
        InsertSorted(x, s[1..], key, desc);
        InsertBehindHead(x, s, key, desc);
      } else {
        InsertInFront(x, s, key, desc);
      }
    }
  }

  /** When the head is ahead of `x`, it stays first, ahead of the sorted rest. */
  lemma InsertBehindHead<T>(x: T, s: seq<T>, key: T -> string, desc: bool)
    requires |s| > 0 && Ahead(key, desc, s[0], x)
    requires SortedBy(s, key, desc) && SortedBy(Insert(x, s[1..], key, desc), key, desc)
    ensures SortedBy(Insert(x, s, key, desc), key, desc)
  {
    var tail := Insert(x, s[1..], key, desc);
    assert Insert(x, s, key, desc) == [s[0]] + tail;
    AheadAsymmetric(key, desc, s[0], x);
    HeadNotBehind(s, key, desc);
    forall j | 0 <= j < |tail| ensures !Ahead(key, desc, tail[j], s[0]) {
      InsertMember(x, s[1..], key, desc, j);
    }
    ConsSorted(s[0], tail, key, desc);
  }

  /** An element no later element is ahead of, in front of a sorted sequence, keeps it sorted. */
  lemma ConsSorted<T>(h: T, t: seq<T>, key: T -> string, desc: bool)
    requires SortedBy(t, key, desc)
    requires forall j :: 0 <= j < |t| ==> !Ahead(key, desc, t[j], h)
    ensures SortedBy([h] + t, key, desc)
  {
    var r := [h] + t;
    forall i, j | 0 <= i < j < |r| ensures !Ahead(key, desc, r[j], r[i]) {
      assert r[j] == t[j - 1];
      if i > 0 { assert r[i] == t[i - 1]; }
    }
  }

  /** Every element of an insertion is `x` or an element it was inserted into. */
  lemma InsertMember<T>(x: T, t: seq<T>, key: T -> string, desc: bool, j: int)
    requires 0 <= j < |Insert(x, t, key, desc)|
    ensures Insert(x, t, key, desc)[j] == x || Insert(x, t, key, desc)[j] in t
  {
    var r := Insert(x, t, key, desc);
    assert r[j] in multiset(r);
  }

  /** In a sorted sequence no later element is ahead of the first. */
  lemma HeadNotBehind<T>(s: seq<T>, key: T -> string, desc: bool)
    requires |s| > 0 && SortedBy(s, key, desc)
    ensures forall y :: y in s[1..] ==> !Ahead(key, desc, y, s[0])
  {
    forall y | y in s[1..] ensures !Ahead(key, desc, y, s[0]) {
      var k :| 0 <= k < |s[1..]| && s[1..][k] == y;
      assert s[k + 1] == y;
    }
  }

  /** When the head is not ahead of `x`, `x` goes first and nothing behind it is ahead of it. */
  lemma InsertInFront<T>(x: T, s: seq<T>, key: T -> string, desc: bool)
    requires |s| > 0 && !Ahead(key, desc, s[0], x)
    requires SortedBy(s, key, desc)
    ensures SortedBy(Insert(x, s, key, desc), key, desc)
  {
    var r := [x] + s;
    assert Insert(x, s, key, desc) == r;
    forall i, j | 0 <= i < j < |r| ensures !Ahead(key, desc, r[j], r[i]) {
      assert r[j] == s[j - 1];
      if i == 0 {
        if j > 1 { NotAheadTransitive(key, desc, x, s[0], s[j - 1]); }
      } else {
        assert r[i] == s[i - 1];
      }
    }
  }

  /** `ORDER BY key` (`DESC` when `desc`): the same rows, in order. */
  function SortBy<T>(s: seq<T>, key: T -> string, desc: bool): (r: seq<T>)
    ensures multiset(r) == multiset(s)
    ensures SortedBy(r, key, desc)
  {
    if |s| == 0 then []
    else
      var rest := SortBy(s[1..], key, desc);
      InsertSorted(s[0], rest, key, desc);
      assert s == [s[0]] + s[1..];
      Insert(s[0], rest, key, desc)
  }

  /** `WHERE p`: the rows satisfying `p`, in table order. */
  function Filter<T>(s: seq<T>, p: T -> bool): (r: seq<T>)
    ensures |r| <= |s|
    ensures forall i :: 0 <= i < |r| ==> r[i] in s && p(r[i])
    ensures forall i :: 0 <= i < |s| && p(s[i]) ==> s[i] in r
  {
    if |s| == 0 then []
    else
      var rest := Filter(s[1..], p);
      var head := if p(s[0]) then [s[0]] else [];
      assert s == [s[0]] + s[1..];
      assert forall i :: 0 <= i < |head + rest| ==> (head + rest)[i] in s && p((head + rest)[i]) by {
        forall i | 0 <= i < |head + rest| ensures (head + rest)[i] in s && p((head + rest)[i]) {
          if i >= |head| {
            assert (head + rest)[i] == rest[i - |head|];
          }
        }
      }
      assert forall i :: 0 <= i < |s| && p(s[i]) ==> s[i] in head + rest by {
        forall i | 0 <= i < |s| && p(s[i]) ensures s[i] in head + rest {
          if i > 0 {
            assert s[i] == s[1..][i - 1];
          }
        }
      }
      head + rest
  }

  /** `WHERE p` keeps every copy of a row that satisfies `p` and no copy of any other. */
  lemma {:induction false} FilterCount<T>(s: seq<T>, p: T -> bool, x: T)
    ensures multiset(Filter(s, p))[x] == if p(x) then multiset(s)[x] else 0
    decreases |s|
  {
    if |s| > 0 {
      FilterCount(s[1..], p, x);
      var head := if p(s[0]) then [s[0]] else [];
      assert Filter(s, p) == head + Filter(s[1..], p);
      assert multiset(Filter(s, p)) == multiset(head) + multiset(Filter(s[1..], p));
      assert s == [s[0]] + s[1..];
      assert multiset(s) == multiset{s[0]} + multiset(s[1..]);
    }
  }

  /** Filtering the same rows in another order gives the same rows. */
  lemma FilterSameMultiset<T>(s: seq<T>, t: seq<T>, p: T -> bool)
    requires multiset(s) == multiset(t)
    ensures multiset(Filter(s, p)) == multiset(Filter(t, p))
  {
    forall x ensures multiset(Filter(s, p))[x] == multiset(Filter(t, p))[x] {
      FilterCount(s, p, x);
      FilterCount(t, p, x);
    }
  }

  /** Filtering keeps an ordered table ordered. */
  lemma {:induction false} FilterSorted<T>(s: seq<T>, p: T -> bool, key: T -> string, desc: bool)
    requires SortedBy(s, key, desc)
    ensures SortedBy(Filter(s, p), key, desc)
    decreases |s|
  {
    if |s| > 0 {
      assert SortedBy(s[1..], key, desc);
      FilterSorted(s[1..], p, key, desc);
      var rest := Filter(s[1..], p);
      if p(s[0]) {
        assert Filter(s, p) == [s[0]] + rest;
        HeadNotBehind(s, key, desc);
        forall j | 0 <= j < |rest| ensures !Ahead(key, desc, rest[j], s[0]) {
          assert rest[j] in s[1..];
        }
        ConsSorted(s[0], rest, key, desc);
      } else {
        assert Filter(s, p) == rest;
      }
    }
  }

  /** `LIMIT limit OFFSET offset`. */
  function Page<T>(s: seq<T>, offset: nat, limit: nat): (r: seq<T>)
    ensures |r| <= limit
    ensures offset < |s| ==> r == s[offset..if offset + limit < |s| then offset + limit else |s|]
    ensures offset >= |s| ==> r == []
  {
    if offset >= |s| then [] else s[offset..if offset + limit < |s| then offset + limit else |s|]
  }

  /** The rows before page `k - 1` followed by page `k - 1` are the rows before page `k`. */
  lemma PageStep<T>(s: seq<T>, size: nat, k: nat)
    requires k > 0
    ensures var lo := if (k - 1) * size < |s| then (k - 1) * size else |s|;
            var hi := if k * size < |s| then k * size else |s|;
            s[..lo] + Page(s, (k - 1) * size, size) == s[..hi]
  {
    var lo := if (k - 1) * size < |s| then (k - 1) * size else |s|;
    var hi := if k * size < |s| then k * size else |s|;
    assert k * size == (k - 1) * size + size;
    assert Page(s, (k - 1) * size, size) == s[lo..hi];
    assert s[..lo] + s[lo..hi] == s[..hi];
  }

  /** Pages `0` to `k - 1` of `s`, one after the other. */
  function Paged<T>(s: seq<T>, size: nat, k: nat): seq<T>
  {
    if k == 0 then [] else Paged(s, size, k - 1) + Page(s, (k - 1) * size, size)
  }

  /** The first `k` pages are the first `k * size` rows (all of them once that reaches the total). */
  lemma {:induction false} PagedPrefix<T>(s: seq<T>, size: nat, k: nat)
    ensures Paged(s, size, k) == s[..if k * size < |s| then k * size else |s|]
  {
    if k > 0 {
      PagedPrefix(s, size, k - 1);
      PageStep(s, size, k);
    }
  }

  /** In a sorted sequence no row of page `k` is ahead of a row of page `k - 1`. */
  lemma PagesInOrder<T>(s: seq<T>, key: T -> string, desc: bool, size: nat, k: nat)
    requires SortedBy(s, key, desc) && k > 0
    ensures var prev, cur := Page(s, (k - 1) * size, size), Page(s, k * size, size);
            forall i, j :: 0 <= i < |prev| && 0 <= j < |cur| ==> !Ahead(key, desc, cur[j], prev[i])
  {
    var prev, cur := Page(s, (k - 1) * size, size), Page(s, k * size, size);
    assert k * size == (k - 1) * size + size;
    forall i, j | 0 <= i < |prev| && 0 <= j < |cur| ensures !Ahead(key, desc, cur[j], prev[i]) {
      assert prev[i] == s[(k - 1) * size + i];
      assert cur[j] == s[k * size + j];
    }
  }

  /**
   * `WHERE id=k` on a key column: a row carrying the key, the first in
   * table order, and none exactly when no row carries it.
   */
  function Find<T>(s: seq<T>, id: T -> int, k: int): (r: Option<T>)
    ensures r.Some? ==> r.value in s && id(r.value) == k
    ensures r.None? <==> forall i :: 0 <= i < |s| ==> id(s[i]) != k
  {
    if |s| == 0 then None
    else if id(s[0]) == k then Some(s[0])
    else Find(s[1..], id, k)
  }

  /** Identifiers strictly increase along the table, as `SERIAL` ids in insertion order do. */
  predicate IdsIncreasing<T>(s: seq<T>, id: T -> int)
  {
    forall i, j :: 0 <= i < j < |s| ==> id(s[i]) < id(s[j])
  }

  /** Increasing ids are unique: two rows with one id are one row. */
  lemma IdsUnique<T>(s: seq<T>, id: T -> int, i: nat, j: nat)
    requires IdsIncreasing(s, id) && i < |s| && j < |s| && id(s[i]) == id(s[j])
    ensures i == j
  {
  }

  lemma {:induction false} FilterKeepsIncreasing<T>(s: seq<T>, p: T -> bool, id: T -> int)
    requires IdsIncreasing(s, id)
    ensures IdsIncreasing(Filter(s, p), id)
    decreases |s|
  {
    if |s| > 0 {
      FilterKeepsIncreasing(s[1..], p, id);
      var rest := Filter(s[1..], p);
      forall j | 0 <= j < |rest| ensures id(s[0]) < id(rest[j]) {
        assert rest[j] in s[1..];
      }
    }
  }

  function Reverse<T>(s: seq<T>): (r: seq<T>)
    ensures |r| == |s| && forall i :: 0 <= i < |s| ==> r[i] == s[|s| - 1 - i]
  {
    if |s| == 0 then [] else Reverse(s[1..]) + [s[0]]
  }

  function Take<T>(s: seq<T>, n: nat): (r: seq<T>)
    ensures |r| <= n && |r| <= |s| && r == s[..|r|]
    ensures |s| <= n ==> r == s
    ensures n <= |s| ==> |r| == n
  {
    if |s| <= n then s else s[..n]
  }

  /**
   * `ORDER BY key LIMIT n`: as many rows as the limit and the table allow,
   * drawn from the table, in key order, and no row left out is strictly
   * ahead of a row kept.
   */
  function Top<T>(s: seq<T>, key: T -> string, desc: bool, n: nat): (r: seq<T>)
    ensures |r| == (if |s| < n then |s| else n)
    ensures multiset(r) <= multiset(s) && forall i :: 0 <= i < |r| ==> r[i] in s
    ensures SortedBy(r, key, desc)
    ensures forall x :: x in multiset(s) - multiset(r) ==> forall j :: 0 <= j < |r| ==> !Ahead(key, desc, x, r[j])
  {
    TopDrawn(s, key, desc, n);
    TopOrdered(s, key, desc, n);
    Take(SortBy(s, key, desc), n)
  }

  /** The first `n` rows of the sorted table: as many as allowed, all drawn from the table. */
  lemma TopDrawn<T>(s: seq<T>, key: T -> string, desc: bool, n: nat)
    ensures var r := Take(SortBy(s, key, desc), n);
            |r| == (if |s| < n then |s| else n) &&
            multiset(r) <= multiset(s) && forall i :: 0 <= i < |r| ==> r[i] in s
  {
    var sorted := SortBy(s, key, desc);
    var r := Take(sorted, n);
    SortByMembers(s, key, desc);
    PrefixSub(sorted, |r|);
    assert forall i :: 0 <= i < |r| ==> r[i] == sorted[i];
  }

  /** The first `n` rows of the sorted table are in order and no row left out is ahead of them. */
  lemma TopOrdered<T>(s: seq<T>, key: T -> string, desc: bool, n: nat)
    ensures var r := Take(SortBy(s, key, desc), n);
            SortedBy(r, key, desc) &&
            forall x :: x in multiset(s) - multiset(r) ==> forall j :: 0 <= j < |r| ==> !Ahead(key, desc, x, r[j])
  {
    var sorted := SortBy(s, key, desc);
    var r := Take(sorted, n);
    SortByMembers(s, key, desc);
    SortedSlice(sorted, key, desc, 0, |r|);
    PrefixLeftOut(sorted, key, desc, |r|);
  }

  lemma PrefixSub<T>(t: seq<T>, m: nat)
    requires m <= |t|
    ensures multiset(t[..m]) <= multiset(t)
    ensures multiset(t) - multiset(t[..m]) == multiset(t[m..])
  {
    assert t == t[..m] + t[m..];
  }

  /** In a sorted sequence nothing after the first `m` rows is ahead of one of them. */
  lemma PrefixLeftOut<T>(t: seq<T>, key: T -> string, desc: bool, m: nat)
    requires SortedBy(t, key, desc) && m <= |t|
    ensures forall x :: x in multiset(t) - multiset(t[..m]) ==> forall j :: 0 <= j < m ==> !Ahead(key, desc, x, t[j])
  {
    PrefixSub(t, m);
    forall x | x in multiset(t) - multiset(t[..m]) ensures forall j :: 0 <= j < m ==> !Ahead(key, desc, x, t[j]) {
      assert x in t[m..];
      var k :| m <= k < |t| && t[k] == x;
    }
  }

  /** The ids of a table drawn from a `SERIAL` counter now at `next`. */
  predicate Serial<T>(s: seq<T>, id: T -> int, next: int)
  {
    IdsIncreasing(s, id) && forall i :: 0 <= i < |s| ==> 1 <= id(s[i]) < next
  }

  /** An insert under the counter's value keeps the table serial and advances the counter. */
  lemma SerialAppend<T>(s: seq<T>, id: T -> int, next: int, x: T)
    requires Serial(s, id, next) && id(x) == next && 1 <= next
    ensures Serial(s + [x], id, next + 1)
  {
    var t := s + [x];
    assert forall i :: 0 <= i < |s| ==> t[i] == s[i];
  }

  /** Deleting rows keeps a table serial. */
  lemma SerialFilter<T>(s: seq<T>, p: T -> bool, id: T -> int, next: int)
    requires Serial(s, id, next)
    ensures Serial(Filter(s, p), id, next)
  {
    FilterKeepsIncreasing(s, p, id);
    var r := Filter(s, p);
    forall i | 0 <= i < |r| ensures 1 <= id(r[i]) < next {
      assert r[i] in s;
    }
  }

  /** Updating rows without touching their ids keeps a table serial. */
  lemma SerialSameIds<T>(s: seq<T>, t: seq<T>, id: T -> int, next: int)
    requires Serial(s, id, next)
    requires |t| == |s| && forall i :: 0 <= i < |s| ==> id(t[i]) == id(s[i])
    ensures Serial(t, id, next)
  {
  }

  /** Every row of `ORDER BY` comes from the table. */
  lemma SortByMembers<T>(s: seq<T>, key: T -> string, desc: bool)
    ensures forall i :: 0 <= i < |SortBy(s, key, desc)| ==> SortBy(s, key, desc)[i] in s
    ensures |SortBy(s, key, desc)| == |s|
  {
    var r := SortBy(s, key, desc);
    forall i | 0 <= i < |r| ensures r[i] in s {
      assert r[i] in multiset(r);
    }
    assert |multiset(r)| == |multiset(s)|;
  }

  /** A slice of a sorted sequence is sorted. */
  lemma SortedSlice<T>(s: seq<T>, key: T -> string, desc: bool, lo: nat, hi: nat)
    requires SortedBy(s, key, desc) && lo <= hi <= |s|
    ensures SortedBy(s[lo..hi], key, desc)
  {
    var r := s[lo..hi];
    forall i, j | 0 <= i < j < |r| ensures !Ahead(key, desc, r[j], r[i]) {
      assert r[i] == s[lo + i] && r[j] == s[lo + j];
    }
  }

  lemma RecentKept<T>(s: seq<T>, n: nat, k: nat)
    requires k < |s|
    ensures |s| - 1 - k < |Take(Reverse(s), n)| ==> s[k] in Take(Reverse(s), n)
  {
    var r := Take(Reverse(s), n);
    if |s| - 1 - k < |r| {
      assert r[|s| - 1 - k] == s[k];
    }
  }

  /**
   * The first `n` rows of a table read backwards (`ORDER BY id DESC LIMIT n`):
   * ids strictly decrease, and every row left out is older than every row kept.
   */
  lemma NewestFirst<T>(s: seq<T>, id: T -> int, n: nat)
    requires IdsIncreasing(s, id)
    ensures forall i, j :: 0 <= i < j < |Take(Reverse(s), n)| ==>
              id(Take(Reverse(s), n)[i]) > id(Take(Reverse(s), n)[j])
    ensures forall k, j :: 0 <= k < |s| && 0 <= j < |Take(Reverse(s), n)| && s[k] !in Take(Reverse(s), n) ==>
              id(s[k]) < id(Take(Reverse(s), n)[j])
  {
    var rev := Reverse(s);
    var r := Take(rev, n);
    assert forall i :: 0 <= i < |r| ==> r[i] == s[|s| - 1 - i];
    forall k, j | 0 <= k < |s| && 0 <= j < |r| && s[k] !in r ensures id(s[k]) < id(r[j]) {
      RecentKept(s, n, k);
      assert |s| - 1 - k >= |r|;
    }
  }

  /** A page of a sorted table is sorted, holds rows of the table, and is as long as the rows left allow. */
  lemma PageOfSorted<T>(s: seq<T>, key: T -> string, desc: bool, offset: nat, limit: nat)
    requires SortedBy(s, key, desc)
    ensures SortedBy(Page(s, offset, limit), key, desc)
    ensures forall i :: 0 <= i < |Page(s, offset, limit)| ==> Page(s, offset, limit)[i] in s
    ensures |Page(s, offset, limit)| == if offset >= |s| then 0
                                        else if |s| - offset < limit then |s| - offset else limit
  {
    if offset < |s| {
      var hi := if offset + limit < |s| then offset + limit else |s|;
      SortedSlice(s, key, desc, offset, hi);
      assert forall i :: 0 <= i < hi - offset ==> s[offset..hi][i] == s[offset + i];
    }
  }
}
