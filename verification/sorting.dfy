/** The orderings of the task list: `sortedBy { it.order }` and the priority
    comparator of `sortByPriority`. Kotlin's `sortedBy`/`sortedWith` are stable
    sorts; they are modelled by a stable insertion sort on an integer key. */
module Sorting {
  import opened Domain

  predicate SortedBy<T>(s: seq<T>, key: T -> int)
  {
    forall i, j :: 0 <= i < j < |s| ==> key(s[i]) <= key(s[j])
  }

  /** The elements of `s` whose key is `k`, in their order in `s`. */
  function WithKey<T>(s: seq<T>, key: T -> int, k: int): seq<T>
  {
    if |s| == 0 then []
    else if key(s[0]) == k then [s[0]] + WithKey(s[1..], key, k)
    else WithKey(s[1..], key, k)
  }

  /** Inserts `x` before the first element whose key is not smaller. */
  function Insert<T>(x: T, s: seq<T>, key: T -> int): (r: seq<T>)
    ensures multiset(r) == multiset(s) + multiset{x}
    ensures |r| == |s| + 1
  {
    if |s| == 0 || key(x) <= key(s[0]) then [x] + s
    else
      assert s == [s[0]] + s[1..];
      [s[0]] + Insert(x, s[1..], key)
  }

  lemma {:induction false} InsertSorted<T>(x: T, s: seq<T>, key: T -> int)
    requires SortedBy(s, key)
    ensures SortedBy(Insert(x, s, key), key)
  {
    if |s| > 0 && key(x) > key(s[0]) {
      InsertSorted(x, s[1..], key);
      var r := Insert(x, s[1..], key);
      forall j | 0 <= j < |r| ensures key(s[0]) <= key(r[j]) {
        assert r[j] in multiset(r);
        if r[j] != x {
          assert r[j] in multiset(s[1..]);
          var m :| 0 <= m < |s[1..]| && s[1..][m] == r[j];
          assert s[m + 1] == r[j];
        }
      }
    }
  }

  /** The stable sort by `key`. */
  function SortBy<T>(s: seq<T>, key: T -> int): (r: seq<T>)
    ensures multiset(r) == multiset(s)
    ensures |r| == |s|
  {
    if |s| == 0 then []
    else
      assert s == [s[0]] + s[1..];
      Insert(s[0], SortBy(s[1..], key), key)
  }

  /** The result is ordered by the key. */
  lemma {:induction false} SortBySorted<T>(s: seq<T>, key: T -> int)
    ensures SortedBy(SortBy(s, key), key)
  {
    if |s| > 0 {
      SortBySorted(s[1..], key);
      InsertSorted(s[0], SortBy(s[1..], key), key);
    }
  }

  lemma {:induction false} InsertWithKey<T>(x: T, s: seq<T>, key: T -> int, k: int)
    requires SortedBy(s, key)
    ensures WithKey(Insert(x, s, key), key, k) ==
      (if key(x) == k then [x] + WithKey(s, key, k) else WithKey(s, key, k))
  {
    if |s| == 0 || key(x) <= key(s[0]) {
      assert ([x] + s)[1..] == s;
    } else {
      assert SortedBy(s[1..], key);
      InsertWithKey(x, s[1..], key, k);
      assert ([s[0]] + Insert(x, s[1..], key))[1..] == Insert(x, s[1..], key);
    }
  }

  /** Stability: elements with equal keys keep their relative order. */
  lemma {:induction false} SortByStable<T>(s: seq<T>, key: T -> int, k: int)
    ensures WithKey(SortBy(s, key), key, k) == WithKey(s, key, k)
  {
    if |s| > 0 {
      SortByStable(s[1..], key, k);
      SortBySorted(s[1..], key);
      InsertWithKey(s[0], SortBy(s[1..], key), key, k);
    }
  }

  /** A list already in key order is left as it is. */
  lemma {:induction false} SortBySortedIsIdentity<T>(s: seq<T>, key: T -> int)
    requires SortedBy(s, key)
    ensures SortBy(s, key) == s
  {
    if |s| > 0 {
      var t := s[1..];
      SortedTail(s, key);
      SortBySortedIsIdentity(t, key);
      assert SortBy(s, key) == Insert(s[0], t, key);
      assert Insert(s[0], t, key) == [s[0]] + t;
      assert [s[0]] + t == s;
    }
  }

  /** The tail of a sorted list is sorted, and its head comes first. */
  lemma SortedTail<T>(s: seq<T>, key: T -> int)
    requires SortedBy(s, key) && |s| > 0
    ensures SortedBy(s[1..], key)
    ensures |s| > 1 ==> key(s[0]) <= key(s[1..][0])
  {
    var t := s[1..];
    forall i, j | 0 <= i < j < |t| ensures key(t[i]) <= key(t[j]) {
      assert t[i] == s[i + 1] && t[j] == s[j + 1];
    }
    if |t| > 0 {
      assert t[0] == s[1];
    }
  }

  // ----- the two keys of `sortByPriority` -----

  /** `Char.lowercase()` restricted to ASCII letters. */
  function LowerAscii(c: char): (r: char)
    ensures 'A' <= c <= 'Z' ==> 'a' <= r <= 'z' && r as int == c as int + 32
    ensures !('A' <= c <= 'Z') ==> r == c
  {
    if 'A' <= c <= 'Z' then (c as int + 32) as char else c
  }

  /** `tags.firstOrNull()?.firstOrNull()?.lowercase()`. */
  function TagInitial(t: Task): (r: Option<char>)
    ensures r.Some? <==> |t.tags| > 0 && |t.tags[0]| > 0
    ensures r.Some? ==> r.value == LowerAscii(t.tags[0][0])
  {
    if |t.tags| > 0 && |t.tags[0]| > 0 then Some(LowerAscii(t.tags[0][0])) else None
  }

  /** `compareByDescending { priority.ordinal }.thenBy { tag initial }`,
      where a missing initial comes first: does `a` sort strictly before `b`? */
  predicate PriorityBefore(a: Task, b: Task)
  {
    PriorityOrdinal(a.priority) > PriorityOrdinal(b.priority)
    || (PriorityOrdinal(a.priority) == PriorityOrdinal(b.priority) &&
        match (TagInitial(a), TagInitial(b))
        case (None, Some(_)) => true
        case (Some(x), Some(y)) => x < y
        case _ => false)
  }

  /** Two tasks the comparator cannot tell apart. */
  predicate PriorityTie(a: Task, b: Task)
  {
    PriorityOrdinal(a.priority) == PriorityOrdinal(b.priority) && TagInitial(a) == TagInitial(b)
  }

  const CHAR_SPAN: int := 0x11_0001

  function InitialRank(c: Option<char>): (r: int)
    ensures 0 <= r < CHAR_SPAN
  {
    match c
    case None => 0
    case Some(x) => x as int + 1
  }

  /** The comparator packed into one integer key. */
  function PriorityKey(t: Task): int
  {
    (4 - PriorityOrdinal(t.priority)) * CHAR_SPAN + InitialRank(TagInitial(t))
  }

  function OrderKey(t: Task): int { t.order }

  /** The packed key orders tasks exactly as the comparator does. */
  lemma PriorityKeyMatchesComparator(a: Task, b: Task)
    ensures PriorityKey(a) < PriorityKey(b) <==> PriorityBefore(a, b)
    ensures PriorityKey(a) == PriorityKey(b) <==> PriorityTie(a, b)
  {
    var pa, pb := 4 - PriorityOrdinal(a.priority), 4 - PriorityOrdinal(b.priority);
    var qa, qb := InitialRank(TagInitial(a)), InitialRank(TagInitial(b));
    if pa < pb {
      assert pa * CHAR_SPAN + CHAR_SPAN <= pb * CHAR_SPAN;
    } else if pa > pb {
      assert pb * CHAR_SPAN + CHAR_SPAN <= pa * CHAR_SPAN;
    } else {
      match (TagInitial(a), TagInitial(b))
      case (Some(x), Some(y)) =>
        assert qa == qb ==> x == y;
      case _ =>
    }
  }

  /** After a priority sort, higher priorities come first, and among equal
      priorities a task without a tag initial precedes tasks with one. */
  lemma PrioritySortOrder(tasks: seq<Task>, i: int, j: int)
    requires 0 <= i < j < |SortBy(tasks, PriorityKey)|
    ensures var r := SortBy(tasks, PriorityKey);
      PriorityBefore(r[i], r[j]) || PriorityTie(r[i], r[j])
  {
    var r := SortBy(tasks, PriorityKey);
    SortBySorted(tasks, PriorityKey);
    assert PriorityKey(r[i]) <= PriorityKey(r[j]);
    PriorityKeyMatchesComparator(r[i], r[j]);
  }
}
