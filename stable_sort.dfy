/**
 * `events.sort(key=lambda x: x[0])`: Python's list sort keyed only on the start
 * time. The sort is stable, so events with equal starts keep their relative
 * order. Modelled by a stable insertion sort; AnyStableSortAgrees shows that
 * every sort with these two properties returns the same list.
 */
module StableSort {
  import opened Events

  predicate SortedByStart(s: seq<Entry>)
  {
    forall i, j | 0 <= i < j < |s| :: s[i].start <= s[j].start
  }

  /** The entries of `s` that start at `k`, in their order in `s`. */
  function OfStart(s: seq<Entry>, k: int): seq<Entry>
  {
    if s == [] then [] else (if s[0].start == k then [s[0]] else []) + OfStart(s[1..], k)
  }

  lemma {:induction false} OfStartMembers(s: seq<Entry>, k: int)
    ensures forall x :: x in OfStart(s, k) <==> x in s && x.start == k
  {
    if s != [] {
      OfStartMembers(s[1..], k);
      assert s == [s[0]] + s[1..];
    }
  }

  lemma OfStartCons(x: Entry, s: seq<Entry>, k: int)
    ensures OfStart([x] + s, k) == (if x.start == k then [x] else []) + OfStart(s, k)
  {
    assert ([x] + s)[1..] == s;
  }

  /** Puts `e` in front of the first entry of `s` that does not start before it. */
  function Insert(e: Entry, s: seq<Entry>): (r: seq<Entry>)
    ensures multiset(r) == multiset(s) + multiset{e}
    ensures SortedByStart(s) ==> SortedByStart(r)
  {
    if s == [] || e.start <= s[0].start then
      [e] + s
    else
      var rest := Insert(e, s[1..]);
      assert s == [s[0]] + s[1..];
      InsertSortedStep(e, s, rest);
      [s[0]] + rest
  }

  /** Inserting `e` puts it first among the entries with its start and moves no other entry past an equal one. */
  lemma {:induction false} InsertOfStart(e: Entry, s: seq<Entry>, k: int)
    ensures OfStart(Insert(e, s), k) == if k == e.start then [e] + OfStart(s, k) else OfStart(s, k)
  {
    if s == [] || e.start <= s[0].start {
      OfStartCons(e, s, k);
    } else {
      InsertOfStart(e, s[1..], k);
      OfStartCons(s[0], Insert(e, s[1..]), k);
      OfStartCons(s[0], s[1..], k);
      assert s == [s[0]] + s[1..];
    }
  }

  lemma OfStartConsAll(x: Entry, s: seq<Entry>)
    ensures forall k :: OfStart([x] + s, k) == (if x.start == k then [x] else []) + OfStart(s, k)
  {
    forall k ensures OfStart([x] + s, k) == (if x.start == k then [x] else []) + OfStart(s, k) {
      OfStartCons(x, s, k);
    }
  }

  lemma InsertSortedStep(e: Entry, s: seq<Entry>, rest: seq<Entry>)
    requires s != [] && s[0].start < e.start
    requires multiset(rest) == multiset(s[1..]) + multiset{e}
    requires SortedByStart(s) ==> SortedByStart(rest)
    ensures SortedByStart(s) ==> SortedByStart([s[0]] + rest)
  {
    if SortedByStart(s) {
      forall x | x in rest ensures s[0].start <= x.start {
        assert x in multiset(rest);
        if x == e {
        } else {
          assert x in multiset(s[1..]);
          var j :| 0 <= j < |s[1..]| && s[1..][j] == x;
          assert s[j + 1] == x;
        }
      }
      var r := [s[0]] + rest;
      forall i, j | 0 <= i < j < |r| ensures r[i].start <= r[j].start {
        if i == 0 {
          assert r[j] in rest;
        } else {
          assert r[i] == rest[i - 1] && r[j] == rest[j - 1];
        }
      }
    }
  }

  /** The list sorted by start, equal starts in their original order. */
  function SortByStart(s: seq<Entry>): (r: seq<Entry>)
    ensures SortedByStart(r)
    ensures multiset(r) == multiset(s)
    ensures forall k :: OfStart(r, k) == OfStart(s, k)
  {
    if s == [] then []
    else
      var rest := SortByStart(s[1..]);
      OfStartConsAll(s[0], s[1..]);
      assert s == [s[0]] + s[1..];
      assert forall k :: OfStart(Insert(s[0], rest), k) == OfStart(s, k) by {
        forall k ensures OfStart(Insert(s[0], rest), k) == OfStart(s, k) {
          InsertOfStart(s[0], rest, k);
        }
      }
      Insert(s[0], rest)
  }

  lemma SameMembers(s: seq<Entry>)
    ensures forall x :: x in SortByStart(s) <==> x in s
  {
    var r := SortByStart(s);
    forall x ensures x in r <==> x in s {
      assert x in r <==> x in multiset(r);
      assert x in s <==> x in multiset(s);
    }
  }

  lemma NonEmptyHasKey(s: seq<Entry>)
    requires s != []
    ensures OfStart(s, s[0].start) != []
  {
  }

  lemma EmptyWhenNoKey(s: seq<Entry>)
    requires forall k :: OfStart(s, k) == []
    ensures s == []
  {
    if s != [] {
      NonEmptyHasKey(s);
    }
  }

  /** A sorted list starts with its least start time. */
  lemma SortedHeadIsLeast(s: seq<Entry>, x: Entry)
    requires SortedByStart(s) && x in s
    ensures s[0].start <= x.start
  {
    var j :| 0 <= j < |s| && s[j] == x;
  }

  /**
   * Two lists sorted by start that agree, for every start time, on the entries
   * with that start and their order are the same list.
   */
  lemma {:induction false} StableSortUnique(r1: seq<Entry>, r2: seq<Entry>)
    requires SortedByStart(r1) && SortedByStart(r2)
    requires forall k :: OfStart(r1, k) == OfStart(r2, k)
    ensures r1 == r2
    decreases |r1|
  {
    if r1 == [] {
      EmptyWhenNoKey(r2);
    } else if r2 == [] {
      EmptyWhenNoKey(r1);
    } else {
      var k1, k2 := r1[0].start, r2[0].start;
      OfStartMembers(r1, k1);
      OfStartMembers(r2, k1);
      OfStartMembers(r1, k2);
      OfStartMembers(r2, k2);
      assert r1[0] in OfStart(r1, k1);
      assert r2[0] in OfStart(r2, k2);
      SortedHeadIsLeast(r2, r1[0]);
      SortedHeadIsLeast(r1, r2[0]);
      assert k1 == k2;
      assert r1 == [r1[0]] + r1[1..] && r2 == [r2[0]] + r2[1..];
      OfStartConsAll(r1[0], r1[1..]);
      OfStartConsAll(r2[0], r2[1..]);
      assert OfStart(r1, k1) == [r1[0]] + OfStart(r1[1..], k1);
      assert OfStart(r2, k1) == [r2[0]] + OfStart(r2[1..], k1);
      assert OfStart(r1, k1) == OfStart(r2, k1);
      assert OfStart(r1, k1)[0] == r1[0] && OfStart(r2, k1)[0] == r2[0];
      forall k ensures OfStart(r1[1..], k) == OfStart(r2[1..], k) {
        if k == k1 {
          assert OfStart(r1[1..], k) == OfStart(r1, k)[1..];
        } else {
          assert OfStart(r1[1..], k) == OfStart(r1, k);
        }
      }
      StableSortUnique(r1[1..], r2[1..]);
    }
  }

  /**
   * Any stable sort keyed on start (Python's Timsort in particular) returns
   * exactly SortByStart(s).
   */
  lemma AnyStableSortAgrees(s: seq<Entry>, r: seq<Entry>)
    requires SortedByStart(r)
    requires forall k :: OfStart(r, k) == OfStart(s, k)
    ensures r == SortByStart(s)
  {
    StableSortUnique(r, SortByStart(s));
  }
}
