/** First occurrences in a sequence, and lists of lists. */
module Sequences {

  /** The elements in the order of their first occurrence, each once. */
  function Distinct<T(==)>(s: seq<T>): seq<T> {
    if s == [] then []
    else
      var earlier, last := Distinct(s[..|s| - 1]), s[|s| - 1];
      if last in earlier then earlier else earlier + [last]
  }

  function Flatten<T>(lists: seq<seq<T>>): seq<T> {
    if lists == [] then [] else lists[0] + Flatten(lists[1..])
  }

  function Filter<T>(s: seq<T>, keep: T -> bool): seq<T> {
    if s == [] then [] else (if keep(s[0]) then [s[0]] else []) + Filter(s[1..], keep)
  }

  lemma MemberOfCons<T>(items: seq<T>)
    requires items != []
    ensures items[0] in items
    ensures forall x :: x in items <==> x == items[0] || x in items[1..]
  {
  }

  lemma FilterCons<T>(x: T, s: seq<T>, keep: T -> bool)
    ensures Filter([x] + s, keep) == (if keep(x) then [x] else []) + Filter(s, keep)
  {
    assert ([x] + s)[1..] == s;
  }

  lemma {:induction false} FilterMembers<T>(s: seq<T>, keep: T -> bool)
    ensures forall x :: x in Filter(s, keep) <==> x in s && keep(x)
  {
    if s != [] {
      FilterMembers(s[1..], keep);
      assert s == [s[0]] + s[1..];
    }
  }

  lemma {:induction false} FilterTwice<T>(s: seq<T>, first: T -> bool, second: T -> bool, both: T -> bool)
    requires forall x | x in s :: both(x) <==> first(x) && second(x)
    ensures Filter(Filter(s, first), second) == Filter(s, both)
  {
    if s != [] {
      FilterTwice(s[1..], first, second, both);
      var rest := Filter(s[1..], first);
      assert [] + rest == rest && ([s[0]] + rest)[1..] == rest;
    }
  }

  lemma {:induction false} FilterSplits<T>(s: seq<T>, keep: T -> bool, drop: T -> bool)
    requires forall x | x in s :: keep(x) <==> !drop(x)
    ensures |Filter(s, keep)| + |Filter(s, drop)| == |s|
  {
    if s != [] {
      assert s[0] in s;
      FilterSplits(s[1..], keep, drop);
    }
  }

  lemma {:induction false} FilterAll<T>(s: seq<T>, keep: T -> bool)
    requires forall x | x in s :: keep(x)
    ensures Filter(s, keep) == s
  {
    if s != [] {
      FilterAll(s[1..], keep);
    }
  }

  lemma DistinctMore<T>(s: seq<T>, x: T)
    ensures Distinct(s + [x]) == if x in Distinct(s) then Distinct(s) else Distinct(s) + [x]
  {
  }

  lemma {:induction false} DistinctMembers<T>(s: seq<T>)
    ensures forall x :: x in Distinct(s) <==> x in s
  {
    if s != [] {
      DistinctMembers(s[..|s| - 1]);
      assert s == s[..|s| - 1] + [s[|s| - 1]];
    }
  }

  lemma DistinctMember<T>(s: seq<T>, x: T)
    ensures x in Distinct(s) <==> x in s
  {
  }

  lemma {:induction false} DistinctSize<T>(s: seq<T>, bound: set<T>)
    requires forall x | x in s :: x in bound
    ensures |Distinct(s)| <= |bound|
  {
    if s != [] {
      var earlier, last := s[..|s| - 1], s[|s| - 1];
      DistinctMembers(earlier);
      if last in Distinct(earlier) {
        DistinctSize(earlier, bound);
      } else {
        DistinctSize(earlier, bound - {last});
      }
    }
  }

  lemma {:induction false} SetOfSeq<T>(s: seq<T>, elements: set<T>)
    requires forall x | x in elements :: x in s
    ensures |elements| <= |s|
  {
    if s != [] {
      assert forall x | x in elements - {s[0]} :: x in s[1..];
      SetOfSeq(s[1..], elements - {s[0]});
    }
  }

  ghost predicate NoDuplicates<T>(s: seq<T>) {
    forall i, j | 0 <= i < j < |s| :: s[i] != s[j]
  }

  lemma {:induction false} NoDuplicatesSize<T>(s: seq<T>, bound: set<T>)
    requires NoDuplicates(s) && forall x | x in s :: x in bound
    ensures |s| <= |bound|
  {
    if s != [] {
      var earlier, last := s[..|s| - 1], s[|s| - 1];
      assert last !in earlier && last in s;
      forall x | x in earlier
        ensures x in bound - {last}
      {
        assert x in s;
      }
      NoDuplicatesSize(earlier, bound - {last});
    }
  }

  /** x occurs in s before y does. */
  ghost predicate FirstBefore<T>(s: seq<T>, x: T, y: T) {
    exists k | 0 <= k < |s| :: s[k] == x && y !in s[..k + 1]
  }

  ghost predicate InFirstOrder<T>(s: seq<T>, d: seq<T>) {
    forall i, j | 0 <= i < j < |d| :: FirstBefore(s, d[i], d[j])
  }

  lemma FirstBeforeMore<T>(s: seq<T>, last: T, x: T, y: T)
    requires FirstBefore(s, x, y)
    ensures FirstBefore(s + [last], x, y)
  {
    var k :| 0 <= k < |s| && s[k] == x && y !in s[..k + 1];
    assert (s + [last])[k] == x && (s + [last])[..k + 1] == s[..k + 1];
  }

  lemma NewIsAfter<T>(s: seq<T>, x: T, y: T)
    requires x in s && y !in s
    ensures FirstBefore(s + [y], x, y)
  {
    var k :| 0 <= k < |s| && s[k] == x;
    assert (s + [y])[k] == x && (s + [y])[..k + 1] == s[..k + 1];
  }

  /** Every element once, in the order in which they first occur. */
  lemma {:induction false} DistinctKeepsFirstOrder<T>(s: seq<T>)
    ensures NoDuplicates(Distinct(s)) && InFirstOrder(s, Distinct(s))
    ensures forall x :: x in Distinct(s) <==> x in s
  {
    if s != [] {
      var earlier, last := s[..|s| - 1], s[|s| - 1];
      assert s == earlier + [last];
      DistinctKeepsFirstOrder(earlier);
      var d := Distinct(s);
      forall i, j | 0 <= i < j < |d|
        ensures FirstBefore(s, d[i], d[j])
      {
        if j < |Distinct(earlier)| {
          FirstBeforeMore(earlier, last, d[i], d[j]);
        } else {
          assert d == Distinct(earlier) + [last] && d[j] == last && last !in Distinct(earlier);
          assert d[i] == Distinct(earlier)[i] && d[i] in Distinct(earlier);
          DistinctMember(earlier, d[i]);
          DistinctMember(earlier, last);
          NewIsAfter(earlier, d[i], last);
        }
      }
    }
  }

  lemma {:induction false} DistinctTwice<T>(s: seq<T>)
    ensures Distinct(Distinct(s)) == Distinct(s)
  {
    if s != [] {
      var earlier, last := s[..|s| - 1], s[|s| - 1];
      DistinctTwice(earlier);
      if last !in Distinct(earlier) {
        DistinctMore(Distinct(earlier), last);
      }
    }
  }

  lemma {:induction false} DistinctOfPrefix<T>(a: seq<T>, b: seq<T>)
    ensures Distinct(Distinct(a) + b) == Distinct(a + b)
  {
    if b == [] {
      assert a + b == a && Distinct(a) + b == Distinct(a);
      DistinctTwice(a);
    } else {
      var earlier, last := b[..|b| - 1], b[|b| - 1];
      DistinctOfPrefix(a, earlier);
      assert a + b == (a + earlier) + [last] && Distinct(a) + b == (Distinct(a) + earlier) + [last];
      DistinctMore(a + earlier, last);
      DistinctMore(Distinct(a) + earlier, last);
    }
  }

  lemma {:induction false} DistinctOfSuffix<T>(a: seq<T>, b: seq<T>)
    ensures Distinct(a + Distinct(b)) == Distinct(a + b)
  {
    if b == [] {
      assert Distinct(b) == b;
    } else {
      var earlier, last := b[..|b| - 1], b[|b| - 1];
      DistinctOfSuffix(a, earlier);
      assert a + b == (a + earlier) + [last];
      DistinctMore(a + earlier, last);
      DistinctMembers(earlier);
      DistinctMembers(a + earlier);
      if last !in Distinct(earlier) {
        assert a + Distinct(b) == (a + Distinct(earlier)) + [last];
        DistinctMore(a + Distinct(earlier), last);
      }
    }
  }

  lemma {:induction false} FlattenMore<T>(lists: seq<seq<T>>, more: seq<seq<T>>)
    ensures Flatten(lists + more) == Flatten(lists) + Flatten(more)
  {
    if lists == [] {
      assert lists + more == more;
    } else {
      assert (lists + more)[1..] == lists[1..] + more;
      FlattenMore(lists[1..], more);
    }
  }

  lemma FlattenOne<T>(list: seq<T>)
    ensures Flatten([list]) == list
  {
  }
}
