/** Rust's stable sort, by a total preorder. */
module Sorting {
  ghost predicate TotalPreorder<T(!new)>(leq: (T, T) -> bool) {
    && (forall a, b :: leq(a, b) || leq(b, a))
    && (forall a, b, c :: leq(a, b) && leq(b, c) ==> leq(a, c))
  }

  ghost predicate Sorted<T>(leq: (T, T) -> bool, s: seq<T>) {
    forall i, j :: 0 <= i < j < |s| ==> leq(s[i], s[j])
  }

  function Insert<T>(leq: (T, T) -> bool, x: T, s: seq<T>): seq<T>
    decreases |s|
  {
    if s == [] || leq(x, s[0]) then [x] + s else [s[0]] + Insert(leq, x, s[1..])
  }

  function Sort<T>(leq: (T, T) -> bool, s: seq<T>): seq<T>
    decreases |s|
  {
    if s == [] then [] else Insert(leq, s[0], Sort(leq, s[1..]))
  }

  /** The elements that are neither before nor after `x`, in their order. */
  function Ties<T>(leq: (T, T) -> bool, x: T, s: seq<T>): seq<T>
    decreases |s|
  {
    if s == [] then []
    else (if leq(s[0], x) && leq(x, s[0]) then [s[0]] else []) + Ties(leq, x, s[1..])
  }

  lemma {:induction false} InsertSorts<T(!new)>(leq: (T, T) -> bool, x: T, s: seq<T>)
    requires TotalPreorder(leq) && Sorted(leq, s)
    ensures Sorted(leq, Insert(leq, x, s)) && multiset(Insert(leq, x, s)) == multiset{x} + multiset(s)
    decreases |s|
  {
    if s == [] || leq(x, s[0]) {
      forall i, j | 0 <= i < j < |s| + 1 ensures leq(([x] + s)[i], ([x] + s)[j]) {
        if i == 0 && j > 1 { assert leq(s[0], s[j - 1]); }
      }
    } else {
      InsertSorts(leq, x, s[1..]);
      var r := Insert(leq, x, s[1..]);
      assert s == [s[0]] + s[1..];
      InsertedBelow(leq, x, s, r);
    }
  }

  lemma InsertedBelow<T(!new)>(leq: (T, T) -> bool, x: T, s: seq<T>, r: seq<T>)
    requires Sorted(leq, s) && s != [] && leq(s[0], x) && multiset(r) == multiset{x} + multiset(s[1..])
    ensures forall j :: 0 <= j < |r| ==> leq(s[0], r[j])
  {
    forall j | 0 <= j < |r| ensures leq(s[0], r[j]) {
      assert r[j] in multiset(r);
      if r[j] != x {
        assert r[j] in s[1..];
      }
    }
  }

  lemma {:induction false} SortSorts<T(!new)>(leq: (T, T) -> bool, s: seq<T>)
    requires TotalPreorder(leq)
    ensures Sorted(leq, Sort(leq, s)) && multiset(Sort(leq, s)) == multiset(s)
    decreases |s|
  {
    if s != [] {
      assert s == [s[0]] + s[1..];
      SortSorts(leq, s[1..]);
      InsertSorts(leq, s[0], Sort(leq, s[1..]));
    }
  }

  lemma {:induction false} InsertKeepsTies<T(!new)>(leq: (T, T) -> bool, x: T, y: T, s: seq<T>)
    requires TotalPreorder(leq)
    ensures Ties(leq, y, Insert(leq, x, s)) == Ties(leq, y, [x] + s)
    decreases |s|
  {
    assert ([x] + s)[1..] == s;
    if s != [] && !leq(x, s[0]) {
      InsertKeepsTies(leq, x, y, s[1..]);
      assert ([x] + s[1..])[1..] == s[1..];
      assert Insert(leq, x, s)[1..] == Insert(leq, x, s[1..]);
    }
  }

  /** The sort is stable: elements that tie stay in order. */
  lemma {:induction false} SortKeepsTies<T(!new)>(leq: (T, T) -> bool, y: T, s: seq<T>)
    requires TotalPreorder(leq)
    ensures Ties(leq, y, Sort(leq, s)) == Ties(leq, y, s)
    decreases |s|
  {
    if s != [] {
      SortKeepsTies(leq, y, s[1..]);
      InsertKeepsTies(leq, s[0], y, Sort(leq, s[1..]));
      assert ([s[0]] + Sort(leq, s[1..]))[1..] == Sort(leq, s[1..]);
    }
  }

  ghost predicate Distinct<T>(s: seq<T>) { forall j, k :: 0 <= j < k < |s| ==> s[j] != s[k] }

  lemma {:induction false} DistinctCounts<T>(s: seq<T>)
    requires Distinct(s)
    ensures forall x :: multiset(s)[x] <= 1
  {
    if s != [] {
      var front, last := s[..|s| - 1], s[|s| - 1];
      DistinctCounts(front);
      assert s == front + [last];
      assert last !in front;
    }
  }

  lemma TwiceInMultiset<T>(s: seq<T>, j: nat, k: nat)
    requires j < k < |s| && s[j] == s[k]
    ensures multiset(s)[s[j]] >= 2
  {
    assert s == s[..k] + s[k..];
    assert s[j] == s[..k][j] && s[k] == s[k..][0];
    assert s[j] in multiset(s[..k]) && s[j] in multiset(s[k..]);
  }

  /** Rearranging distinct elements leaves the same elements, and distinct. */
  lemma RearrangedIsDistinct<T>(s: seq<T>, r: seq<T>)
    requires Distinct(s) && multiset(r) == multiset(s)
    ensures Distinct(r)
    ensures forall x :: x in r <==> x in s
  {
    DistinctCounts(s);
    forall j, k | 0 <= j < k < |r| ensures r[j] != r[k] {
      if r[j] == r[k] { TwiceInMultiset(r, j, k); }
    }
    forall x ensures x in r <==> x in s {
      assert x in r <==> x in multiset(r);
      assert x in s <==> x in multiset(s);
    }
  }

  /** Some `x` is before some `y`. */
  ghost predicate Precedes<T>(s: seq<T>, x: T, y: T) {
    exists i, j :: 0 <= i < j < |s| && s[i] == x && s[j] == y
  }

  lemma {:induction false} TiesAreThere<T(!new)>(leq: (T, T) -> bool, z: T, s: seq<T>, x: T)
    ensures x in Ties(leq, z, s) <==> x in s && leq(x, z) && leq(z, x)
    decreases |s|
  {
    if s != [] {
      TiesAreThere(leq, z, s[1..], x);
      assert s == [s[0]] + s[1..];
    }
  }

  lemma PrecedesAfter<T>(first: T, rest: seq<T>, x: T, y: T)
    ensures Precedes([first] + rest, x, y) <==> (x == first && y in rest) || Precedes(rest, x, y)
  {
    var s := [first] + rest;
    if x == first && y in rest {
      var j :| 0 <= j < |rest| && rest[j] == y;
      assert s[0] == x && s[j + 1] == y;
    }
    if Precedes(rest, x, y) {
      var i, j :| 0 <= i < j < |rest| && rest[i] == x && rest[j] == y;
      assert s[i + 1] == x && s[j + 1] == y;
    }
    if Precedes(s, x, y) {
      var i, j :| 0 <= i < j < |s| && s[i] == x && s[j] == y;
      assert rest[j - 1] == y;
      if i > 0 { assert rest[i - 1] == x; }
    }
  }

  /** Elements that tie are in one order among all elements and among those that tie. */
  lemma {:induction false} TiesKeepOrder<T(!new)>(leq: (T, T) -> bool, z: T, s: seq<T>, x: T, y: T)
    requires leq(x, z) && leq(z, x) && leq(y, z) && leq(z, y)
    ensures Precedes(Ties(leq, z, s), x, y) <==> Precedes(s, x, y)
    decreases |s|
  {
    hide Precedes;
    if s == [] {
      NothingPrecedes(s, x, y);
    } else {
      var rest := s[1..];
      assert s == [s[0]] + rest;
      TiesKeepOrder(leq, z, rest, x, y);
      TiesAreThere(leq, z, rest, y);
      PrecedesAfter(s[0], rest, x, y);
      if leq(s[0], z) && leq(z, s[0]) {
        PrecedesAfter(s[0], Ties(leq, z, rest), x, y);
      } else {
        assert [] + Ties(leq, z, rest) == Ties(leq, z, rest);
      }
    }
  }

  lemma NothingPrecedes<T>(s: seq<T>, x: T, y: T)
    requires s == []
    ensures !Precedes(s, x, y)
  {
  }

  /** Of two elements that tie, the sort puts first the one that was first. */
  lemma StableOrder<T(!new)>(leq: (T, T) -> bool, s: seq<T>, i: nat, j: nat)
    requires TotalPreorder(leq) && Distinct(s) && i < |s| && j < |s|
    requires leq(s[i], s[j]) && leq(s[j], s[i]) && Precedes(Sort(leq, s), s[i], s[j])
    ensures i < j
  {
    hide Sort, TotalPreorder;
    Reflexive(leq, s[j]);
    SortKeepsTies(leq, s[j], s);
    TiesKeepOrder(leq, s[j], Sort(leq, s), s[i], s[j]);
    TiesKeepOrder(leq, s[j], s, s[i], s[j]);
  }

  lemma Reflexive<T(!new)>(leq: (T, T) -> bool, x: T)
    requires TotalPreorder(leq)
    ensures leq(x, x)
  {
  }

  /** The order of `str`: by the first characters that differ, and a prefix before what it starts. */
  predicate NotAfter(a: string, b: string) {
    a == [] || (b != [] && (a[0] < b[0] || (a[0] == b[0] && NotAfter(a[1..], b[1..]))))
  }

  lemma {:induction false} NotAfterTotal(a: string, b: string)
    ensures (NotAfter(a, b) || NotAfter(b, a)) && (NotAfter(a, b) && NotAfter(b, a) ==> a == b)
  {
    if a != [] && b != [] && a[0] == b[0] {
      NotAfterTotal(a[1..], b[1..]);
      assert a == [a[0]] + a[1..] && b == [b[0]] + b[1..];
    }
  }

  lemma {:induction false} NotAfterTransitive(a: string, b: string, c: string)
    requires NotAfter(a, b) && NotAfter(b, c)
    ensures NotAfter(a, c)
  {
    if a != [] && b != [] && c != [] && a[0] == b[0] == c[0] {
      NotAfterTransitive(a[1..], b[1..], c[1..]);
    }
  }
}
