/** JavaScript's `Array.prototype.sort` with a consistent comparator, as a function: the result is a
permutation, in order, and elements that compare equal keep their places relative to each other. */
module StableSort {

  ghost predicate TotalPreorder<T(!new)>(leq: (T, T) -> bool) {
    && (forall x, y :: leq(x, y) || leq(y, x))
    && (forall x, y, z :: leq(x, y) && leq(y, z) ==> leq(x, z))
  }

  ghost predicate Ordered<T>(s: seq<T>, leq: (T, T) -> bool) {
    forall i, j :: 0 <= i < j < |s| ==> leq(s[i], s[j])
  }

  function Insert<T>(x: T, s: seq<T>, leq: (T, T) -> bool): seq<T> {
    if s == [] || leq(x, s[0]) then [x] + s else [s[0]] + Insert(x, s[1..], leq)
  }

  function Sort<T>(s: seq<T>, leq: (T, T) -> bool): seq<T> {
    if s == [] then [] else Insert(s[0], Sort(s[1..], leq), leq)
  }

  function Filter<T>(s: seq<T>, p: T -> bool): seq<T> {
    if s == [] then []
    else if p(s[0]) then [s[0]] + Filter(s[1..], p)
    else Filter(s[1..], p)
  }

  lemma {:induction false} InsertPermutes<T>(x: T, s: seq<T>, leq: (T, T) -> bool)
    ensures multiset(Insert(x, s, leq)) == multiset([x] + s)
    ensures |Insert(x, s, leq)| == |s| + 1
  {
    if s != [] && !leq(x, s[0]) {
      InsertPermutes(x, s[1..], leq);
      assert s == [s[0]] + s[1..];
    }
  }

  lemma {:induction false} SortPermutes<T>(s: seq<T>, leq: (T, T) -> bool)
    ensures multiset(Sort(s, leq)) == multiset(s) && |Sort(s, leq)| == |s|
  {
    if s != [] {
      SortPermutes(s[1..], leq);
      InsertPermutes(s[0], Sort(s[1..], leq), leq);
      assert s == [s[0]] + s[1..];
    }
  }

  lemma SameElements<T>(s: seq<T>, t: seq<T>)
    requires multiset(s) == multiset(t)
    ensures forall x :: x in s <==> x in t
  {
    forall x ensures x in s <==> x in t {
      assert x in s <==> x in multiset(s);
      assert x in t <==> x in multiset(t);
    }
  }

  lemma {:induction false} InsertOrdered<T(!new)>(x: T, s: seq<T>, leq: (T, T) -> bool)
    requires TotalPreorder(leq) && Ordered(s, leq)
    ensures Ordered(Insert(x, s, leq), leq)
  {
    if s != [] && !leq(x, s[0]) {
      var rest := Insert(x, s[1..], leq);
      InsertOrdered(x, s[1..], leq);
      InsertPermutes(x, s[1..], leq);
      SameElements(rest, [x] + s[1..]);
      forall j | 0 <= j < |rest| ensures leq(s[0], rest[j]) {
        assert rest[j] in [x] + s[1..];
      }
    }
  }

  lemma {:induction false} SortOrdered<T(!new)>(s: seq<T>, leq: (T, T) -> bool)
    requires TotalPreorder(leq)
    ensures Ordered(Sort(s, leq), leq)
  {
    if s != [] {
      SortOrdered(s[1..], leq);
      InsertOrdered(s[0], Sort(s[1..], leq), leq);
    }
  }

  /** The head of a sorted sequence is a least element of the original. */
  lemma SortHead<T(!new)>(s: seq<T>, leq: (T, T) -> bool)
    requires TotalPreorder(leq) && s != []
    ensures Sort(s, leq) != []
    ensures Sort(s, leq)[0] in s && forall x :: x in s ==> leq(Sort(s, leq)[0], x)
  {
    var r := Sort(s, leq);
    SortPermutes(s, leq);
    SortOrdered(s, leq);
    SameElements(r, s);
    assert r[0] in r;
    forall x | x in s ensures leq(r[0], x) {
      var j :| 0 <= j < |r| && r[j] == x;
      if j == 0 { assert leq(x, x); }
    }
  }

  lemma {:induction false} FilterConcat<T>(s: seq<T>, t: seq<T>, p: T -> bool)
    ensures Filter(s + t, p) == Filter(s, p) + Filter(t, p)
  {
    if s == [] {
      assert s + t == t;
    } else {
      FilterConcat(s[1..], t, p);
      assert (s + t)[0] == s[0] && (s + t)[1..] == s[1..] + t;
    }
  }

  lemma {:induction false} FilterMembers<T>(s: seq<T>, p: T -> bool)
    ensures forall x :: x in Filter(s, p) <==> x in s && p(x)
    ensures |Filter(s, p)| <= |s|
  {
    if s != [] {
      FilterMembers(s[1..], p);
      assert s == [s[0]] + s[1..];
    }
  }

  /** Whenever two elements compare equal (or the later one first), the earlier place holds the smaller position. */
  ghost predicate TiesInOrder<T>(s: seq<T>, leq: (T, T) -> bool, position: T -> int) {
    forall i, j :: 0 <= i < j < |s| && leq(s[j], s[i]) ==> position(s[i]) < position(s[j])
  }

  ghost predicate Increasing<T>(s: seq<T>, position: T -> int) {
    forall i, j :: 0 <= i < j < |s| ==> position(s[i]) < position(s[j])
  }

  ghost predicate AllAfter<T>(s: seq<T>, position: T -> int, x: T) {
    forall i :: 0 <= i < |s| ==> position(x) < position(s[i])
  }

  /** A quality every element has, every element of a rearrangement has. */
  lemma SameQuality<T>(s: seq<T>, t: seq<T>, q: T -> bool)
    requires multiset(s) == multiset(t) && forall i :: 0 <= i < |s| ==> q(s[i])
    ensures forall i :: 0 <= i < |t| ==> q(t[i])
  {
    forall i | 0 <= i < |t| ensures q(t[i]) {
      assert t[i] in multiset(t);
      assert t[i] in s;
    }
  }

  lemma {:induction false} InsertTies<T>(x: T, s: seq<T>, leq: (T, T) -> bool, position: T -> int)
    requires TiesInOrder(s, leq, position) && AllAfter(s, position, x)
    ensures TiesInOrder(Insert(x, s, leq), leq, position)
  {
    if s != [] && !leq(x, s[0]) {
      var rest := Insert(x, s[1..], leq);
      InsertTies(x, s[1..], leq, position);
      InsertPermutes(x, s[1..], leq);
      SameQuality([x] + s[1..], rest, y => leq(y, s[0]) ==> position(s[0]) < position(y));
    }
  }

  /** Sorting a sequence listed by position keeps ties by position. */
  lemma {:induction false} SortTies<T>(s: seq<T>, leq: (T, T) -> bool, position: T -> int)
    requires Increasing(s, position)
    ensures TiesInOrder(Sort(s, leq), leq, position)
  {
    if s != [] {
      SortTies(s[1..], leq, position);
      SortPermutes(s[1..], leq);
      SameQuality(s[1..], Sort(s[1..], leq), y => position(s[0]) < position(y));
      InsertTies(s[0], Sort(s[1..], leq), leq, position);
    }
  }

  lemma {:induction false} FilterAfter<T>(s: seq<T>, p: T -> bool, position: T -> int, x: T)
    requires AllAfter(s, position, x)
    ensures AllAfter(Filter(s, p), position, x)
  {
    if s != [] { FilterAfter(s[1..], p, position, x); }
  }

  lemma {:induction false} FilterKeepsOrder<T>(s: seq<T>, p: T -> bool, position: T -> int)
    requires Increasing(s, position)
    ensures Increasing(Filter(s, p), position)
  {
    if s != [] {
      FilterKeepsOrder(s[1..], p, position);
      FilterAfter(s[1..], p, position, s[0]);
    }
  }

  /** What a filter keeps and what it drops make up the whole. */
  lemma {:induction false} FilterSplits<T>(s: seq<T>, p: T -> bool, q: T -> bool)
    requires forall x :: x in s ==> (p(x) <==> !q(x))
    ensures multiset(Filter(s, p)) + multiset(Filter(s, q)) == multiset(s)
  {
    if s != [] {
      FilterSplits(s[1..], p, q);
      assert s == [s[0]] + s[1..];
    }
  }

  /** A filter keeps something exactly when some element passes. */
  lemma FilterKeepsSome<T>(s: seq<T>, p: T -> bool)
    ensures |Filter(s, p)| > 0 <==> exists i :: 0 <= i < |s| && p(s[i])
  {
    FilterMembers(s, p);
    if |Filter(s, p)| > 0 {
      assert Filter(s, p)[0] in Filter(s, p);
    }
    if i :| 0 <= i < |s| && p(s[i]) {
      assert s[i] in Filter(s, p);
    }
  }

  /** A narrower filter keeps fewer exactly when something passes only the wider one. */
  lemma {:induction false} FilterNarrows<T>(s: seq<T>, p: T -> bool, q: T -> bool)
    requires forall i :: 0 <= i < |s| && p(s[i]) ==> q(s[i])
    ensures |Filter(s, p)| <= |Filter(s, q)|
    ensures |Filter(s, p)| < |Filter(s, q)| <==> exists i :: 0 <= i < |s| && q(s[i]) && !p(s[i])
  {
    if s != [] {
      FilterNarrows(s[1..], p, q);
      if i :| 0 <= i < |s| && q(s[i]) && !p(s[i]) {
        assert i > 0 ==> s[1..][i - 1] == s[i];
      }
    }
  }

  lemma {:induction false} FilterAll<T>(s: seq<T>, p: T -> bool)
    requires forall i :: 0 <= i < |s| ==> p(s[i])
    ensures Filter(s, p) == s
  {
    if s != [] { FilterAll(s[1..], p); }
  }

  lemma {:induction false} FilterSame<T>(s: seq<T>, p: T -> bool, q: T -> bool)
    requires forall i :: 0 <= i < |s| ==> p(s[i]) == q(s[i])
    ensures Filter(s, p) == Filter(s, q)
  {
    if s != [] { FilterSame(s[1..], p, q); }
  }

  ghost predicate SameOn<T>(s: seq<T>, leq: (T, T) -> bool, leq': (T, T) -> bool) {
    forall i, j :: 0 <= i < |s| && 0 <= j < |s| ==> leq(s[i], s[j]) == leq'(s[i], s[j])
  }

  lemma {:induction false} InsertSame<T>(x: T, s: seq<T>, leq: (T, T) -> bool, leq': (T, T) -> bool)
    requires forall i :: 0 <= i < |s| ==> leq(x, s[i]) == leq'(x, s[i])
    ensures Insert(x, s, leq) == Insert(x, s, leq')
  {
    if s != [] { InsertSame(x, s[1..], leq, leq'); }
  }

  /** Comparators that agree on the elements sort alike. */
  lemma {:induction false} SortSame<T>(s: seq<T>, leq: (T, T) -> bool, leq': (T, T) -> bool)
    requires SameOn(s, leq, leq')
    ensures Sort(s, leq) == Sort(s, leq')
  {
    if s != [] {
      SortSame(s[1..], leq, leq');
      SortPermutes(s[1..], leq);
      SameQuality(s[1..], Sort(s[1..], leq), y => leq(s[0], y) == leq'(s[0], y));
      InsertSame(s[0], Sort(s[1..], leq), leq, leq');
    }
  }

  lemma {:induction false} FilterOfFilter<T>(s: seq<T>, p: T -> bool, q: T -> bool, r: T -> bool)
    requires forall i :: 0 <= i < |s| ==> r(s[i]) == (p(s[i]) && q(s[i]))
    ensures Filter(Filter(s, p), q) == Filter(s, r)
  {
    if s != [] {
      FilterOfFilter(s[1..], p, q, r);
      var rest := Filter(s[1..], p);
      assert ([s[0]] + rest)[1..] == rest;
    }
  }
}
