/** Filtering, de-duplication and stable sorting of sequences. */
module Seqs {

  // ------------------------------------------------------------------------
  // Filtering
  // ------------------------------------------------------------------------

  function Filter<T>(xs: seq<T>, p: T -> bool): seq<T> {
    if xs == [] then []
    else if p(xs[0]) then [xs[0]] + Filter(xs[1..], p) else Filter(xs[1..], p)
  }

  lemma {:induction false} FilterCount<T>(xs: seq<T>, p: T -> bool, x: T)
    ensures multiset(Filter(xs, p))[x] == if p(x) then multiset(xs)[x] else 0
  {
    if xs != [] {
      assert xs == [xs[0]] + xs[1..];
      FilterCount(xs[1..], p, x);
    }
  }

  lemma {:induction false} FilterConcat<T>(xs: seq<T>, ys: seq<T>, p: T -> bool)
    ensures Filter(xs + ys, p) == Filter(xs, p) + Filter(ys, p)
  {
    if xs == [] {
      assert xs + ys == ys;
    } else {
      assert (xs + ys)[1..] == xs[1..] + ys;
      FilterConcat(xs[1..], ys, p);
    }
  }

  lemma FilterMembers<T>(xs: seq<T>, p: T -> bool, x: T)
    ensures x in Filter(xs, p) <==> x in xs && p(x)
  {
    FilterCount(xs, p, x);
    assert x in Filter(xs, p) <==> multiset(Filter(xs, p))[x] > 0;
    assert x in xs <==> multiset(xs)[x] > 0;
  }

  // ------------------------------------------------------------------------
  // First occurrences, as `dict.fromkeys` keeps them
  // ------------------------------------------------------------------------

  predicate NoRepeats<T(==)>(xs: seq<T>) {
    forall i, j :: 0 <= i < j < |xs| ==> xs[i] != xs[j]
  }

  function FromKeys<T(==,!new)>(xs: seq<T>): (ys: seq<T>)
    ensures NoRepeats(ys)
    ensures forall x :: x in ys <==> x in xs
  {
    if xs == [] then [] else
      var before := FromKeys(xs[..|xs| - 1]);
      var last := xs[|xs| - 1];
      assert xs == xs[..|xs| - 1] + [last];
      if last in before then before else before + [last]
  }

  /** `i` is the first place of `x`. */
  ghost predicate FirstAt<T>(xs: seq<T>, x: T, i: nat) {
    i < |xs| && xs[i] == x && forall j :: 0 <= j < i ==> xs[j] != x
  }

  /** The members come in the order in which each first occurs. */
  lemma {:induction false} FromKeysInOrder<T(!new)>(xs: seq<T>, p: nat, q: nat, i: nat, j: nat)
    requires p < q < |FromKeys(xs)| && FirstAt(xs, FromKeys(xs)[p], i) && FirstAt(xs, FromKeys(xs)[q], j)
    ensures i < j
  {
    var front, last := xs[..|xs| - 1], xs[|xs| - 1];
    var before := FromKeys(front);
    assert xs == front + [last] && FromKeys(xs)[p] in before;
    var k :| 0 <= k < |front| && front[k] == FromKeys(xs)[p];
    assert xs[k] == front[k];
    if q < |before| {
      var l :| 0 <= l < |front| && front[l] == before[q];
      assert xs[l] == front[l];
      FromKeysInOrder(front, p, q, i, j);
    } else {
      assert last !in front;
      assert j == |xs| - 1;
    }
  }

  // ------------------------------------------------------------------------
  // Stable insertion sort
  // ------------------------------------------------------------------------

  ghost predicate TotalPreorder<T(!new)>(leq: (T, T) -> bool) {
    && (forall x, y :: leq(x, y) || leq(y, x))
    && (forall x, y, z :: leq(x, y) && leq(y, z) ==> leq(x, z))
  }

  ghost predicate SortedBy<T>(xs: seq<T>, leq: (T, T) -> bool) {
    forall i, j :: 0 <= i < j < |xs| ==> leq(xs[i], xs[j])
  }

  /** `x` goes after every element of `xs` that does not come strictly later. */
  function Insert<T>(xs: seq<T>, x: T, leq: (T, T) -> bool): seq<T> {
    if xs == [] then [x]
    else if leq(xs[|xs| - 1], x) then xs + [x]
    else Insert(xs[..|xs| - 1], x, leq) + [xs[|xs| - 1]]
  }

  function Sorted<T>(xs: seq<T>, leq: (T, T) -> bool): seq<T> {
    if xs == [] then [] else Insert(Sorted(xs[..|xs| - 1], leq), xs[|xs| - 1], leq)
  }

  lemma {:induction false} InsertAdds<T>(xs: seq<T>, x: T, leq: (T, T) -> bool)
    ensures multiset(Insert(xs, x, leq)) == multiset(xs) + multiset{x}
  {
    if xs != [] && !leq(xs[|xs| - 1], x) {
      assert xs == xs[..|xs| - 1] + [xs[|xs| - 1]];
      InsertAdds(xs[..|xs| - 1], x, leq);
    }
  }

  lemma {:induction false} InsertSorts<T(!new)>(xs: seq<T>, x: T, leq: (T, T) -> bool)
    requires TotalPreorder(leq) && SortedBy(xs, leq)
    ensures SortedBy(Insert(xs, x, leq), leq)
  {
    if xs != [] && !leq(xs[|xs| - 1], x) {
      var front, last := xs[..|xs| - 1], xs[|xs| - 1];
      InsertSorts(front, x, leq);
      InsertAdds(front, x, leq);
      var rest := Insert(front, x, leq);
      forall i | 0 <= i < |rest| ensures leq(rest[i], last) {
        assert rest[i] in multiset(rest);
        assert rest[i] in front || rest[i] == x;
      }
    }
  }

  lemma {:induction false} SortedSorts<T(!new)>(xs: seq<T>, leq: (T, T) -> bool)
    requires TotalPreorder(leq)
    ensures SortedBy(Sorted(xs, leq), leq)
    ensures multiset(Sorted(xs, leq)) == multiset(xs)
    ensures |Sorted(xs, leq)| == |xs|
  {
    if xs != [] {
      var front, last := xs[..|xs| - 1], xs[|xs| - 1];
      assert xs == front + [last];
      SortedSorts(front, leq);
      InsertAdds(Sorted(front, leq), last, leq);
      InsertSorts(Sorted(front, leq), last, leq);
      assert |multiset(Sorted(xs, leq))| == |multiset(xs)|;
    }
  }

  lemma MultisetMember<T>(xs: seq<T>, ys: seq<T>, x: T)
    requires multiset(xs) == multiset(ys) && x in xs
    ensures x in ys
  {
    assert x in multiset(xs);
  }

  ghost predicate NeverTies<T>(xs: seq<T>, leq: (T, T) -> bool) {
    forall i, j :: 0 <= i < |xs| && 0 <= j < |xs| && leq(xs[i], xs[j]) && leq(xs[j], xs[i]) ==> xs[i] == xs[j]
  }

  lemma SortedHeads<T(!new)>(xs: seq<T>, ys: seq<T>, leq: (T, T) -> bool)
    requires SortedBy(xs, leq) && SortedBy(ys, leq) && NeverTies(xs, leq)
    requires multiset(xs) == multiset(ys) && xs != [] && ys != []
    ensures xs[0] == ys[0]
  {
    MultisetMember(xs, ys, xs[0]);
    MultisetMember(ys, xs, ys[0]);
    var i :| 0 <= i < |ys| && ys[i] == xs[0];
    var j :| 0 <= j < |xs| && xs[j] == ys[0];
    if i > 0 && j > 0 {
      assert leq(ys[0], ys[i]) && leq(xs[0], xs[j]);
    }
  }

  lemma DropHead<T>(xs: seq<T>)
    requires xs != []
    ensures multiset(xs[1..]) == multiset(xs) - multiset{xs[0]}
  {
    assert xs == [xs[0]] + xs[1..];
  }

  /** Sorting by keys that never tie has one answer, whatever the algorithm does. */
  lemma {:induction false} SortedIsUnique<T(!new)>(xs: seq<T>, ys: seq<T>, leq: (T, T) -> bool)
    requires SortedBy(xs, leq) && SortedBy(ys, leq) && NeverTies(xs, leq)
    requires multiset(xs) == multiset(ys)
    ensures xs == ys
  {
    if xs == [] || ys == [] {
      assert |xs| == |multiset(xs)| == |multiset(ys)| == |ys|;
    } else {
      SortedHeads(xs, ys, leq);
      DropHead(xs);
      DropHead(ys);
      TailIsSorted(xs, leq);
      TailIsSorted(ys, leq);
      TailNeverTies(xs, leq);
      SortedIsUnique(xs[1..], ys[1..], leq);
      HeadAndTail(xs);
      HeadAndTail(ys);
    }
  }

  lemma HeadAndTail<T>(xs: seq<T>)
    requires xs != []
    ensures xs == [xs[0]] + xs[1..]
  {
  }

  lemma TailIsSorted<T>(xs: seq<T>, leq: (T, T) -> bool)
    requires SortedBy(xs, leq) && xs != []
    ensures SortedBy(xs[1..], leq)
  {
  }

  lemma TailNeverTies<T>(xs: seq<T>, leq: (T, T) -> bool)
    requires NeverTies(xs, leq) && xs != []
    ensures NeverTies(xs[1..], leq)
  {
  }

  // ------------------------------------------------------------------------
  // Stability
  // ------------------------------------------------------------------------

  /** First by `leq`, and where that ties, by `tie`. */
  ghost predicate Lexicographic<T>(xs: seq<T>, leq: (T, T) -> bool, tie: (T, T) -> bool) {
    forall i, j :: 0 <= i < j < |xs| ==> leq(xs[i], xs[j]) && (leq(xs[j], xs[i]) ==> tie(xs[i], xs[j]))
  }

  lemma {:induction false} InsertIsStable<T(!new)>(xs: seq<T>, x: T, leq: (T, T) -> bool, tie: (T, T) -> bool)
    requires TotalPreorder(leq) && Lexicographic(xs, leq, tie)
    requires forall i :: 0 <= i < |xs| ==> tie(xs[i], x)
    ensures Lexicographic(Insert(xs, x, leq), leq, tie)
    ensures forall y :: y in Insert(xs, x, leq) ==> y == x || y in xs
  {
    if xs == [] {
    } else if leq(xs[|xs| - 1], x) {
      forall i | 0 <= i < |xs| ensures leq(xs[i], x) { assert i == |xs| - 1 || leq(xs[i], xs[|xs| - 1]); }
    } else {
      var front, last := xs[..|xs| - 1], xs[|xs| - 1];
      InsertIsStable(front, x, leq, tie);
      var rest := Insert(front, x, leq);
      forall i | 0 <= i < |rest| ensures leq(rest[i], last) && (leq(last, rest[i]) ==> tie(rest[i], last)) {
        assert rest[i] == x || rest[i] in front;
      }
    }
  }

  lemma {:induction false} SortedMembers<T>(xs: seq<T>, leq: (T, T) -> bool)
    ensures forall y :: y in Sorted(xs, leq) <==> y in xs
  {
    if xs != [] {
      var front, last := xs[..|xs| - 1], xs[|xs| - 1];
      assert xs == front + [last];
      SortedMembers(front, leq);
      InsertMembers(Sorted(front, leq), last, leq);
    }
  }

  lemma {:induction false} InsertMembers<T>(xs: seq<T>, x: T, leq: (T, T) -> bool)
    ensures forall y :: y in Insert(xs, x, leq) <==> y == x || y in xs
  {
    if xs != [] && !leq(xs[|xs| - 1], x) {
      var front, last := xs[..|xs| - 1], xs[|xs| - 1];
      assert xs == front + [last];
      InsertMembers(front, x, leq);
    }
  }

  /** Sorting what is already in `tie` order leaves ties in that order. */
  lemma {:induction false} SortedIsStable<T(!new)>(xs: seq<T>, leq: (T, T) -> bool, tie: (T, T) -> bool)
    requires TotalPreorder(leq) && SortedBy(xs, tie)
    ensures Lexicographic(Sorted(xs, leq), leq, tie)
  {
    if xs != [] {
      var front, last := xs[..|xs| - 1], xs[|xs| - 1];
      SortedIsStable(front, leq, tie);
      SortedMembers(front, leq);
      var s := Sorted(front, leq);
      forall i | 0 <= i < |s| ensures tie(s[i], last) {
        assert s[i] in front;
      }
      InsertIsStable(s, last, leq, tie);
    }
  }

  // ------------------------------------------------------------------------
  // Distinct members
  // ------------------------------------------------------------------------

  /** Distinctness survives reordering. */
  lemma NoRepeatsAnyOrder<T>(xs: seq<T>, ys: seq<T>)
    requires NoRepeats(xs) && multiset(xs) == multiset(ys)
    ensures NoRepeats(ys)
  {
    forall i, j | 0 <= i < j < |ys| ensures ys[i] != ys[j] {
      if ys[i] == ys[j] {
        TwiceIn(ys, i, j);
        OnceIn(xs, ys[i]);
        assert false;
      }
    }
  }

  lemma TwiceIn<T>(ys: seq<T>, i: nat, j: nat)
    requires i < j < |ys| && ys[i] == ys[j]
    ensures multiset(ys)[ys[i]] >= 2
  {
    assert ys == ys[..j] + [ys[j]] + ys[j + 1..];
    assert ys[i] in ys[..j] by { assert ys[..j][i] == ys[i]; }
    assert multiset(ys) == multiset(ys[..j]) + multiset{ys[j]} + multiset(ys[j + 1..]);
    assert ys[i] in multiset(ys[..j]);
  }

  lemma {:induction false} OnceIn<T>(xs: seq<T>, x: T)
    requires NoRepeats(xs)
    ensures multiset(xs)[x] <= 1
  {
    if xs != [] {
      var front, last := xs[..|xs| - 1], xs[|xs| - 1];
      assert xs == front + [last];
      OnceIn(front, x);
      if x == last {
        assert last !in front;
        assert last !in multiset(front);
      }
    }
  }

  /** Without repeats, having the same members is being a reordering. */
  lemma SameMembers<T(!new)>(xs: seq<T>, ys: seq<T>)
    requires NoRepeats(xs) && NoRepeats(ys)
    requires forall x :: x in xs <==> x in ys
    ensures multiset(xs) == multiset(ys)
  {
    forall x ensures multiset(xs)[x] == multiset(ys)[x] {
      OnceIn(xs, x);
      OnceIn(ys, x);
      assert x in multiset(xs) <==> x in xs;
      assert x in multiset(ys) <==> x in ys;
    }
  }

  lemma {:induction false} FilterKeepsOrder<T(!new)>(xs: seq<T>, p: T -> bool, leq: (T, T) -> bool)
    requires SortedBy(xs, leq) && NoRepeats(xs)
    ensures SortedBy(Filter(xs, p), leq) && NoRepeats(Filter(xs, p))
  {
    if xs != [] {
      FilterKeepsOrder(xs[1..], p, leq);
      var rest := Filter(xs[1..], p);
      forall i | 0 <= i < |rest| ensures leq(xs[0], rest[i]) && xs[0] != rest[i] {
        FilterMembers(xs[1..], p, rest[i]);
        var k :| 0 <= k < |xs[1..]| && xs[1..][k] == rest[i];
        assert xs[k + 1] == rest[i];
      }
    }
  }

  // ------------------------------------------------------------------------
  // The order of strings
  // ------------------------------------------------------------------------

  /** Dictionary order, as strings compare. */
  predicate StringLeq(a: string, b: string) {
    a == [] || (b != [] && (a[0] < b[0] || (a[0] == b[0] && StringLeq(a[1..], b[1..]))))
  }

  lemma {:induction false} StringLeqTotal(a: string, b: string)
    ensures StringLeq(a, b) || StringLeq(b, a)
    ensures StringLeq(a, b) && StringLeq(b, a) ==> a == b
  {
    if a != [] && b != [] && a[0] == b[0] {
      StringLeqTotal(a[1..], b[1..]);
      assert a == [a[0]] + a[1..] && b == [b[0]] + b[1..];
    }
  }

  lemma {:induction false} StringLeqTransitive(a: string, b: string, c: string)
    requires StringLeq(a, b) && StringLeq(b, c)
    ensures StringLeq(a, c)
  {
    if a != [] && a[0] == b[0] && b[0] == c[0] { StringLeqTransitive(a[1..], b[1..], c[1..]); }
  }

  function Alphabetical(): (string, string) -> bool {
    (a: string, b: string) => StringLeq(a, b)
  }

  lemma AlphabeticalIsPreorder()
    ensures TotalPreorder(Alphabetical())
  {
    forall x, y ensures Alphabetical()(x, y) || Alphabetical()(y, x) { StringLeqTotal(x, y); }
    forall x, y, z | Alphabetical()(x, y) && Alphabetical()(y, z) ensures Alphabetical()(x, z) { StringLeqTransitive(x, y, z); }
  }

  /** Either runs out first, or is lower at the first place where they differ. */
  lemma {:induction false} StringLeqMeans(a: string, b: string)
    ensures StringLeq(a, b) <==> a <= b || exists k :: 0 <= k < |a| && k < |b| && a[..k] == b[..k] && a[k] < b[k]
  {
    if a != [] && b != [] && a[0] == b[0] {
      StringLeqMeans(a[1..], b[1..]);
      if k :| 0 <= k < |a[1..]| && k < |b[1..]| && a[1..][..k] == b[1..][..k] && a[1..][k] < b[1..][k] {
        assert a[..k + 1] == [a[0]] + a[1..][..k] && b[..k + 1] == [b[0]] + b[1..][..k];
        assert a[k + 1] < b[k + 1];
      }
      if k :| 0 <= k < |a| && k < |b| && a[..k] == b[..k] && a[k] < b[k] {
        assert k > 0;
        assert a[1..][..k - 1] == a[..k][1..] && b[1..][..k - 1] == b[..k][1..];
        assert a[1..][k - 1] < b[1..][k - 1];
      }
    } else if a != [] && b != [] {
      assert a[..0] == b[..0];
      if k :| 0 <= k < |a| && k < |b| && a[..k] == b[..k] && a[k] < b[k] { assert k > 0 ==> a[..k][0] == b[..k][0]; }
    }
  }
}
