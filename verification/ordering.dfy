/** Total orders, Python's `sorted`, and why its result is canonical. */
module Ordering {

  /** The order of a sort key: different elements may have equal keys. */
  ghost predicate KeyOrder<T(!new)>(leq: (T, T) -> bool) {
    && (forall x, y :: leq(x, y) || leq(y, x))
    && (forall x, y, z :: leq(x, y) && leq(y, z) ==> leq(x, z))
  }

  ghost predicate TotalOrder<T(!new)>(leq: (T, T) -> bool) {
    KeyOrder(leq) && forall x, y :: leq(x, y) && leq(y, x) ==> x == y
  }

  /** Elements of `s` with equal keys are equal. */
  ghost predicate KeysIdentify<T(!new)>(leq: (T, T) -> bool, s: seq<T>) {
    forall x, y :: x in s && y in s && leq(x, y) && leq(y, x) ==> x == y
  }

  predicate SortedBy<T>(leq: (T, T) -> bool, s: seq<T>) {
    forall i, j :: 0 <= i < j < |s| ==> leq(s[i], s[j])
  }

  function Insert<T(!new)>(leq: (T, T) -> bool, x: T, s: seq<T>): (r: seq<T>)
    requires KeyOrder(leq) && SortedBy(leq, s)
    ensures SortedBy(leq, r)
    ensures multiset(r) == multiset(s) + multiset{x}
  {
    if s == [] then [x]
    else if leq(x, s[0]) then
      SortedCons(leq, x, s);
      [x] + s
    else
      var rest := Insert(leq, x, s[1..]);
      assert s == [s[0]] + s[1..];
      assert leq(s[0], rest[0]) by {
        assert rest[0] in multiset(rest);
      }
      SortedCons(leq, s[0], rest);
      [s[0]] + rest
  }

  lemma SortedCons<T(!new)>(leq: (T, T) -> bool, x: T, s: seq<T>)
    requires KeyOrder(leq) && SortedBy(leq, s)
    requires s != [] ==> leq(x, s[0])
    ensures SortedBy(leq, [x] + s)
  {
    forall i, j | 0 <= i < j < |[x] + s|
      ensures leq(([x] + s)[i], ([x] + s)[j])
    {
      assert leq(s[0], s[j - 1]);
    }
  }

  /** Python's `sorted`: elements with equal keys keep their order. */
  function Sort<T(!new)>(leq: (T, T) -> bool, s: seq<T>): (r: seq<T>)
    requires KeyOrder(leq)
    ensures SortedBy(leq, r) && multiset(r) == multiset(s)
  {
    if s == [] then []
    else
      assert s == [s[0]] + s[1..];
      Insert(leq, s[0], Sort(leq, s[1..]))
  }

  lemma FirstIsLeast<T(!new)>(leq: (T, T) -> bool, a: seq<T>, x: T)
    requires KeyOrder(leq) && SortedBy(leq, a) && x in multiset(a)
    ensures a != [] && leq(a[0], x)
  {
    var i :| 0 <= i < |a| && a[i] == x;
  }

  /** A sorted arrangement of given elements is unique. */
  lemma {:induction false} SortedUnique<T(!new)>(leq: (T, T) -> bool, a: seq<T>, b: seq<T>)
    requires KeyOrder(leq) && KeysIdentify(leq, a) && SortedBy(leq, a) && SortedBy(leq, b)
    requires multiset(a) == multiset(b)
    ensures a == b
  {
    assert |a| == |multiset(a)| == |multiset(b)| == |b|;
    if a != [] {
      assert a == [a[0]] + a[1..] && b == [b[0]] + b[1..];
      FirstIsLeast(leq, a, b[0]);
      FirstIsLeast(leq, b, a[0]);
      assert b[0] in multiset(a);
      assert a[0] == b[0];
      assert multiset(a[1..]) == multiset(a) - multiset{a[0]};
      assert multiset(b[1..]) == multiset(b) - multiset{b[0]};
      SortedUnique(leq, a[1..], b[1..]);
    }
  }

  /** Sorting forgets the order its input came in. */
  lemma SortIgnoresInputOrder<T(!new)>(leq: (T, T) -> bool, a: seq<T>, b: seq<T>)
    requires KeyOrder(leq) && KeysIdentify(leq, a) && multiset(a) == multiset(b)
    ensures Sort(leq, a) == Sort(leq, b)
  {
    assert forall x :: x in Sort(leq, a) ==> x in multiset(a);
    SortedUnique(leq, Sort(leq, a), Sort(leq, b));
  }

  /** Code-point order on strings. */
  predicate StringLeq(a: string, b: string) {
    if a == "" then true
    else if b == "" then false
    else if a[0] != b[0] then a[0] < b[0]
    else StringLeq(a[1..], b[1..])
  }

  lemma {:induction false} StringLeqTotal(a: string, b: string)
    ensures StringLeq(a, b) || StringLeq(b, a)
    ensures StringLeq(a, b) && StringLeq(b, a) ==> a == b
  {
    if a != "" && b != "" && a[0] == b[0] {
      StringLeqTotal(a[1..], b[1..]);
      assert a == [a[0]] + a[1..] && b == [b[0]] + b[1..];
    }
  }

  lemma {:induction false} StringLeqTransitive(a: string, b: string, c: string)
    requires StringLeq(a, b) && StringLeq(b, c)
    ensures StringLeq(a, c)
  {
    if a != "" && a[0] == b[0] == c[0] {
      StringLeqTransitive(a[1..], b[1..], c[1..]);
    }
  }

  lemma StringOrder()
    ensures TotalOrder(StringLeq)
  {
    forall a: string, b: string
      ensures StringLeq(a, b) || StringLeq(b, a)
      ensures StringLeq(a, b) && StringLeq(b, a) ==> a == b
    {
      StringLeqTotal(a, b);
    }
    forall a: string, b: string, c: string | StringLeq(a, b) && StringLeq(b, c)
      ensures StringLeq(a, c)
    {
      StringLeqTransitive(a, b, c);
    }
  }

  function SortStrings(s: seq<string>): (r: seq<string>)
    ensures SortedBy(StringLeq, r) && multiset(r) == multiset(s)
    ensures |r| == |s| && forall x :: x in r <==> x in s
  {
    StringOrder();
    var r := Sort(StringLeq, s);
    assert |r| == |multiset(r)| && forall x :: x in r <==> x in multiset(r);
    assert forall x :: x in s <==> x in multiset(s);
    r
  }

  predicate Distinct<T(==, !new)>(s: seq<T>) {
    forall i, j :: 0 <= i < j < |s| ==> s[i] != s[j]
  }

  function Elements<T(==, !new)>(s: seq<T>): set<T> {
    set x | x in s
  }

  lemma {:induction false} DistinctCardinality<T(!new)>(s: seq<T>)
    requires Distinct(s)
    ensures |Elements(s)| == |s|
  {
    if s != [] {
      DistinctCardinality(s[1..]);
      assert s == [s[0]] + s[1..];
      assert Elements(s) == {s[0]} + Elements(s[1..]);
    }
  }

  lemma SubsetCardinality<T>(a: set<T>, b: set<T>)
    requires a <= b
    ensures |a| <= |b|
  {
    assert b == a + (b - a);
  }

  /** Reordering keeps elements distinct. */
  lemma DistinctPermutation<T(!new)>(a: seq<T>, b: seq<T>)
    requires Distinct(a) && multiset(a) == multiset(b)
    ensures Distinct(b)
  {
    forall i, j | 0 <= i < j < |b|
      ensures b[i] != b[j]
    {
      if b[i] == b[j] {
        assert b == b[..i] + [b[i]] + b[i + 1..j] + [b[j]] + b[j + 1..];
        assert multiset(a)[b[i]] >= 2;
        CountAtMostOne(a, b[i]);
      }
    }
  }

  lemma {:induction false} CountAtMostOne<T(!new)>(s: seq<T>, x: T)
    requires Distinct(s)
    ensures multiset(s)[x] <= 1
  {
    if s != [] {
      CountAtMostOne(s[1..], x);
      assert s == [s[0]] + s[1..];
      if s[0] == x {
        assert x !in s[1..];
      }
    }
  }
}
