/** Total orders, the default string order, and sorting by an order. */
module Ordering {

  // ---- String order: code unit by code unit, a prefix first ---------------------

  predicate LexLe(a: string, b: string) {
    a == "" || (b != "" && (a[0] < b[0] || (a[0] == b[0] && LexLe(a[1..], b[1..]))))
  }

  lemma {:induction false} LexTotal(a: string, b: string)
    ensures LexLe(a, b) || LexLe(b, a)
  {
    if a != "" && b != "" && a[0] == b[0] {
      LexTotal(a[1..], b[1..]);
    }
  }

  lemma {:induction false} LexAntisymmetric(a: string, b: string)
    requires LexLe(a, b) && LexLe(b, a)
    ensures a == b
  {
    if a != "" {
      LexAntisymmetric(a[1..], b[1..]);
      assert a == [a[0]] + a[1..] && b == [b[0]] + b[1..];
    }
  }

  lemma {:induction false} LexTransitive(a: string, b: string, c: string)
    requires LexLe(a, b) && LexLe(b, c)
    ensures LexLe(a, c)
  {
    if a != "" && a[0] == b[0] && b[0] == c[0] {
      LexTransitive(a[1..], b[1..], c[1..]);
    }
  }

  // ---- Sorting by a total order ---------------------------------------------------

  // le is a total order on the elements of s.
  ghost predicate Orders<T(!new)>(le: (T, T) -> bool, s: set<T>) {
    && (forall x, y | x in s && y in s :: le(x, y) || le(y, x))
    && (forall x, y | x in s && y in s && le(x, y) && le(y, x) :: x == y)
    && (forall x, y, z | x in s && y in s && z in s && le(x, y) && le(y, z) :: le(x, z))
  }

  ghost predicate Sorted<T>(s: seq<T>, le: (T, T) -> bool) {
    forall i, j | 0 <= i < j < |s| :: le(s[i], s[j])
  }

  ghost function Elements<T>(s: seq<T>): set<T> {
    set x | x in s
  }

  function Insert<T>(x: T, s: seq<T>, le: (T, T) -> bool): (r: seq<T>)
    ensures multiset(r) == multiset{x} + multiset(s)
    ensures |r| == |s| + 1
  {
    if s == [] then [x]
    else if le(x, s[0]) then [x] + s
    else
      assert s == [s[0]] + s[1..];
      [s[0]] + Insert(x, s[1..], le)
  }

  function Sort<T>(s: seq<T>, le: (T, T) -> bool): (r: seq<T>)
    ensures multiset(r) == multiset(s)
    ensures |r| == |s|
  {
    if s == [] then []
    else
      assert s == [s[0]] + s[1..];
      Insert(s[0], Sort(s[1..], le), le)
  }

  lemma {:induction false} SameElements<T>(a: seq<T>, b: seq<T>)
    requires multiset(a) == multiset(b)
    ensures forall x :: x in a <==> x in b
  {
    forall x ensures x in a <==> x in b {
      assert x in a <==> x in multiset(a);
    }
  }

  lemma {:induction false} InsertSorts<T(!new)>(x: T, s: seq<T>, le: (T, T) -> bool)
    requires Orders(le, Elements([x] + s)) && Sorted(s, le)
    ensures Sorted(Insert(x, s, le), le)
  {
    assert x in [x] + s && forall y | y in s :: y in [x] + s;
    if s != [] && !le(x, s[0]) {
      InsertSorts(x, s[1..], le);
      var rest := Insert(x, s[1..], le);
      assert multiset(rest) == multiset([x] + s[1..]);
      SameElements(rest, [x] + s[1..]);
      forall y | y in rest ensures le(s[0], y) {
        assert y in [x] + s[1..];
      }
    } else if s != [] {
      forall j | 0 <= j < |s| ensures le(x, s[j]) {
        assert s[0] in s && s[j] in s;
      }
    }
  }

  lemma {:induction false} SortSorts<T(!new)>(s: seq<T>, le: (T, T) -> bool)
    requires Orders(le, Elements(s))
    ensures Sorted(Sort(s, le), le)
  {
    if s != [] {
      SortSorts(s[1..], le);
      var rest := Sort(s[1..], le);
      SameElements(rest, s[1..]);
      assert Elements([s[0]] + rest) <= Elements(s);
      InsertSorts(s[0], rest, le);
    }
  }

  // Two sorted arrangements of the same elements start alike.
  lemma {:induction false} SortedHead<T(!new)>(a: seq<T>, b: seq<T>, le: (T, T) -> bool)
    requires Orders(le, Elements(a))
    requires Sorted(a, le) && Sorted(b, le)
    requires multiset(a) == multiset(b) && a != []
    ensures b != [] && a[0] == b[0]
  {
    SameElements(a, b);
    assert a[0] in a;
    assert b[0] in b;
    var i :| 0 <= i < |b| && b[i] == a[0];
    var j :| 0 <= j < |a| && a[j] == b[0];
  }

  lemma {:induction false} SameTail<T>(a: seq<T>, b: seq<T>)
    requires a != [] && b != [] && a[0] == b[0] && multiset(a) == multiset(b)
    ensures multiset(a[1..]) == multiset(b[1..])
  {
    assert a == [a[0]] + a[1..] && b == [b[0]] + b[1..];
    assert multiset(a[1..]) == multiset(a) - multiset{a[0]};
    assert multiset(b[1..]) == multiset(b) - multiset{b[0]};
  }

  lemma {:induction false} SortedTail<T(!new)>(a: seq<T>, le: (T, T) -> bool)
    requires a != [] && Sorted(a, le) && Orders(le, Elements(a))
    ensures Sorted(a[1..], le) && Orders(le, Elements(a[1..]))
  {
    assert Elements(a[1..]) <= Elements(a);
  }

  // A sorted arrangement of given elements is unique.
  lemma {:induction false} SortedUnique<T(!new)>(a: seq<T>, b: seq<T>, le: (T, T) -> bool)
    requires Orders(le, Elements(a)) && Orders(le, Elements(b))
    requires Sorted(a, le) && Sorted(b, le)
    requires multiset(a) == multiset(b)
    ensures a == b
  {
    if a == [] {
      assert |multiset(b)| == 0;
    } else {
      hide Orders, Sorted, Elements;
      SortedHead(a, b, le);
      SameTail(a, b);
      SortedTail(a, le);
      SortedTail(b, le);
      SortedUnique(a[1..], b[1..], le);
      assert a == [a[0]] + a[1..] && b == [b[0]] + b[1..];
    }
  }

  // Sorting forgets the order its input came in, and nothing else.
  lemma {:induction false} SortIsCanonical<T(!new)>(a: seq<T>, b: seq<T>, le: (T, T) -> bool)
    requires Orders(le, Elements(a) + Elements(b))
    ensures Sort(a, le) == Sort(b, le) <==> multiset(a) == multiset(b)
  {
    if multiset(a) == multiset(b) {
      SameElements(Sort(a, le), a);
      SameElements(Sort(b, le), b);
      assert Elements(Sort(a, le)) <= Elements(a) + Elements(b) && Elements(Sort(b, le)) <= Elements(a) + Elements(b);
      SortSorts(a, le);
      SortSorts(b, le);
      SortedUnique(Sort(a, le), Sort(b, le), le);
    }
  }

  lemma {:induction false} LexOrders(s: set<string>)
    ensures Orders(LexLe, s)
  {
    forall x, y | x in s && y in s ensures LexLe(x, y) || LexLe(y, x) { LexTotal(x, y); }
    forall x, y | x in s && y in s && LexLe(x, y) && LexLe(y, x) ensures x == y { LexAntisymmetric(x, y); }
    forall x, y, z | x in s && y in s && z in s && LexLe(x, y) && LexLe(y, z) ensures LexLe(x, z) {
      LexTransitive(x, y, z);
    }
  }
}
