/**
  State names and the ordering the toolkit sorts them by.

  Names read from a description file and names issued by Thompson's
  construction are strings; the powerset construction renames its subsets
  to their integer positions. The toolkit runs on Python 2, whose `sort`
  puts every int before every string, compares ints numerically and
  compares strings code point by code point with a proper prefix first.
*/
module Names {

  datatype StateName = Named(text: string) | Numbered(index: nat)

  /** Python 2 string comparison `a < b`. */
  predicate TextBelow(a: string, b: string)
  {
    |b| > 0 && (|a| == 0 || a[0] < b[0] || (a[0] == b[0] && TextBelow(a[1..], b[1..])))
  }

  /** Python 2 comparison `x < y` on state names. */
  predicate Below(x: StateName, y: StateName)
  {
    match (x, y)
    case (Numbered(i), Numbered(j)) => i < j
    case (Numbered(_), Named(_)) => true
    case (Named(_), Numbered(_)) => false
    case (Named(a), Named(b)) => TextBelow(a, b)
  }

  /** Python 2 comparison `x <= y` on state names. */
  predicate NotAbove(x: StateName, y: StateName)
  {
    x == y || Below(x, y)
  }

  lemma {:induction false} TextBelowIrreflexive(a: string)
    ensures !TextBelow(a, a)
  {
    if |a| > 0 {
      TextBelowIrreflexive(a[1..]);
    }
  }

  lemma {:induction false} TextBelowTransitive(a: string, b: string, c: string)
    requires TextBelow(a, b) && TextBelow(b, c)
    ensures TextBelow(a, c)
  {
    if |a| > 0 && a[0] == b[0] && b[0] == c[0] {
      TextBelowTransitive(a[1..], b[1..], c[1..]);
    }
  }

  lemma {:induction false} TextBelowTotal(a: string, b: string)
    ensures a == b || TextBelow(a, b) || TextBelow(b, a)
  {
    if |a| > 0 && |b| > 0 && a[0] == b[0] {
      TextBelowTotal(a[1..], b[1..]);
      if a[1..] == b[1..] {
        assert a == [a[0]] + a[1..] && b == [b[0]] + b[1..];
      }
    }
  }

  lemma BelowIrreflexive(x: StateName)
    ensures !Below(x, x)
  {
    if x.Named? {
      TextBelowIrreflexive(x.text);
    }
  }

  lemma BelowTransitive(x: StateName, y: StateName, z: StateName)
    requires Below(x, y) && Below(y, z)
    ensures Below(x, z)
  {
    if x.Named? && y.Named? && z.Named? {
      TextBelowTransitive(x.text, y.text, z.text);
    }
  }

  lemma BelowTotal(x: StateName, y: StateName)
    ensures x == y || Below(x, y) || Below(y, x)
  {
    if x.Named? && y.Named? {
      TextBelowTotal(x.text, y.text);
    }
  }

  lemma NotAboveAntisymmetric(x: StateName, y: StateName)
    requires NotAbove(x, y) && NotAbove(y, x)
    ensures x == y
  {
    if x != y {
      BelowTransitive(x, y, x);
      BelowIrreflexive(x);
    }
  }

  lemma NotAboveTransitive(x: StateName, y: StateName, z: StateName)
    requires NotAbove(x, y) && NotAbove(y, z)
    ensures NotAbove(x, z)
  {
    if x != y && y != z {
      BelowTransitive(x, y, z);
    }
  }

  predicate Sorted(xs: seq<StateName>)
  {
    forall i, j :: 0 <= i < j < |xs| ==> NotAbove(xs[i], xs[j])
  }

  predicate StrictlySorted(xs: seq<StateName>)
  {
    forall i, j :: 0 <= i < j < |xs| ==> Below(xs[i], xs[j])
  }

  /** A strictly sorted list is sorted and lists no name twice. */
  lemma StrictlySortedIsSorted(xs: seq<StateName>)
    requires StrictlySorted(xs)
    ensures Sorted(xs) && NoDuplicates(xs)
  {
    forall i, j | 0 <= i < j < |xs| ensures xs[i] != xs[j] {
      if xs[i] == xs[j] {
        BelowIrreflexive(xs[i]);
      }
    }
  }

  /** The position of the first occurrence of `x` in `xs`. */
  function IndexOf<T(==)>(xs: seq<T>, x: T): (k: nat)
    requires x in xs
    ensures k < |xs| && xs[k] == x
  {
    if xs[0] == x then 0 else assert xs == [xs[0]] + xs[1..]; 1 + IndexOf(xs[1..], x)
  }

  /** `IndexOf` finds the first occurrence. */
  lemma {:induction false} IndexOfFirst<T>(xs: seq<T>, x: T, i: nat)
    requires x in xs && i < IndexOf(xs, x)
    ensures xs[i] != x
  {
    if i > 0 {
      assert xs == [xs[0]] + xs[1..];
      IndexOfFirst(xs[1..], x, i - 1);
    }
  }

  /** In a list without duplicates, the position of an element is the index it is found at. */
  lemma IndexOfUnique<T>(xs: seq<T>, k: nat)
    requires NoDuplicates(xs) && k < |xs|
    ensures IndexOf(xs, xs[k]) == k
  {
    var i := IndexOf(xs, xs[k]);
    assert xs[i] == xs[k];
  }

  /** Python's `xs.remove(x)`: `xs` without the first occurrence of `x`. */
  function RemoveFirst<T(==)>(xs: seq<T>, x: T): (r: seq<T>)
    requires x in xs
    ensures |r| == |xs| - 1
  {
    if xs[0] == x then xs[1..] else assert xs == [xs[0]] + xs[1..]; [xs[0]] + RemoveFirst(xs[1..], x)
  }

  /** `xs.remove(x)` cuts out the first occurrence of `x`. */
  lemma {:induction false} RemoveFirstAt<T>(xs: seq<T>, x: T)
    requires x in xs
    ensures RemoveFirst(xs, x) == xs[..IndexOf(xs, x)] + xs[IndexOf(xs, x) + 1..]
  {
    if xs[0] != x {
      assert xs == [xs[0]] + xs[1..];
      RemoveFirstAt(xs[1..], x);
    }
  }

  /** `xs.remove(x)` takes one copy of `x` out of the list's multiset. */
  lemma {:induction false} RemoveFirstMultiset<T>(xs: seq<T>, x: T)
    requires x in xs
    ensures multiset(RemoveFirst(xs, x)) == multiset(xs) - multiset{x}
  {
    var i := IndexOf(xs, x);
    RemoveFirstAt(xs, x);
    assert xs == xs[..i] + [x] + xs[i + 1..];
  }

  /** In a list without duplicates, `xs.remove(x)` takes exactly `x` out and keeps the rest unique. */
  lemma {:induction false} RemoveFirstUnique<T>(xs: seq<T>, x: T)
    requires NoDuplicates(xs) && x in xs
    ensures NoDuplicates(RemoveFirst(xs, x)) && Elements(RemoveFirst(xs, x)) == Elements(xs) - {x}
  {
    assert xs == [xs[0]] + xs[1..];
    assert NoDuplicates(xs[1..]) && xs[0] !in xs[1..] by {
      forall u, v | 0 <= u < v < |xs| - 1 ensures xs[1..][u] != xs[1..][v] {
        assert xs[1..][u] == xs[u + 1] && xs[1..][v] == xs[v + 1];
      }
    }
    ElementsCons(xs[0], xs[1..]);
    if xs[0] != x {
      var ys := RemoveFirst(xs[1..], x);
      RemoveFirstUnique(xs[1..], x);
      assert xs[0] !in Elements(ys);
      ConsNoDuplicates(xs[0], ys);
      ElementsCons(xs[0], ys);
    }
  }

  /** The set of a list's elements, as Python's `set(xs)`. */
  function Elements<T(==)>(xs: seq<T>): set<T>
  {
    set x | x in xs
  }

  /** The elements of a non-empty list: those before its last one, and the last one. */
  lemma ElementsInit<T>(xs: seq<T>)
    requires |xs| > 0
    ensures Elements(xs) == Elements(xs[..|xs| - 1]) + {xs[|xs| - 1]}
  {
    assert xs == xs[..|xs| - 1] + [xs[|xs| - 1]];
  }

  lemma ElementsFour<T>(xs: seq<T>)
    requires |xs| == 4
    ensures Elements(xs) == {xs[0], xs[1], xs[2], xs[3]}
  {
    assert xs == [xs[0], xs[1], xs[2], xs[3]];
  }

  predicate NoDuplicates<T(==)>(xs: seq<T>)
  {
    forall i, j :: 0 <= i < j < |xs| ==> xs[i] != xs[j]
  }

  /** Inserts `x` before the first element it is not above. */
  function Insert(x: StateName, xs: seq<StateName>): (r: seq<StateName>)
    requires Sorted(xs)
    ensures Sorted(r) && multiset(r) == multiset(xs) + multiset{x}
  {
    if xs == [] then [x]
    else if NotAbove(x, xs[0]) then
      HeadBelowSorted(x, xs);
      SortedCons(x, xs);
      [x] + xs
    else
      var rest := Insert(x, xs[1..]);
      BelowTotal(x, xs[0]);
      SortedHeadBelowTail(xs);
      MultisetCons(xs);
      SortedCons(xs[0], rest);
      [xs[0]] + rest
  }

  /** An element not above the head of a sorted list is not above any of it. */
  lemma HeadBelowSorted(x: StateName, xs: seq<StateName>)
    requires Sorted(xs) && |xs| > 0 && NotAbove(x, xs[0])
    ensures forall y :: y in multiset(xs) ==> NotAbove(x, y)
  {
    forall y | y in multiset(xs) ensures NotAbove(x, y) {
      var j :| 0 <= j < |xs| && xs[j] == y;
      if j > 0 { NotAboveTransitive(x, xs[0], xs[j]); }
    }
  }

  lemma SortedHeadBelowTail(xs: seq<StateName>)
    requires Sorted(xs) && |xs| > 0
    ensures forall y :: y in multiset(xs[1..]) ==> NotAbove(xs[0], y)
  {
    forall y | y in multiset(xs[1..]) ensures NotAbove(xs[0], y) {
      var j :| 0 <= j < |xs[1..]| && xs[1..][j] == y;
      assert xs[j + 1] == y;
    }
  }

  /** A sorted list stays sorted under a new head that is not above any of its elements. */
  lemma SortedCons(h: StateName, t: seq<StateName>)
    requires Sorted(t) && forall y :: y in multiset(t) ==> NotAbove(h, y)
    ensures Sorted([h] + t)
  {
    var r := [h] + t;
    forall i, j | 0 <= i < j < |r| ensures NotAbove(r[i], r[j]) {
      assert r[j] == t[j - 1];
      if i == 0 {
        assert t[j - 1] in multiset(t);
      } else {
        assert r[i] == t[i - 1];
      }
    }
  }

  lemma MultisetCons<T>(xs: seq<T>)
    requires |xs| > 0
    ensures multiset(xs) == multiset{xs[0]} + multiset(xs[1..])
  {
    assert xs == [xs[0]] + xs[1..];
  }

  /** Python's `sorted` on a list of state names (insertion sort). */
  function Sort(xs: seq<StateName>): (r: seq<StateName>)
    ensures Sorted(r) && multiset(r) == multiset(xs)
  {
    if xs == [] then []
    else
      assert xs == [xs[0]] + xs[1..];
      Insert(xs[0], Sort(xs[1..]))
  }

  lemma SortedHeadLeast(a: seq<StateName>, y: StateName)
    requires Sorted(a) && y in a
    ensures NotAbove(a[0], y)
  {
    var i :| 0 <= i < |a| && a[i] == y;
    if i > 0 {
      assert NotAbove(a[0], a[i]);
    }
  }

  /** A list sorted under a total order is determined by its elements. */
  lemma {:induction false} SortedUnique(a: seq<StateName>, b: seq<StateName>)
    requires Sorted(a) && Sorted(b) && multiset(a) == multiset(b)
    ensures a == b
  {
    if a == [] {
      assert |multiset(b)| == 0;
    } else {
      assert a[0] in multiset(a);
      assert b != [];
      var x, y := a[0], b[0];
      assert x in multiset(b) && y in multiset(a);
      SortedHeadLeast(a, y);
      SortedHeadLeast(b, x);
      NotAboveAntisymmetric(x, y);
      MultisetTail(a);
      MultisetTail(b);
      SortedUnique(a[1..], b[1..]);
      assert a == [x] + a[1..] && b == [y] + b[1..];
    }
  }

  lemma MultisetTail<T>(a: seq<T>)
    requires |a| > 0
    ensures multiset(a[1..]) == multiset(a) - multiset{a[0]}
  {
    assert a == [a[0]] + a[1..];
  }

  lemma SortOfSorted(xs: seq<StateName>)
    requires Sorted(xs)
    ensures Sort(xs) == xs
  {
    SortedUnique(Sort(xs), xs);
  }

  /** Sorting two lists with the same elements gives the same list. */
  lemma SortPermutationInvariant(xs: seq<StateName>, ys: seq<StateName>)
    requires multiset(xs) == multiset(ys)
    ensures Sort(xs) == Sort(ys)
  {
    SortedUnique(Sort(xs), Sort(ys));
  }

  lemma SortedNoDuplicatesIsStrict(xs: seq<StateName>)
    requires Sorted(xs) && NoDuplicates(xs)
    ensures StrictlySorted(xs)
  {
  }

  lemma {:induction false} StrictlySortedUnique(a: seq<StateName>, b: seq<StateName>)
    requires StrictlySorted(a) && StrictlySorted(b) && Elements(a) == Elements(b)
    ensures a == b
  {
    if a != [] {
      assert a[0] in Elements(b);
      assert b[0] in Elements(a);
      var i :| 0 <= i < |b| && b[i] == a[0];
      var j :| 0 <= j < |a| && a[j] == b[0];
      assert NotAbove(b[0], a[0]) by { if i > 0 { assert Below(b[0], b[i]); } }
      assert NotAbove(a[0], b[0]) by { if j > 0 { assert Below(a[0], a[j]); } }
      NotAboveAntisymmetric(a[0], b[0]);
      forall k | 0 <= k < |a| - 1 ensures a[1..][k] != a[0] {
        assert Below(a[0], a[k + 1]);
        BelowIrreflexive(a[0]);
      }
      forall k | 0 <= k < |b| - 1 ensures b[1..][k] != b[0] {
        assert Below(b[0], b[k + 1]);
        BelowIrreflexive(b[0]);
      }
      assert a == [a[0]] + a[1..] && b == [b[0]] + b[1..];
      assert Elements(a[1..]) == Elements(a) - {a[0]};
      assert Elements(b[1..]) == Elements(b) - {b[0]};
      StrictlySortedUnique(a[1..], b[1..]);
    } else {
      ElementsEmpty(b);
    }
  }

  lemma ElementsEmpty<T>(xs: seq<T>)
    ensures Elements(xs) == {} <==> xs == []
  {
    if xs != [] {
      assert xs[0] in Elements(xs);
    }
  }

  lemma {:induction false} NoDuplicatesMultiset<T>(xs: seq<T>, x: T)
    requires NoDuplicates(xs)
    ensures multiset(xs)[x] <= 1
  {
    if xs != [] {
      assert xs == [xs[0]] + xs[1..];
      NoDuplicatesMultiset(xs[1..], x);
      if xs[0] == x {
        assert x !in xs[1..];
      }
    }
  }

  lemma MultisetNoDuplicates<T>(xs: seq<T>, ys: seq<T>)
    requires NoDuplicates(xs) && multiset(xs) == multiset(ys)
    ensures NoDuplicates(ys)
  {
    forall i, j | 0 <= i < j < |ys| ensures ys[i] != ys[j] {
      if ys[i] == ys[j] {
        var x := ys[i];
        assert ys == ys[..i] + [x] + ys[i + 1..j] + [x] + ys[j + 1..];
        assert multiset(ys)[x] >= 2;
        NoDuplicatesMultiset(xs, x);
      }
    }
  }

  /** Sorting a duplicate-free list gives the strictly sorted list of its elements. */
  lemma SortNoDuplicates(xs: seq<StateName>)
    requires NoDuplicates(xs)
    ensures StrictlySorted(Sort(xs)) && NoDuplicates(Sort(xs)) && Elements(Sort(xs)) == Elements(xs)
  {
    MultisetNoDuplicates(xs, Sort(xs));
    assert forall x :: x in Sort(xs) <==> x in multiset(Sort(xs));
  }

  /** Sorting keeps the elements. */
  lemma SortElements(xs: seq<StateName>)
    ensures Elements(Sort(xs)) == Elements(xs)
  {
    assert forall x :: x in Sort(xs) <==> x in multiset(Sort(xs));
    assert forall x :: x in xs <==> x in multiset(xs);
  }

  /** Every finite set is listed, each element once, by some list. */
  lemma {:induction false} ListingExists<T>(s: set<T>)
    ensures exists xs :: NoDuplicates(xs) && Elements(xs) == s
    decreases |s|
  {
    if s == {} {
      assert NoDuplicates<T>([]) && Elements<T>([]) == s;
    } else {
      var x :| x in s;
      ListingExists(s - {x});
      var xs :| NoDuplicates(xs) && Elements(xs) == s - {x};
      ConsNoDuplicates(x, xs);
      ElementsCons(x, xs);
      assert NoDuplicates([x] + xs) && Elements([x] + xs) == s;
    }
  }

  lemma ConsNoDuplicates<T>(x: T, xs: seq<T>)
    requires NoDuplicates(xs) && x !in xs
    ensures NoDuplicates([x] + xs)
  {
    var ys := [x] + xs;
    forall i, j | 0 <= i < j < |ys| ensures ys[i] != ys[j] {
      assert ys[j] == xs[j - 1];
      if i > 0 {
        assert ys[i] == xs[i - 1];
      }
    }
  }

  /** The elements of a one-longer prefix. */
  lemma ElementsPrefix<T>(xs: seq<T>, q: nat)
    requires q < |xs|
    ensures Elements(xs[..q + 1]) == Elements(xs[..q]) + {xs[q]}
  {
    assert xs[..q + 1] == xs[..q] + [xs[q]];
  }

  /** Appending `t` unless it is already there keeps a list free of duplicates and adds `t`. */
  lemma AppendIfAbsent<T>(xs: seq<T>, t: T)
    requires NoDuplicates(xs)
    ensures var ys := if t in xs then xs else xs + [t];
      NoDuplicates(ys) && Elements(ys) == Elements(xs) + {t}
  {
    if t !in xs {
      ElementsInit(xs + [t]);
      assert (xs + [t])[..|xs|] == xs;
    }
  }

  lemma {:induction false} ConcatAssociative<T>(a: seq<T>, b: seq<T>, c: seq<T>)
    ensures (a + b) + c == a + (b + c)
  {
  }

  /** An element of the first part of a duplicate-free concatenation is not in the second. */
  lemma {:induction false} NoDuplicatesSplit<T>(xs: seq<T>, ys: seq<T>, x: T)
    requires NoDuplicates(xs + ys) && x in xs
    ensures x !in ys
  {
    var i :| 0 <= i < |xs| && xs[i] == x;
    forall j | 0 <= j < |ys| ensures ys[j] != x {
      assert (xs + ys)[i] == x && (xs + ys)[|xs| + j] == ys[j];
    }
  }

  /** A subset has at most as many elements as the set. */
  lemma CardMonotone<T>(s: set<T>, t: set<T>)
    requires s <= t
    ensures |s| <= |t|
  {
    assert t == s + (t - s) && s * (t - s) == {};
  }

  /** A list without duplicates has as many elements as entries. */
  lemma {:induction false} NoDuplicatesCard<T>(xs: seq<T>)
    requires NoDuplicates(xs)
    ensures |Elements(xs)| == |xs|
  {
    if xs != [] {
      var n := |xs| - 1;
      assert NoDuplicates(xs[..n]);
      NoDuplicatesCard(xs[..n]);
      ElementsInit(xs);
      assert xs[n] !in Elements(xs[..n]);
    }
  }

  lemma ElementsCons<T>(x: T, xs: seq<T>)
    ensures Elements([x] + xs) == {x} + Elements(xs)
  {
  }

  /** The sorted list of a set of names: `sorted(s)` in Python. */
  ghost function SortedListing(s: set<StateName>): (r: seq<StateName>)
    ensures StrictlySorted(r) && Elements(r) == s
  {
    SortedListingExists(s);
    var r :| StrictlySorted(r) && Elements(r) == s;
    r
  }

  lemma SortedListingExists(s: set<StateName>)
    ensures exists r :: StrictlySorted(r) && Elements(r) == s
  {
    ListingExists(s);
    var xs :| NoDuplicates(xs) && Elements(xs) == s;
    SortNoDuplicates(xs);
  }

  /** The decimal digits of `n`, as Python's `str(n)`. */
  function Decimal(n: nat): (r: string)
    ensures |r| > 0
    ensures forall k :: 0 <= k < |r| ==> '0' <= r[k] <= '9'
  {
    if n < 10 then [Digit(n)] else Decimal(n / 10) + [Digit(n % 10)]
  }

  function Digit(d: nat): char
    requires d < 10
  {
    ('0' as int + d) as char
  }

  lemma {:induction false} DecimalInjective(m: nat, n: nat)
    requires Decimal(m) == Decimal(n)
    ensures m == n
  {
    if m >= 10 && n >= 10 {
      var a, b := Decimal(m / 10), Decimal(n / 10);
      assert Digit(m % 10) == Decimal(m)[|Decimal(m)| - 1] == Digit(n % 10);
      assert a == Decimal(m)[..|Decimal(m)| - 1] == b;
      DecimalInjective(m / 10, n / 10);
    }
  }
}
