/** Sorting by a total order: sorted permutations exist and are unique. */
module Orders {
  import opened Types
  import opened Wire

  ghost predicate TotalPreorder<T(!new)>(le: (T, T) -> bool) {
    && (forall a, b :: le(a, b) || le(b, a))
    && (forall a, b, c :: le(a, b) && le(b, c) ==> le(a, c))
  }

  ghost predicate TotalOrder<T(!new)>(le: (T, T) -> bool) {
    TotalPreorder(le) && forall a, b :: le(a, b) && le(b, a) ==> a == b
  }

  ghost predicate Sorted<T>(le: (T, T) -> bool, s: seq<T>) {
    |s| > 0 ==> Below(le, s[0], s[1..]) && Sorted(le, s[1..])
  }

  ghost predicate Below<T>(le: (T, T) -> bool, x: T, s: seq<T>) {
    forall y :: y in s ==> le(x, y)
  }

  function Insert<T>(le: (T, T) -> bool, x: T, s: seq<T>): (r: seq<T>)
    ensures multiset(r) == multiset(s) + multiset{x} && |r| == |s| + 1
  {
    if s == [] then [x]
    else if le(x, s[0]) then
      assert [x] + s == [x] + s[..];
      [x] + s
    else
      assert s == [s[0]] + s[1..];
      [s[0]] + Insert(le, x, s[1..])
  }

  function Sort<T>(le: (T, T) -> bool, s: seq<T>): (r: seq<T>)
    ensures multiset(r) == multiset(s) && |r| == |s|
  {
    if s == [] then []
    else
      assert s == [s[0]] + s[1..];
      Insert(le, s[0], Sort(le, s[1..]))
  }

  lemma InMultiset<T>(y: T, s: seq<T>)
    ensures y in s <==> y in multiset(s)
  {
  }

  lemma {:induction false} InsertSorts<T(!new)>(le: (T, T) -> bool, x: T, s: seq<T>)
    requires TotalPreorder(le) && Sorted(le, s)
    ensures Sorted(le, Insert(le, x, s))
  {
    var r := Insert(le, x, s);
    if s == [] {
      assert r[1..] == [];
    } else if le(x, s[0]) {
      assert r[1..] == s;
      forall y | y in s ensures le(x, y) {
        assert y == s[0] || y in s[1..];
      }
    } else {
      InsertSorts(le, x, s[1..]);
      assert r[1..] == Insert(le, x, s[1..]);
      forall y | y in r[1..] ensures le(s[0], y) {
        InMultiset(y, r[1..]);
        InMultiset(y, s[1..]);
      }
    }
  }

  lemma {:induction false} SortSorts<T(!new)>(le: (T, T) -> bool, s: seq<T>)
    requires TotalPreorder(le)
    ensures Sorted(le, Sort(le, s))
  {
    if s != [] {
      SortSorts(le, s[1..]);
      InsertSorts(le, s[0], Sort(le, s[1..]));
    }
  }

  lemma FirstIsLeast<T>(le: (T, T) -> bool, s: seq<T>, y: T)
    requires Sorted(le, s) && y in s && (forall a: T :: a in s ==> le(a, a))
    ensures le(s[0], y)
  {
    assert y == s[0] || y in s[1..];
  }

  lemma TailMultiset<T>(s: seq<T>)
    requires s != []
    ensures multiset(s[1..]) == multiset(s) - multiset{s[0]}
  {
    assert s == [s[0]] + s[1..];
  }

  /** A sorted list is determined by its elements. */
  lemma {:induction false} SortedUnique<T(!new)>(le: (T, T) -> bool, s: seq<T>, t: seq<T>)
    requires TotalOrder(le) && Sorted(le, s) && Sorted(le, t) && multiset(s) == multiset(t)
    ensures s == t
    decreases |s|
  {
    assert |s| == |multiset(s)| == |multiset(t)| == |t|;
    if s != [] {
      assert s == [s[0]] + s[1..] && t == [t[0]] + t[1..];
      InMultiset(s[0], t);
      InMultiset(t[0], s);
      FirstIsLeast(le, t, s[0]);
      FirstIsLeast(le, s, t[0]);
      TailMultiset(s);
      TailMultiset(t);
      SortedUnique(le, s[1..], t[1..]);
    }
  }

  /** Sorting forgets the order of the input and nothing else. */
  lemma SortIsCanonical<T(!new)>(le: (T, T) -> bool, s: seq<T>, t: seq<T>)
    requires TotalOrder(le)
    ensures Sort(le, s) == Sort(le, t) <==> multiset(s) == multiset(t)
  {
    SortSorts(le, s);
    SortSorts(le, t);
    if multiset(s) == multiset(t) {
      SortedUnique(le, Sort(le, s), Sort(le, t));
    }
  }

  /** The elements of a set in some order, and in sorted order. */
  ghost function Listed<T>(s: set<T>): (l: seq<T>)
    ensures multiset(l) == multiset(s)
  {
    if s == {} then []
    else
      var k :| k in s;
      assert multiset(s) == multiset(s - {k}) + multiset{k};
      [k] + Listed(s - {k})
  }

  ghost function Arranged<T>(le: (T, T) -> bool, s: set<T>): seq<T> {
    Sort(le, Listed(s))
  }

  lemma ArrangedUnique<T(!new)>(le: (T, T) -> bool, s: set<T>, l: seq<T>)
    requires TotalOrder(le) && Sorted(le, l) && multiset(l) == multiset(s)
    ensures l == Arranged(le, s)
  {
    SortSorts(le, Listed(s));
    SortedUnique(le, l, Arranged(le, s));
  }

  lemma InArranged<T>(le: (T, T) -> bool, s: set<T>, x: T)
    ensures x in Arranged(le, s) <==> x in s
  {
    InMultiset(x, Arranged(le, s));
    assert x in multiset(s) <==> x in s;
  }

  lemma {:induction false} SortedAt<T(!new)>(le: (T, T) -> bool, l: seq<T>, i: nat, j: nat)
    requires TotalOrder(le) && Sorted(le, l) && i <= j < |l|
    ensures le(l[i], l[j])
  {
    if i > 0 {
      SortedAt(le, l[1..], i - 1, j - 1);
    } else if j > 0 {
      assert l[j] == l[1..][j - 1];
    }
  }

  lemma {:induction false} SortedSuffix<T>(le: (T, T) -> bool, l: seq<T>, i: nat)
    requires Sorted(le, l) && i <= |l|
    ensures Sorted(le, l[i..])
  {
    if i == 0 {
      assert l[0..] == l;
    } else {
      SortedSuffix(le, l[1..], i - 1);
      assert l[1..][i - 1..] == l[i..];
    }
  }

  lemma OnlyOnce<T(!new)>(l: seq<T>, i: nat, x: T)
    requires (forall y :: multiset(l)[y] <= 1) && i <= |l|
    ensures multiset(l[i..])[x] == if x in l[i..] then 1 else 0
    ensures x in l[i..] ==> x !in l[..i]
  {
    assert l == l[..i] + l[i..];
    assert multiset(l)[x] == multiset(l[..i])[x] + multiset(l[i..])[x];
    InMultiset(x, l[i..]);
    InMultiset(x, l[..i]);
  }

  /** The elements strictly above one of an arranged set are the list behind it. */
  lemma ArrangedTail<T(!new)>(le: (T, T) -> bool, s: set<T>, i: nat, above: set<T>)
    requires TotalOrder(le) && 0 < i <= |Arranged(le, s)|
    requires forall x :: x in above <==> x in s && le(Arranged(le, s)[i - 1], x) && x != Arranged(le, s)[i - 1]
    ensures Arranged(le, above) == Arranged(le, s)[i..]
  {
    var l := Arranged(le, s);
    SortSorts(le, Listed(s));
    SortedSuffix(le, l, i);
    forall x ensures multiset(l[i..])[x] == multiset(above)[x] {
      OnlyOnce(l, i, x);
      TailMember(le, s, i, x);
    }
    ArrangedUnique(le, above, l[i..]);
  }

  lemma ArrangedOnce<T(!new)>(le: (T, T) -> bool, s: set<T>)
    ensures forall y :: multiset(Arranged(le, s))[y] <= 1
  {
  }

  lemma TailAbove<T(!new)>(le: (T, T) -> bool, l: seq<T>, i: nat, j: nat)
    requires TotalOrder(le) && Sorted(le, l) && (forall y :: multiset(l)[y] <= 1) && 0 < i <= j < |l|
    ensures le(l[i - 1], l[j]) && l[j] != l[i - 1]
  {
    hide Sorted, TotalOrder;
    SortedAt(le, l, i - 1, j);
    OnlyOnce(l, i, l[j]);
    assert l[i..][j - i] == l[j] && l[..i][i - 1] == l[i - 1];
  }

  lemma HeadNotAbove<T(!new)>(le: (T, T) -> bool, l: seq<T>, i: nat, j: nat)
    requires TotalOrder(le) && Sorted(le, l) && j < i <= |l| && le(l[i - 1], l[j])
    ensures l[j] == l[i - 1]
  {
    SortedAt(le, l, j, i - 1);
  }

  lemma TailMember<T(!new)>(le: (T, T) -> bool, s: set<T>, i: nat, x: T)
    requires TotalOrder(le) && 0 < i <= |Arranged(le, s)|
    ensures x in Arranged(le, s)[i..] <==> x in s && le(Arranged(le, s)[i - 1], x) && x != Arranged(le, s)[i - 1]
  {
    hide Sorted;
    var l := Arranged(le, s);
    SortSorts(le, Listed(s));
    InArranged(le, s, x);
    ArrangedOnce(le, s);
    hide Arranged, TotalOrder;
    assert l == l[..i] + l[i..];
    if x in l[i..] {
      var j :| i <= j < |l| && l[j] == x;
      TailAbove(le, l, i, j);
    } else if x in s && le(l[i - 1], x) {
      var j :| 0 <= j < i && l[j] == x;
      HeadNotAbove(le, l, i, j);
    }
  }

  // ---- The order of std::string -----------------------------------------------------------------

  predicate TextLe(a: text, b: text) {
    a == [] || (b != [] && (a[0] < b[0] || (a[0] == b[0] && TextLe(a[1..], b[1..]))))
  }

  lemma {:induction false} TextLeTotal(a: text, b: text)
    ensures TextLe(a, b) || TextLe(b, a)
    ensures TextLe(a, b) && TextLe(b, a) ==> a == b
  {
    if a != [] && b != [] && a[0] == b[0] {
      TextLeTotal(a[1..], b[1..]);
      assert a == [a[0]] + a[1..] && b == [b[0]] + b[1..];
    }
  }

  lemma {:induction false} TextLeTransitive(a: text, b: text, c: text)
    requires TextLe(a, b) && TextLe(b, c)
    ensures TextLe(a, c)
  {
    if a != [] && a[0] == b[0] && b[0] == c[0] {
      TextLeTransitive(a[1..], b[1..], c[1..]);
    }
  }

  lemma TextLeIsOrder()
    ensures TotalOrder(TextLe)
  {
    forall a: text, b: text ensures TextLe(a, b) || TextLe(b, a) {
      TextLeTotal(a, b);
    }
    forall a: text, b: text | TextLe(a, b) && TextLe(b, a) ensures a == b {
      TextLeTotal(a, b);
    }
    forall a: text, b: text, c: text | TextLe(a, b) && TextLe(b, c) ensures TextLe(a, c) {
      TextLeTransitive(a, b, c);
    }
  }

  predicate ByteLe(a: byte, b: byte) {
    a <= b
  }

  lemma ByteLeIsOrder()
    ensures TotalOrder(ByteLe)
  {
  }
}
