/** String order, sorting, and sorted duplicate-free listings of sets of strings. */
module Ordering {

  // ----- lexicographic order (Go compares strings byte by byte) -----

  predicate StrLeq(a: string, b: string) {
    a == [] || (b != [] && (a[0] < b[0] || (a[0] == b[0] && StrLeq(a[1..], b[1..]))))
  }

  predicate StrLess(a: string, b: string) {
    StrLeq(a, b) && a != b
  }

  lemma StrLeqReflexive(a: string)
    ensures StrLeq(a, a)
  {
  }

  lemma {:induction false} StrLeqAntisymmetric(a: string, b: string)
    requires StrLeq(a, b) && StrLeq(b, a)
    ensures a == b
  {
    if a != [] {
      StrLeqAntisymmetric(a[1..], b[1..]);
      assert a == [a[0]] + a[1..] && b == [b[0]] + b[1..];
    }
  }

  lemma {:induction false} StrLeqTransitive(a: string, b: string, c: string)
    requires StrLeq(a, b) && StrLeq(b, c)
    ensures StrLeq(a, c)
  {
    if a != [] && a[0] == b[0] == c[0] {
      StrLeqTransitive(a[1..], b[1..], c[1..]);
    }
  }

  lemma {:induction false} StrLeqTotal(a: string, b: string)
    ensures StrLeq(a, b) || StrLeq(b, a)
  {
    if a != [] && b != [] && a[0] == b[0] {
      StrLeqTotal(a[1..], b[1..]);
    }
  }

  // ----- sorting -----

  ghost predicate TotalPreorder<T(!new)>(leq: (T, T) -> bool) {
    && (forall x, y :: leq(x, y) || leq(y, x))
    && (forall x, y, z :: leq(x, y) && leq(y, z) ==> leq(x, z))
  }

  ghost predicate SortedBy<T>(leq: (T, T) -> bool, s: seq<T>) {
    forall i, j :: 0 <= i < j < |s| ==> leq(s[i], s[j])
  }

  lemma InsertKeepsSorted<T(!new)>(t: seq<T>, k: nat, x: T, leq: (T, T) -> bool)
    requires TotalPreorder(leq) && SortedBy(leq, t) && k <= |t|
    requires k > 0 ==> leq(t[k - 1], x)
    requires k < |t| ==> leq(x, t[k])
    ensures SortedBy(leq, t[..k] + [x] + t[k..])
  {
    forall j | 0 <= j < k ensures leq(t[j], x) {
      if j < k - 1 { assert leq(t[j], t[k - 1]) && leq(t[k - 1], x); }
    }
    forall j | k <= j < |t| ensures leq(x, t[j]) {
      if k < j { assert leq(x, t[k]) && leq(t[k], t[j]); }
    }
  }

  lemma InsertedContents<T>(t: seq<T>, k: nat, x: T)
    requires k <= |t|
    ensures multiset(t[..k] + [x] + t[k..]) == multiset(t) + multiset{x}
  {
    assert t == t[..k] + t[k..];
  }

  method Insert<T(!new)>(t: seq<T>, x: T, leq: (T, T) -> bool) returns (r: seq<T>)
    requires TotalPreorder(leq) && SortedBy(leq, t)
    ensures SortedBy(leq, r) && multiset(r) == multiset(t) + multiset{x} && |r| == |t| + 1
  {
    var k := |t|;
    while k > 0 && !leq(t[k - 1], x)
      invariant 0 <= k <= |t|
      invariant k < |t| ==> leq(x, t[k])
    {
      k := k - 1;
    }
    InsertKeepsSorted(t, k, x, leq);
    InsertedContents(t, k, x);
    r := t[..k] + [x] + t[k..];
  }

  /** `sort.Slice`: some ordering of `s` that respects `leq`. The order among equals is left open,
      as the library leaves it. */
  method SortBy<T(!new)>(s: seq<T>, leq: (T, T) -> bool) returns (t: seq<T>)
    requires TotalPreorder(leq)
    ensures SortedBy(leq, t) && multiset(t) == multiset(s) && |t| == |s|
  {
    t := [];
    for n := 0 to |s|
      invariant SortedBy(leq, t) && multiset(t) == multiset(s[..n]) && |t| == n
    {
      t := Insert(t, s[n], leq);
      assert s[..n + 1] == s[..n] + [s[n]];
    }
    assert s[..|s|] == s;
  }

  // ----- reorderings -----

  /** A reordering holds the last element somewhere; without it, what is left is a reordering too. */
  lemma LastElsewhere<T>(s: seq<T>, t: seq<T>) returns (k: nat)
    requires s != [] && multiset(s) == multiset(t)
    ensures k < |t| && t[k] == s[|s| - 1]
    ensures multiset(s[..|s| - 1]) == multiset(t[..k] + t[k + 1..])
  {
    var n := |s| - 1;
    assert s[n] in multiset(s);
    k :| 0 <= k < |t| && t[k] == s[n];
    LeftOut(t, k);
    LeftOut(s, n);
    assert s[..n] + s[n + 1..] == s[..n];
  }

  lemma LeftOut<T>(s: seq<T>, k: nat)
    requires k < |s|
    ensures multiset(s[..k] + s[k + 1..]) == multiset(s) - multiset{s[k]}
  {
    assert s == s[..k] + [s[k]] + s[k + 1..];
  }

  lemma WithoutSnoc<T>(s: seq<T>, k: nat)
    requires k < |s| - 1
    ensures var rest, n := s[..k] + s[k + 1..], |s| - 1;
            |rest| == n && rest[n - 1] == s[n] && rest[..n - 1] == s[..n][..k] + s[..n][k + 1..]
  {
  }

  // ----- strictly sorted listings -----

  ghost predicate StrictlySorted(s: seq<string>) {
    forall i, j :: 0 <= i < j < |s| ==> StrLess(s[i], s[j])
  }

  ghost predicate Distinct<T>(s: seq<T>) {
    forall i, j :: 0 <= i < j < |s| ==> s[i] != s[j]
  }

  function Elements<T>(s: seq<T>): set<T> {
    set x | x in s
  }

  lemma DistinctFromMultiset<T>(s: seq<T>, t: seq<T>)
    requires Distinct(s) && multiset(s) == multiset(t)
    ensures Distinct(t) && Elements(t) == Elements(s)
  {
    forall x ensures (x in s) == (x in t) {
      assert x in multiset(s) <==> x in multiset(t);
      assert x in multiset(s) <==> x in s;
      assert x in multiset(t) <==> x in t;
    }
    forall i, j | 0 <= i < j < |t| ensures t[i] != t[j] {
      if t[i] == t[j] {
        TwiceInMultiset(t, i, j);
        OnceInMultiset(s, t[i]);
      }
    }
  }

  lemma TwiceInMultiset<T>(t: seq<T>, i: nat, j: nat)
    requires i < j < |t| && t[i] == t[j]
    ensures multiset(t)[t[i]] >= 2
  {
    assert t == t[..j] + [t[j]] + t[j + 1..];
    assert t[i] in t[..j];
    assert multiset(t[..j])[t[i]] >= 1;
  }

  lemma OnceInMultiset<T>(s: seq<T>, x: T)
    requires Distinct(s)
    ensures multiset(s)[x] <= 1
  {
    if |s| > 0 {
      var a := s[..|s| - 1];
      assert s == a + [s[|s| - 1]];
      OnceInMultiset(a, x);
      if x == s[|s| - 1] {
        assert x !in a;
        assert x !in multiset(a);
      }
    }
  }

  /** Sorting a duplicate-free list gives a strictly sorted one. */
  lemma SortedDistinctIsStrict(s: seq<string>)
    requires SortedBy(StrLeq, s) && Distinct(s)
    ensures StrictlySorted(s)
  {
  }

  lemma StrOrderIsTotal()
    ensures TotalPreorder(StrLeq)
  {
    forall x, y ensures StrLeq(x, y) || StrLeq(y, x) { StrLeqTotal(x, y); }
    forall x, y, z | StrLeq(x, y) && StrLeq(y, z) ensures StrLeq(x, z) { StrLeqTransitive(x, y, z); }
  }

  /** A set of strings has one strictly sorted listing, so two listings of it are equal. */
  lemma {:induction false} SortedListingUnique(s: seq<string>, t: seq<string>)
    requires StrictlySorted(s) && StrictlySorted(t)
    requires Elements(s) == Elements(t)
    ensures s == t
  {
    assert |s| > 0 ==> s[0] in Elements(s);
    assert |t| > 0 ==> t[0] in Elements(t);
    if s != [] && t != [] {
      assert s[0] in Elements(s) && t[0] in Elements(t);
      if s[0] != t[0] {
        var i :| 0 <= i < |t| && t[i] == s[0];
        var j :| 0 <= j < |s| && s[j] == t[0];
        StrLeqAntisymmetric(s[0], t[0]);
      }
      forall x ensures x in s[1..] <==> x in t[1..] {
        assert s == [s[0]] + s[1..] && t == [t[0]] + t[1..];
        assert x in s <==> x in Elements(s);
        assert x in t <==> x in Elements(t);
      }
      assert Elements(s[1..]) == Elements(t[1..]);
      SortedListingUnique(s[1..], t[1..]);
      assert s == [s[0]] + s[1..] && t == [t[0]] + t[1..];
    }
  }

  method SortStrings(s: seq<string>) returns (t: seq<string>)
    requires Distinct(s)
    ensures StrictlySorted(t) && Elements(t) == Elements(s) && |t| == |s|
  {
    StrOrderIsTotal();
    t := SortBy(s, StrLeq);
    DistinctFromMultiset(s, t);
    SortedDistinctIsStrict(t);
  }

  // ----- records sorted by a string key -----

  function Keys<T>(s: seq<T>, key: T -> string): seq<string> {
    seq(|s|, i requires 0 <= i < |s| => key(s[i]))
  }

  /** Sorts records whose keys differ; the result is the one listing in key order. */
  method SortByKey<T(!new)>(s: seq<T>, key: T -> string) returns (t: seq<T>)
    requires Distinct(Keys(s, key))
    ensures StrictlySorted(Keys(t, key)) && Elements(Keys(t, key)) == Elements(Keys(s, key))
    ensures multiset(t) == multiset(s) && |t| == |s|
  {
    var leq := (a: T, b: T) => StrLeq(key(a), key(b));
    StrOrderIsTotal();
    assert TotalPreorder(leq) by {
      forall x, y ensures leq(x, y) || leq(y, x) { StrLeqTotal(key(x), key(y)); }
      forall x, y, z | leq(x, y) && leq(y, z) ensures leq(x, z) { StrLeqTransitive(key(x), key(y), key(z)); }
    }
    t := SortBy(s, leq);
    SameMembers(s, t);
    forall i, j | 0 <= i < j < |t| ensures StrLess(Keys(t, key)[i], Keys(t, key)[j]) {
      assert leq(t[i], t[j]);
      KeysStayDistinct(s, t, key, i, j);
    }
    forall k ensures k in Keys(t, key) <==> k in Keys(s, key) {
      KeyOf(s, key, k);
      KeyOf(t, key, k);
    }
  }

  lemma KeysAppend<T>(s: seq<T>, x: T, key: T -> string)
    ensures Keys(s + [x], key) == Keys(s, key) + [key(x)]
  {
  }

  lemma SameMembers<T>(s: seq<T>, t: seq<T>)
    requires multiset(s) == multiset(t)
    ensures forall x :: x in s <==> x in t
  {
    forall x ensures x in s <==> x in t {
      assert x in s <==> x in multiset(s);
      assert x in t <==> x in multiset(t);
    }
  }

  lemma KeyOf<T>(s: seq<T>, key: T -> string, k: string)
    ensures k in Keys(s, key) <==> exists x :: x in s && key(x) == k
  {
    if k in Keys(s, key) {
      var i :| 0 <= i < |s| && Keys(s, key)[i] == k;
      assert s[i] in s;
    }
    if x :| x in s && key(x) == k {
      var i :| 0 <= i < |s| && s[i] == x;
      assert Keys(s, key)[i] == k;
    }
  }

  lemma KeysStayDistinct<T>(s: seq<T>, t: seq<T>, key: T -> string, i: nat, j: nat)
    requires Distinct(Keys(s, key)) && multiset(s) == multiset(t) && i < j < |t|
    ensures key(t[i]) != key(t[j])
  {
    forall a, b | 0 <= a < b < |s| ensures s[a] != s[b] {
      assert Keys(s, key)[a] != Keys(s, key)[b];
    }
    DistinctFromMultiset(s, t);
    SameMembers(s, t);
    assert t[i] in s && t[j] in s;
    var a :| 0 <= a < |s| && s[a] == t[i];
    var b :| 0 <= b < |s| && s[b] == t[j];
    assert Keys(s, key)[a] == key(t[i]) && Keys(s, key)[b] == key(t[j]);
    assert a != b;
  }

  // ----- the listing of a set -----

  lemma LeastExists(xs: set<string>) returns (m: string)
    requires xs != {}
    ensures m in xs && forall y :: y in xs ==> StrLeq(m, y)
  {
    var x :| x in xs;
    if xs == {x} {
      StrLeqReflexive(x);
      return x;
    }
    var rest := LeastExists(xs - {x});
    StrLeqTotal(x, rest);
    StrLeqReflexive(x);
    if StrLeq(x, rest) {
      forall y | y in xs ensures StrLeq(x, y) {
        if y != x { StrLeqTransitive(x, rest, y); }
      }
      return x;
    }
    return rest;
  }

  ghost function SortedListing(xs: set<string>): (r: seq<string>)
    ensures StrictlySorted(r) && Elements(r) == xs
  {
    if xs == {} then []
    else
      LeastOf(xs);
      var m :| m in xs && forall y :: y in xs ==> StrLeq(m, y);
      var rest := SortedListing(xs - {m});
      assert forall x :: x in rest <==> x in Elements(rest);
      [m] + rest
  }

  lemma LeastOf(xs: set<string>)
    requires xs != {}
    ensures exists m :: m in xs && forall y :: y in xs ==> StrLeq(m, y)
  {
    var m := LeastExists(xs);
  }

  /** Any strictly sorted list of the members of `xs` is its listing. */
  lemma ListingIs(s: seq<string>, xs: set<string>)
    requires StrictlySorted(s) && Elements(s) == xs
    ensures s == SortedListing(xs)
  {
    SortedListingUnique(s, SortedListing(xs));
  }
}
