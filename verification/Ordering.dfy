/** Stable sorting by a total order, and the order of strings. */
module Ordering {
  ghost predicate Total<T(!new)>(leq: (T, T) -> bool) {
    forall x, y :: leq(x, y) || leq(y, x)
  }

  ghost predicate Transitive<T(!new)>(leq: (T, T) -> bool) {
    forall x, y, z :: leq(x, y) && leq(y, z) ==> leq(x, z)
  }

  ghost predicate Antisymmetric<T(!new)>(leq: (T, T) -> bool) {
    forall x, y :: leq(x, y) && leq(y, x) ==> x == y
  }

  ghost predicate Ordered<T>(leq: (T, T) -> bool, s: seq<T>) {
    forall i, j :: 0 <= i < j < |s| ==> leq(s[i], s[j])
  }

  function Insert<T>(leq: (T, T) -> bool, x: T, s: seq<T>): seq<T> {
    if s == [] then [x]
    else if leq(x, s[0]) then [x] + s
    else [s[0]] + Insert(leq, x, s[1..])
  }

  // The elements of `s` in order; elements that precede each other keep their places.
  function SortBy<T>(leq: (T, T) -> bool, s: seq<T>): seq<T> {
    if s == [] then [] else Insert(leq, s[0], SortBy(leq, s[1..]))
  }

  lemma {:induction false} InsertElements<T>(leq: (T, T) -> bool, x: T, s: seq<T>)
    ensures multiset(Insert(leq, x, s)) == multiset{x} + multiset(s)
  {
    if s != [] && !leq(x, s[0]) {
      InsertElements(leq, x, s[1..]);
      assert s == [s[0]] + s[1..];
    }
  }

  lemma {:induction false} SortElements<T>(leq: (T, T) -> bool, s: seq<T>)
    ensures multiset(SortBy(leq, s)) == multiset(s)
  {
    if s != [] {
      SortElements(leq, s[1..]);
      InsertElements(leq, s[0], SortBy(leq, s[1..]));
      assert s == [s[0]] + s[1..];
    }
  }

  lemma {:induction false} SortLength<T>(leq: (T, T) -> bool, s: seq<T>)
    ensures |SortBy(leq, s)| == |s|
    ensures forall x :: x in SortBy(leq, s) <==> x in s
  {
    SortElements(leq, s);
    assert |multiset(SortBy(leq, s))| == |multiset(s)|;
    forall x ensures x in SortBy(leq, s) <==> x in s {
      assert x in multiset(SortBy(leq, s)) <==> x in multiset(s);
    }
  }

  lemma {:induction false} InsertOrdered<T(!new)>(leq: (T, T) -> bool, x: T, s: seq<T>)
    requires Total(leq) && Transitive(leq) && Ordered(leq, s)
    ensures Ordered(leq, Insert(leq, x, s))
  {
    if s != [] {
      if leq(x, s[0]) {
        assert forall j :: 0 <= j < |s| ==> leq(x, s[j]);
      } else {
        InsertOrdered(leq, x, s[1..]);
        var rest := Insert(leq, x, s[1..]);
        InsertElements(leq, x, s[1..]);
        forall j | 0 <= j < |rest| ensures leq(s[0], rest[j]) {
          assert rest[j] in multiset(rest);
          assert rest[j] == x || rest[j] in s[1..];
        }
      }
    }
  }

  lemma {:induction false} SortOrdered<T(!new)>(leq: (T, T) -> bool, s: seq<T>)
    requires Total(leq) && Transitive(leq)
    ensures Ordered(leq, SortBy(leq, s))
  {
    if s != [] {
      SortOrdered(leq, s[1..]);
      InsertOrdered(leq, s[0], SortBy(leq, s[1..]));
    }
  }

  // An element that may not follow another one stands before it.
  lemma ComesBefore<T>(leq: (T, T) -> bool, s: seq<T>, i: nat, j: nat)
    requires Ordered(leq, s) && i < |s| && j < |s| && i != j && !leq(s[j], s[i])
    ensures i < j
  {
  }

  lemma SameFirst<T(!new)>(leq: (T, T) -> bool, s: seq<T>, t: seq<T>)
    requires Total(leq) && Antisymmetric(leq) && Ordered(leq, s) && Ordered(leq, t)
            && multiset(s) == multiset(t) && s != []
    ensures t != [] && s[0] == t[0]
  {
    assert s[0] in multiset(t);
    assert t[0] in multiset(s);
  }

  lemma TailElements<T>(s: seq<T>)
    requires s != []
    ensures multiset(s[1..]) == multiset(s) - multiset{s[0]}
  {
    assert s == [s[0]] + s[1..];
  }

  // Only one arrangement of given elements is in order.
  lemma {:induction false} OrderedUnique<T(!new)>(leq: (T, T) -> bool, s: seq<T>, t: seq<T>)
    requires Total(leq) && Antisymmetric(leq) && Ordered(leq, s) && Ordered(leq, t) && multiset(s) == multiset(t)
    ensures s == t
    decreases |s|
  {
    if s == [] {
      assert |multiset(t)| == 0;
    } else {
      SameFirst(leq, s, t);
      TailElements(s);
      TailElements(t);
      OrderedUnique(leq, s[1..], t[1..]);
      assert s == [s[0]] + s[1..] && t == [t[0]] + t[1..];
    }
  }

  lemma TwiceCounts<T>(s: seq<T>, i: nat, j: nat)
    requires i < j < |s| && s[i] == s[j]
    ensures multiset(s)[s[i]] >= 2
  {
    assert s == s[..i] + [s[i]] + s[i + 1..j] + [s[j]] + s[j + 1..];
  }

  // ----- strings, compared character by character

  predicate StringLeq(a: string, b: string) {
    a == [] || (b != [] && (a[0] < b[0] || (a[0] == b[0] && StringLeq(a[1..], b[1..]))))
  }

  lemma {:induction false} StringTotal(a: string, b: string)
    ensures StringLeq(a, b) || StringLeq(b, a)
  {
    if a != [] && b != [] && a[0] == b[0] {
      StringTotal(a[1..], b[1..]);
    }
  }

  lemma {:induction false} StringTransitive(a: string, b: string, c: string)
    requires StringLeq(a, b) && StringLeq(b, c)
    ensures StringLeq(a, c)
  {
    if a != [] && a[0] == b[0] == c[0] {
      StringTransitive(a[1..], b[1..], c[1..]);
    }
  }

  lemma {:induction false} StringAntisymmetric(a: string, b: string)
    requires StringLeq(a, b) && StringLeq(b, a)
    ensures a == b
  {
    if a != [] {
      StringAntisymmetric(a[1..], b[1..]);
      assert a == [a[0]] + a[1..] && b == [b[0]] + b[1..];
    }
  }

  lemma StringsOrdered()
    ensures Total(StringLeq) && Transitive(StringLeq)
  {
    forall a, b ensures StringLeq(a, b) || StringLeq(b, a) {
      StringTotal(a, b);
    }
    forall a, b, c | StringLeq(a, b) && StringLeq(b, c) ensures StringLeq(a, c) {
      StringTransitive(a, b, c);
    }
  }

  // The strings agree before `k`, where the first ends or has the smaller character.
  ghost predicate DecidedAt(a: string, b: string, k: nat) {
    && k <= |a| && k <= |b| && (forall j :: 0 <= j < k ==> a[j] == b[j])
    && (k == |a| || (k < |b| && a[k] < b[k]))
  }

  /** A string precedes another when it is a prefix of it, or has the smaller character where they first differ. */
  lemma {:induction false} StringLeqMeans(a: string, b: string)
    ensures StringLeq(a, b) <==> exists k: nat :: DecidedAt(a, b, k)
  {
    if a == "" {
      assert DecidedAt(a, b, 0);
    } else if b != "" && a[0] < b[0] {
      assert DecidedAt(a, b, 0);
    } else if b != "" && a[0] == b[0] {
      StringLeqMeans(a[1..], b[1..]);
      if k: nat :| DecidedAt(a[1..], b[1..], k) {
        DecidedMore(a, b, k);
      }
      if k: nat :| DecidedAt(a, b, k) {
        DecidedMore(a, b, k - 1);
      }
    }
  }

  lemma DecidedMore(a: string, b: string, k: nat)
    requires a != "" && b != "" && a[0] == b[0]
    ensures DecidedAt(a[1..], b[1..], k) <==> DecidedAt(a, b, k + 1)
  {
    if DecidedAt(a, b, k + 1) {
      forall j | 0 <= j < k ensures a[1..][j] == b[1..][j] {
        assert a[j + 1] == b[j + 1];
      }
    }
  }
}
