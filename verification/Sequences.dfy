/** Facts about sequences that several modules use. */
module Sequences {
  ghost predicate NoDuplicates<T>(s: seq<T>) {
    forall i, j :: 0 <= i < j < |s| ==> s[i] != s[j]
  }

  ghost function Elements<T>(s: seq<T>): set<T> { set x | x in s }

  lemma OneMoreElement<T>(s: seq<T>, x: T)
    requires NoDuplicates(s) && x !in Elements(s)
    ensures NoDuplicates(s + [x]) && Elements(s + [x]) == Elements(s) + {x}
  {
  }

  lemma {:induction false} ElementsCount<T>(s: seq<T>)
    ensures |Elements(s)| <= |s|
    ensures |Elements(s)| == |s| <==> NoDuplicates(s)
  {
    if s != [] {
      var front, last := s[..|s| - 1], s[|s| - 1];
      ElementsCount(front);
      assert s == front + [last];
      assert Elements(s) == Elements(front) + {last};
      if last in front {
        assert Elements(s) == Elements(front);
        var i :| 0 <= i < |front| && front[i] == last;
        assert s[i] == s[|s| - 1];
      } else if NoDuplicates(front) {
        assert NoDuplicates(s);
      }
    }
  }

  lemma SubsetOfSameSize<T>(a: set<T>, b: set<T>)
    requires a <= b && |a| == |b|
    ensures a == b
  {
    assert b == a + (b - a);
    assert |b - a| == 0;
  }

  lemma {:induction false} MultiplicityWithoutDuplicates<T>(s: seq<T>, x: T)
    requires NoDuplicates(s)
    ensures multiset(s)[x] == if x in s then 1 else 0
  {
    if s != [] {
      var front, last := s[..|s| - 1], s[|s| - 1];
      assert s == front + [last];
      MultiplicityWithoutDuplicates(front, x);
      assert multiset(s) == multiset(front) + multiset{last};
    }
  }

  lemma SameElementsSameMultiset<T>(a: seq<T>, b: seq<T>)
    requires NoDuplicates(a) && NoDuplicates(b)
    ensures Elements(a) == Elements(b) <==> multiset(a) == multiset(b)
  {
    if Elements(a) == Elements(b) {
      forall x ensures multiset(a)[x] == multiset(b)[x] {
        MultiplicityWithoutDuplicates(a, x);
        MultiplicityWithoutDuplicates(b, x);
        assert x in a <==> x in Elements(a);
        assert x in b <==> x in Elements(b);
      }
    } else if multiset(a) == multiset(b) {
      forall x ensures x in Elements(a) <==> x in Elements(b) {
        assert x in a <==> x in multiset(a);
        assert x in b <==> x in multiset(b);
      }
    }
  }

  lemma NoDuplicatesAsMultiset<T>(a: seq<T>, b: seq<T>)
    requires multiset(a) == multiset(b)
    ensures NoDuplicates(a) <==> NoDuplicates(b)
  {
    assert |multiset(a)| == |a| && |multiset(b)| == |b|;
    forall x ensures x in Elements(a) <==> x in Elements(b) {
      assert x in a <==> x in multiset(a);
      assert x in b <==> x in multiset(b);
    }
    assert Elements(a) == Elements(b);
    ElementsCount(a);
    ElementsCount(b);
  }

  lemma RemoveElement<T>(s: seq<T>, k: nat)
    requires k < |s|
    ensures multiset(s[..k] + s[k + 1..]) == multiset(s) - multiset{s[k]}
  {
    assert s == s[..k] + [s[k]] + s[k + 1..];
  }

  lemma TakenOut<T>(s: seq<T>, x: T) returns (rest: seq<T>)
    requires x in s
    ensures multiset(s) == multiset{x} + multiset(rest)
  {
    var i :| 0 <= i < |s| && s[i] == x;
    rest := s[..i] + s[i + 1..];
    RemoveElement(s, i);
  }

  lemma PutFirst<T>(x: T, rest: seq<T>)
    ensures multiset([x] + rest) == multiset{x} + multiset(rest)
  {
  }

  /** A sum over the elements. */
  ghost function Weigh<T>(s: seq<T>, weight: T -> nat): nat {
    if s == [] then 0 else Weigh(s[..|s| - 1], weight) + weight(s[|s| - 1])
  }

  lemma {:induction false} WeighRemoves<T>(s: seq<T>, weight: T -> nat, k: nat)
    requires k < |s|
    ensures Weigh(s, weight) == Weigh(s[..k] + s[k + 1..], weight) + weight(s[k])
    decreases |s|
  {
    var n := |s| - 1;
    var front := s[..n];
    if k == n {
      assert s[..k] + s[k + 1..] == front;
    } else {
      WeighRemoves(front, weight, k);
      assert (s[..k] + s[k + 1..])[..n - 1] == front[..k] + front[k + 1..];
    }
  }

  lemma WithoutLast<T>(a: seq<T>, b: seq<T>, k: nat)
    requires multiset(a) == multiset(b) && a != [] && k < |b| && b[k] == a[|a| - 1]
    ensures multiset(a[..|a| - 1]) == multiset(b[..k] + b[k + 1..])
  {
    var n := |a| - 1;
    assert a[..n] + a[n + 1..] == a[..n];
    RemoveElement(a, n);
    RemoveElement(b, k);
  }

  lemma {:induction false} WeighPermuted<T>(a: seq<T>, b: seq<T>, weight: T -> nat)
    requires multiset(a) == multiset(b)
    ensures Weigh(a, weight) == Weigh(b, weight)
    decreases |a|
  {
    assert |multiset(a)| == |a| && |multiset(b)| == |b|;
    if a != [] {
      var n := |a| - 1;
      assert a[n] in multiset(b);
      var k :| 0 <= k < |b| && b[k] == a[n];
      WithoutLast(a, b, k);
      WeighRemoves(b, weight, k);
      WeighPermuted(a[..n], b[..k] + b[k + 1..], weight);
    }
  }

  lemma Associates<T>(a: seq<T>, b: seq<T>, c: seq<T>)
    ensures a + (b + c) == (a + b) + c
  {
  }

  lemma SamePrefix<T>(a: seq<T>, b: seq<T>, c: seq<T>)
    requires a + c == b + c
    ensures a == b
  {
    assert |a| == |b| && a == (a + c)[..|a|] && b == (b + c)[..|b|];
  }

  lemma SameHead<T>(p: seq<T>, q: seq<T>)
    requires p != [] && q != [] && p + q == q + p
    ensures p[0] == q[0]
  {
    assert (p + q)[0] == p[0] && (q + p)[0] == q[0];
  }
}
