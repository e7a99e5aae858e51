/** The library sort the services rely on. */
module Sorting {
  ghost predicate TotalPreorder<T(!new)>(le: (T, T) -> bool) {
    (forall a, b :: le(a, b) || le(b, a)) && (forall a, b, c :: le(a, b) && le(b, c) ==> le(a, c))
  }

  ghost predicate SortedBy<T>(le: (T, T) -> bool, s: seq<T>) {
    forall i, j :: 0 <= i < j < |s| ==> le(s[i], s[j])
  }

  lemma Total<T(!new)>(le: (T, T) -> bool, a: T, b: T)
    requires TotalPreorder(le)
    ensures le(a, b) || le(b, a)
  {
  }

  lemma Transitive<T(!new)>(le: (T, T) -> bool, a: T, b: T, c: T)
    requires TotalPreorder(le) && le(a, b) && le(b, c)
    ensures le(a, c)
  {
  }

  /** Splicing `x` where it fits keeps the order. */
  lemma SpliceSorted<T(!new)>(le: (T, T) -> bool, s: seq<T>, k: nat, x: T)
    requires TotalPreorder(le) && SortedBy(le, s) && k <= |s|
    requires k > 0 ==> le(s[k - 1], x)
    requires forall i :: k <= i < |s| ==> le(x, s[i])
    ensures SortedBy(le, s[..k] + [x] + s[k..])
  {
    hide TotalPreorder;
    forall i | 0 <= i < k ensures le(s[i], x) {
      if i < k - 1 {
        Transitive(le, s[i], s[k - 1], x);
      }
    }
  }

  method Insert<T(!new)>(le: (T, T) -> bool, s: seq<T>, x: T) returns (r: seq<T>)
    requires TotalPreorder(le) && SortedBy(le, s)
    ensures SortedBy(le, r) && multiset(r) == multiset(s) + multiset{x}
  {
    hide TotalPreorder;
    var k := |s|;
    while k > 0 && !le(s[k - 1], x)
      invariant 0 <= k <= |s|
      invariant forall i :: k <= i < |s| ==> le(x, s[i])
    {
      Total(le, s[k - 1], x);
      k := k - 1;
    }
    r := s[..k] + [x] + s[k..];
    assert s == s[..k] + s[k..];
    SpliceSorted(le, s, k, x);
  }

  lemma SortedEmpty<T(!new)>(le: (T, T) -> bool)
    ensures SortedBy(le, [])
  {
  }

  method SortBy<T(!new)>(le: (T, T) -> bool, s: seq<T>) returns (r: seq<T>)
    requires TotalPreorder(le)
    ensures SortedBy(le, r) && multiset(r) == multiset(s)
  {
    hide TotalPreorder, SortedBy;
    SortedEmpty(le);
    r := [];
    for k := 0 to |s|
      invariant SortedBy(le, r) && multiset(r) == multiset(s[..k])
    {
      assert s[..k + 1] == s[..k] + [s[k]];
      r := Insert(le, r, s[k]);
    }
    assert s[..|s|] == s;
  }

  ghost predicate NoRepeats<T>(s: seq<T>) {
    forall i, j :: 0 <= i < j < |s| ==> s[i] != s[j]
  }

  lemma {:induction false} NoRepeatsCount<T>(s: seq<T>)
    ensures NoRepeats(s) <==> forall x :: x in s ==> multiset(s)[x] == 1
    decreases |s|
  {
    if s != [] {
      var front, x := s[..|s| - 1], s[|s| - 1];
      assert s == front + [x];
      NoRepeatsCount(front);
      if NoRepeats(s) {
        assert x !in front;
        forall y | y in s ensures multiset(s)[y] == 1 {
          if y != x {
            assert y in front;
          }
        }
      }
      if forall y :: y in s ==> multiset(s)[y] == 1 {
        assert multiset(s)[x] == multiset(front)[x] + 1;
        assert x !in multiset(front);
        forall y | y in front ensures multiset(front)[y] == 1 {
          assert y in s && y != x;
        }
      }
    }
  }

  /** Reordering keeps membership and distinctness. */
  lemma Reordered<T>(s: seq<T>, r: seq<T>)
    requires multiset(s) == multiset(r)
    ensures |s| == |r| && (NoRepeats(s) ==> NoRepeats(r))
    ensures forall x :: x in s <==> x in r
  {
    assert |multiset(s)| == |s| && |multiset(r)| == |r|;
    assert forall x :: x in s <==> x in multiset(s);
    assert forall x :: x in r <==> x in multiset(r);
    NoRepeatsCount(s);
    NoRepeatsCount(r);
  }
}
