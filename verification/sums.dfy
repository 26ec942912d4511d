/** Totals over sequences, and sorting by a real-valued key. */
module Sums {

  function Sum<T>(s: seq<T>, f: T -> real): real {
    if s == [] then 0.0 else Sum(s[..|s| - 1], f) + f(s[|s| - 1])
  }

  function Total(s: seq<int>): int {
    if s == [] then 0 else Total(s[..|s| - 1]) + s[|s| - 1]
  }

  function Id(x: real): real {
    x
  }

  ghost predicate SortedBy<T>(s: seq<T>, f: T -> real) {
    forall i, j :: 0 <= i < j < |s| ==> f(s[i]) <= f(s[j])
  }

  lemma {:induction false} SumAppend<T>(s: seq<T>, t: seq<T>, f: T -> real)
    ensures Sum(s + t, f) == Sum(s, f) + Sum(t, f)
  {
    if t == [] {
      assert s + t == s;
    } else {
      assert (s + t)[..|s + t| - 1] == s + t[..|t| - 1];
      SumAppend(s, t[..|t| - 1], f);
    }
  }

  lemma {:induction false} SumNonNegative<T>(s: seq<T>, f: T -> real)
    requires forall x :: x in s ==> f(x) >= 0.0
    ensures Sum(s, f) >= 0.0
  {
    if s != [] {
      SumNonNegative(s[..|s| - 1], f);
    }
  }

  function Without<T>(s: seq<T>, i: nat): (r: seq<T>)
    requires i < |s|
    ensures |r| == |s| - 1
  {
    s[..i] + s[i + 1..]
  }

  lemma SplitAround<T>(s: seq<T>, i: nat)
    requires i < |s|
    ensures s == s[..i] + ([s[i]] + s[i + 1..])
    ensures multiset(s) == multiset(Without(s, i)) + multiset{s[i]}
  {
    assert s == s[..i] + ([s[i]] + s[i + 1..]);
  }

  lemma SumOne<T>(x: T, f: T -> real)
    ensures Sum([x], f) == f(x)
  {
    assert [x][..0] == [];
  }

  lemma SumWithout<T>(s: seq<T>, i: nat, f: T -> real)
    requires i < |s|
    ensures multiset(s) == multiset(Without(s, i)) + multiset{s[i]}
    ensures Sum(s, f) == Sum(Without(s, i), f) + f(s[i])
  {
    SplitAround(s, i);
    SumAppend(s[..i], [s[i]] + s[i + 1..], f);
    SumAppend([s[i]], s[i + 1..], f);
    SumAppend(s[..i], s[i + 1..], f);
    SumOne(s[i], f);
  }

  lemma CancelOne<T>(a: multiset<T>, b: multiset<T>, x: T)
    requires a + multiset{x} <= b + multiset{x}
    ensures a <= b
  {
    forall y | y in a ensures a[y] <= b[y] {
      assert (a + multiset{x})[y] <= (b + multiset{x})[y];
    }
  }

  /** Taking a sub-multiset t out of s leaves some rest, and the totals add up. */
  lemma {:induction false} SumRest<T>(t: seq<T>, s: seq<T>, f: T -> real) returns (rest: seq<T>)
    requires multiset(t) <= multiset(s)
    ensures multiset(s) == multiset(t) + multiset(rest)
    ensures Sum(s, f) == Sum(t, f) + Sum(rest, f)
    ensures |s| == |t| + |rest|
  {
    if t == [] {
      rest := s;
    } else {
      var x, t' := t[|t| - 1], t[..|t| - 1];
      assert t == t' + [x];
      assert x in multiset(t);
      var i :| 0 <= i < |s| && s[i] == x;
      SumWithout(s, i, f);
      CancelOne(multiset(t'), multiset(Without(s, i)), x);
      rest := SumRest(t', Without(s, i), f);
    }
  }

  lemma SumPermutation<T>(t: seq<T>, s: seq<T>, f: T -> real)
    requires multiset(t) == multiset(s)
    ensures Sum(t, f) == Sum(s, f) && |t| == |s|
  {
    var rest := SumRest(t, s, f);
    assert |multiset(s)| == |multiset(t)| + |multiset(rest)|;
    assert rest == [];
  }

  lemma SumPart<T>(t: seq<T>, s: seq<T>, f: T -> real)
    requires multiset(t) <= multiset(s)
    requires forall x :: x in s ==> f(x) >= 0.0
    ensures Sum(t, f) <= Sum(s, f)
  {
    var rest := SumRest(t, s, f);
    forall x | x in rest ensures f(x) >= 0.0 {
      assert x in multiset(rest) && x in multiset(s);
    }
    SumNonNegative(rest, f);
  }

  lemma SumPrefix<T>(s: seq<T>, k: nat, f: T -> real)
    requires 0 < k <= |s|
    ensures Sum(s[..k], f) == Sum(s[..k - 1], f) + f(s[k - 1])
  {
    assert s[..k][..k - 1] == s[..k - 1];
  }

  lemma SumSlice<T>(s: seq<T>, b: nat, e: nat, f: T -> real)
    requires b < e <= |s|
    ensures Sum(s[b..e], f) == Sum(s[b..e - 1], f) + f(s[e - 1])
  {
    assert s[b..e][..e - 1 - b] == s[b..e - 1];
  }

  lemma SubSlice<T>(s: seq<T>, a: nat, b: nat, p: nat, q: nat)
    requires a <= p <= q <= b <= |s|
    ensures s[a..b][p - a..q - a] == s[p..q]
  {
    forall k | 0 <= k < q - p ensures s[a..b][p - a..q - a][k] == s[p..q][k] {
      assert s[a..b][p - a..q - a][k] == s[a..b][p - a + k];
    }
  }

  lemma DropAbsent<T>(t: seq<T>, s: seq<T>, x: T)
    requires multiset(t) <= multiset(s) + multiset{x} && x !in t
    ensures multiset(t) <= multiset(s)
  {
    assert multiset(t)[x] == 0;
  }

  lemma WholeOrLess<T>(t: seq<T>, s: seq<T>, f: T -> real)
    requires multiset(t) <= multiset(s)
    ensures |t| <= |s|
    ensures |t| == |s| ==> Sum(s[..|t|], f) == Sum(t, f)
  {
    var rest := SumRest(t, s, f);
    assert s[..|s|] == s;
  }

  lemma LastIsDear<T>(s: seq<T>, t: seq<T>, i: nat, f: T -> real)
    requires SortedBy(s, f) && 0 < |t| <= |s|
    requires i < |t| && t[i] == s[|s| - 1]
    requires Sum(s[..|t| - 1], f) <= Sum(Without(t, i), f)
    ensures Sum(s[..|t|], f) <= Sum(t, f)
  {
    SumWithout(t, i, f);
    SumPrefix(s, |t|, f);
  }

  lemma WithoutPart<T>(s: seq<T>, t: seq<T>, i: nat)
    requires multiset(t) <= multiset(s) && s != []
    requires i < |t| && t[i] == s[|s| - 1]
    ensures multiset(Without(t, i)) <= multiset(s[..|s| - 1])
  {
    SumWithout(t, i, _ => 0.0);
    assert s == s[..|s| - 1] + [s[|s| - 1]];
    CancelOne(multiset(Without(t, i)), multiset(s[..|s| - 1]), t[i]);
  }

  lemma SortedInit<T>(s: seq<T>, f: T -> real)
    requires SortedBy(s, f) && s != []
    ensures SortedBy(s[..|s| - 1], f)
  {
    var s' := s[..|s| - 1];
    assert forall i :: 0 <= i < |s'| ==> s'[i] == s[i];
  }

  /** The k first elements of a sorted sequence have the least total of any k of its elements. */
  lemma {:induction false} LeastTotal<T>(s: seq<T>, t: seq<T>, f: T -> real)
    requires SortedBy(s, f)
    requires multiset(t) <= multiset(s)
    ensures |t| <= |s|
    ensures Sum(s[..|t|], f) <= Sum(t, f)
    decreases |s|
  {
    WholeOrLess(t, s, f);
    var k := |t|;
    if 0 < k < |s| {
      var x, s' := s[|s| - 1], s[..|s| - 1];
      if x in t {
        var i :| 0 <= i < k && t[i] == x;
        WithoutPart(s, t, i);
        SortedInit(s, f);
        LeastTotal(s', Without(t, i), f);
        assert s'[..k - 1] == s[..k - 1];
        LastIsDear(s, t, i, f);
      } else {
        assert s == s' + [x];
        DropAbsent(t, s', x);
        SortedInit(s, f);
        LeastTotal(s', t, f);
        assert s'[..k] == s[..k];
      }
    }
  }

  function Insert<T>(x: T, s: seq<T>, f: T -> real): seq<T> {
    if s == [] || f(s[|s| - 1]) <= f(x) then s + [x] else Insert(x, s[..|s| - 1], f) + [s[|s| - 1]]
  }

  lemma {:induction false} InsertKeeps<T>(x: T, s: seq<T>, f: T -> real)
    ensures multiset(Insert(x, s, f)) == multiset(s) + multiset{x}
  {
    if !(s == [] || f(s[|s| - 1]) <= f(x)) {
      assert s == s[..|s| - 1] + [s[|s| - 1]];
      InsertKeeps(x, s[..|s| - 1], f);
    }
  }

  lemma SortedAppend<T>(s: seq<T>, y: T, f: T -> real)
    requires SortedBy(s, f) && forall x :: x in s ==> f(x) <= f(y)
    ensures SortedBy(s + [y], f)
  {
  }

  lemma {:induction false} InsertSorts<T>(x: T, s: seq<T>, f: T -> real)
    requires SortedBy(s, f)
    ensures SortedBy(Insert(x, s, f), f)
  {
    if s != [] {
      var s', y := s[..|s| - 1], s[|s| - 1];
      assert forall z :: z in s' ==> f(z) <= f(y);
      if f(y) <= f(x) {
        SortedAppend(s, x, f);
      } else {
        InsertSorts(x, s', f);
        forall z | z in Insert(x, s', f) ensures f(z) <= f(y) {
          InsertKeeps(x, s', f);
          assert z in multiset(Insert(x, s', f));
        }
        SortedAppend(Insert(x, s', f), y, f);
      }
    }
  }

  /** Sorts a copy by the key. Callers know no more than this contract: any order among ties. */
  method Sort<T>(s: seq<T>, f: T -> real) returns (r: seq<T>)
    ensures SortedBy(r, f)
    ensures multiset(r) == multiset(s)
  {
    r := [];
    for n := 0 to |s|
      invariant SortedBy(r, f)
      invariant multiset(r) == multiset(s[..n])
    {
      assert s[..n + 1] == s[..n] + [s[n]];
      InsertSorts(s[n], r, f);
      InsertKeeps(s[n], r, f);
      r := Insert(s[n], r, f);
    }
    assert s[..|s|] == s;
  }
}
