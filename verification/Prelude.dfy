/** Vocabulary shared by every component: optional values, failures, ordered integers and finite sums. */
module Prelude {

  datatype Option<+T> = None | Some(value: T)

  datatype Result<+T, +E> = Success(value: T) | Failure(error: E)

  /** Strictly increasing, hence without repetition. */
  ghost predicate StrictlyAscending(s: seq<int>) {
    forall i, j :: 0 <= i < j < |s| ==> s[i] < s[j]
  }

  /** Some element of a non-empty set. */
  ghost function AnyOf<T>(s: set<T>): (x: T)
    requires s != {}
    ensures x in s
  {
    var x :| x in s; x
  }

  /** One step of iterating over a set: any element may come first. */
  method TakeAny<T>(s: set<T>) returns (x: T)
    requires s != {}
    ensures x in s && |s - {x}| < |s|
  {
    x :| x in s;
  }

  ghost predicate IsLeast(m: int, s: set<int>) {
    m in s && forall x :: x in s ==> m <= x
  }

  lemma LeastExists(s: set<int>) returns (m: int)
    requires s != {}
    ensures IsLeast(m, s)
  {
    var a := AnyOf(s);
    if s == {a} {
      m := a;
    } else {
      var b := LeastExists(s - {a});
      m := if a < b then a else b;
      SmallerIsLeast(s, a, b, m);
    }
  }

  lemma SmallerIsLeast(s: set<int>, a: int, b: int, m: int)
    requires a in s && IsLeast(b, s - {a}) && m == if a < b then a else b
    ensures IsLeast(m, s)
  {
    forall x | x in s ensures m <= x {
      assert x == a || x in s - {a};
    }
  }

  function Least(s: set<int>): (m: int)
    requires s != {}
    ensures m in s && forall x :: x in s ==> m <= x
  {
    assert exists m :: IsLeast(m, s) by {
      var m := LeastExists(s);
    }
    var m :| m in s && forall x :: x in s ==> m <= x;
    m
  }

  function Greatest(s: set<int>): (m: int)
    requires s != {}
    ensures m in s && forall x :: x in s ==> x <= m
  {
    var opposite := set x | x in s :: -x;
    assert -AnyOf(s) in opposite;
    var m := -Least(opposite);
    assert forall x :: x in s ==> -x in opposite;
    m
  }

  /** The elements of a set in increasing order: `sorted` of a Python set, `ORDER BY` of a key column. */
  function Ascending(s: set<int>): (r: seq<int>)
    ensures StrictlyAscending(r)
    ensures forall x :: x in r <==> x in s
    ensures |r| == |s|
  {
    if s == {} then [] else var m := Least(s); [m] + Ascending(s - {m})
  }

  lemma HeadIsMember<T>(s: seq<T>)
    ensures s != [] ==> s[0] in s
  {
  }

  lemma {:induction false} AscendingUnique(a: seq<int>, b: seq<int>)
    requires StrictlyAscending(a) && StrictlyAscending(b)
    requires forall x :: x in a <==> x in b
    ensures a == b
  {
    if a == [] {
      HeadIsMember(b);
    } else {
      assert a[0] in a && a[0] in b;
      assert b[0] in b && b[0] in a;
      assert a[0] == b[0];
      forall x ensures x in a[1..] <==> x in b[1..] {
        if x in a[1..] { assert x in b && x != b[0]; }
        if x in b[1..] { assert x in a && x != a[0]; }
      }
      AscendingUnique(a[1..], b[1..]);
    }
  }

  /** Distinct integers of an interval are no more than its length. */
  lemma {:induction false} AscendingFits(s: seq<int>, lo: int, hi: int)
    requires StrictlyAscending(s) && lo <= hi
    requires forall i :: 0 <= i < |s| ==> lo <= s[i] < hi
    ensures |s| <= hi - lo
  {
    if s != [] {
      AscendingFits(s[1..], s[0] + 1, hi);
    }
  }

  /** Pigeonhole: as many distinct integers as the interval has room for are the whole interval. */
  lemma {:induction false} AscendingFills(s: seq<int>, lo: int, hi: int)
    requires StrictlyAscending(s) && lo <= hi && |s| == hi - lo
    requires forall i :: 0 <= i < |s| ==> lo <= s[i] < hi
    ensures forall i :: 0 <= i < |s| ==> s[i] == lo + i
  {
    if s != [] {
      AscendingFits(s[1..], s[0] + 1, hi);
      assert s[0] == lo;
      AscendingFills(s[1..], lo + 1, hi);
    }
  }

  lemma TakeNext<T>(s: seq<T>, i: nat, x: T)
    requires i < |s| && s[i] == x
    ensures s[..i] + [x] == s[..i + 1]
  {
  }

  lemma SubsetOfEqualSize<T>(a: set<T>, b: set<T>)
    requires a <= b && |a| == |b|
    ensures a == b
  {
    assert |b - a| == |b| - |a|;
  }

  lemma SubsetSize<T>(a: set<T>, b: set<T>)
    requires a <= b
    ensures |a| <= |b|
  {
    assert b == a + (b - a);
  }

  lemma SameMaps<V>(a: map<int, V>, b: map<int, V>)
    requires forall k :: k in a <==> k in b
    requires forall k :: k in a && k in b ==> a[k] == b[k]
    ensures a == b
  {
    forall k ensures k in a <==> k in b {
    }
    forall k | k in b ensures a[k] == b[k] {
    }
  }

  /** Sum of `m` over the keys `s`, in any order (see SumWithout). */
  ghost function SumOver(s: set<int>, m: map<int, int>): int
    requires s <= m.Keys
  {
    if s == {} then 0 else var k := AnyOf(s); m[k] + SumOver(s - {k}, m)
  }

  lemma {:induction false} SumWithout(s: set<int>, m: map<int, int>, x: int)
    requires s <= m.Keys && x in s
    ensures SumOver(s, m) == m[x] + SumOver(s - {x}, m)
    decreases s
  {
    var k := AnyOf(s);
    if k != x {
      SumWithout(s - {k}, m, x);
      SumWithout(s - {x}, m, k);
      assert s - {k} - {x} == s - {x} - {k};
    }
  }

  lemma {:induction false} SumAgrees(s: set<int>, m: map<int, int>, n: map<int, int>)
    requires s <= m.Keys && s <= n.Keys
    requires forall k :: k in s ==> m[k] == n[k]
    ensures SumOver(s, m) == SumOver(s, n)
    decreases s
  {
    if s != {} {
      var k := AnyOf(s);
      SumWithout(s, m, k);
      SumWithout(s, n, k);
      SumAgrees(s - {k}, m, n);
    }
  }

  lemma OneMore(n: int, bound: int)
    ensures (n + 1) * bound == n * bound + bound
  {
  }

  lemma {:induction false} SumBounded(s: set<int>, m: map<int, int>, bound: int)
    requires s <= m.Keys
    requires forall k :: k in s ==> 0 <= m[k] <= bound
    ensures 0 <= SumOver(s, m) <= |s| * bound
    decreases s
  {
    if s != {} {
      var k := AnyOf(s);
      SumWithout(s, m, k);
      SumBounded(s - {k}, m, bound);
      OneMore(|s - {k}|, bound);
    }
  }

  lemma TailAbove(all: seq<int>, above: seq<int>, i: nat)
    requires StrictlyAscending(all) && StrictlyAscending(above) && i < |all|
    requires forall x :: x in above <==> x in all && x > all[i]
    ensures all[i + 1..] == above
  {
    var tail := all[i + 1..];
    forall x ensures x in tail <==> x in above {
      if x in tail {
        var j :| 0 <= j < |tail| && tail[j] == x;
        assert all[i + 1 + j] == x;
      }
      if x in above {
        var j :| 0 <= j < |all| && all[j] == x;
        assert tail[j - i - 1] == x;
      }
    }
    AscendingUnique(tail, above);
  }

  /** Dropping a sorted listing up to an element leaves the listing of what lies above that element. */
  lemma AscendingTail(s: set<int>, i: nat)
    requires i < |s|
    ensures Ascending(s)[i + 1..] == Ascending(set x | x in s && x > Ascending(s)[i])
  {
    var all := Ascending(s);
    TailAbove(all, Ascending(set x | x in s && x > all[i]), i);
  }

  /** Sets in one-to-one correspondence have the same size. */
  lemma {:induction false} SameSize<A, B>(a: set<A>, b: set<B>, f: A -> B, g: B -> A)
    requires forall x :: x in a ==> f(x) in b && g(f(x)) == x
    requires forall y :: y in b ==> g(y) in a && f(g(y)) == y
    ensures |a| == |b|
    decreases a
  {
    if a == {} {
      if b != {} { var y := AnyOf(b); }
    } else {
      var x := AnyOf(a);
      SameSize(a - {x}, b - {f(x)}, f, g);
    }
  }
}
