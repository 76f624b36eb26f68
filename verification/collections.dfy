/** Facts about finite sets, bags and sequences. */
module Collections {

  /** The indices 0..n-1. */
  ghost function Range(n: nat): (s: set<int>)
    ensures forall i :: i in s <==> 0 <= i < n
    ensures |s| == n
  {
    if n == 0 then {} else Range(n - 1) + {n - 1}
  }

  lemma Pick<T>(s: set<T>) returns (x: T)
    requires s != {}
    ensures x in s
  {
    x :| x in s;
  }

  lemma {:induction false} SubsetSize<T>(a: set<T>, b: set<T>)
    requires a <= b
    ensures |a| <= |b|
    ensures a != b ==> |a| < |b|
  {
    if a == {} {
    } else {
      var x :| x in a;
      SubsetSize(a - {x}, b - {x});
      assert b == (b - {x}) + {x};
      assert a == (a - {x}) + {x};
    }
  }

  lemma CountUpTo(s: set<int>, i: nat)
    ensures |s * Range(i + 1)| == |s * Range(i)| + if i in s then 1 else 0
  {
    if i in s {
      assert s * Range(i + 1) == (s * Range(i)) + {i};
    } else {
      assert s * Range(i + 1) == s * Range(i);
    }
  }

  lemma BagCancel<T>(a: multiset<T>, b: multiset<T>, c: multiset<T>)
    requires a + c == b + c
    ensures a == b
  {
    assert a == (a + c) - c;
    assert b == (b + c) - c;
  }

  /** Sums of smaller bags are smaller, and equal only if their parts are. */
  lemma BagSums<T(!new)>(a: multiset<T>, b: multiset<T>, a': multiset<T>, b': multiset<T>)
    requires a <= a' && b <= b'
    ensures a + b <= a' + b'
    ensures a + b == a' + b' <==> a == a' && b == b'
  {
    if a + b == a' + b' {
      forall x ensures a[x] == a'[x] && b[x] == b'[x] {
        assert (a + b)[x] == (a' + b')[x];
        assert a[x] <= a'[x] && b[x] <= b'[x];
      }
    }
  }

  /** The sequence with two of its elements exchanged. */
  function Swapped<T>(line: seq<T>, p: nat, q: nat): (line': seq<T>)
    requires p < q < |line|
    ensures |line'| == |line|
  {
    line[p := line[q]][q := line[p]]
  }
}
