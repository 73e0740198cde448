/** Facts about finite sequences shared by the routers and the chains. */
module Sequences {

  predicate Distinct<T(==)>(s: seq<T>) {
    forall i, j :: 0 <= i < j < |s| ==> s[i] != s[j]
  }

  function Elements<T>(s: seq<T>): set<T> {
    set x | x in s
  }

  /** The list as a round-robin pointer at `k` sees it. */
  function Rotate<T>(s: seq<T>, k: nat): seq<T>
    requires k <= |s|
  {
    s[k..] + s[..k]
  }

  /** Python's `list.index`. */
  function IndexOf<T(==)>(s: seq<T>, x: T): (i: nat)
    requires x in s
    ensures i < |s| && s[i] == x
    ensures forall j :: 0 <= j < i ==> s[j] != x
  {
    if s[0] == x then 0 else 1 + IndexOf(s[1..], x)
  }

  lemma RotateKeepsElements<T>(s: seq<T>, k: nat)
    requires k <= |s|
    ensures multiset(Rotate(s, k)) == multiset(s)
    ensures forall x :: x in Rotate(s, k) <==> x in s
  {
    assert s[..k] + s[k..] == s;
    assert multiset(s[k..]) + multiset(s[..k]) == multiset(s[..k] + s[k..]);
  }

  lemma RotateDistinct<T>(s: seq<T>, k: nat)
    requires k <= |s| && Distinct(s)
    ensures Distinct(Rotate(s, k))
  {
  }

  lemma DistinctSize<T>(s: seq<T>)
    requires Distinct(s)
    ensures |Elements(s)| == |s|
  {
    if s != [] {
      var n := |s| - 1;
      DistinctSize(s[..n]);
      assert s[..n] + [s[n]] == s;
      assert Elements(s) == Elements(s[..n]) + {s[n]};
      assert s[n] !in s[..n];
    }
  }

  /** A repetition-free list drawn from a finite set is no longer than the set. */
  lemma DistinctWithin<T>(s: seq<T>, within: set<T>)
    requires Distinct(s) && Elements(s) <= within
    ensures |s| <= |within|
  {
    DistinctSize(s);
    SubsetSize(Elements(s), within);
  }

  lemma SubsetSize<T>(a: set<T>, b: set<T>)
    requires a <= b
    ensures |a| <= |b|
  {
    assert b == a + (b - a);
  }

  lemma ElementsSize<T>(s: seq<T>)
    ensures |Elements(s)| <= |s|
  {
    if s != [] {
      var n := |s| - 1;
      ElementsSize(s[..n]);
      assert s[..n] + [s[n]] == s;
      assert Elements(s) == Elements(s[..n]) + {s[n]};
    }
  }

  /** `a % n` for an operand below `2 * n`: all the modular arithmetic a ring of `n` places needs. */
  lemma ModWrap(a: nat, n: nat)
    requires 0 < n && a < 2 * n
    ensures a % n == if a < n then a else a - n
  {
    var q, r := a / n, a % n;
    assert a == n * q + r && 0 <= r < n;
    assert q < 2 by {
      if q >= 2 {
        MulMonotone(n, 2, q);
        assert false;
      }
    }
    assert q == 0 || q == 1;
  }

  lemma MulMonotone(n: nat, a: nat, b: nat)
    requires a <= b
    ensures n * a <= n * b
  {
  }

  /** How many members of a prefix lie outside a set, one element at a time. */
  lemma OutsideCount<T>(x: T, rest: seq<T>, within: set<T>)
    requires x !in rest
    ensures |Elements([x] + rest) - within| == (if x in within then 0 else 1) + |Elements(rest) - (within + {x})|
  {
    var outside := Elements(rest) - (within + {x});
    if x in within {
      assert Elements([x] + rest) - within == outside;
    } else {
      assert Elements([x] + rest) - within == outside + {x};
    }
  }

  lemma DistinctPrefix<T>(s: seq<T>, j: nat)
    requires Distinct(s) && j < |s|
    ensures s[j] in s && s[j] !in Elements(s[..j])
  {
  }

  lemma SliceStep<T>(s: seq<T>, n: nat)
    requires n < |s|
    ensures s[n..] != [] && s[n..][0] == s[n] && s[n..][1..] == s[n + 1..]
  {
  }

  /** The round-robin pointer moved just past `x`: `(s.index(x) + 1) % len(s)`. */
  function NextPointer<T(==)>(s: seq<T>, x: T): (p: nat)
    requires x in s
    ensures p < |s|
  {
    var i := IndexOf(s, x) + 1;
    if i == |s| then 0 else i
  }

  lemma NextPointerIsMod<T>(s: seq<T>, x: T)
    requires x in s
    ensures NextPointer(s, x) == (IndexOf(s, x) + 1) % |s|
  {
    ModWrap(IndexOf(s, x) + 1, |s|);
  }

  /** ... and from there `x` is visited last. */
  lemma NextPointerSeesLast<T>(s: seq<T>, x: T)
    requires x in s
    ensures Rotate(s, NextPointer(s, x))[|s| - 1] == x
  {
  }

  lemma IndexOfDistinct<T>(s: seq<T>, i: nat)
    requires Distinct(s) && i < |s|
    ensures s[i] in s && IndexOf(s, s[i]) == i
  {
  }

  lemma RotateTwice<T>(s: seq<T>, k: nat, m: nat)
    requires k < |s| && m <= |s|
    ensures Rotate(Rotate(s, k), m) == Rotate(s, if k + m <= |s| then k + m else k + m - |s|)
  {
    var r := Rotate(s, k);
    if k + m <= |s| {
      assert r[m..] == s[k + m..] + s[..k] && r[..m] == s[k..k + m];
      assert s[..k] + s[k..k + m] == s[..k + m];
    } else {
      var d := k + m - |s|;
      assert r[m..] == s[d..k] && r[..m] == s[k..] + s[..d];
      assert s[d..k] + s[k..] == s[d..];
    }
  }

  /** Moving the pointer past the `j`-th visited element rotates the visiting order by `j + 1`. */
  lemma PointerRotates<T>(s: seq<T>, k: nat, j: nat)
    requires Distinct(s) && k < |s| && j < |s|
    ensures Rotate(s, k)[j] in s
    ensures Rotate(s, NextPointer(s, Rotate(s, k)[j])) == Rotate(Rotate(s, k), j + 1)
  {
    var i := if k + j < |s| then k + j else k + j - |s|;
    assert Rotate(s, k)[j] == s[i];
    IndexOfDistinct(s, i);
    RotateTwice(s, k, j + 1);
    assert Rotate(s, |s|) == Rotate(s, 0);
  }
}
