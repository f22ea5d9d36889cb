/** Searching sequences and counting sets of numbers. */
module Collections {
  /** The first element from `from` on that has the property, or |s|. */
  function First<T>(s: seq<T>, has: T -> bool, from: nat): (k: nat)
    requires from <= |s|
    ensures from <= k <= |s|
    ensures forall i | from <= i < k :: !has(s[i])
    ensures k < |s| ==> has(s[k])
    decreases |s| - from
  {
    if from == |s| || has(s[from]) then from else First(s, has, from + 1)
  }

  lemma {:induction false} SubsetSize<T>(a: set<T>, b: set<T>)
    requires a <= b
    ensures |a| <= |b|
    decreases a
  {
    if a != {} {
      var x :| x in a;
      SubsetSize(a - {x}, b - {x});
    }
  }

  /** A set of numbers below n has at most n elements, and n only if it has all of them. */
  lemma {:induction false} BelowCount(n: nat, s: set<nat>)
    requires forall j | j in s :: j < n
    ensures |s| <= n
    ensures |s| == n ==> forall j: nat | j < n :: j in s
  {
    if n == 0 {
      assert s == {};
    } else {
      var below := s - {n - 1};
      BelowCount(n - 1, below);
      if n - 1 in s {
        assert |below| == |s| - 1;
        assert forall j: nat | j < n - 1 :: j in below ==> j in s;
      } else {
        assert s == below;
      }
    }
  }

  lemma {:induction false} AllBelow(n: nat, s: set<nat>)
    requires forall k: nat | k < n :: k in s
    ensures |s| >= n
  {
    if n > 0 {
      assert n - 1 in s;
      AllBelow(n - 1, s - {n - 1});
    }
  }

  /** One element more, or none. */
  lemma OneMoreOrNone(s: set<nat>, t: set<nat>, x: nat, more: bool)
    requires x !in s && forall y :: y in t <==> y in s || (y == x && more)
    ensures |t| == |s| + if more then 1 else 0
  {
    assert t == if more then s + {x} else s;
  }

  ghost function ElementsOf(q: seq<nat>): set<nat> {
    set x | x in q
  }

  lemma {:induction false} DistinctCount(q: seq<nat>)
    ensures |ElementsOf(q)| <= |q|
  {
    if q == [] {
      assert ElementsOf(q) == {};
    } else {
      var init := q[..|q| - 1];
      DistinctCount(init);
      assert q == init + [q[|q| - 1]];
      assert ElementsOf(q) == ElementsOf(init) + {q[|q| - 1]};
    }
  }
}
