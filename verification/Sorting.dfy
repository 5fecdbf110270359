/** Lexicographic order on integer sequences, stable sorting by an order key,
    and the facts that make a sorted arrangement canonical.

    Every string order in the repository (UTF-8 bytes, UTF-16 code units,
    Unicode scalars) is the lexicographic order of some integer sequence. */
module Sorting {

  /** Array comparison: the first difference decides, a proper prefix is less. */
  predicate LexLeq(a: seq<int>, b: seq<int>) {
    a == [] || (b != [] && (a[0] < b[0] || (a[0] == b[0] && LexLeq(a[1..], b[1..]))))
  }

  predicate LexLess(a: seq<int>, b: seq<int>) {
    LexLeq(a, b) && a != b
  }

  lemma {:induction false} LexReflexive(a: seq<int>)
    ensures LexLeq(a, a)
  {
    if a != [] { LexReflexive(a[1..]); }
  }

  lemma {:induction false} LexTotal(a: seq<int>, b: seq<int>)
    ensures LexLeq(a, b) || LexLeq(b, a)
  {
    if a != [] && b != [] { LexTotal(a[1..], b[1..]); }
  }

  lemma {:induction false} LexAntisymmetric(a: seq<int>, b: seq<int>)
    requires LexLeq(a, b) && LexLeq(b, a)
    ensures a == b
  {
    if a != [] && b != [] {
      LexAntisymmetric(a[1..], b[1..]);
      assert a == [a[0]] + a[1..] && b == [b[0]] + b[1..];
    }
  }

  lemma {:induction false} LexTransitive(a: seq<int>, b: seq<int>, c: seq<int>)
    requires LexLeq(a, b) && LexLeq(b, c)
    ensures LexLeq(a, c)
  {
    if a != [] && b != [] && c != [] && a[0] == b[0] == c[0] {
      LexTransitive(a[1..], b[1..], c[1..]);
    }
  }

  /** No element precedes one with a smaller key. */
  ghost predicate SortedBy<T>(xs: seq<T>, key: T -> seq<int>) {
    forall i, j :: 0 <= i < j < |xs| ==> LexLeq(key(xs[i]), key(xs[j]))
  }

  /** Insertion before the first element whose key is not less, which makes sorting stable. */
  function Insert<T>(x: T, xs: seq<T>, key: T -> seq<int>): (r: seq<T>)
    ensures |r| == |xs| + 1
  {
    if xs == [] then [x]
    else if LexLeq(key(x), key(xs[0])) then [x] + xs
    else [xs[0]] + Insert(x, xs[1..], key)
  }

  /** The stable ascending arrangement of `xs` by `key`. */
  function SortBy<T>(xs: seq<T>, key: T -> seq<int>): (r: seq<T>)
    ensures |r| == |xs|
  {
    if xs == [] then [] else Insert(xs[0], SortBy(xs[1..], key), key)
  }

  lemma {:induction false} InsertKeeps<T>(x: T, xs: seq<T>, key: T -> seq<int>)
    ensures multiset(Insert(x, xs, key)) == multiset{x} + multiset(xs)
  {
    if xs != [] {
      InsertKeeps(x, xs[1..], key);
      assert xs == [xs[0]] + xs[1..];
    }
  }

  lemma {:induction false} SortedCons<T>(x: T, xs: seq<T>, key: T -> seq<int>)
    requires SortedBy(xs, key)
    requires forall y :: y in xs ==> LexLeq(key(x), key(y))
    ensures SortedBy([x] + xs, key)
  {
  }

  lemma {:induction false} InsertSorts<T>(x: T, xs: seq<T>, key: T -> seq<int>)
    requires SortedBy(xs, key)
    ensures SortedBy(Insert(x, xs, key), key)
  {
    if xs != [] {
      if LexLeq(key(x), key(xs[0])) {
        forall y | y in xs ensures LexLeq(key(x), key(y)) {
          FirstIsLeast(xs, y, key);
          LexTransitive(key(x), key(xs[0]), key(y));
        }
        SortedCons(x, xs, key);
      } else {
        LexTotal(key(x), key(xs[0]));
        var rest := Insert(x, xs[1..], key);
        InsertSorts(x, xs[1..], key);
        InsertKeeps(x, xs[1..], key);
        forall y | y in rest ensures LexLeq(key(xs[0]), key(y)) {
          assert y in multiset(rest);
          if y != x {
            assert y in multiset(xs[1..]);
            FirstIsLeast(xs, y, key);
          }
        }
        SortedCons(xs[0], rest, key);
      }
    }
  }

  lemma {:induction false} FirstIsLeast<T>(xs: seq<T>, y: T, key: T -> seq<int>)
    requires SortedBy(xs, key) && y in xs
    ensures LexLeq(key(xs[0]), key(y))
  {
    var i :| 0 <= i < |xs| && xs[i] == y;
    if i == 0 {
      LexReflexive(key(y));
    }
  }

  lemma {:induction false} SortByMeaning<T>(xs: seq<T>, key: T -> seq<int>)
    ensures multiset(SortBy(xs, key)) == multiset(xs)
    ensures SortedBy(SortBy(xs, key), key)
  {
    if xs != [] {
      SortByMeaning(xs[1..], key);
      InsertKeeps(xs[0], SortBy(xs[1..], key), key);
      InsertSorts(xs[0], SortBy(xs[1..], key), key);
      assert xs == [xs[0]] + xs[1..];
    }
  }

  /** Distinct elements of the collection have distinct keys. */
  ghost predicate KeysSeparate<T>(xs: multiset<T>, key: T -> seq<int>) {
    forall x, y :: x in xs && y in xs && key(x) == key(y) ==> x == y
  }

  lemma {:induction false} TailMultiset<T>(xs: seq<T>)
    requires xs != []
    ensures multiset(xs[1..]) == multiset(xs) - multiset{xs[0]}
  {
    assert xs == [xs[0]] + xs[1..];
  }

  lemma {:induction false} SameLeast<T>(xs: seq<T>, ys: seq<T>, key: T -> seq<int>)
    requires multiset(xs) == multiset(ys) && xs != []
    requires SortedBy(xs, key) && SortedBy(ys, key)
    requires KeysSeparate(multiset(xs), key)
    ensures ys != [] && xs[0] == ys[0]
  {
    assert xs[0] in multiset(ys);
    assert ys[0] in multiset(xs);
    FirstIsLeast(xs, ys[0], key);
    FirstIsLeast(ys, xs[0], key);
    LexAntisymmetric(key(xs[0]), key(ys[0]));
  }

  /** A sorted arrangement of a multiset with separating keys is unique. */
  lemma {:induction false} SortedUnique<T>(xs: seq<T>, ys: seq<T>, key: T -> seq<int>)
    requires multiset(xs) == multiset(ys)
    requires SortedBy(xs, key) && SortedBy(ys, key)
    requires KeysSeparate(multiset(xs), key)
    ensures xs == ys
  {
    if xs == [] {
      assert |multiset(ys)| == 0;
    } else {
      SameLeast(xs, ys, key);
      TailMultiset(xs);
      TailMultiset(ys);
      SortedUnique(xs[1..], ys[1..], key);
      assert xs == [xs[0]] + xs[1..] && ys == [ys[0]] + ys[1..];
    }
  }

  /** Sorting forgets exactly the order: two sequences sort alike iff each is a
      rearrangement of the other. */
  lemma {:induction false} SortCanonical<T>(xs: seq<T>, ys: seq<T>, key: T -> seq<int>)
    requires KeysSeparate(multiset(xs), key)
    ensures SortBy(xs, key) == SortBy(ys, key) <==> multiset(xs) == multiset(ys)
  {
    SortByMeaning(xs, key);
    SortByMeaning(ys, key);
    if multiset(xs) == multiset(ys) {
      SortedUnique(SortBy(xs, key), SortBy(ys, key), key);
    }
  }
}

/** Rearrangements: equality of multisets as a pairing of positions. */
module Permutations {

  ghost predicate Permutation(p: seq<nat>, n: nat) {
    && |p| == n
    && (forall i :: 0 <= i < n ==> p[i] < n)
    && (forall i, j :: 0 <= i < j < n ==> p[i] != p[j])
  }

  /** The permutation that moves nothing. */
  function InPlace(n: nat): (p: seq<nat>)
    ensures |p| == n && forall i :: 0 <= i < n ==> p[i] == i
    ensures Permutation(p, n)
  {
    seq(n, i requires 0 <= i < n => i)
  }

  /** `p` pairs each element of `xs` with an equal element of `ys`. */
  ghost predicate Pairs<T(!new)>(xs: seq<T>, ys: seq<T>, p: seq<nat>) {
    |xs| == |ys| && Permutation(p, |xs|) && forall i :: 0 <= i < |xs| ==> xs[i] == ys[p[i]]
  }

  function Without<T>(xs: seq<T>, k: nat): (r: seq<T>)
    requires k < |xs|
    ensures |r| == |xs| - 1
  {
    xs[..k] + xs[k + 1..]
  }

  lemma {:induction false} WithoutMultiset<T>(xs: seq<T>, k: nat)
    requires k < |xs|
    ensures multiset(xs) == multiset(Without(xs, k)) + multiset{xs[k]}
  {
    assert xs == xs[..k] + [xs[k]] + xs[k + 1..];
  }

  lemma {:induction false} Cancel<T>(a: multiset<T>, b: multiset<T>, c: multiset<T>)
    requires a + c == b + c
    ensures a == b
  {
    assert a == (a + c) - c && b == (b + c) - c;
  }

  /** Positions of a shortened sequence, as positions of the original. */
  function Lift(p: seq<nat>, k: nat): (r: seq<nat>)
    ensures |r| == |p|
    ensures forall i :: 0 <= i < |p| ==> r[i] == if p[i] < k then p[i] else p[i] + 1
  {
    seq(|p|, i requires 0 <= i < |p| => if p[i] < k then p[i] else p[i] + 1)
  }

  function Lower(p: seq<nat>, k: nat): (r: seq<nat>)
    ensures |r| == |p|
    ensures forall i :: 0 <= i < |p| ==> r[i] == if p[i] > k then p[i] - 1 else p[i]
  {
    seq(|p|, i requires 0 <= i < |p| => if p[i] > k then p[i] - 1 else p[i])
  }

  lemma {:induction false} LiftPairs<T(!new)>(xs: seq<T>, ys: seq<T>, k: nat, q: seq<nat>)
    requires xs != [] && k < |ys| && ys[k] == xs[0]
    requires Pairs(xs[1..], Without(ys, k), q)
    ensures Pairs(xs, ys, [k] + Lift(q, k))
  {
    var p := [k] + Lift(q, k);
    forall i | 0 <= i < |xs| ensures p[i] < |xs| && xs[i] == ys[p[i]] {
      if i > 0 {
        assert xs[1..][i - 1] == Without(ys, k)[q[i - 1]];
      }
    }
    forall i, j | 0 <= i < j < |xs| ensures p[i] != p[j] {
      if i > 0 {
        assert q[i - 1] != q[j - 1];
      }
    }
  }

  lemma {:induction false} PairingOf<T(!new)>(xs: seq<T>, ys: seq<T>) returns (p: seq<nat>)
    requires multiset(xs) == multiset(ys)
    ensures Pairs(xs, ys, p)
  {
    assert |multiset(xs)| == |xs| && |multiset(ys)| == |ys|;
    if xs == [] {
      p := [];
    } else {
      assert xs[0] in multiset(ys);
      var k :| 0 <= k < |ys| && ys[k] == xs[0];
      WithoutMultiset(ys, k);
      WithoutMultiset(xs, 0);
      assert Without(xs, 0) == xs[1..];
      Cancel(multiset(xs[1..]), multiset(Without(ys, k)), multiset{xs[0]});
      var q := PairingOf(xs[1..], Without(ys, k));
      p := [k] + Lift(q, k);
      LiftPairs(xs, ys, k, q);
    }
  }

  lemma {:induction false} LowerPairs<T(!new)>(xs: seq<T>, ys: seq<T>, p: seq<nat>)
    requires Pairs(xs, ys, p) && xs != []
    ensures Pairs(xs[1..], Without(ys, p[0]), Lower(p[1..], p[0]))
  {
    var k := p[0];
    var q := Lower(p[1..], k);
    forall i | 0 <= i < |xs| - 1 ensures q[i] < |xs| - 1 && xs[1..][i] == Without(ys, k)[q[i]] {
      assert p[1..][i] == p[i + 1] && p[0] != p[i + 1];
    }
    forall i, j | 0 <= i < j < |xs| - 1 ensures q[i] != q[j] {
      assert p[i + 1] != p[j + 1] && p[0] != p[i + 1] && p[0] != p[j + 1];
    }
  }

  lemma {:induction false} PairingMultiset<T(!new)>(xs: seq<T>, ys: seq<T>, p: seq<nat>)
    requires Pairs(xs, ys, p)
    ensures multiset(xs) == multiset(ys)
  {
    if xs != [] {
      LowerPairs(xs, ys, p);
      PairingMultiset(xs[1..], Without(ys, p[0]), Lower(p[1..], p[0]));
      WithoutMultiset(ys, p[0]);
      WithoutMultiset(xs, 0);
      assert Without(xs, 0) == xs[1..];
    }
  }

  /** Two sequences are rearrangements of each other iff their positions pair up. */
  lemma {:induction false} RearrangedIffPaired<T(!new)>(xs: seq<T>, ys: seq<T>)
    ensures multiset(xs) == multiset(ys) <==> exists p :: Pairs(xs, ys, p)
  {
    if multiset(xs) == multiset(ys) {
      var p := PairingOf(xs, ys);
    }
    if p :| Pairs(xs, ys, p) {
      PairingMultiset(xs, ys, p);
    }
  }
}
