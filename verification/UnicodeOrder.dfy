/** Strings ordered by Unicode scalars, and lists arranged by that order. */
module UnicodeOrder {
  import opened JsonText
  import opened Sorting
  import opened Permutations

  /** The code points of a string; a surrogate without its partner is its own. */
  function Points(t: Text): seq<int> {
    if t == [] then []
    else if High(t[0]) && |t| > 1 && Low(t[1]) then
      [0x1_0000 + (t[0] - 0xD800) * 0x400 + (t[1] - 0xDC00)] + Points(t[2..])
    else [t[0]] + Points(t[1..])
  }

  lemma {:induction false} PointsInjective(a: Text, b: Text)
    requires Points(a) == Points(b)
    ensures a == b
    decreases |a|
  {
    if a != [] {
      assert b != [];
      assert Points(a)[0] == Points(b)[0] && Points(a)[1..] == Points(b)[1..];
      var paired := Points(a)[0] >= 0x1_0000;
      assert paired <==> High(a[0]) && |a| > 1 && Low(a[1]);
      assert paired <==> High(b[0]) && |b| > 1 && Low(b[1]);
      if paired {
        assert a[0] == b[0] && a[1] == b[1];
        PointsInjective(a[2..], b[2..]);
        assert a == a[..2] + a[2..] && b == b[..2] + b[2..];
      } else {
        PointsInjective(a[1..], b[1..]);
        assert a == [a[0]] + a[1..] && b == [b[0]] + b[1..];
      }
    }
  }

  /** Hence comparing code points orders strings totally. */
  lemma {:induction false} ScalarOrder(a: Text, b: Text, c: Text)
    ensures LexLeq(Points(a), Points(b)) || LexLeq(Points(b), Points(a))
    ensures LexLeq(Points(a), Points(b)) && LexLeq(Points(b), Points(a)) <==> a == b
    ensures LexLeq(Points(a), Points(b)) && LexLeq(Points(b), Points(c)) ==> LexLeq(Points(a), Points(c))
  {
    LexTotal(Points(a), Points(b));
    LexReflexive(Points(a));
    if LexLeq(Points(a), Points(b)) && LexLeq(Points(b), Points(a)) {
      LexAntisymmetric(Points(a), Points(b));
      PointsInjective(a, b);
    }
    if LexLeq(Points(a), Points(b)) && LexLeq(Points(b), Points(c)) {
      LexTransitive(Points(a), Points(b), Points(c));
    }
  }

  lemma {:induction false} CommonPrefix(a: seq<int>, b: seq<int>, i: nat)
    requires i <= |a| && i <= |b| && a[..i] == b[..i]
    ensures LexLeq(a, b) <==> LexLeq(a[i..], b[i..])
  {
    if i > 0 {
      assert a[0] == a[..i][0] == b[..i][0] == b[0];
      assert a[1..][..i - 1] == a[..i][1..] && b[1..][..i - 1] == b[..i][1..];
      CommonPrefix(a[1..], b[1..], i - 1);
      assert a[1..][i - 1..] == a[i..] && b[1..][i - 1..] == b[i..];
    } else {
      assert a[0..] == a && b[0..] == b;
    }
  }

  /** `compareUnicodeScalars`: the sign of the difference in this order. */
  method CompareUnicodeScalars(left: Text, right: Text) returns (r: int)
    ensures r <= 0 <==> LexLeq(Points(left), Points(right))
    ensures r >= 0 <==> LexLeq(Points(right), Points(left))
    ensures r == 0 <==> left == right
  {
    var a, b := Points(left), Points(right);
    ScalarOrder(left, right, left);
    var length := if |a| < |b| then |a| else |b|;
    for i := 0 to length
      invariant a[..i] == b[..i]
    {
      CommonPrefix(a, b, i);
      CommonPrefix(b, a, i);
      if a[i] < b[i] { return -1; }
      if a[i] > b[i] { return 1; }
      assert a[..i + 1] == a[..i] + [a[i]] && b[..i + 1] == b[..i] + [b[i]];
    }
    CommonPrefix(a, b, length);
    CommonPrefix(b, a, length);
    r := |a| - |b|;
  }

  // ----- Lists arranged by name -----

  /** An item of a canonical list with the name it is sorted by. */
  datatype Keyed = Keyed(name: Text, value: Json)

  function ByName(k: Keyed): seq<int> { Points(k.name) }

  function Values(ks: seq<Keyed>): (r: seq<Json>)
    ensures |r| == |ks| && forall i :: 0 <= i < |r| ==> r[i] == ks[i].value
  {
    seq(|ks|, i requires 0 <= i < |ks| => ks[i].value)
  }

  function Arranged(ks: seq<Keyed>): (r: seq<Json>)
    ensures |r| == |ks|
  {
    Values(SortBy(ks, ByName))
  }

  /** Items show their names. */
  ghost predicate ValuesName(xs: seq<Keyed>, ys: seq<Keyed>) {
    forall x, y :: x in xs && y in ys && x.value == y.value ==> x.name == y.name
  }

  /** Items with one name are one item. */
  ghost predicate Unrepeated(xs: seq<Keyed>) {
    forall x, y :: x in xs && y in xs && x.name == y.name ==> x == y
  }

  lemma {:induction false} SortedMembers(ks: seq<Keyed>)
    ensures forall k :: k in SortBy(ks, ByName) <==> k in ks
  {
    SortByMeaning(ks, ByName);
    forall k ensures k in SortBy(ks, ByName) <==> k in ks {
      assert k in SortBy(ks, ByName) <==> k in multiset(SortBy(ks, ByName));
      assert k in ks <==> k in multiset(ks);
    }
  }

  lemma {:induction false} ValuesDetermine(xs: seq<Keyed>, ys: seq<Keyed>)
    requires ValuesName(xs, ys) && Values(xs) == Values(ys)
    ensures xs == ys
  {
    assert |xs| == |Values(xs)| == |ys|;
    forall i | 0 <= i < |xs| ensures xs[i] == ys[i] {
      assert Values(xs)[i] == Values(ys)[i];
      assert xs[i] in xs && ys[i] in ys;
    }
  }

  /** Lists arranged alike hold the same items; and conversely when no name is
      shared by different items. */
  lemma {:induction false} ArrangedAlike(xs: seq<Keyed>, ys: seq<Keyed>)
    requires ValuesName(xs, ys)
    ensures Arranged(xs) == Arranged(ys) ==> exists p :: Pairs(xs, ys, p)
    ensures Unrepeated(xs) && (exists p :: Pairs(xs, ys, p)) ==> Arranged(xs) == Arranged(ys)
  {
    RearrangedIffPaired(xs, ys);
    if Arranged(xs) == Arranged(ys) {
      SortedMembers(xs);
      SortedMembers(ys);
      ValuesDetermine(SortBy(xs, ByName), SortBy(ys, ByName));
      SortByMeaning(xs, ByName);
      SortByMeaning(ys, ByName);
    }
    if Unrepeated(xs) {
      NamesSeparate(xs);
      SortCanonical(xs, ys, ByName);
    }
  }

  lemma {:induction false} NamesSeparate(xs: seq<Keyed>)
    requires Unrepeated(xs)
    ensures KeysSeparate(multiset(xs), ByName)
  {
    forall x, y | x in multiset(xs) && y in multiset(xs) && ByName(x) == ByName(y) ensures x == y {
      PointsInjective(x.name, y.name);
    }
  }

  lemma {:induction false} SortedStays<T>(xs: seq<T>, key: T -> seq<int>)
    requires SortedBy(xs, key)
    ensures SortBy(xs, key) == xs
  {
    if |xs| > 1 {
      SortedStays(xs[1..], key);
      assert LexLeq(key(xs[0]), key(xs[1]));
    }
  }

  /** Arranging an arranged list changes nothing. */
  lemma {:induction false} ArrangedAgain(ks: seq<Keyed>)
    ensures Arranged(SortBy(ks, ByName)) == Arranged(ks)
  {
    SortByMeaning(ks, ByName);
    SortedStays(SortBy(ks, ByName), ByName);
  }

  // ----- Repeated names: the order of the input shows -----

  lemma {:induction false} InsertEqual<T>(x: T, y: T, s: seq<T>, key: T -> seq<int>)
    requires key(x) == key(y) && x != y
    ensures Insert(x, Insert(y, s, key), key) != Insert(y, Insert(x, s, key), key)
  {
    LexReflexive(key(x));
    if s == [] || LexLeq(key(x), key(s[0])) {
      InsertFirst(x, y, s, key);
      InsertFirst(y, x, s, key);
    } else {
      InsertEqual(x, y, s[1..], key);
      InsertLater(x, y, s, key);
      InsertLater(y, x, s, key);
    }
  }

  lemma {:induction false} InsertFirst<T>(x: T, y: T, s: seq<T>, key: T -> seq<int>)
    requires key(x) == key(y) && LexLeq(key(x), key(y)) && (s == [] || LexLeq(key(x), key(s[0])))
    ensures Insert(x, Insert(y, s, key), key)[0] == x
  {
    assert Insert(y, s, key)[0] == y;
  }

  lemma {:induction false} InsertLater<T>(x: T, y: T, s: seq<T>, key: T -> seq<int>)
    requires s != [] && key(x) == key(y) && !LexLeq(key(x), key(s[0]))
    ensures Insert(x, Insert(y, s, key), key)[1..] == Insert(x, Insert(y, s[1..], key), key)
  {
    var t := Insert(y, s, key);
    assert t == [s[0]] + Insert(y, s[1..], key);
    assert t[0] == s[0] && t[1..] == Insert(y, s[1..], key);
  }

  /** Sorting is the same for every rearrangement of a list exactly when equal keys
      mean equal elements. */
  lemma {:induction false} ArrangementIndependent<T(!new)>(xs: seq<T>, key: T -> seq<int>)
    ensures KeysSeparate(multiset(xs), key) <==> forall ys :: multiset(ys) == multiset(xs) ==> SortBy(ys, key) == SortBy(xs, key)
  {
    if KeysSeparate(multiset(xs), key) {
      forall ys | multiset(ys) == multiset(xs) ensures SortBy(ys, key) == SortBy(xs, key) {
        SortCanonical(ys, xs, key);
      }
    } else {
      var x, y :| x in multiset(xs) && y in multiset(xs) && key(x) == key(y) && x != y;
      var ys, zs := Swapped(xs, x, y, key);
    }
  }

  lemma {:induction false} Swapped<T>(xs: seq<T>, x: T, y: T, key: T -> seq<int>) returns (ys: seq<T>, zs: seq<T>)
    requires x in multiset(xs) && y in multiset(xs) && key(x) == key(y) && x != y
    ensures multiset(ys) == multiset(zs) == multiset(xs) && SortBy(ys, key) != SortBy(zs, key)
  {
    var i :| 0 <= i < |xs| && xs[i] == x;
    var w := Without(xs, i);
    WithoutMultiset(xs, i);
    assert y in multiset(w);
    var j :| 0 <= j < |w| && w[j] == y;
    var rest := Without(w, j);
    WithoutMultiset(w, j);
    ys, zs := [x] + ([y] + rest), [y] + ([x] + rest);
    SortTwo(x, y, rest, key);
    SortTwo(y, x, rest, key);
    InsertEqual(x, y, SortBy(rest, key), key);
  }

  lemma {:induction false} SortTwo<T>(x: T, y: T, rest: seq<T>, key: T -> seq<int>)
    ensures SortBy([x] + ([y] + rest), key) == Insert(x, Insert(y, SortBy(rest, key), key), key)
  {
    var one := [y] + rest;
    assert one[1..] == rest && ([x] + one)[1..] == one;
  }

  /** A canonical list is the same for every order of its input exactly when items
      of one name are one item. */
  lemma {:induction false} ArrangedIndependent(items: seq<Keyed>)
    requires ValuesName(items, items)
    ensures Unrepeated(items) <==> forall ks :: multiset(ks) == multiset(items) ==> Arranged(ks) == Arranged(items)
  {
    if Unrepeated(items) {
      NamesSeparate(items);
      forall ks | multiset(ks) == multiset(items) ensures Arranged(ks) == Arranged(items) {
        SortCanonical(ks, items, ByName);
      }
    } else {
      var ks := OrderShows(items);
    }
  }

  lemma {:induction false} OrderShows(items: seq<Keyed>) returns (ks: seq<Keyed>)
    requires ValuesName(items, items) && !Unrepeated(items)
    ensures multiset(ks) == multiset(items) && Arranged(ks) != Arranged(items)
  {
    var x, y :| x in items && y in items && x.name == y.name && x != y;
    assert x in multiset(items) && y in multiset(items) && ByName(x) == ByName(y);
    assert !KeysSeparate(multiset(items), ByName);
    ArrangementIndependent(items, ByName);
    ks :| multiset(ks) == multiset(items) && SortBy(ks, ByName) != SortBy(items, ByName);
    SameMembers(ks, items);
    SortedMembers(ks);
    SortedMembers(items);
    if Arranged(ks) == Arranged(items) { ValuesDetermine(SortBy(ks, ByName), SortBy(items, ByName)); }
  }

  lemma {:induction false} SameMembers(ks: seq<Keyed>, items: seq<Keyed>)
    requires multiset(ks) == multiset(items)
    ensures forall k :: k in ks <==> k in items
  {
    forall k ensures k in ks <==> k in items {
      assert k in ks <==> k in multiset(ks);
      assert k in items <==> k in multiset(items);
    }
  }

  // ----- Lists of other things, by the items they are printed as -----

  /** `p` pairs elements related by `r`. */
  ghost predicate PairedBy<T(!new)>(xs: seq<T>, ys: seq<T>, r: (T, T) -> bool, p: seq<nat>) {
    |xs| == |ys| && Permutation(p, |xs|) && forall i :: 0 <= i < |xs| ==> r(xs[i], ys[p[i]])
  }

  ghost predicate Rearranged<T(!new)>(xs: seq<T>, ys: seq<T>, r: (T, T) -> bool) {
    exists p :: PairedBy(xs, ys, r, p)
  }

  ghost predicate ItemsReflect<T(!new)>(xs: seq<T>, ys: seq<T>, ks: seq<Keyed>, ls: seq<Keyed>, r: (T, T) -> bool)
    requires |ks| == |xs| && |ls| == |ys|
  {
    forall i, j :: 0 <= i < |xs| && 0 <= j < |ys| && ks[i] == ls[j] ==> r(xs[i], ys[j])
  }

  ghost predicate ItemsPreserve<T(!new)>(xs: seq<T>, ys: seq<T>, ks: seq<Keyed>, ls: seq<Keyed>, r: (T, T) -> bool)
    requires |ks| == |xs| && |ls| == |ys|
  {
    forall i, j :: 0 <= i < |xs| && 0 <= j < |ys| && r(xs[i], ys[j]) ==> ks[i] == ls[j]
  }

  lemma {:induction false} ArrangedBy<T(!new)>(xs: seq<T>, ys: seq<T>, ks: seq<Keyed>, ls: seq<Keyed>, r: (T, T) -> bool)
    requires |ks| == |xs| && |ls| == |ys| && ValuesName(ks, ls) && ItemsReflect(xs, ys, ks, ls, r)
    ensures Arranged(ks) == Arranged(ls) ==> Rearranged(xs, ys, r)
    ensures Unrepeated(ks) && ItemsPreserve(xs, ys, ks, ls, r) && Rearranged(xs, ys, r) ==> Arranged(ks) == Arranged(ls)
  {
    ArrangedAlike(ks, ls);
    if p :| Pairs(ks, ls, p) { assert PairedBy(xs, ys, r, p); }
    if ItemsPreserve(xs, ys, ks, ls, r) && Rearranged(xs, ys, r) {
      var p :| PairedBy(xs, ys, r, p);
      assert Pairs(ks, ls, p);
    }
  }

  function TextItems(ts: seq<Text>): (r: seq<Keyed>)
    ensures |r| == |ts| && forall i :: 0 <= i < |r| ==> r[i] == Keyed(ts[i], Json.Str(ts[i]))
  {
    seq(|ts|, i requires 0 <= i < |ts| => Keyed(ts[i], Json.Str(ts[i])))
  }

  /** Sorted strings: the same exactly for rearrangements. */
  lemma {:induction false} TextsArranged(xs: seq<Text>, ys: seq<Text>)
    ensures Arranged(TextItems(xs)) == Arranged(TextItems(ys)) <==> multiset(xs) == multiset(ys)
  {
    var ks, ls := TextItems(xs), TextItems(ys);
    ArrangedAlike(ks, ls);
    RearrangedIffPaired(xs, ys);
    if p :| Pairs(ks, ls, p) {
      forall i | 0 <= i < |xs| ensures xs[i] == ys[p[i]] { assert ks[i] == ls[p[i]]; }
      assert Pairs(xs, ys, p);
    }
    if p :| Pairs(xs, ys, p) {
      forall i | 0 <= i < |xs| ensures ks[i] == ls[p[i]] { assert xs[i] == ys[p[i]]; }
      assert Pairs(ks, ls, p);
    }
  }
}
