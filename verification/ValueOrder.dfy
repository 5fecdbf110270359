/** Values that are the same but for the order of their record fields, and why
    limits and duplicate checks see neither that order nor any other. */
module ValueOrder {
  import opened Permutations
  import opened Itf
  import opened ValueIdentity
  import opened OpaqueItf

  ghost predicate Alike(a: Value, b: Value)
    decreases a
  {
    match a
    case Set(xs) => b.Set? && |xs| == |b.items| && forall i :: 0 <= i < |xs| ==> Alike(xs[i], b.items[i])
    case Seq(xs) => b.Seq? && |xs| == |b.items| && forall i :: 0 <= i < |xs| ==> Alike(xs[i], b.items[i])
    case Tuple(xs) => b.Tuple? && |xs| == |b.items| && forall i :: 0 <= i < |xs| ==> Alike(xs[i], b.items[i])
    case Record(fs) =>
      b.Record? && |fs| == |b.fields| && exists p :: Permutation(p, |fs|) && forall i :: 0 <= i < |fs| ==>
        fs[i].name == b.fields[p[i]].name && Alike(fs[i].value, b.fields[p[i]].value)
    case Map(es) =>
      b.Map? && |es| == |b.entries|
      && forall i :: 0 <= i < |es| ==> Alike(es[i].key, b.entries[i].key) && Alike(es[i].value, b.entries[i].value)
    case Variant(tag, value) => b.Variant? && b.tag == tag && Alike(value, b.value)
    case _ => a == b
  }

  /** `p` pairs fields of the same name with like values. */
  ghost predicate FieldsPaired(fs: seq<Field>, gs: seq<Field>, p: seq<nat>) {
    && |fs| == |gs| && Permutation(p, |fs|)
    && forall i :: 0 <= i < |fs| ==> AlikeField(fs[i], gs[p[i]])
  }

  ghost predicate AlikeField(f: Field, g: Field) {
    f.name == g.name && Alike(f.value, g.value)
  }

  lemma {:induction false} RecordsAlike(fs: seq<Field>, gs: seq<Field>)
    ensures Alike(Record(fs), Record(gs)) <==> exists p :: FieldsPaired(fs, gs, p)
  {
    if Alike(Record(fs), Record(gs)) {
      var p :| Permutation(p, |fs|) && forall i :: 0 <= i < |fs| ==>
        fs[i].name == gs[p[i]].name && Alike(fs[i].value, gs[p[i]].value);
      assert FieldsPaired(fs, gs, p);
    }
    if p :| FieldsPaired(fs, gs, p) {
      forall i | 0 <= i < |fs| ensures fs[i].name == gs[p[i]].name && Alike(fs[i].value, gs[p[i]].value) {
        assert AlikeField(fs[i], gs[p[i]]);
      }
    }
  }

  lemma {:induction false} PermutationOnto(p: seq<nat>, n: nat, j: nat) returns (i: nat)
    requires Permutation(p, n) && j < n
    ensures i < n && p[i] == j
  {
    var numbers: seq<nat> := seq(n, k => k);
    assert Pairs(p, numbers, p);
    PairingMultiset(p, numbers, p);
    assert numbers[j] == j;
    assert j in multiset(p);
    i :| 0 <= i < n && p[i] == j;
  }

  lemma {:induction false} AlikeReflexive(v: Value)
    ensures Alike(v, v)
    decreases v
  {
    match v
    case Set(xs) => forall i | 0 <= i < |xs| ensures Alike(xs[i], xs[i]) { AlikeReflexive(xs[i]); }
    case Seq(xs) => forall i | 0 <= i < |xs| ensures Alike(xs[i], xs[i]) { AlikeReflexive(xs[i]); }
    case Tuple(xs) => forall i | 0 <= i < |xs| ensures Alike(xs[i], xs[i]) { AlikeReflexive(xs[i]); }
    case Record(fs) =>
      var p := seq(|fs|, k => k);
      forall i | 0 <= i < |fs| ensures AlikeField(fs[i], fs[p[i]]) { AlikeReflexive(fs[i].value); }
      assert FieldsPaired(fs, fs, p);
      RecordsAlike(fs, fs);
    case Map(es) =>
      forall i | 0 <= i < |es| ensures Alike(es[i].key, es[i].key) && Alike(es[i].value, es[i].value) {
        AlikeReflexive(es[i].key);
        AlikeReflexive(es[i].value);
      }
    case Variant(_, value) => AlikeReflexive(value);
    case _ =>
  }

  lemma {:induction false} AlikeWellFormed(a: Value, b: Value)
    requires Alike(a, b) && WellFormed(a)
    ensures WellFormed(b)
    decreases a
  {
    match a
    case Set(xs) => forall i | 0 <= i < |xs| ensures WellFormed(b.items[i]) { AlikeWellFormed(xs[i], b.items[i]); }
    case Seq(xs) => forall i | 0 <= i < |xs| ensures WellFormed(b.items[i]) { AlikeWellFormed(xs[i], b.items[i]); }
    case Tuple(xs) => forall i | 0 <= i < |xs| ensures WellFormed(b.items[i]) { AlikeWellFormed(xs[i], b.items[i]); }
    case Record(fs) =>
      RecordsAlike(fs, b.fields);
      var p :| FieldsPaired(fs, b.fields, p);
      forall j | 0 <= j < |fs| ensures WellFormed(b.fields[j].value) {
        var i := PermutationOnto(p, |fs|, j);
        assert AlikeField(fs[i], b.fields[p[i]]);
        AlikeWellFormed(fs[i].value, b.fields[j].value);
      }
      PairedDistinct(fs, b.fields, p);
    case Map(es) =>
      forall i | 0 <= i < |es| ensures WellFormed(b.entries[i].key) && WellFormed(b.entries[i].value) {
        AlikeWellFormed(es[i].key, b.entries[i].key);
        AlikeWellFormed(es[i].value, b.entries[i].value);
      }
    case Variant(_, value) => AlikeWellFormed(value, b.value);
    case _ =>
  }

  lemma {:induction false} PairedDistinct(fs: seq<Field>, gs: seq<Field>, p: seq<nat>)
    requires FieldsPaired(fs, gs, p) && DistinctFields(fs)
    ensures DistinctFields(gs)
  {
    forall i, j | 0 <= i < j < |gs| ensures gs[i].name != gs[j].name {
      var x := PermutationOnto(p, |fs|, i);
      var y := PermutationOnto(p, |fs|, j);
      assert AlikeField(fs[x], gs[p[x]]) && AlikeField(fs[y], gs[p[y]]);
      assert x != y;
    }
  }

  /** Hence the checks of a value do not see the order of its fields. */
  lemma {:induction false} AlikeSame(a: Value, b: Value)
    requires Alike(a, b)
    ensures Same(a, b)
    decreases a
  {
    match a
    case Set(xs) =>
      var p := seq(|xs|, k => k);
      assert Permutation(p, |xs|);
      forall i | 0 <= i < |xs| ensures Same(xs[i], b.items[p[i]]) { AlikeSame(xs[i], b.items[i]); }
    case Seq(xs) => forall i | 0 <= i < |xs| ensures Same(xs[i], b.items[i]) { AlikeSame(xs[i], b.items[i]); }
    case Tuple(xs) => forall i | 0 <= i < |xs| ensures Same(xs[i], b.items[i]) { AlikeSame(xs[i], b.items[i]); }
    case Record(fs) =>
      RecordsAlike(fs, b.fields);
      var p :| FieldsPaired(fs, b.fields, p);
      forall i | 0 <= i < |fs| ensures fs[i].name == b.fields[p[i]].name && Same(fs[i].value, b.fields[p[i]].value) {
        assert AlikeField(fs[i], b.fields[p[i]]);
        AlikeSame(fs[i].value, b.fields[p[i]].value);
      }
    case Map(es) =>
      var p := seq(|es|, k => k);
      assert Permutation(p, |es|);
      forall i | 0 <= i < |es| ensures Same(es[i].key, b.entries[p[i]].key) && Same(es[i].value, b.entries[p[i]].value) {
        AlikeSame(es[i].key, b.entries[i].key);
        AlikeSame(es[i].value, b.entries[i].value);
      }
    case Variant(_, value) => AlikeSame(value, b.value);
    case _ =>
  }

  // ----- Nor do the structural limits see the order of anything -----

  lemma {:induction false} SetsPaired(xs: seq<Value>, ys: seq<Value>) returns (p: seq<nat>)
    requires Same(Set(xs), Set(ys))
    ensures |xs| == |ys| && Permutation(p, |xs|) && forall i :: 0 <= i < |xs| ==> SameItem(xs[i], ys[p[i]])
  {
    p :| Permutation(p, |xs|) && forall i :: 0 <= i < |xs| ==> Same(xs[i], ys[p[i]]);
  }

  lemma {:induction false} RecordsPaired(fs: seq<Field>, gs: seq<Field>) returns (p: seq<nat>)
    requires Same(Record(fs), Record(gs))
    ensures |fs| == |gs| && Permutation(p, |fs|) && forall i :: 0 <= i < |fs| ==> SameField(fs[i], gs[p[i]])
  {
    p :| Permutation(p, |fs|) && forall i :: 0 <= i < |fs| ==>
      fs[i].name == gs[p[i]].name && Same(fs[i].value, gs[p[i]].value);
  }

  lemma {:induction false} MapsPaired(es: seq<Entry>, ds: seq<Entry>) returns (p: seq<nat>)
    requires Same(Map(es), Map(ds))
    ensures |es| == |ds| && Permutation(p, |es|) && forall i :: 0 <= i < |es| ==> SameEntry(es[i], ds[p[i]])
  {
    p :| Permutation(p, |es|) && forall i :: 0 <= i < |es| ==> Same(es[i].key, ds[p[i]].key) && Same(es[i].value, ds[p[i]].value);
  }

  lemma {:induction false} SameShallow(a: Value, b: Value, d: int)
    requires Same(a, b) && Shallow(a, d)
    ensures Shallow(b, d)
    decreases a
  {
    match a
    case Set(xs) =>
      var p := SetsPaired(xs, b.items);
      forall j | 0 <= j < |xs| ensures Shallow(b.items[j], d - 1) {
        var i := PermutationOnto(p, |xs|, j);
        assert SameItem(xs[i], b.items[p[i]]);
        SameShallow(xs[i], b.items[j], d - 1);
      }
    case Seq(xs) => forall i | 0 <= i < |xs| ensures Shallow(b.items[i], d - 1) { SameShallow(xs[i], b.items[i], d - 1); }
    case Tuple(xs) => forall i | 0 <= i < |xs| ensures Shallow(b.items[i], d - 1) { SameShallow(xs[i], b.items[i], d - 1); }
    case Record(fs) =>
      var p := RecordsPaired(fs, b.fields);
      forall j | 0 <= j < |fs| ensures Shallow(b.fields[j].value, d - 1) {
        var i := PermutationOnto(p, |fs|, j);
        assert SameField(fs[i], b.fields[p[i]]);
        SameShallow(fs[i].value, b.fields[j].value, d - 1);
      }
    case Map(es) =>
      var p := MapsPaired(es, b.entries);
      forall j | 0 <= j < |es| ensures Shallow(b.entries[j].key, d - 1) && Shallow(b.entries[j].value, d - 1) {
        var i := PermutationOnto(p, |es|, j);
        assert SameEntry(es[i], b.entries[p[i]]);
        SameShallow(es[i].key, b.entries[j].key, d - 1);
        SameShallow(es[i].value, b.entries[j].value, d - 1);
      }
    case Variant(_, value) => SameShallow(value, b.value, d - 1);
    case _ =>
  }

  // ----- Sizes add up in any order -----

  function Sum(xs: seq<nat>): nat {
    if xs == [] then 0 else xs[0] + Sum(xs[1..])
  }

  lemma {:induction false} SumWithout(xs: seq<nat>, k: nat)
    requires k < |xs|
    ensures Sum(xs) == xs[k] + Sum(Without(xs, k))
  {
    if k == 0 {
      assert Without(xs, 0) == xs[1..];
    } else {
      SumWithout(xs[1..], k - 1);
      assert Without(xs, k) == [xs[0]] + Without(xs[1..], k - 1);
    }
  }

  lemma {:induction false} SumRearranged(xs: seq<nat>, ys: seq<nat>)
    requires multiset(xs) == multiset(ys)
    ensures Sum(xs) == Sum(ys)
  {
    if xs == [] {
      assert |multiset(ys)| == 0;
    } else {
      assert xs[0] in multiset(ys);
      var k :| 0 <= k < |ys| && ys[k] == xs[0];
      WithoutMultiset(ys, k);
      WithoutMultiset(xs, 0);
      assert Without(xs, 0) == xs[1..];
      Cancel(multiset(xs[1..]), multiset(Without(ys, k)), multiset{xs[0]});
      SumRearranged(xs[1..], Without(ys, k));
      SumWithout(ys, k);
    }
  }

  function FieldSizes(fields: seq<Field>): (r: seq<nat>)
    ensures |r| == |fields| && forall i :: 0 <= i < |r| ==> r[i] == Size(fields[i].value)
  {
    seq(|fields|, i requires 0 <= i < |fields| => Size(fields[i].value))
  }

  lemma {:induction false} FieldSizesSum(fields: seq<Field>)
    ensures SizeFields(fields) == Sum(FieldSizes(fields))
  {
    if fields != [] {
      FieldSizesSum(fields[1..]);
      assert FieldSizes(fields)[1..] == FieldSizes(fields[1..]);
    }
  }

  function ItemSizes(items: seq<Value>): (r: seq<nat>)
    ensures |r| == |items| && forall i :: 0 <= i < |r| ==> r[i] == Size(items[i])
  {
    seq(|items|, i requires 0 <= i < |items| => Size(items[i]))
  }

  lemma {:induction false} ItemSizesSum(items: seq<Value>)
    ensures SizeItems(items) == Sum(ItemSizes(items))
  {
    if items != [] {
      ItemSizesSum(items[1..]);
      assert ItemSizes(items)[1..] == ItemSizes(items[1..]);
    }
  }

  function EntrySizes(entries: seq<Entry>): (r: seq<nat>)
    ensures |r| == |entries| && forall i :: 0 <= i < |r| ==> r[i] == SizeEntry(entries[i])
  {
    seq(|entries|, i requires 0 <= i < |entries| => SizeEntry(entries[i]))
  }

  lemma {:induction false} EntrySizesSum(entries: seq<Entry>)
    ensures SizeEntries(entries) == Sum(EntrySizes(entries))
  {
    if entries != [] {
      EntrySizesSum(entries[1..]);
      assert EntrySizes(entries)[1..] == EntrySizes(entries[1..]);
    }
  }

  lemma {:induction false} SumPaired(xs: seq<nat>, ys: seq<nat>, p: seq<nat>)
    requires Pairs(xs, ys, p)
    ensures Sum(xs) == Sum(ys)
  {
    PairingMultiset(xs, ys, p);
    SumRearranged(xs, ys);
  }

  lemma {:induction false} SameSize(a: Value, b: Value)
    requires Same(a, b)
    ensures Size(a) == Size(b)
    decreases a
  {
    match a
    case Set(_) => SetSize(a, b);
    case Seq(xs) => ListSize(a, xs, b.items);
    case Tuple(xs) => ListSize(a, xs, b.items);
    case Record(_) => RecordSize(a, b);
    case Map(es) => MapSize(a, b);
    case Variant(_, value) => SameSize(value, b.value);
    case _ =>
  }

  lemma {:induction false} ListSize(a: Value, xs: seq<Value>, ys: seq<Value>)
    requires (a.Seq? || a.Tuple?) && a.items == xs
    requires |xs| == |ys| && forall i :: 0 <= i < |xs| ==> Same(xs[i], ys[i])
    ensures SizeItems(xs) == SizeItems(ys)
    decreases a, 0
  {
    forall i | 0 <= i < |xs| ensures ItemSizes(xs)[i] == ItemSizes(ys)[i] { SameSize(xs[i], ys[i]); }
    assert ItemSizes(xs) == ItemSizes(ys);
    ItemSizesSum(xs);
    ItemSizesSum(ys);
  }

  lemma {:induction false} SetSize(a: Value, b: Value)
    requires a.Set? && Same(a, b)
    ensures SizeItems(a.items) == SizeItems(b.items)
    decreases a, 0
  {
    var xs, ys := a.items, b.items;
    var p := SetsPaired(xs, ys);
    forall i | 0 <= i < |xs| ensures ItemSizes(xs)[i] == ItemSizes(ys)[p[i]] {
      assert SameItem(xs[i], ys[p[i]]);
      SameSize(xs[i], ys[p[i]]);
    }
    SumPaired(ItemSizes(xs), ItemSizes(ys), p);
    ItemSizesSum(xs);
    ItemSizesSum(ys);
  }

  lemma {:induction false} RecordSize(a: Value, b: Value)
    requires a.Record? && Same(a, b)
    ensures SizeFields(a.fields) == SizeFields(b.fields)
    decreases a, 0
  {
    var fs, gs := a.fields, b.fields;
    var p := RecordsPaired(fs, gs);
    forall i | 0 <= i < |fs| ensures FieldSizes(fs)[i] == FieldSizes(gs)[p[i]] {
      assert SameField(fs[i], gs[p[i]]);
      SameSize(fs[i].value, gs[p[i]].value);
    }
    SumPaired(FieldSizes(fs), FieldSizes(gs), p);
    FieldSizesSum(fs);
    FieldSizesSum(gs);
  }

  lemma {:induction false} MapSize(a: Value, b: Value)
    requires a.Map? && Same(a, b)
    ensures SizeEntries(a.entries) == SizeEntries(b.entries)
    decreases a, 0
  {
    var es, ds := a.entries, b.entries;
    var p := MapsPaired(es, ds);
    forall i | 0 <= i < |es| ensures EntrySizes(es)[i] == EntrySizes(ds)[p[i]] {
      assert SameEntry(es[i], ds[p[i]]);
      SameSize(es[i].key, ds[p[i]].key);
      SameSize(es[i].value, ds[p[i]].value);
    }
    SumPaired(EntrySizes(es), EntrySizes(ds), p);
    EntrySizesSum(es);
    EntrySizesSum(ds);
  }

  // ----- Duplicates -----

  /** `p` sends each value to an equal one. */
  ghost predicate SamePaired(xs: seq<Value>, ys: seq<Value>, p: seq<nat>) {
    |xs| == |ys| && Permutation(p, |xs|) && forall i :: 0 <= i < |xs| ==> SameItem(xs[i], ys[p[i]])
  }

  lemma {:induction false} SameDistinct(xs: seq<Value>, ys: seq<Value>, p: seq<nat>)
    requires SamePaired(xs, ys, p) && NoDuplicates(xs)
    requires forall i :: 0 <= i < |xs| ==> WellFormed(xs[i]) && WellFormed(ys[i])
    ensures NoDuplicates(ys)
  {
    forall i, j | 0 <= i < j < |ys| ensures !Same(ys[i], ys[j]) {
      var x := PermutationOnto(p, |xs|, i);
      var y := PermutationOnto(p, |xs|, j);
      assert SameItem(xs[x], ys[p[x]]) && SameItem(xs[y], ys[p[y]]) && x != y;
      if Same(ys[i], ys[j]) {
        SameThrough(xs[x], ys[i], ys[j], xs[y]);
      }
    }
  }

  lemma {:induction false} SameThrough(a: Value, b: Value, c: Value, d: Value)
    requires WellFormed(a) && WellFormed(b) && WellFormed(c) && WellFormed(d)
    requires Same(a, b) && Same(b, c) && Same(d, c)
    ensures Same(a, d) && Same(d, a)
  {
    IdentityIsEquality(a, b);
    IdentityIsEquality(b, c);
    IdentityIsEquality(d, c);
    IdentityIsEquality(a, d);
    IdentityIsEquality(d, a);
  }

  lemma {:induction false} SameUnambiguous(a: Value, b: Value)
    requires Same(a, b) && WellFormed(a) && WellFormed(b) && Unambiguous(a)
    ensures Unambiguous(b)
    decreases a
  {
    match a
    case Set(xs) =>
      var p := SetsPaired(xs, b.items);
      forall j | 0 <= j < |xs| ensures Unambiguous(b.items[j]) {
        var i := PermutationOnto(p, |xs|, j);
        assert SameItem(xs[i], b.items[p[i]]);
        SameUnambiguous(xs[i], b.items[j]);
      }
      SameDistinct(xs, b.items, p);
    case Seq(xs) => forall i | 0 <= i < |xs| ensures Unambiguous(b.items[i]) { SameUnambiguous(xs[i], b.items[i]); }
    case Tuple(xs) => forall i | 0 <= i < |xs| ensures Unambiguous(b.items[i]) { SameUnambiguous(xs[i], b.items[i]); }
    case Record(fs) =>
      var p := RecordsPaired(fs, b.fields);
      forall j | 0 <= j < |fs| ensures Unambiguous(b.fields[j].value) {
        var i := PermutationOnto(p, |fs|, j);
        assert SameField(fs[i], b.fields[p[i]]);
        SameUnambiguous(fs[i].value, b.fields[j].value);
      }
    case Map(es) => MapUnambiguous(a, b);
    case Variant(_, value) => SameUnambiguous(value, b.value);
    case _ =>
  }

  lemma {:induction false} MapUnambiguous(a: Value, b: Value)
    requires a.Map? && Same(a, b) && WellFormed(a) && WellFormed(b) && Unambiguous(a)
    ensures Unambiguous(b)
    decreases a, 0
  {
    var es, ds := a.entries, b.entries;
    var p := MapsPaired(es, ds);
    forall j | 0 <= j < |es| ensures Unambiguous(ds[j].key) && Unambiguous(ds[j].value) {
      var i := PermutationOnto(p, |es|, j);
      assert SameEntry(es[i], ds[p[i]]);
      SameUnambiguous(es[i].key, ds[j].key);
      SameUnambiguous(es[i].value, ds[j].value);
    }
    SameKeys(es, ds, p);
    SameDistinct(Keys(es), Keys(ds), p);
  }

  lemma {:induction false} SameKeys(es: seq<Entry>, ds: seq<Entry>, p: seq<nat>)
    requires |es| == |ds| && Permutation(p, |es|) && forall i :: 0 <= i < |es| ==> SameEntry(es[i], ds[p[i]])
    ensures SamePaired(Keys(es), Keys(ds), p)
  {
    forall i | 0 <= i < |es| ensures SameItem(Keys(es)[i], Keys(ds)[p[i]]) {
      assert SameEntry(es[i], ds[p[i]]);
    }
  }

  lemma {:induction false} SameAcceptable(a: Value, b: Value)
    requires Same(a, b) && WellFormed(a) && WellFormed(b) && Acceptable(a)
    ensures Acceptable(b)
  {
    SameShallow(a, b, MAX_DEPTH);
    SameSize(a, b);
    SameUnambiguous(a, b);
  }

  /** Neither limits nor duplicate checks of a list see any order. */
  lemma {:induction false} SameUnique(xs: seq<Value>, ys: seq<Value>, p: seq<nat>)
    requires SamePaired(xs, ys, p) && UniqueValues(xs)
    requires forall i :: 0 <= i < |xs| ==> WellFormed(xs[i]) && WellFormed(ys[i])
    ensures UniqueValues(ys)
  {
    forall j | 0 <= j < |xs| ensures Acceptable(ys[j]) {
      var i := PermutationOnto(p, |xs|, j);
      assert SameItem(xs[i], ys[p[i]]);
      SameAcceptable(xs[i], ys[j]);
    }
    SameDistinct(xs, ys, p);
  }
}
