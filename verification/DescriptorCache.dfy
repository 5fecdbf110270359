/** A recency list held within two quotas. */
module RecencyList {

  type Byte = b: int | 0 <= b < 0x100

  datatype Entry<+Digest, +Descriptor> = Entry(digest: Digest, descriptor: Descriptor, bytes: seq<Byte>)

  datatype Quota = Quota(maxEntries: nat, maxBytes: nat)

  function StoredBytes<K, D>(es: seq<Entry<K, D>>): nat {
    if es == [] then 0 else |es[0].bytes| + StoredBytes(es[1..])
  }

  predicate Fits<K, D>(es: seq<Entry<K, D>>, q: Quota) {
    |es| <= q.maxEntries && StoredBytes(es) <= q.maxBytes
  }

  /** Oldest entries go first, until the rest fits. */
  function Evicted<K, D>(es: seq<Entry<K, D>>, q: Quota): seq<Entry<K, D>> {
    if es == [] || Fits(es, q) then es else Evicted(es[1..], q)
  }

  function Digests<K, D>(es: seq<Entry<K, D>>): (ks: seq<K>)
    ensures |ks| == |es| && forall i :: 0 <= i < |es| ==> ks[i] == es[i].digest
  {
    seq(|es|, i requires 0 <= i < |es| => es[i].digest)
  }

  ghost predicate Distinct<K>(ks: seq<K>) {
    forall i, j :: 0 <= i < j < |ks| ==> ks[i] != ks[j]
  }

  function Without<K(==)>(ks: seq<K>, k: K): (r: seq<K>)
    ensures k !in r
  {
    if ks == [] then [] else if ks[0] == k then Without(ks[1..], k) else [ks[0]] + Without(ks[1..], k)
  }

  function Removed<K(==), D>(es: seq<Entry<K, D>>, k: K): (r: seq<Entry<K, D>>)
    ensures |r| <= |es|
  {
    if es == [] then [] else if es[0].digest == k then Removed(es[1..], k) else [es[0]] + Removed(es[1..], k)
  }

  function Find<K(==), D>(es: seq<Entry<K, D>>, k: K): (n: nat)
    ensures n <= |es|
    ensures n < |es| ==> es[n].digest == k
    ensures forall i :: 0 <= i < n ==> es[i].digest != k
  {
    if es == [] || es[0].digest == k then 0 else 1 + Find(es[1..], k)
  }

  // ----- Eviction -----

  lemma {:induction false} BytesAppend<K, D>(a: seq<Entry<K, D>>, b: seq<Entry<K, D>>)
    ensures StoredBytes(a + b) == StoredBytes(a) + StoredBytes(b)
  {
    if a == [] {
      assert a + b == b;
    } else {
      BytesAppend(a[1..], b);
      assert (a + b)[1..] == a[1..] + b;
    }
  }

  /** Eviction drops exactly the shortest prefix whose loss meets both quotas. */
  lemma {:induction false} EvictionIsMinimal<K, D>(es: seq<Entry<K, D>>, q: Quota)
    ensures exists n :: 0 <= n <= |es| && Evicted(es, q) == es[n..] && Fits(es[n..], q) && forall m :: 0 <= m < n ==> !Fits(es[m..], q)
  {
    if es == [] || Fits(es, q) {
      assert Evicted(es, q) == es[0..] && es[0..] == es;
    } else {
      var rest := es[1..];
      EvictionIsMinimal(rest, q);
      var n :| 0 <= n <= |rest| && Evicted(rest, q) == rest[n..] && Fits(rest[n..], q) && forall m :: 0 <= m < n ==> !Fits(rest[m..], q);
      forall m | 0 <= m < n + 1 ensures !Fits(es[m..], q) {
        if m == 0 { assert es[0..] == es; } else { assert es[m..] == rest[m - 1..]; }
      }
      assert es[n + 1..] == rest[n..];
    }
  }

  /** An entry that fits by itself survives the eviction it causes. */
  lemma {:induction false} NewestSurvives<K, D>(es: seq<Entry<K, D>>, e: Entry<K, D>, q: Quota)
    requires q.maxEntries >= 1 && |e.bytes| <= q.maxBytes
    ensures Evicted(es + [e], q) != [] && Evicted(es + [e], q)[|Evicted(es + [e], q)| - 1] == e
  {
    if es == [] {
      assert [] + [e] == [e] && [e][1..] == [];
      assert StoredBytes([e]) == |e.bytes| + StoredBytes<K, D>([]);
    } else {
      NewestSurvives(es[1..], e, q);
      assert (es + [e])[1..] == es[1..] + [e];
    }
  }

  lemma {:induction false} DigestsTail<K, D>(es: seq<Entry<K, D>>, n: nat)
    requires n <= |es|
    ensures Digests(es[n..]) == Digests(es)[n..]
  {
  }

  // ----- Removal -----

  lemma {:induction false} WithoutAppend<K>(a: seq<K>, b: seq<K>, k: K)
    ensures Without(a + b, k) == Without(a, k) + Without(b, k)
  {
    if a == [] {
      assert a + b == b;
    } else {
      assert (a + b)[1..] == a[1..] + b;
      WithoutAppend(a[1..], b, k);
      if a[0] != k { Regroup([a[0]], Without(a[1..], k), Without(b, k)); }
    }
  }

  lemma {:induction false} Regroup<T>(a: seq<T>, b: seq<T>, c: seq<T>)
    ensures a + (b + c) == (a + b) + c
  {
  }

  lemma {:induction false} RemovedDigests<K, D>(es: seq<Entry<K, D>>, k: K)
    ensures Digests(Removed(es, k)) == Without(Digests(es), k)
  {
    if es != [] {
      RemovedDigests(es[1..], k);
      DigestsTail(es, 1);
    }
  }

  lemma {:induction false} DistinctTail<K>(ks: seq<K>)
    requires Distinct(ks) && ks != []
    ensures Distinct(ks[1..]) && ks[0] !in ks[1..]
  {
    assert forall i :: 0 <= i < |ks| - 1 ==> ks[1..][i] == ks[i + 1];
  }

  lemma {:induction false} WithoutDistinct<K>(ks: seq<K>, k: K)
    requires Distinct(ks)
    ensures Distinct(Without(ks, k)) && forall x :: x in Without(ks, k) ==> x in ks
  {
    if ks != [] {
      DistinctTail(ks);
      WithoutDistinct(ks[1..], k);
      if ks[0] != k { DistinctCons(ks[0], Without(ks[1..], k)); }
    }
  }

  lemma {:induction false} DistinctCons<K>(k: K, ks: seq<K>)
    requires Distinct(ks) && k !in ks
    ensures Distinct([k] + ks)
  {
    var r := [k] + ks;
    assert forall i :: 1 <= i < |r| ==> r[i] == ks[i - 1] && r[i] in ks;
  }

  /** What removing an entry frees: its own bytes, if it is there. */
  lemma {:induction false} RemovedBytes<K, D>(es: seq<Entry<K, D>>, k: K)
    requires Distinct(Digests(es)) && Find(es, k) < |es|
    ensures StoredBytes(es) == StoredBytes(Removed(es, k)) + |es[Find(es, k)].bytes|
    ensures |Removed(es, k)| == |es| - 1
  {
    DigestsTail(es, 1);
    DistinctTail(Digests(es));
    if es[0].digest == k {
      var ks := Digests(es[1..]);
      assert forall i :: 1 <= i < |es| ==> es[i].digest == ks[i - 1] && ks[i - 1] in ks;
      RemovedAbsent(es[1..], k);
    } else {
      RemovedBytes(es[1..], k);
      assert Removed(es, k)[1..] == Removed(es[1..], k);
    }
  }

  lemma {:induction false} RemovedAbsent<K, D>(es: seq<Entry<K, D>>, k: K)
    requires forall i :: 0 <= i < |es| ==> es[i].digest != k
    ensures Removed(es, k) == es
  {
    if es != [] { RemovedAbsent(es[1..], k); }
  }

  ghost predicate Among<T>(xs: seq<T>, ys: seq<T>) {
    forall i :: 0 <= i < |xs| ==> xs[i] in ys
  }

  lemma {:induction false} RemovedMembers<K, D>(es: seq<Entry<K, D>>, k: K)
    ensures Among(Removed(es, k), es)
  {
    if es != [] {
      RemovedMembers(es[1..], k);
      assert forall e :: e in es[1..] ==> e in es;
    }
  }

  // ----- Use -----

  datatype Event<+Digest> = Used(digest: Digest) | Dropped(digest: Digest)

  /** All digests ever used and not dropped, by their last use. */
  function Recency<K(==)>(events: seq<Event<K>>): seq<K> {
    if events == [] then []
    else
      var last := events[|events| - 1];
      var earlier := Without(Recency(events[..|events| - 1]), last.digest);
      if last.Used? then earlier + [last.digest] else earlier
  }

  ghost predicate Suffix<K>(ks: seq<K>, all: seq<K>) {
    |ks| <= |all| && all[|all| - |ks|..] == ks
  }

  lemma {:induction false} SuffixWithout<K>(ks: seq<K>, all: seq<K>, k: K)
    requires Suffix(ks, all)
    ensures Suffix(Without(ks, k), Without(all, k))
  {
    var front := all[..|all| - |ks|];
    assert all == front + ks;
    WithoutAppend(front, ks, k);
    var f, w := Without(front, k), Without(ks, k);
    assert (f + w)[|f|..] == w;
  }

  lemma {:induction false} SuffixLonger<K>(ks: seq<K>, all: seq<K>, k: K)
    requires Suffix(ks, all)
    ensures Suffix(ks + [k], all + [k])
  {
    assert (all + [k])[|all| - |ks|..] == all[|all| - |ks|..] + [k];
  }

  lemma {:induction false} SuffixTail<K>(ks: seq<K>, all: seq<K>, n: nat)
    requires Suffix(ks, all) && n <= |ks|
    ensures Suffix(ks[n..], all)
  {
    assert all[|all| - |ks| + n..] == all[|all| - |ks|..][n..];
  }

  /** The held digests are the latest used. */
  ghost predicate Latest<K, D>(es: seq<Entry<K, D>>, events: seq<Event<K>>) {
    Distinct(Digests(es)) && Suffix(Digests(es), Recency(events))
  }

  lemma {:induction false} AfterEvent<K>(events: seq<Event<K>>, event: Event<K>)
    ensures Recency(events + [event]) ==
      Without(Recency(events), event.digest) + (if event.Used? then [event.digest] else [])
  {
    assert (events + [event])[..|events|] == events;
  }

  lemma {:induction false} LatestDropped<K, D>(es: seq<Entry<K, D>>, events: seq<Event<K>>, k: K)
    requires Latest(es, events)
    ensures Latest(Removed(es, k), events + [Dropped(k)])
  {
    AfterEvent(events, Dropped(k));
    RemovedDigests(es, k);
    WithoutDistinct(Digests(es), k);
    SuffixWithout(Digests(es), Recency(events), k);
  }

  /** Both a hit, which moves the entry to the end, and a new entry. */
  lemma {:induction false} LatestUsed<K, D>(es: seq<Entry<K, D>>, events: seq<Event<K>>, e: Entry<K, D>)
    requires Latest(es, events)
    ensures Latest(Removed(es, e.digest) + [e], events + [Used(e.digest)])
  {
    var k := e.digest;
    AfterEvent(events, Used(k));
    RemovedDigests(es, k);
    WithoutDistinct(Digests(es), k);
    SuffixWithout(Digests(es), Recency(events), k);
    SuffixLonger(Without(Digests(es), k), Without(Recency(events), k), k);
    assert Digests(Removed(es, k) + [e]) == Without(Digests(es), k) + [k];
  }

  lemma {:induction false} LatestEvicted<K, D>(es: seq<Entry<K, D>>, events: seq<Event<K>>, q: Quota)
    requires Latest(es, events)
    ensures Latest(Evicted(es, q), events)
  {
    EvictionIsMinimal(es, q);
    var n :| 0 <= n <= |es| && Evicted(es, q) == es[n..];
    DigestsTail(es, n);
    SuffixTail(Digests(es), Recency(events), n);
    var ks := Digests(es);
    assert forall i :: 0 <= i < |ks| - n ==> ks[n..][i] == ks[n + i];
  }
}

/** The process-local cache of verified descriptors. */
module DescriptorCaching {
  import opened Wrappers
  import opened RecencyList

  const MAX_DESCRIPTOR_BYTES := 32_768

  datatype Failure = Undecodable | EntryTooLarge | Corrupt | Miss

  /** Decoding, the canonical bytes, and the digest of a descriptor. */
  datatype Codec<!D, !K> = Codec(decode: D -> Option<D>, canonical: D -> seq<Byte>, digest: D -> K)

  /** Decoding a decoded descriptor changes nothing. */
  ghost predicate Idempotent<D(!new), K>(c: Codec<D, K>) {
    forall d, e :: c.decode(d) == Some(e) ==> c.decode(e) == Some(e)
  }

  /** An entry is what its digest and its bytes say. */
  predicate Verifies<D, K(==)>(c: Codec<D, K>, e: Entry<K, D>) {
    var d := c.decode(e.descriptor);
    d.Some? && c.digest(d.value) == e.digest && c.canonical(d.value) == e.bytes
  }

  function Made<D, K>(c: Codec<D, K>, d: D): Entry<K, D> {
    Entry(c.digest(d), d, c.canonical(d))
  }

  ghost predicate AllVerify<D, K>(c: Codec<D, K>, es: seq<Entry<K, D>>) {
    forall i :: 0 <= i < |es| ==> Verifies(c, es[i])
  }

  /** The digest already stands for other bytes. */
  predicate Clashes<D, K(==)>(es: seq<Entry<K, D>>, e: Entry<K, D>) {
    var n := Find(es, e.digest);
    n < |es| && es[n].bytes != e.bytes
  }

  predicate TooLarge(bytes: seq<Byte>, q: Quota) {
    |bytes| > MAX_DESCRIPTOR_BYTES || |bytes| > q.maxBytes
  }

  ghost predicate Consistent<D(!new), K>(c: Codec<D, K>, q: Quota, es: seq<Entry<K, D>>, storedBytes: int, events: seq<Event<K>>) {
    && q.maxEntries >= 1 && storedBytes == StoredBytes(es) && Fits(es, q) && Latest(es, events)
    && (Idempotent(c) ==> AllVerify(c, es))
  }

  lemma {:induction false} FewerVerify<D, K>(c: Codec<D, K>, es: seq<Entry<K, D>>, fewer: seq<Entry<K, D>>)
    requires AllVerify(c, es) && Among(fewer, es)
    ensures AllVerify(c, fewer)
  {
  }

  lemma {:induction false} QuarantineKeeps<D(!new), K>(c: Codec<D, K>, q: Quota, es: seq<Entry<K, D>>, stored: int, events: seq<Event<K>>, k: K)
    requires Consistent(c, q, es, stored, events) && Find(es, k) < |es|
    ensures Consistent(c, q, Removed(es, k), stored - |es[Find(es, k)].bytes|, events + [Dropped(k)])
  {
    RemovedBytes(es, k);
    RemovedMembers(es, k);
    LatestDropped(es, events, k);
    if Idempotent(c) { FewerVerify(c, es, Removed(es, k)); }
  }

  lemma {:induction false} TouchKeeps<D(!new), K>(c: Codec<D, K>, q: Quota, es: seq<Entry<K, D>>, stored: int, events: seq<Event<K>>, e: Entry<K, D>)
    requires Consistent(c, q, es, stored, events) && Find(es, e.digest) < |es| && es[Find(es, e.digest)] == e
    ensures Consistent(c, q, Removed(es, e.digest) + [e], stored, events + [Used(e.digest)])
  {
    RemovedBytes(es, e.digest);
    RemovedMembers(es, e.digest);
    OneMore(Removed(es, e.digest), e);
    LatestUsed(es, events, e);
    if Idempotent(c) { FewerVerify(c, es, Removed(es, e.digest) + [e]); }
  }

  lemma {:induction false} OneMore<K, D>(es: seq<Entry<K, D>>, e: Entry<K, D>)
    ensures StoredBytes(es + [e]) == StoredBytes(es) + |e.bytes|
  {
    BytesAppend(es, [e]);
    assert [e][1..] == [];
  }

  lemma {:induction false} InsertKeeps<D(!new), K>(c: Codec<D, K>, q: Quota, es: seq<Entry<K, D>>, stored: int, events: seq<Event<K>>, e: Entry<K, D>)
    requires Consistent(c, q, es, stored, events) && Find(es, e.digest) == |es|
    requires Idempotent(c) ==> Verifies(c, e)
    ensures Consistent(c, q, Evicted(es + [e], q), StoredBytes(Evicted(es + [e], q)), events + [Used(e.digest)])
  {
    RemovedAbsent(es, e.digest);
    LatestUsed(es, events, e);
    LatestEvicted(es + [e], events + [Used(e.digest)], q);
    EvictionIsMinimal(es + [e], q);
    if Idempotent(c) { FewerVerify(c, es + [e], Evicted(es + [e], q)); }
  }

  class DescriptorCache<D(!new), K(==)> {
    const codec: Codec<D, K>
    const quota: Quota
    /** In order of last use. */
    var entries: seq<Entry<K, D>>
    var storedBytes: int
    ghost var events: seq<Event<K>>

    ghost predicate Valid()
      reads this
    {
      Consistent(codec, quota, entries, storedBytes, events)
    }

    constructor (codec: Codec<D, K>, quota: Quota)
      requires quota.maxEntries >= 1 && quota.maxBytes >= 1
      ensures this.codec == codec && this.quota == quota && Valid() && entries == [] && events == []
    {
      this.codec, this.quota := codec, quota;
      entries, storedBytes := [], 0;
      events := [];
    }

    /** Reads a descriptor by its digest: a hit becomes the latest entry, and an
        entry that no longer verifies is dropped. */
    method Get(digest: K) returns (r: Result<Option<Entry<K, D>>, Failure>)
      requires Valid()
      modifies this
      ensures Valid()
      ensures r == Ok(None) <==> Find(old(entries), digest) == |old(entries)|
      ensures r == Ok(None) ==> entries == old(entries)
      ensures r.Err? <==> Find(old(entries), digest) < |old(entries)| && !Verifies(codec, old(entries)[Find(old(entries), digest)])
      ensures r.Err? ==> r.error == Corrupt && entries == Removed(old(entries), digest)
      ensures r.Ok? && r.value.Some? ==> Find(old(entries), digest) < |old(entries)| && r.value.value.digest == digest
      ensures r.Ok? && r.value.Some? ==> var e := old(entries)[Find(old(entries), digest)];
        r.value.value.bytes == e.bytes && entries == Removed(old(entries), digest) + [e]
      ensures Idempotent(codec) ==> r.Ok?
      ensures events == old(events) + (
        if r == Ok(None) then [] else if r.Ok? then [Used(digest)] else [Dropped(digest)])
    {
      var n := Find(entries, digest);
      if n == |entries| {
        assert events + [] == events;
        return Ok(None);
      }
      var e := entries[n];
      if !Verifies(codec, e) {
        Quarantine(digest);
        return Err(Corrupt);
      }
      Touch(e);
      r := Ok(Some(e.(descriptor := codec.decode(e.descriptor).value)));
    }

    method Require(digest: K) returns (r: Result<Entry<K, D>, Failure>)
      requires Valid()
      modifies this
      ensures Valid()
      ensures r == Err(Miss) <==> Find(old(entries), digest) == |old(entries)|
      ensures r.Ok? ==> r.value.digest == digest && entries != [] && entries[|entries| - 1].digest == digest
    {
      var found := Get(digest);
      match found
      case Err(e) => r := Err(e);
      case Ok(None) => r := Err(Miss);
      case Ok(Some(e)) => r := Ok(e);
    }

    /** Drops an entry and the bytes it holds. */
    method Quarantine(digest: K)
      requires Valid() && Find(entries, digest) < |entries|
      modifies this
      ensures Valid() && entries == Removed(old(entries), digest)
      ensures events == old(events) + [Dropped(digest)]
    {
      QuarantineKeeps(codec, quota, entries, storedBytes, events, digest);
      var e := entries[Find(entries, digest)];
      storedBytes := storedBytes - |e.bytes|;
      entries := Removed(entries, digest);
      events := events + [Dropped(digest)];
    }

    /** Moves an entry to the end. */
    method Touch(e: Entry<K, D>)
      requires Valid() && Find(entries, e.digest) < |entries| && entries[Find(entries, e.digest)] == e
      modifies this
      ensures Valid() && entries == Removed(old(entries), e.digest) + [e]
      ensures events == old(events) + [Used(e.digest)]
    {
      TouchKeeps(codec, quota, entries, storedBytes, events, e);
      entries := Removed(entries, e.digest) + [e];
      events := events + [Used(e.digest)];
    }

    /** Stores a new entry and evicts the oldest ones to quota. */
    method Insert(e: Entry<K, D>)
      requires Valid() && Find(entries, e.digest) == |entries| && |e.bytes| <= quota.maxBytes
      requires Idempotent(codec) ==> Verifies(codec, e)
      modifies this
      ensures Valid() && entries == Evicted(old(entries) + [e], quota)
      ensures entries != [] && entries[|entries| - 1] == e
      ensures events == old(events) + [Used(e.digest)]
    {
      InsertKeeps(codec, quota, entries, storedBytes, events, e);
      OneMore(entries, e);
      NewestSurvives(entries, e, quota);
      entries := entries + [e];
      storedBytes := storedBytes + |e.bytes|;
      events := events + [Used(e.digest)];
      EvictToQuota();
    }

    /** Drops the oldest entries until both quotas hold. */
    method EvictToQuota()
      requires storedBytes == StoredBytes(entries)
      modifies this`entries, this`storedBytes
      ensures entries == Evicted(old(entries), quota) && storedBytes == StoredBytes(entries)
    {
      while |entries| > quota.maxEntries || storedBytes > quota.maxBytes
        invariant storedBytes == StoredBytes(entries) && Evicted(entries, quota) == Evicted(old(entries), quota)
        decreases |entries|
      {
        if entries == [] { return; }
        storedBytes := storedBytes - |entries[0].bytes|;
        entries := entries[1..];
      }
    }

    /** Stores a descriptor. It is refused unless it decodes and fits by itself; a
        digest that already stands for other bytes is dropped. */
    method Put(value: D) returns (r: Result<Entry<K, D>, Failure>)
      requires Valid()
      modifies this
      ensures Valid()
      ensures codec.decode(value).None? <==> r == Err(Undecodable)
      ensures codec.decode(value).Some? ==>
        (r == Err(EntryTooLarge) <==> TooLarge(codec.canonical(codec.decode(value).value), quota))
      ensures r == Err(Undecodable) || r == Err(EntryTooLarge) ==> entries == old(entries) && events == old(events)
      ensures r.Ok? ==> entries != [] && entries[|entries| - 1].digest == r.value.digest && entries[|entries| - 1].bytes == r.value.bytes
      ensures r.Ok? ==> r.value.digest == codec.digest(codec.decode(value).value) && r.value.bytes == codec.canonical(codec.decode(value).value)
      ensures r.Ok? ==> var k := codec.digest(codec.decode(value).value);
        if Find(old(entries), k) < |old(entries)| then entries == Removed(old(entries), k) + [old(entries)[Find(old(entries), k)]]
        else entries == Evicted(old(entries) + [Made(codec, codec.decode(value).value)], quota)
      ensures Idempotent(codec) && codec.decode(value).Some? && r != Err(EntryTooLarge) ==>
        (r == Err(Corrupt) <==> Clashes(old(entries), Made(codec, codec.decode(value).value)))
    {
      var decoded := codec.decode(value);
      if decoded.None? { return Err(Undecodable); }
      var e := Made(codec, decoded.value);
      if TooLarge(e.bytes, quota) { return Err(EntryTooLarge); }
      r := Store(e);
    }

    /** Finds or stores an entry that fits by itself. */
    method Store(e: Entry<K, D>) returns (r: Result<Entry<K, D>, Failure>)
      requires Valid() && |e.bytes| <= quota.maxBytes
      requires Idempotent(codec) ==> Verifies(codec, e)
      modifies this
      ensures Valid() && (r.Err? ==> r.error == Corrupt)
      ensures r.Ok? ==> entries != [] && entries[|entries| - 1].digest == e.digest && entries[|entries| - 1].bytes == e.bytes
      ensures r.Ok? ==> r.value.digest == e.digest && r.value.bytes == e.bytes
      ensures r.Ok? ==> var n := Find(old(entries), e.digest);
        if n < |old(entries)| then entries == Removed(old(entries), e.digest) + [old(entries)[n]]
        else entries == Evicted(old(entries) + [e], quota)
      ensures Idempotent(codec) ==> (r.Err? <==> Clashes(old(entries), e))
      ensures Clashes(old(entries), e) ==> r.Err? && entries == Removed(old(entries), e.digest)
    {
      var n := Find(entries, e.digest);
      if n < |entries| {
        var existing := entries[n];
        if !Verifies(codec, existing) || existing.bytes != e.bytes {
          Quarantine(e.digest);
          return Err(Corrupt);
        }
        Touch(existing);
        return Ok(existing.(descriptor := codec.decode(existing.descriptor).value));
      }
      Insert(e);
      if !Verifies(codec, e) {
        LastFound(entries, e);
        Quarantine(e.digest);
        return Err(Corrupt);
      }
      r := Ok(e.(descriptor := codec.decode(e.descriptor).value));
    }

    /** The digest used last, if it still verifies. */
    method MostRecentDigest() returns (r: Result<Option<K>, Failure>)
      requires Valid()
      modifies this
      ensures Valid()
      ensures old(entries) == [] ==> r == Ok(None)
      ensures old(entries) != [] && r.Ok? ==> r.value == Some(old(entries)[|old(entries)| - 1].digest) && entries == old(entries)
      ensures Idempotent(codec) ==> r.Ok?
    {
      if entries == [] { return Ok(None); }
      var last := entries[|entries| - 1];
      LastFound(entries, last);
      LastStays(entries);
      var found := Get(last.digest);
      if found.Err? { return Err(found.error); }
      r := Ok(Some(last.digest));
    }
  }

  lemma {:induction false} LastFound<D, K>(es: seq<Entry<K, D>>, e: Entry<K, D>)
    requires es != [] && es[|es| - 1] == e
    ensures Find(es, e.digest) < |es|
  {
  }

  /** Touching the last entry changes nothing. */
  lemma {:induction false} LastStays<D, K>(es: seq<Entry<K, D>>)
    requires es != [] && Distinct(Digests(es))
    ensures var k := es[|es| - 1].digest;
      Find(es, k) == |es| - 1 && Removed(es, k) + [es[|es| - 1]] == es
  {
    if |es| > 1 {
      assert Digests(es)[0] != Digests(es)[|es| - 1];
      DigestsTail(es, 1);
      DistinctTail(Digests(es));
      LastStays(es[1..]);
    }
  }
}
