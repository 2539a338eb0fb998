/** The local KV cache of a node (fusion_multi_node/distributed_mlx/kv_cache_sharing.py): an
    ordered dictionary, least recently used first, with a byte budget and a lookup index. */
module KvCache {
  import opened Options
  import opened ByteStrings

  type Name(==, !new)

  /** A cache id; the empty string is told apart because the lookup treats it as no id. */
  datatype CacheId = EmptyId | Id(name: Name)

  /** `info` stands for the shard fields that are only carried along. */
  datatype Shard = Shard(info: Name, sizeBytes: nat, isCompressed: bool, tensor: Option<Bytes>)

  datatype Entry = Entry(
    id: CacheId, model: Name, hash: Name, prefix: Name, shards: seq<Shard>,
    tokens: nat, size: nat, createdAt: real, ttl: real, accessCount: nat)
  {
    function Key(): (Name, Name) { (model, hash) }

    predicate Expired(now: real) { now - createdAt > ttl }
  }

  /** `size` is the tracked number of bytes, which is meant to be the sum of the entries' sizes. */
  datatype Cache = Cache(entries: seq<Entry>, size: int, index: map<(Name, Name), CacheId>)

  // ---------- the ordered dictionary ----------

  /** Position of the entry with this id. */
  function Pos(es: seq<Entry>, id: CacheId): (p: Option<nat>)
    ensures p.Some? ==> p.value < |es| && es[p.value].id == id
    ensures p.None? ==> forall x :: x in es ==> x.id != id
  {
    if es == [] then None
    else if es[|es| - 1].id == id then Some(|es| - 1)
    else Pos(es[..|es| - 1], id)
  }

  function Put(es: seq<Entry>, e: Entry): seq<Entry> {
    match Pos(es, e.id)
    case None => es + [e]
    case Some(i) => es[i := e]
  }

  function Drop(es: seq<Entry>, i: nat): seq<Entry>
    requires i < |es|
  {
    es[..i] + es[i + 1..]
  }

  // ---------- the operations ----------

  /** Forgets entry i: its bytes and its key. */
  function Forget(c: Cache, i: nat): Cache
    requires i < |c.entries|
  {
    Cache(Drop(c.entries, i), c.size - c.entries[i].size, c.index - {c.entries[i].Key()})
  }

  function Evict(max: nat, c: Cache, needed: nat): Cache
    decreases |c.entries|
  {
    if needed > max || c.entries == [] || c.size + needed <= max then c
    else Evict(max, Forget(c, 0), needed)
  }

  function Store(max: nat, c: Cache, e: Entry): (Cache, bool) {
    if e.size > max then (c, false)
    else
      var p := Pos(c.entries, e.id);
      var c1 := if p.Some? then c.(size := c.size - c.entries[p.value].size) else c;
      var c2 := if c1.size + e.size > max then Evict(max, c1, e.size) else c1;
      (Cache(Put(c2.entries, e), c2.size + e.size, c2.index[e.Key() := e.id]), true)
  }

  /** A hit becomes the most recently used entry. An index entry naming the empty id is a miss. */
  function Lookup(c: Cache, key: (Name, Name), now: real): (Cache, Option<Entry>) {
    if key !in c.index || c.index[key] == EmptyId then (c, None)
    else
      match Pos(c.entries, c.index[key])
      case None => (c.(index := c.index - {key}), None)
      case Some(i) =>
        var e := c.entries[i];
        if e.Expired(now) then (Cache(Drop(c.entries, i), c.size - e.size, c.index - {key}), None)
        else
          var e' := e.(accessCount := e.accessCount + 1);
          (c.(entries := Drop(c.entries, i) + [e']), Some(e'))
  }

  function LookupById(c: Cache, id: CacheId, now: real): (Cache, Option<nat>) {
    match Pos(c.entries, id)
    case None => (c, None)
    case Some(i) => if c.entries[i].Expired(now) then (Forget(c, i), None) else (c, Some(i))
  }

  /** Shards without a tensor get the one the backend produces, if any, and grow by it. */
  function Filled(shards: seq<Shard>, backend: nat -> Option<Bytes>, compress: bool): (r: seq<Shard>)
    ensures |r| == |shards|
  {
    if shards == [] then []
    else
      var k := |shards| - 1;
      var s := shards[k];
      Filled(shards[..k], backend, compress) +
      [if s.tensor == None && backend(k).Some?
       then s.(tensor := backend(k), isCompressed := compress, sizeBytes := s.sizeBytes + |backend(k).value|)
       else s]
  }

  function ShardSum(shards: seq<Shard>): nat {
    if shards == [] then 0 else ShardSum(shards[..|shards| - 1]) + shards[|shards| - 1].sizeBytes
  }

  /** The export of an entry as it changes the cache: the entry grows in place and the tracked
      size follows. The exported entry is the grown one. */
  function Export(c: Cache, id: CacheId, backend: nat -> Option<Bytes>, compress: bool, now: real): (Cache, Option<Entry>) {
    var (c1, p) := LookupById(c, id, now);
    if p.None? then (c1, None)
    else if p.value >= |c1.entries| then (c1, None)
    else
      var e := c1.entries[p.value];
      var shards := Filled(e.shards, backend, compress);
      var e' := e.(shards := shards, size := ShardSum(shards));
      (c1.(entries := c1.entries[p.value := e'], size := c1.size + e'.size - e.size), Some(e'))
  }

  // ---------- the object ----------

  class KVSharingManager {
    const maxBytes: nat
    const enableCompression: bool
    var entries: seq<Entry>
    var localSizeBytes: int
    var lookupIndex: map<(Name, Name), CacheId>

    ghost function View(): Cache
      reads this
    {
      Cache(entries, localSizeBytes, lookupIndex)
    }

    constructor (maxBytes: nat, enableCompression: bool)
      ensures this.maxBytes == maxBytes && this.enableCompression == enableCompression
      ensures View() == Cache([], 0, map[])
    {
      this.maxBytes, this.enableCompression := maxBytes, enableCompression;
      entries, localSizeBytes, lookupIndex := [], 0, map[];
    }

    method EvictFor(needed: nat)
      modifies this
      ensures View() == Evict(maxBytes, old(View()), needed)
    {
      if needed > maxBytes {
        return;
      }
      while entries != [] && localSizeBytes + needed > maxBytes
        invariant Evict(maxBytes, View(), needed) == Evict(maxBytes, old(View()), needed)
        decreases |entries|
      {
        var e := entries[0];
        assert entries[..0] + entries[1..] == entries[1..];
        entries := entries[1..];
        localSizeBytes := localSizeBytes - e.size;
        lookupIndex := lookupIndex - {e.Key()};
      }
    }

    method StoreLocal(e: Entry) returns (ok: bool)
      modifies this
      ensures (View(), ok) == Store(maxBytes, old(View()), e)
    {
      if e.size > maxBytes {
        return false;
      }
      var p := Pos(entries, e.id);
      if p.Some? {
        localSizeBytes := localSizeBytes - entries[p.value].size;
      }
      if localSizeBytes + e.size > maxBytes {
        EvictFor(e.size);
      }
      entries := Put(entries, e);
      localSizeBytes := localSizeBytes + e.size;
      lookupIndex := lookupIndex[e.Key() := e.id];
      return true;
    }

    method LookupLocal(model: Name, hash: Name, now: real) returns (r: Option<Entry>)
      modifies this
      ensures (View(), r) == Lookup(old(View()), (model, hash), now)
    {
      var key := (model, hash);
      if key !in lookupIndex || lookupIndex[key] == EmptyId {
        return None;
      }
      var p := Pos(entries, lookupIndex[key]);
      if p.None? {
        lookupIndex := lookupIndex - {key};
        return None;
      }
      var e := entries[p.value];
      if e.Expired(now) {
        entries := Drop(entries, p.value);
        localSizeBytes := localSizeBytes - e.size;
        lookupIndex := lookupIndex - {key};
        return None;
      }
      e := e.(accessCount := e.accessCount + 1);
      entries := Drop(entries, p.value) + [e];
      return Some(e);
    }

    method LookupLocalById(id: CacheId, now: real) returns (r: Option<nat>)
      modifies this
      ensures (View(), r) == LookupById(old(View()), id, now)
    {
      var p := Pos(entries, id);
      if p.Some? && entries[p.value].Expired(now) {
        var e := entries[p.value];
        entries := Drop(entries, p.value);
        localSizeBytes := localSizeBytes - e.size;
        lookupIndex := lookupIndex - {e.Key()};
        return None;
      }
      return p;
    }

    method FillShards(from: seq<Shard>, backend: nat -> Option<Bytes>) returns (shards: seq<Shard>, total: nat)
      ensures shards == Filled(from, backend, enableCompression) && total == ShardSum(shards)
    {
      shards, total := [], 0;
      for k := 0 to |from|
        invariant shards == Filled(from[..k], backend, enableCompression) && total == ShardSum(shards)
      {
        var s := from[k];
        assert from[..k + 1][..k] == from[..k];
        if s.tensor == None {
          var t := backend(k);
          if t.Some? {
            s := s.(tensor := t, isCompressed := enableCompression, sizeBytes := s.sizeBytes + |t.value|);
          }
        }
        assert (shards + [s])[..k] == shards;
        shards := shards + [s];
        total := total + s.sizeBytes;
      }
      assert from[..|from|] == from;
    }

    /** The part of export_bundle and export_stream that changes the cache. */
    method ExportEntry(id: CacheId, backend: nat -> Option<Bytes>, now: real) returns (r: Option<Entry>)
      modifies this
      ensures (View(), r) == Export(old(View()), id, backend, enableCompression, now)
    {
      var p := LookupLocalById(id, now);
      if p.None? || p.value >= |entries| {
        return None;
      }
      var e := entries[p.value];
      var oldTotal := e.size;
      var shards, total := FillShards(e.shards, backend);
      e := e.(shards := shards, size := total);
      entries := entries[p.value := e];
      localSizeBytes := localSizeBytes + (e.size - oldTotal);
      return Some(e);
    }
  }

  // ---------- accounting ----------

  function Total(es: seq<Entry>): nat {
    if es == [] then 0 else Total(es[..|es| - 1]) + es[|es| - 1].size
  }

  lemma {:induction false} TotalSplit(a: seq<Entry>, b: seq<Entry>)
    ensures Total(a + b) == Total(a) + Total(b)
  {
    if b == [] {
      assert a + b == a;
    } else {
      var last := b[|b| - 1];
      TotalSplit(a, b[..|b| - 1]);
      assert (a + b)[..|a + b| - 1] == a + b[..|b| - 1];
    }
  }

  lemma TotalAt(es: seq<Entry>, i: nat)
    requires i < |es|
    ensures Total(es) == Total(es[..i]) + es[i].size + Total(es[i + 1..])
  {
    assert es == (es[..i] + [es[i]]) + es[i + 1..];
    TotalSplit(es[..i] + [es[i]], es[i + 1..]);
    TotalOne(es[..i], es[i]);
  }

  lemma TotalDrop(es: seq<Entry>, i: nat)
    requires i < |es|
    ensures Total(Drop(es, i)) == Total(es) - es[i].size
  {
    TotalAt(es, i);
    TotalSplit(es[..i], es[i + 1..]);
  }

  lemma TotalUpdate(es: seq<Entry>, i: nat, e: Entry)
    requires i < |es|
    ensures Total(es[i := e]) == Total(es) - es[i].size + e.size
  {
    TotalAt(es, i);
    var es' := es[i := e];
    TotalAt(es', i);
    assert es'[..i] == es[..i] && es'[i + 1..] == es[i + 1..];
  }

  lemma TotalOne(es: seq<Entry>, e: Entry)
    ensures Total(es + [e]) == Total(es) + e.size
  {
    assert (es + [e])[..|es|] == es;
  }

  ghost predicate Accounted(c: Cache) {
    c.size == Total(c.entries)
  }

  ghost predicate DistinctIds(es: seq<Entry>) {
    forall i, j :: 0 <= i < j < |es| ==> es[i].id != es[j].id
  }

  ghost predicate WellKept(c: Cache) {
    DistinctIds(c.entries) && Accounted(c)
  }

  /** How many entries an eviction drops, starting from tracked size `size`. */
  function Victims(max: nat, es: seq<Entry>, size: int, needed: nat): nat
    decreases |es|
  {
    if es == [] || size + needed <= max then 0 else 1 + Victims(max, es[1..], size - es[0].size, needed)
  }

  lemma {:induction false} VictimsEnough(max: nat, es: seq<Entry>, size: int, needed: nat)
    ensures var k := Victims(max, es, size, needed);
            && k <= |es|
            && (k == |es| || size - Total(es[..k]) + needed <= max)
            && (k > 0 ==> size - Total(es[..k - 1]) + needed > max)
    decreases |es|
  {
    var k := Victims(max, es, size, needed);
    if k > 0 {
      VictimsEnough(max, es[1..], size - es[0].size, needed);
      PrefixTotal(es, k);
      if k > 1 { PrefixTotal(es, k - 1); }
    }
  }

  lemma ForgetFirst(c: Cache)
    requires c.entries != []
    ensures Forget(c, 0) == Cache(c.entries[1..], c.size - c.entries[0].size, c.index - {c.entries[0].Key()})
  {
  }

  lemma {:induction false} EvictSuffix(max: nat, c: Cache, needed: nat)
    requires needed <= max
    ensures var k := Victims(max, c.entries, c.size, needed);
            k <= |c.entries| && Evict(max, c, needed).entries == c.entries[k..]
    decreases |c.entries|
  {
    if !(c.entries == [] || c.size + needed <= max) {
      ForgetFirst(c);
      EvictSuffix(max, Forget(c, 0), needed);
    }
  }

  /** Evicting takes off the tracked size exactly what it takes out of the cache. */
  lemma {:induction false} EvictConserves(max: nat, c: Cache, needed: nat)
    ensures Evict(max, c, needed).size - Total(Evict(max, c, needed).entries) == c.size - Total(c.entries)
    decreases |c.entries|
  {
    if !(needed > max || c.entries == [] || c.size + needed <= max) {
      TotalDrop(c.entries, 0);
      EvictConserves(max, Forget(c, 0), needed);
    }
  }

  lemma EvictIsVictims(max: nat, c: Cache, needed: nat)
    requires needed <= max
    ensures var k, c' := Victims(max, c.entries, c.size, needed), Evict(max, c, needed);
            k <= |c.entries| && c'.entries == c.entries[k..] && c'.size == c.size - Total(c.entries[..k])
  {
    EvictSuffix(max, c, needed);
    EvictConserves(max, c, needed);
    SuffixTotal(c.entries, Victims(max, c.entries, c.size, needed));
  }

  /** An eviction drops the shortest least-recently-used prefix that brings the tracked size
      down far enough, or everything. */
  lemma EvictsShortestPrefix(max: nat, c: Cache, needed: nat)
    requires needed <= max
    ensures var k, c' := Victims(max, c.entries, c.size, needed), Evict(max, c, needed);
            && k <= |c.entries| && c'.entries == c.entries[k..]
            && c'.size == c.size - Total(c.entries[..k])
            && (k == |c.entries| || c'.size + needed <= max)
            && (k > 0 ==> c.size - Total(c.entries[..k - 1]) + needed > max)
  {
    EvictIsVictims(max, c, needed);
    VictimsEnough(max, c.entries, c.size, needed);
  }

  ghost predicate HasKey(es: seq<Entry>, key: (Name, Name)) {
    exists i :: 0 <= i < |es| && es[i].Key() == key
  }

  lemma HeadOrTail(es: seq<Entry>, m: nat, key: (Name, Name))
    requires m < |es|
    ensures HasKey(es[..m + 1], key) <==> es[0].Key() == key || HasKey(es[1..][..m], key)
  {
    var front, later := es[..m + 1], es[1..][..m];
    if HasKey(front, key) {
      var i :| 0 <= i < |front| && front[i].Key() == key;
      assert i > 0 ==> later[i - 1] == front[i];
    }
    if HasKey(later, key) {
      var i :| 0 <= i < |later| && later[i].Key() == key;
      assert front[i + 1] == later[i];
    }
    assert front[0] == es[0];
  }

  /** The keys it drops from the index are those of that prefix. */
  lemma {:induction false} EvictDropsKeys(max: nat, c: Cache, needed: nat, key: (Name, Name))
    requires needed <= max
    ensures Victims(max, c.entries, c.size, needed) <= |c.entries|
    ensures key in Evict(max, c, needed).index <==>
              key in c.index && !HasKey(c.entries[..Victims(max, c.entries, c.size, needed)], key)
    decreases |c.entries|
  {
    if !(c.entries == [] || c.size + needed <= max) {
      ForgetFirst(c);
      EvictDropsKeys(max, Forget(c, 0), needed, key);
      HeadOrTail(c.entries, Victims(max, c.entries[1..], c.size - c.entries[0].size, needed), key);
    }
  }

  lemma PrefixTotal(es: seq<Entry>, k: nat)
    requires 0 < k <= |es|
    ensures Total(es[..k]) == es[0].size + Total(es[1..][..k - 1])
  {
    assert es[..k] == [es[0]] + es[1..][..k - 1];
    TotalSplit([es[0]], es[1..][..k - 1]);
    assert Total([es[0]]) == es[0].size by { TotalOne([], es[0]); assert [] + [es[0]] == [es[0]]; }
  }

  /** Storing under a fresh id: refused exactly when the entry alone exceeds the budget; otherwise
      the shortest least-recently-used prefix that makes room is dropped, the accounting stays
      exact, and the cache fits the budget, even if exports had pushed it over before. */
  lemma StoreFresh(max: nat, c: Cache, e: Entry) returns (k: nat)
    requires WellKept(c) && Pos(c.entries, e.id) == None
    ensures var (c', ok) := Store(max, c, e);
            && (ok <==> e.size <= max) && (!ok ==> c' == c)
            && WellKept(c')
            && (ok ==> Total(c'.entries) <= max && k <= |c.entries| && c'.entries == c.entries[k..] + [e])
            && (ok && k > 0 ==> Total(c.entries[k - 1..]) + e.size > max)
  {
    k := 0;
    if e.size <= max {
      StoreDrops(max, c, e, c.size);
      k := FreshStored(max, c, e, Store(max, c, e).0);
    }
  }

  lemma FreshStored(max: nat, c: Cache, e: Entry, c': Cache) returns (k: nat)
    requires WellKept(c) && Pos(c.entries, e.id) == None && e.size <= max
    requires Victims(max, c.entries, c.size, e.size) <= |c.entries|
    requires c'.entries == Put(c.entries[Victims(max, c.entries, c.size, e.size)..], e)
    requires c'.size == c.size - Total(c.entries[..Victims(max, c.entries, c.size, e.size)]) + e.size
    ensures WellKept(c') && Total(c'.entries) <= max && k <= |c.entries| && c'.entries == c.entries[k..] + [e]
    ensures k > 0 ==> Total(c.entries[k - 1..]) + e.size > max
  {
    k := Victims(max, c.entries, c.size, e.size);
    VictimsEnough(max, c.entries, c.size, e.size);
    SuffixTotal(c.entries, k);
    if k > 0 { SuffixTotal(c.entries, k - 1); }
    FreshAppended(c.entries, k, e);
  }

  /** A store, as the prefix it drops and the dictionary write that follows; `size` is the
      tracked size without the old entry of this id. */
  lemma StoreDrops(max: nat, c: Cache, e: Entry, size: int)
    requires e.size <= max
    requires size == match Pos(c.entries, e.id) case None => c.size case Some(i) => c.size - c.entries[i].size
    ensures var k, (c', ok) := Victims(max, c.entries, size, e.size), Store(max, c, e);
            && ok && k <= |c.entries| && c'.entries == Put(c.entries[k..], e)
            && c'.size == size - Total(c.entries[..k]) + e.size
  {
    var c1 := c.(size := size);
    if size + e.size > max {
      EvictIsVictims(max, c1, e.size);
    } else {
      assert c.entries[0..] == c.entries && c.entries[..0] == [];
    }
  }

  lemma SuffixDistinct(es: seq<Entry>, k: nat)
    requires DistinctIds(es) && k <= |es|
    ensures DistinctIds(es[k..])
  {
  }

  lemma AppendDistinct(es: seq<Entry>, e: Entry)
    requires DistinctIds(es) && Pos(es, e.id) == None
    ensures DistinctIds(es + [e])
  {
    assert forall i :: 0 <= i < |es| ==> es[i] in es;
  }

  lemma FreshInSuffix(es: seq<Entry>, k: nat, id: CacheId)
    requires k <= |es| && Pos(es, id) == None
    ensures Pos(es[k..], id) == None
  {
    assert forall x :: x in es[k..] ==> x in es;
  }

  lemma FreshAppended(es: seq<Entry>, k: nat, e: Entry)
    requires DistinctIds(es) && k <= |es| && Pos(es, e.id) == None
    ensures Put(es[k..], e) == es[k..] + [e] && DistinctIds(es[k..] + [e])
    ensures Total(es[k..] + [e]) == Total(es[k..]) + e.size
  {
    SuffixDistinct(es, k);
    FreshInSuffix(es, k, e.id);
    AppendDistinct(es[k..], e);
    TotalOne(es[k..], e);
  }

  lemma SuffixTotal(es: seq<Entry>, k: nat)
    requires k <= |es|
    ensures Total(es[k..]) == Total(es) - Total(es[..k])
  {
    assert es[..k] + es[k..] == es;
    TotalSplit(es[..k], es[k..]);
  }

  // ---------- storing under an id that is already cached ----------

  /** Larger prefixes weigh no less. */
  lemma PrefixMonotone(es: seq<Entry>, i: nat, j: nat)
    requires i <= j <= |es|
    ensures Total(es[..i]) <= Total(es[..j])
  {
    assert es[..j] == es[..i] + es[i..j];
    TotalSplit(es[..i], es[i..j]);
  }

  /** Re-storing subtracts the old bytes first; the eviction then reaches the old entry itself,
      and subtracts them again, exactly when even all older entries do not make enough room. */
  lemma RestoreVictims(max: nat, c: Cache, e: Entry, i: nat)
    requires Accounted(c) && e.size <= max && i < |c.entries|
    ensures Victims(max, c.entries, c.size - c.entries[i].size, e.size) > i <==>
            Total(c.entries[i + 1..]) + e.size > max
  {
    var size := c.size - c.entries[i].size;
    var k := Victims(max, c.entries, size, e.size);
    VictimsEnough(max, c.entries, size, e.size);
    TotalAt(c.entries, i);
    if k > i {
      PrefixMonotone(c.entries, i, k - 1);
    } else {
      PrefixMonotone(c.entries, k, i);
    }
  }

  lemma PosUnique(es: seq<Entry>, i: nat)
    requires DistinctIds(es) && i < |es|
    ensures Pos(es, es[i].id) == Some(i)
  {
  }

  /** The dictionary write after k entries were dropped: in place if the old entry is still
      there, at the end if it was dropped. */
  lemma Rewritten(es: seq<Entry>, k: nat, i: nat, e: Entry)
    requires DistinctIds(es) && i < |es| && es[i].id == e.id && k <= |es|
    ensures DistinctIds(Put(es[k..], e))
    ensures Total(Put(es[k..], e)) == Total(es[k..]) + e.size - (if k > i then 0 else es[i].size)
  {
    var rest := es[k..];
    if k > i {
      forall j | 0 <= j < |rest| ensures rest[j].id != e.id {
        assert rest[j] == es[k + j];
      }
      TotalOne(rest, e);
    } else {
      assert rest[i - k] == es[i];
      PosUnique(rest, i - k);
      TotalUpdate(rest, i - k, e);
    }
  }

  /** The accounting survives a re-store if and only if the old entry had no bytes or the new one
      fits beside the entries used more recently than the old one; otherwise the tracked size is
      too small by exactly the old entry's bytes. */
  lemma RestoreAccountingIff(max: nat, c: Cache, e: Entry, i: nat)
    requires WellKept(c) && e.size <= max && i < |c.entries| && c.entries[i].id == e.id
    ensures var c' := Store(max, c, e).0;
            && DistinctIds(c'.entries)
            && (Accounted(c') <==> c.entries[i].size == 0 || Total(c.entries[i + 1..]) + e.size <= max)
            && (!Accounted(c') ==> c'.size == Total(c'.entries) - c.entries[i].size)
            && (Accounted(c') ==> Total(c'.entries) <= max)
  {
    PosUnique(c.entries, i);
    StoreDrops(max, c, e, c.size - c.entries[i].size);
    Restored(max, c, e, i, Store(max, c, e).0);
  }

  lemma Restored(max: nat, c: Cache, e: Entry, i: nat, c': Cache)
    requires WellKept(c) && e.size <= max && i < |c.entries| && c.entries[i].id == e.id
    requires Victims(max, c.entries, c.size - c.entries[i].size, e.size) <= |c.entries|
    requires c'.entries == Put(c.entries[Victims(max, c.entries, c.size - c.entries[i].size, e.size)..], e)
    requires c'.size == c.size - c.entries[i].size
                        - Total(c.entries[..Victims(max, c.entries, c.size - c.entries[i].size, e.size)]) + e.size
    ensures DistinctIds(c'.entries)
    ensures Accounted(c') <==> c.entries[i].size == 0 || Total(c.entries[i + 1..]) + e.size <= max
    ensures !Accounted(c') ==> c'.size == Total(c'.entries) - c.entries[i].size
    ensures Accounted(c') ==> Total(c'.entries) <= max
  {
    var k := Victims(max, c.entries, c.size - c.entries[i].size, e.size);
    RestoreVictims(max, c, e, i);
    RestoredSize(c, e, i, k, c');
    RestoredFits(max, c, e, i, k, c');
  }

  lemma RestoredSize(c: Cache, e: Entry, i: nat, k: nat, c': Cache)
    requires WellKept(c) && i < |c.entries| && c.entries[i].id == e.id && k <= |c.entries|
    requires c'.entries == Put(c.entries[k..], e)
    requires c'.size == c.size - c.entries[i].size - Total(c.entries[..k]) + e.size
    ensures DistinctIds(c'.entries)
    ensures c'.size == Total(c'.entries) - (if k > i then c.entries[i].size else 0)
  {
    SuffixTotal(c.entries, k);
    Rewritten(c.entries, k, i, e);
  }

  lemma RestoredFits(max: nat, c: Cache, e: Entry, i: nat, k: nat, c': Cache)
    requires WellKept(c) && i < |c.entries| && e.size <= max
    requires k == Victims(max, c.entries, c.size - c.entries[i].size, e.size)
    requires k <= |c.entries| && c'.size == c.size - c.entries[i].size - Total(c.entries[..k]) + e.size
    ensures c'.size <= max
  {
    VictimsEnough(max, c.entries, c.size - c.entries[i].size, e.size);
    if k == |c.entries| { assert c.entries[..k] == c.entries; }
  }

  // ---------- the other operations keep the accounting ----------

  lemma DropKeepsDistinct(es: seq<Entry>, i: nat)
    requires DistinctIds(es) && i < |es|
    ensures DistinctIds(Drop(es, i)) && forall x :: x in Drop(es, i) ==> x in es && x.id != es[i].id
  {
    var d := Drop(es, i);
    assert forall j :: 0 <= j < |d| ==> d[j] == if j < i then es[j] else es[j + 1];
  }

  lemma ForgetKept(c: Cache, i: nat)
    requires WellKept(c) && i < |c.entries|
    ensures WellKept(Forget(c, i))
  {
    TotalDrop(c.entries, i);
    DropKeepsDistinct(c.entries, i);
  }

  /** Moving an entry to the recently used end, changed or not. */
  lemma MovedToEnd(es: seq<Entry>, i: nat, e: Entry)
    requires DistinctIds(es) && i < |es| && e.id == es[i].id && e.size == es[i].size
    ensures DistinctIds(Drop(es, i) + [e]) && Total(Drop(es, i) + [e]) == Total(es)
  {
    TotalDrop(es, i);
    TotalOne(Drop(es, i), e);
    DistinctAgain(es, i, e);
  }

  lemma DistinctAgain(es: seq<Entry>, i: nat, e: Entry)
    requires DistinctIds(es) && i < |es| && e.id == es[i].id
    ensures DistinctIds(Drop(es, i) + [e])
  {
    var moved := Drop(es, i) + [e];
    forall j | 0 <= j < |moved| ensures moved[j].id == if j == |moved| - 1 then es[i].id else if j < i then es[j].id else es[j + 1].id {
    }
    forall j, k | 0 <= j < k < |moved| ensures moved[j].id != moved[k].id {
    }
  }

  lemma LookupKept(c: Cache, key: (Name, Name), now: real)
    requires WellKept(c)
    ensures WellKept(Lookup(c, key, now).0)
  {
    if key in c.index && c.index[key] != EmptyId {
      match Pos(c.entries, c.index[key])
      case None =>
      case Some(i) =>
        TotalDrop(c.entries, i);
        DropKeepsDistinct(c.entries, i);
        MovedToEnd(c.entries, i, c.entries[i].(accessCount := c.entries[i].accessCount + 1));
    }
  }

  lemma LookupByIdKept(c: Cache, id: CacheId, now: real)
    requires WellKept(c)
    ensures WellKept(LookupById(c, id, now).0)
  {
    var p := Pos(c.entries, id);
    if p.Some? { ForgetKept(c, p.value); }
  }

  lemma GrownKept(c: Cache, i: nat, e: Entry)
    requires WellKept(c) && i < |c.entries| && e.id == c.entries[i].id
    ensures WellKept(c.(entries := c.entries[i := e], size := c.size + e.size - c.entries[i].size))
  {
    TotalUpdate(c.entries, i, e);
  }

  /** Growing an entry in place is followed by the tracked size, over budget or not. */
  lemma ExportKept(c: Cache, id: CacheId, backend: nat -> Option<Bytes>, compress: bool, now: real)
    requires WellKept(c)
    ensures WellKept(Export(c, id, backend, compress, now).0)
  {
    LookupByIdKept(c, id, now);
    var (c1, p) := LookupById(c, id, now);
    if p.Some? && p.value < |c1.entries| {
      var shards := Filled(c1.entries[p.value].shards, backend, compress);
      GrownKept(c1, p.value, c1.entries[p.value].(shards := shards, size := ShardSum(shards)));
    }
  }

  // ---------- what an export does ----------

  /** A shard after an export: one that has a tensor is as it was, one without is filled with what the
      backend produced for it, if anything, and is larger by that. */
  ghost predicate FilledFrom(s: Shard, produced: Option<Bytes>, compress: bool, s': Shard) {
    if s.tensor.Some? || produced.None? then s' == s
    else s' == Shard(s.info, s.sizeBytes + |produced.value|, compress, produced)
  }

  lemma {:induction false} FilledIs(shards: seq<Shard>, backend: nat -> Option<Bytes>, compress: bool)
    ensures forall k :: 0 <= k < |shards| ==> FilledFrom(shards[k], backend(k), compress, Filled(shards, backend, compress)[k])
  {
    if shards != [] {
      var k := |shards| - 1;
      FilledIs(shards[..k], backend, compress);
      assert forall j :: 0 <= j < k ==> Filled(shards, backend, compress)[j] == Filled(shards[..k], backend, compress)[j];
    }
  }

  /** What the backend adds to the shards that have no tensor. */
  ghost function Produced(shards: seq<Shard>, backend: nat -> Option<Bytes>): nat {
    if shards == [] then 0
    else
      var k := |shards| - 1;
      Produced(shards[..k], backend)
      + if shards[k].tensor == None && backend(k).Some? then |backend(k).value| else 0
  }

  lemma {:induction false} FilledGrows(shards: seq<Shard>, backend: nat -> Option<Bytes>, compress: bool)
    ensures ShardSum(Filled(shards, backend, compress)) == ShardSum(shards) + Produced(shards, backend)
  {
    if shards != [] {
      var k := |shards| - 1;
      FilledGrows(shards[..k], backend, compress);
      assert Filled(shards, backend, compress)[..k] == Filled(shards[..k], backend, compress);
    }
  }

  /** Exporting an entry: found unless it is missing or too old; its shards are filled where they were
      empty, its size becomes the sum over its shards, it keeps its place and everything else it
      had, no other entry changes, and the tracked size follows. */
  lemma ExportGrows(c: Cache, id: CacheId, backend: nat -> Option<Bytes>, compress: bool, now: real)
    requires DistinctIds(c.entries)
    ensures var (c', r) := Export(c, id, backend, compress, now);
            && (r.Some? <==> exists i :: 0 <= i < |c.entries| && c.entries[i].id == id && now - c.entries[i].createdAt <= c.entries[i].ttl)
            && (r.Some? ==> exists i: nat :: Exported(c, c', i, r.value, backend, compress) && c.entries[i].id == id)
  {
    LookupByIdFindsIff(c, id, now);
    var (c1, p) := LookupById(c, id, now);
    if p.Some? {
      var shards := c.entries[p.value].shards;
      FilledIs(shards, backend, compress);
      FilledGrows(shards, backend, compress);
      var (c', r) := Export(c, id, backend, compress, now);
      assert Exported(c, c', p.value, r.value, backend, compress);
    }
  }

  ghost predicate Exported(c: Cache, c': Cache, i: nat, r: Entry, backend: nat -> Option<Bytes>, compress: bool) {
    && i < |c.entries|
    && var e := c.entries[i];
       && r == e.(shards := r.shards, size := ShardSum(e.shards) + Produced(e.shards, backend))
       && |r.shards| == |e.shards|
       && (forall k :: 0 <= k < |e.shards| ==> FilledFrom(e.shards[k], backend(k), compress, r.shards[k]))
       && c' == Cache(c.entries[i := r], c.size - e.size + r.size, c.index)
  }

  /** Storing under an id that is cached: the entry takes the old one's place, unless the eviction
      reached that, and is then the most recently used; the key leads to it. */
  lemma StoreAgain(max: nat, c: Cache, e: Entry, i: nat) returns (k: nat)
    requires DistinctIds(c.entries) && e.size <= max && i < |c.entries| && c.entries[i].id == e.id
    ensures var (c', ok) := Store(max, c, e);
            && ok && k <= |c.entries|
            && c'.entries == (if k <= i then c.entries[k..i] + [e] + c.entries[i + 1..] else c.entries[k..] + [e])
            && (e.model, e.hash) in c'.index && c'.index[(e.model, e.hash)] == e.id
    ensures Accounted(c) ==> (k > i <==> Total(c.entries[i + 1..]) + e.size > max)
  {
    PosUnique(c.entries, i);
    if Accounted(c) { RestoreVictims(max, c, e, i); }
    StoreDrops(max, c, e, c.size - c.entries[i].size);
    k := Victims(max, c.entries, c.size - c.entries[i].size, e.size);
    PutAgain(c.entries, k, i, e);
  }

  lemma PutAgain(es: seq<Entry>, k: nat, i: nat, e: Entry)
    requires DistinctIds(es) && i < |es| && es[i].id == e.id && k <= |es|
    ensures Put(es[k..], e) == if k <= i then es[k..i] + [e] + es[i + 1..] else es[k..] + [e]
  {
    var rest := es[k..];
    if k <= i {
      assert rest[i - k] == es[i];
      PosUnique(rest, i - k);
    } else {
      forall j | 0 <= j < |rest| ensures rest[j].id != e.id {
        assert rest[j] == es[k + j];
      }
    }
  }

  // ---------- the index ----------

  /** The index is the exact inverse of the cache: same keys, each naming its entry. */
  ghost predicate IndexExact(c: Cache) {
    && (forall x :: x in c.entries ==> x.Key() in c.index && c.index[x.Key()] == x.id)
    && (forall k :: k in c.index ==> exists x :: x in c.entries && x.Key() == k)
  }

  /** Cache ids and keys correspond one to one, for the cached entries and this one. */
  ghost predicate OneToOne(es: seq<Entry>, e: Entry) {
    forall x :: x in es ==> (x.id == e.id <==> x.Key() == e.Key())
  }

  ghost predicate KeysOneToOne(es: seq<Entry>) {
    forall x, y :: x in es && y in es ==> (x.id == y.id <==> x.Key() == y.Key())
  }

  /** No id twice, and index, ids and keys in exact correspondence. */
  ghost predicate Indexed(c: Cache) {
    DistinctIds(c.entries) && IndexExact(c) && KeysOneToOne(c.entries)
  }

  /** A linear search of the cache for the key. */
  function Scan(es: seq<Entry>, key: (Name, Name)): (r: Option<Entry>)
    ensures r.Some? ==> r.value in es && r.value.Key() == key
    ensures r.None? ==> forall x :: x in es ==> x.Key() != key
  {
    if es == [] then None
    else if es[0].Key() == key then Some(es[0])
    else Scan(es[1..], key)
  }

  lemma DropHolds(es: seq<Entry>, i: nat, y: Entry)
    requires i < |es| && y in es && y.id != es[i].id
    ensures y in Drop(es, i)
  {
    var j :| 0 <= j < |es| && es[j] == y;
    assert Drop(es, i)[if j < i then j else j - 1] == y;
  }

  lemma ForgetKeepsIndex(c: Cache, i: nat)
    requires Indexed(c) && i < |c.entries|
    ensures DistinctIds(Forget(c, i).entries) && IndexExact(Forget(c, i)) && KeysOneToOne(Forget(c, i).entries)
    ensures forall x :: x in Forget(c, i).entries ==> x in c.entries
  {
    DropKeepsDistinct(c.entries, i);
    forall y | y in c.entries && y.id != c.entries[i].id ensures y in Drop(c.entries, i) {
      DropHolds(c.entries, i, y);
    }
  }

  lemma TouchKeepsIndex(c: Cache, i: nat, e: Entry, size: int)
    requires Indexed(c) && i < |c.entries|
    requires e.id == c.entries[i].id && e.Key() == c.entries[i].Key()
    ensures var c' := Cache(Drop(c.entries, i) + [e], size, c.index); IndexExact(c') && KeysOneToOne(c'.entries)
  {
    DropKeepsDistinct(c.entries, i);
    var d := Drop(c.entries, i);
    assert forall x :: x in d + [e] <==> x in d || x == e;
    forall y | y in c.entries && y.id != c.entries[i].id ensures y in d {
      DropHolds(c.entries, i, y);
    }
  }

  lemma LookupFound(c: Cache, key: (Name, Name), now: real, i: nat)
    requires DistinctIds(c.entries) && i < |c.entries| && c.entries[i].Key() == key
    requires key in c.index && c.index[key] == c.entries[i].id != EmptyId
    ensures var e := c.entries[i];
            Lookup(c, key, now) ==
            if e.Expired(now) then (Forget(c, i), None)
            else (Cache(Drop(c.entries, i) + [e.(accessCount := e.accessCount + 1)], c.size, c.index),
                  Some(e.(accessCount := e.accessCount + 1)))
  {
    PosUnique(c.entries, i);
  }

  /** What a linear search for an unexpired entry hands out; it counts the access. An entry whose
      id is the empty string is never handed out. */
  function ScanUnexpired(es: seq<Entry>, key: (Name, Name), now: real): Option<Entry> {
    match Scan(es, key)
    case None => None
    case Some(x) => if x.id == EmptyId || x.Expired(now) then None else Some(x.(accessCount := x.accessCount + 1))
  }

  /** The index lookup finds what the linear search finds. */
  lemma {:induction false} LookupIsScan(c: Cache, key: (Name, Name), now: real)
    requires Indexed(c)
    ensures Lookup(c, key, now).1 == ScanUnexpired(c.entries, key, now)
  {
    match Scan(c.entries, key)
    case None =>
      assert key !in c.index;
    case Some(x) =>
      assert c.index[key] == x.id;
      if x.id != EmptyId { CachedIsFound(c, x, now); }
  }

  /** A lookup keeps the index exact: a hit moves the entry to the recently used end, an expired
      entry leaves cache and index together. */
  lemma LookupKeepsIndex(c: Cache, key: (Name, Name), now: real)
    requires Indexed(c)
    ensures IndexExact(Lookup(c, key, now).0) && KeysOneToOne(Lookup(c, key, now).0.entries)
  {
    if key in c.index && c.index[key] != EmptyId {
      var x :| x in c.entries && x.Key() == key;
      var i :| 0 <= i < |c.entries| && c.entries[i] == x;
      LookupFound(c, key, now, i);
      FoundKeepsIndex(c, i, now, Lookup(c, key, now).0);
    }
  }

  lemma FoundKeepsIndex(c: Cache, i: nat, now: real, c': Cache)
    requires Indexed(c) && i < |c.entries|
    requires c' == if c.entries[i].Expired(now) then Forget(c, i)
                   else Cache(Drop(c.entries, i) + [c.entries[i].(accessCount := c.entries[i].accessCount + 1)], c.size, c.index)
    ensures IndexExact(c') && KeysOneToOne(c'.entries)
  {
    if c.entries[i].Expired(now) {
      ForgetKeepsIndex(c, i);
    } else {
      TouchKeepsIndex(c, i, c.entries[i].(accessCount := c.entries[i].accessCount + 1), c.size);
    }
  }

  lemma {:induction false} EvictKeepsIndex(max: nat, c: Cache, needed: nat)
    requires Indexed(c)
    ensures IndexExact(Evict(max, c, needed)) && KeysOneToOne(Evict(max, c, needed).entries)
    ensures DistinctIds(Evict(max, c, needed).entries)
    ensures forall x :: x in Evict(max, c, needed).entries ==> x in c.entries
    decreases |c.entries|
  {
    if !(needed > max || c.entries == [] || c.size + needed <= max) {
      var d := Forget(c, 0);
      ForgetKeepsIndex(c, 0);
      EvictKeepsIndex(max, d, needed);
    }
  }

  lemma PutMembers(es: seq<Entry>, e: Entry)
    requires DistinctIds(es)
    ensures forall x :: x in Put(es, e) <==> x == e || (x in es && x.id != e.id)
  {
    var es' := Put(es, e);
    match Pos(es, e.id) {
      case None =>
        assert es'[|es|] == e;
      case Some(i) =>
        assert es'[i] == e;
        forall j | 0 <= j < |es| && j != i ensures es'[j] == es[j] && es[j].id != e.id {
        }
        forall x | x in es && x.id != e.id ensures x in es' {
          var j :| 0 <= j < |es| && es[j] == x;
          assert es'[j] == x;
        }
    }
  }

  lemma PutIndexed(c: Cache, e: Entry, size: int)
    requires Indexed(c) && OneToOne(c.entries, e)
    ensures var c' := Cache(Put(c.entries, e), size, c.index[e.Key() := e.id]);
            IndexExact(c') && KeysOneToOne(c'.entries)
  {
    PutMembers(c.entries, e);
    MembersIndexed(c, e, Cache(Put(c.entries, e), size, c.index[e.Key() := e.id]));
  }

  lemma MembersIndexed(c: Cache, e: Entry, c': Cache)
    requires IndexExact(c) && KeysOneToOne(c.entries) && OneToOne(c.entries, e)
    requires forall x :: x in c'.entries <==> x == e || (x in c.entries && x.id != e.id)
    requires c'.index == c.index[e.Key() := e.id]
    ensures IndexExact(c') && KeysOneToOne(c'.entries)
  {
    forall k | k in c'.index ensures exists x :: x in c'.entries && x.Key() == k {
      if k == e.Key() {
        assert e in c'.entries;
      } else {
        var x :| x in c.entries && x.Key() == k;
        assert x in c'.entries;
      }
    }
  }

  /** A cache whose index is exact and stays so when e is written. */
  ghost predicate Ready(c: Cache, e: Entry) {
    Indexed(c) && OneToOne(c.entries, e)
  }

  lemma EvictedReady(max: nat, c: Cache, e: Entry)
    requires Ready(c, e)
    ensures Ready(Evict(max, c, e.size), e)
  {
    EvictKeepsIndex(max, c, e.size);
  }

  lemma ResizedReady(c: Cache, e: Entry, size: int)
    requires Ready(c, e)
    ensures Ready(c.(size := size), e)
  {
  }

  /** A store, as the cache it writes into and the two dictionary writes. */
  lemma StoreWrites(max: nat, c: Cache, e: Entry) returns (size: int, c2: Cache)
    requires e.size <= max
    ensures c2 == c.(size := size) || c2 == Evict(max, c.(size := size), e.size)
    ensures Store(max, c, e).0 == Cache(Put(c2.entries, e), c2.size + e.size, c2.index[e.Key() := e.id])
  {
    var p := Pos(c.entries, e.id);
    size := if p.Some? then c.size - c.entries[p.value].size else c.size;
    var c1 := c.(size := size);
    c2 := if size + e.size > max then Evict(max, c1, e.size) else c1;
  }

  lemma StoreKeepsIndex(max: nat, c: Cache, e: Entry)
    requires Indexed(c) && OneToOne(c.entries, e)
    ensures IndexExact(Store(max, c, e).0) && KeysOneToOne(Store(max, c, e).0.entries)
  {
    if e.size <= max {
      var size, c2 := StoreWrites(max, c, e);
      ResizedReady(c, e, size);
      EvictedReady(max, c.(size := size), e);
      PutIndexed(c2, e, c2.size + e.size);
    }
  }

  lemma GrownKeepsIndex(c: Cache, i: nat, e: Entry, size: int)
    requires Indexed(c) && i < |c.entries|
    requires e.id == c.entries[i].id && e.Key() == c.entries[i].Key()
    ensures var c' := Cache(c.entries[i := e], size, c.index); IndexExact(c') && KeysOneToOne(c'.entries)
  {
    var es, es' := c.entries, c.entries[i := e];
    assert es[i] in es && es'[i] == e;
    assert forall x :: x in es' ==> x == e || x in es;
    forall k | k in c.index ensures exists x :: x in es' && x.Key() == k {
      var y :| y in es && y.Key() == k;
      var j :| 0 <= j < |es| && es[j] == y;
      assert es'[j] in es' && es'[j].Key() == k;
    }
  }

  lemma ExportKeepsIndex(c: Cache, id: CacheId, backend: nat -> Option<Bytes>, compress: bool, now: real)
    requires Indexed(c)
    ensures IndexExact(Export(c, id, backend, compress, now).0) && KeysOneToOne(Export(c, id, backend, compress, now).0.entries)
  {
    LookupByIdKeepsIndex(c, id, now);
    var (c1, p) := LookupById(c, id, now);
    if p.Some? && p.value < |c1.entries| {
      var e := c1.entries[p.value];
      var shards := Filled(e.shards, backend, compress);
      GrownKeepsIndex(c1, p.value, e.(shards := shards, size := ShardSum(shards)), c1.size + ShardSum(shards) - e.size);
    }
  }

  lemma LookupByIdKeepsIndex(c: Cache, id: CacheId, now: real)
    requires Indexed(c)
    ensures var c' := LookupById(c, id, now).0; DistinctIds(c'.entries) && IndexExact(c') && KeysOneToOne(c'.entries)
  {
    var p := Pos(c.entries, id);
    if p.Some? { ForgetKeepsIndex(c, p.value); }
  }

  // ---------- every run ----------

  datatype Op =
    | DoStore(e: Entry)
    | DoLookup(key: (Name, Name), now: real)
    | DoLookupById(id: CacheId, now: real)
    | DoExport(id: CacheId, backend: nat -> Option<Bytes>, compress: bool, now: real)

  ghost function Next(max: nat, c: Cache, op: Op): Cache {
    match op
    case DoStore(e) => Store(max, c, e).0
    case DoLookup(key, now) => Lookup(c, key, now).0
    case DoLookupById(id, now) => LookupById(c, id, now).0
    case DoExport(id, backend, compress, now) => Export(c, id, backend, compress, now).0
  }

  ghost function After(max: nat, ops: seq<Op>): Cache {
    if ops == [] then Cache([], 0, map[])
    else
      Next(max, After(max, ops[..|ops| - 1]), ops[|ops| - 1])
  }

  /** The stores that keep the books: under a fresh id, or replacing an entry in the case found
      by RestoreAccountingIff. */
  ghost predicate SoundStore(max: nat, c: Cache, e: Entry) {
    match Pos(c.entries, e.id)
    case None => true
    case Some(i) => e.size > max || c.entries[i].size == 0 || Total(c.entries[i + 1..]) + e.size <= max
  }

  ghost predicate SoundRun(max: nat, ops: seq<Op>) {
    ops == [] ||
    (SoundRun(max, ops[..|ops| - 1]) &&
     (ops[|ops| - 1].DoStore? ==> SoundStore(max, After(max, ops[..|ops| - 1]), ops[|ops| - 1].e)))
  }

  lemma SoundStoreKept(max: nat, c: Cache, e: Entry)
    requires WellKept(c) && SoundStore(max, c, e)
    ensures WellKept(Store(max, c, e).0) && (e.size <= max ==> Total(Store(max, c, e).0.entries) <= max)
  {
    match Pos(c.entries, e.id)
    case None => var _ := StoreFresh(max, c, e);
    case Some(i) => if e.size <= max { RestoreAccountingIff(max, c, e, i); }
  }

  /** In every run of stores, lookups, expiries, evictions and exports, re-stores only in the case
      found by RestoreAccountingIff, the tracked size is the sum
      of the cached entries' sizes, and right after a successful store that sum is within budget,
      however far exports had pushed it over. */
  lemma {:induction false} RunAccounting(max: nat, ops: seq<Op>)
    requires SoundRun(max, ops)
    ensures WellKept(After(max, ops))
    ensures ops != [] && ops[|ops| - 1].DoStore? && ops[|ops| - 1].e.size <= max ==> Total(After(max, ops).entries) <= max
  {
    if ops != [] {
      var c := After(max, ops[..|ops| - 1]);
      RunAccounting(max, ops[..|ops| - 1]);
      match ops[|ops| - 1]
      case DoStore(e) => SoundStoreKept(max, c, e);
      case DoLookup(key, now) => LookupKept(c, key, now);
      case DoLookupById(id, now) => LookupByIdKept(c, id, now);
      case DoExport(id, backend, compress, now) => ExportKept(c, id, backend, compress, now);
    }
  }

  ghost predicate Stored(ops: seq<Op>, id: CacheId, key: (Name, Name)) {
    exists i :: 0 <= i < |ops| && ops[i].DoStore? && ops[i].e.id == id && ops[i].e.Key() == key
  }

  ghost predicate AllStored(es: seq<Entry>, ops: seq<Op>) {
    forall x :: x in es ==> Stored(ops, x.id, x.Key())
  }

  /** In what a run stores, cache ids and (model, prompt hash) keys correspond one to one. */
  ghost predicate OneToOneStores(ops: seq<Op>) {
    forall i, j :: 0 <= i < |ops| && 0 <= j < |ops| && ops[i].DoStore? && ops[j].DoStore? ==>
      (ops[i].e.id == ops[j].e.id <==> ops[i].e.Key() == ops[j].e.Key())
  }

  lemma PutDistinct(es: seq<Entry>, e: Entry)
    requires DistinctIds(es)
    ensures DistinctIds(Put(es, e))
  {
    if Pos(es, e.id) == None { AppendDistinct(es, e); }
  }

  lemma StoreDistinct(max: nat, c: Cache, e: Entry)
    requires DistinctIds(c.entries) && e.size <= max
    ensures DistinctIds(Store(max, c, e).0.entries)
  {
    var size := match Pos(c.entries, e.id) case None => c.size case Some(i) => c.size - c.entries[i].size;
    StoreDrops(max, c, e, size);
    var k := Victims(max, c.entries, size, e.size);
    SuffixDistinct(c.entries, k);
    PutDistinct(c.entries[k..], e);
  }

  lemma LookupDistinct(c: Cache, key: (Name, Name), now: real)
    requires DistinctIds(c.entries)
    ensures DistinctIds(Lookup(c, key, now).0.entries)
  {
    if key in c.index {
      match Pos(c.entries, c.index[key])
      case None =>
      case Some(i) =>
        DropKeepsDistinct(c.entries, i);
        MovedToEnd(c.entries, i, c.entries[i].(accessCount := c.entries[i].accessCount + 1));
    }
  }

  lemma NextDistinct(max: nat, c: Cache, op: Op)
    requires DistinctIds(c.entries)
    ensures DistinctIds(Next(max, c, op).entries)
  {
    match op
    case DoStore(e) => if e.size <= max { StoreDistinct(max, c, e); }
    case DoLookup(key, now) => LookupDistinct(c, key, now);
    case DoLookupById(id, _) =>
      if Pos(c.entries, id).Some? { DropKeepsDistinct(c.entries, Pos(c.entries, id).value); }
    case DoExport(id, _, _, _) =>
      if Pos(c.entries, id).Some? { DropKeepsDistinct(c.entries, Pos(c.entries, id).value); }
  }

  lemma {:induction false} RunDistinct(max: nat, ops: seq<Op>)
    ensures DistinctIds(After(max, ops).entries)
  {
    if ops != [] {
      RunDistinct(max, ops[..|ops| - 1]);
      NextDistinct(max, After(max, ops[..|ops| - 1]), ops[|ops| - 1]);
    }
  }

  lemma NextStored(max: nat, c: Cache, op: Op, all: seq<Op>)
    requires DistinctIds(c.entries) && AllStored(c.entries, all)
    requires op.DoStore? ==> Stored(all, op.e.id, op.e.Key())
    ensures AllStored(Next(max, c, op).entries, all)
  {
    match op
    case DoStore(e) => if e.size <= max { StoreEntries(max, c, e); }
    case DoLookup(key, now) =>
      if key in c.index && c.index[key] != EmptyId && Pos(c.entries, c.index[key]).Some? {
        DropKeepsDistinct(c.entries, Pos(c.entries, c.index[key]).value);
      }
    case DoLookupById(id, now) =>
      if Pos(c.entries, id).Some? { DropKeepsDistinct(c.entries, Pos(c.entries, id).value); }
    case DoExport(id, backend, compress, now) =>
      if Pos(c.entries, id).Some? { DropKeepsDistinct(c.entries, Pos(c.entries, id).value); }
  }

  /** Every cached entry has the id and key of something that was stored. */
  lemma {:induction false} RunStored(max: nat, ops: seq<Op>, all: seq<Op>)
    requires ops <= all
    ensures AllStored(After(max, ops).entries, all)
  {
    if ops != [] {
      var past, op := ops[..|ops| - 1], ops[|ops| - 1];
      RunStored(max, past, all);
      RunDistinct(max, past);
      assert op == all[|ops| - 1];
      NextStored(max, After(max, past), op, all);
    }
  }

  lemma StoreEntries(max: nat, c: Cache, e: Entry)
    requires e.size <= max
    ensures forall x :: x in Store(max, c, e).0.entries ==> x == e || x in c.entries
  {
    var size := match Pos(c.entries, e.id) case None => c.size case Some(i) => c.size - c.entries[i].size;
    StoreDrops(max, c, e, size);
  }

  /** If ids and keys correspond one to one, then in every run the index is the exact inverse of
      the cache, whatever the byte count says. */
  lemma {:induction false} RunIndex(max: nat, ops: seq<Op>)
    requires OneToOneStores(ops)
    ensures var c := After(max, ops); Indexed(c)
  {
    RunDistinct(max, ops);
    if ops != [] {
      var past, op := ops[..|ops| - 1], ops[|ops| - 1];
      RunIndex(max, past);
      RunStored(max, past, ops);
      if op.DoStore? { StoredOneToOne(After(max, past).entries, ops, op.e); }
      NextKeepsIndex(max, After(max, past), op);
    }
  }

  lemma StoredOneToOne(es: seq<Entry>, ops: seq<Op>, e: Entry)
    requires AllStored(es, ops) && OneToOneStores(ops) && ops != [] && ops[|ops| - 1] == DoStore(e)
    ensures OneToOne(es, e)
  {
    forall x | x in es ensures x.id == e.id <==> x.Key() == e.Key() {
      var i :| 0 <= i < |ops| && ops[i].DoStore? && ops[i].e.id == x.id && ops[i].e.Key() == x.Key();
      assert ops[|ops| - 1].e == e;
    }
  }

  lemma NextKeepsIndex(max: nat, c: Cache, op: Op)
    requires Indexed(c)
    requires op.DoStore? ==> OneToOne(c.entries, op.e)
    ensures IndexExact(Next(max, c, op)) && KeysOneToOne(Next(max, c, op).entries)
  {
    match op
    case DoStore(e) => StoreKeepsIndex(max, c, e);
    case DoLookup(key, now) => LookupKeepsIndex(c, key, now);
    case DoLookupById(id, now) => LookupByIdKeepsIndex(c, id, now);
    case DoExport(id, backend, compress, now) => ExportKeepsIndex(c, id, backend, compress, now);
  }

  /** In every such run lookup_local is the linear search. */
  lemma RunLookupIsScan(max: nat, ops: seq<Op>, key: (Name, Name), now: real)
    requires OneToOneStores(ops)
    ensures Lookup(After(max, ops), key, now).1 == ScanUnexpired(After(max, ops).entries, key, now)
  {
    RunIndex(max, ops);
    LookupIsScan(After(max, ops), key, now);
  }

  // ---------- what a lookup finds, by age ----------

  /** The entry has this model and prompt hash and an id, and is no older than it may be. */
  ghost predicate Answers(x: Entry, model: Name, hash: Name, now: real) {
    x.model == model && x.hash == hash && x.id != EmptyId && now - x.createdAt <= x.ttl
  }

  /** Only entry i has left the cache, and it is too old. */
  ghost predicate OldOneLeft(c: Cache, c': Cache, i: nat, now: real) {
    && i < |c.entries| && now - c.entries[i].createdAt > c.entries[i].ttl
    && c'.entries == c.entries[..i] + c.entries[i + 1..] && c'.size == c.size - c.entries[i].size
    && c'.index == c.index - {(c.entries[i].model, c.entries[i].hash)}
  }

  /** Entry i was handed out: it counts the access and is now the most recently used one. */
  ghost predicate HandedOut(c: Cache, c': Cache, i: nat, r: Entry) {
    && i < |c.entries| && r == c.entries[i].(accessCount := c.entries[i].accessCount + 1)
    && c'.entries == c.entries[..i] + c.entries[i + 1..] + [r] && c'.size == c.size && c'.index == c.index
  }

  /** A lookup finds an entry exactly if one is cached that answers, and hands that one out; what it
      removes is too old, and otherwise it changes nothing. */
  lemma LookupFindsIff(c: Cache, model: Name, hash: Name, now: real)
    requires Indexed(c)
    ensures var (c', r) := Lookup(c, (model, hash), now);
            && (r.Some? <==> exists i :: 0 <= i < |c.entries| && Answers(c.entries[i], model, hash, now))
            && (r.Some? ==> exists i: nat :: HandedOut(c, c', i, r.value) && Answers(c.entries[i], model, hash, now))
            && (r.None? ==> c' == c || exists i: nat :: OldOneLeft(c, c', i, now) && c.entries[i].model == model && c.entries[i].hash == hash)
  {
    var key := (model, hash);
    if i: nat :| i < |c.entries| && c.entries[i].model == model && c.entries[i].hash == hash {
      var x := c.entries[i];
      assert x in c.entries && x.Key() == key;
      OnlyOneHasKey(c, i, key);
      if x.id != EmptyId {
        LookupFound(c, key, now, i);
        if now - x.createdAt <= x.ttl {
          assert HandedOut(c, Lookup(c, key, now).0, i, Lookup(c, key, now).1.value);
        } else {
          assert OldOneLeft(c, Lookup(c, key, now).0, i, now);
        }
      }
    } else {
      assert forall x :: x in c.entries ==> x.Key() != key;
      assert key !in c.index;
    }
  }

  lemma OnlyOneHasKey(c: Cache, i: nat, key: (Name, Name))
    requires Indexed(c) && i < |c.entries| && c.entries[i].Key() == key
    ensures forall j :: 0 <= j < |c.entries| && c.entries[j].Key() == key ==> j == i
  {
    forall j | 0 <= j < |c.entries| && c.entries[j].Key() == key ensures j == i {
      assert c.entries[i] in c.entries && c.entries[j] in c.entries;
    }
  }

  /** A lookup by id finds the entry of that id exactly if there is one that is not too old; one
      that is too old leaves the cache. */
  lemma LookupByIdFindsIff(c: Cache, id: CacheId, now: real)
    requires DistinctIds(c.entries)
    ensures var (c', p) := LookupById(c, id, now);
            && (p.Some? <==> exists i :: 0 <= i < |c.entries| && c.entries[i].id == id && now - c.entries[i].createdAt <= c.entries[i].ttl)
            && (p.Some? ==> c' == c && p.value < |c.entries| && c.entries[p.value].id == id
                            && now - c.entries[p.value].createdAt <= c.entries[p.value].ttl)
            && (p.None? ==> c' == c || exists i: nat :: OldOneLeft(c, c', i, now) && c.entries[i].id == id)
  {
    var p := Pos(c.entries, id);
    if p.Some? {
      PosUnique(c.entries, p.value);
      if now - c.entries[p.value].createdAt > c.entries[p.value].ttl {
        assert OldOneLeft(c, LookupById(c, id, now).0, p.value, now);
      }
    } else {
      assert forall i :: 0 <= i < |c.entries| ==> c.entries[i] in c.entries;
    }
  }

  /** What was just stored is found, until it is too old. */
  lemma StoredIsFound(max: nat, c: Cache, e: Entry, now: real)
    requires Indexed(c) && OneToOne(c.entries, e) && e.size <= max && e.id != EmptyId
    ensures Lookup(Store(max, c, e).0, (e.model, e.hash), now).1 ==
            if now - e.createdAt <= e.ttl then Some(e.(accessCount := e.accessCount + 1)) else None
  {
    StoreIndexed(max, c, e);
    StoreHolds(max, c, e);
    IsIndexed(Store(max, c, e).0, e);
    CachedIsFound(Store(max, c, e).0, e, now);
  }

  lemma IsIndexed(c: Cache, e: Entry)
    requires Indexed(c) && e in c.entries
    ensures (e.model, e.hash) in c.index && c.index[(e.model, e.hash)] == e.id
  {
    assert e.Key() == (e.model, e.hash);
  }

  lemma CachedIsFound(c: Cache, e: Entry, now: real)
    requires DistinctIds(c.entries) && e in c.entries && e.id != EmptyId
    requires (e.model, e.hash) in c.index && c.index[(e.model, e.hash)] == e.id
    ensures Lookup(c, (e.model, e.hash), now).1 ==
            if now - e.createdAt <= e.ttl then Some(e.(accessCount := e.accessCount + 1)) else None
  {
    var i :| 0 <= i < |c.entries| && c.entries[i] == e;
    LookupFound(c, (e.model, e.hash), now, i);
  }

  lemma StoreIndexed(max: nat, c: Cache, e: Entry)
    requires Indexed(c) && OneToOne(c.entries, e)
    ensures Indexed(Store(max, c, e).0)
  {
    StoreKeepsIndex(max, c, e);
    if e.size <= max { StoreDistinct(max, c, e); }
  }

  lemma StoreHolds(max: nat, c: Cache, e: Entry)
    requires DistinctIds(c.entries) && e.size <= max
    ensures e in Store(max, c, e).0.entries
  {
    var size := match Pos(c.entries, e.id) case None => c.size case Some(i) => c.size - c.entries[i].size;
    StoreDrops(max, c, e, size);
    var k := Victims(max, c.entries, size, e.size);
    SuffixDistinct(c.entries, k);
    PutMembers(c.entries[k..], e);
  }

  /** In every run whose stores use ids and keys one to one, a lookup finds exactly what is cached
      and not too old. */
  lemma RunLookupFindsIff(max: nat, ops: seq<Op>, model: Name, hash: Name, now: real)
    requires OneToOneStores(ops)
    ensures var c := After(max, ops);
            Lookup(c, (model, hash), now).1.Some? <==>
              exists i :: 0 <= i < |c.entries| && Answers(c.entries[i], model, hash, now)
  {
    RunIndex(max, ops);
    LookupFindsIff(After(max, ops), model, hash, now);
  }

  // ---------- a run whose byte count goes wrong ----------

  lemma AfterOneMore(max: nat, ops: seq<Op>, op: Op)
    ensures After(max, ops + [op]) == Next(max, After(max, ops), op)
  {
    assert (ops + [op])[..|ops|] == ops;
  }

  function Sized(id: Name, hash: Name, size: nat): Entry {
    Entry(Id(id), id, hash, id, [], 0, size, 0.0, 1.0, 0)
  }

  lemma StoreFits(max: nat, c: Cache, e: Entry)
    requires Pos(c.entries, e.id) == None && e.size <= max && c.size + e.size <= max
    ensures Store(max, c, e).0.entries == c.entries + [e] && Store(max, c, e).0.size == c.size + e.size
  {
  }

  /** With room for 10 bytes: an entry of 4, another of 4, then the first again with 8. The cache
      then holds 4 bytes more than it counts. */
  lemma RestoreMiscounts(a: Name, b: Name) returns (ops: seq<Op>)
    requires a != b
    ensures |ops| == 3 && forall i :: 0 <= i < 3 ==> ops[i].DoStore? && ops[i].e.size <= 10
    ensures After(10, ops).size == Total(After(10, ops).entries) - 4
  {
    var two := TwoStored(a, b);
    var op := DoStore(Sized(a, a, 8));
    ops := two + [op];
    AfterOneMore(10, two, op);
    var c := After(10, two);
    assert c.entries[1..] == [] + [Sized(b, b, 4)];
    TotalOne([], Sized(b, b, 4));
    TotalOne([Sized(a, a, 4)], Sized(b, b, 4));
    TotalOne([], Sized(a, a, 4));
    assert [] + [Sized(a, a, 4)] == [Sized(a, a, 4)];
    RestoreAccountingIff(10, c, op.e, 0);
  }

  lemma StoreAnother(max: nat, ops: seq<Op>, e: Entry)
    requires (forall x :: x in After(max, ops).entries ==> x.id != e.id) && After(max, ops).size + e.size <= max
    requires e.size <= max
    ensures After(max, ops + [DoStore(e)]).entries == After(max, ops).entries + [e]
    ensures After(max, ops + [DoStore(e)]).size == After(max, ops).size + e.size
  {
    AfterOneMore(max, ops, DoStore(e));
    StoreFits(max, After(max, ops), e);
  }

  lemma StoreTwo(max: nat, first: Entry, second: Entry) returns (ops: seq<Op>)
    requires first.id != second.id && first.size + second.size <= max
    ensures ops == [DoStore(first), DoStore(second)]
    ensures After(max, ops).entries == [first] + [second] && After(max, ops).size == first.size + second.size
  {
    var none: seq<Op>, nothing: seq<Entry> := [], [];
    StoreAnother(max, none, first);
    assert nothing + [first] == [first];
    StoreAnother(max, none + [DoStore(first)], second);
    ops := none + [DoStore(first)] + [DoStore(second)];
  }

  lemma TwoStored(a: Name, b: Name) returns (ops: seq<Op>)
    requires a != b
    ensures |ops| == 2 && forall i :: 0 <= i < 2 ==> ops[i].DoStore? && ops[i].e.size <= 10
    ensures After(10, ops).entries == [Sized(a, a, 4)] + [Sized(b, b, 4)] && After(10, ops).size == 8
    ensures DistinctIds(After(10, ops).entries)
  {
    ops := StoreTwo(10, Sized(a, a, 4), Sized(b, b, 4));
    RunDistinct(10, ops);
  }
}
