/** The binary stream that carries a cache entry between nodes (export_stream, import_stream and
    the import route): magic, length of the metadata, metadata, then the tensors back to back. */
module KvStream {
  import opened Arithmetic
  import opened Options
  import opened ByteStrings
  import opened Codings
  import opened Sequences
  import opened KvCache

  const MAGIC: Bytes := [0x46, 0x4D, 0x55, 0x4B, 0x56, 0x54, 0x30, 0x31]

  const ROUTE_CHUNK := 65536

  /** The metadata of a shard: its fields without the tensor, plus the tensor's length and coding. */
  datatype ShardMeta = ShardMeta(info: Name, sizeBytes: nat, isCompressed: bool, tensorLen: nat, caveman: bool)

  /** `head` is the entry with its shards taken out. */
  datatype Metadata = Metadata(head: Entry, shards: seq<ShardMeta>)

  type Json = Coding<Metadata>

  function TensorBytes(s: Shard): Bytes {
    if s.tensor.Some? then s.tensor.value else []
  }

  function MetaOf(s: Shard): ShardMeta {
    ShardMeta(s.info, s.sizeBytes, s.isCompressed, |TensorBytes(s)|, s.isCompressed)
  }

  function Metas(shards: seq<Shard>): (r: seq<ShardMeta>)
    ensures |r| == |shards| && forall i :: 0 <= i < |r| ==> r[i] == MetaOf(shards[i])
  {
    if shards == [] then [] else [MetaOf(shards[0])] + Metas(shards[1..])
  }

  function Tensors(shards: seq<Shard>): (r: seq<Bytes>)
    ensures |r| == |shards| && forall i :: 0 <= i < |r| ==> r[i] == TensorBytes(shards[i])
  {
    if shards == [] then [] else [TensorBytes(shards[0])] + Tensors(shards[1..])
  }

  function MetadataOf(e: Entry): Metadata {
    Metadata(e.(shards := []), Metas(e.shards))
  }

  /** Magic, metadata length in four bytes, metadata; the length has to fit. */
  function Header(e: Entry, json: Json): Option<Bytes> {
    var meta := json.enc(MetadataOf(e));
    if |meta| < Pow256(4) then Some(MAGIC + BigEndian(|meta|, 4) + meta) else None
  }

  function Body(e: Entry): Bytes {
    Flatten(Tensors(e.shards))
  }

  /** Reads chunks until `need` bytes are there or the chunks run out; returns what was read and
      the chunks left. */
  function ReadUntil(need: nat, chunks: seq<Bytes>, got: Bytes): (r: (Bytes, seq<Bytes>))
    ensures |r.1| <= |chunks|
  {
    if |got| >= need || chunks == [] then (got, chunks) else ReadUntil(need, chunks[1..], got + chunks[0])
  }

  /** The tensors read for the given lengths. What a chunk holds beyond the tensor it completes
      is dropped. */
  function ReadTensors(lens: seq<nat>, chunks: seq<Bytes>): (r: seq<Option<Bytes>>)
    ensures |r| == |lens|
  {
    if lens == [] then []
    else if lens[0] == 0 then [None] + ReadTensors(lens[1..], chunks)
    else
      var (got, rest) := ReadUntil(lens[0], chunks, []);
      [if |got| >= lens[0] then Some(got[..lens[0]]) else None] + ReadTensors(lens[1..], rest)
  }

  function Lens(metas: seq<ShardMeta>): (r: seq<nat>)
    ensures |r| == |metas| && forall i :: 0 <= i < |r| ==> r[i] == metas[i].tensorLen
  {
    if metas == [] then [] else [metas[0].tensorLen] + Lens(metas[1..])
  }

  function ShardFrom(m: ShardMeta, t: Option<Bytes>): Shard {
    Shard(m.info, m.sizeBytes, if t.Some? then m.caveman else m.isCompressed, t)
  }

  function ShardsFrom(metas: seq<ShardMeta>, ts: seq<Option<Bytes>>): (r: seq<Shard>)
    requires |ts| == |metas|
    ensures |r| == |metas| && forall i :: 0 <= i < |r| ==> r[i] == ShardFrom(metas[i], ts[i])
  {
    if metas == [] then [] else [ShardFrom(metas[0], ts[0])] + ShardsFrom(metas[1..], ts[1..])
  }

  /** The entry an import rebuilds, if the header parses. */
  function Import(header: Bytes, chunks: seq<Bytes>, json: Json): Option<Entry> {
    if !(MAGIC <= header) || |header| < 12 then None
    else
      var len := FromBigEndian(header[8..12]);
      match json.dec(if 12 + len <= |header| then header[12..12 + len] else header[12..])
      case None => None
      case Some(m) => Some(m.head.(shards := ShardsFrom(m.shards, ReadTensors(Lens(m.shards), chunks))))
  }

  /** The import route: it splits off the header and cuts the rest into chunks of one size. */
  function ImportRoute(request: Bytes, json: Json): Option<Entry> {
    if !(MAGIC <= request) || |request| < 12 then None
    else
      var end := 12 + FromBigEndian(request[8..12]);
      var split := if end <= |request| then end else |request|;
      Import(request[..split], Cut(request[split..], ROUTE_CHUNK), json)
  }

  /** One more tensor read is one more step of the reference reader. */
  lemma ReadStep(lens: seq<nat>, chunks: seq<Bytes>, i: nat, tensors: seq<Option<Bytes>>, rest: seq<Bytes>)
    requires i < |lens| && ReadTensors(lens, chunks) == tensors + ReadTensors(lens[i..], rest)
    ensures var (got, rest') := if lens[i] == 0 then ([], rest) else ReadUntil(lens[i], rest, []);
            var tensor := if lens[i] > 0 && |got| >= lens[i] then Some(got[..lens[i]]) else None;
            ReadTensors(lens, chunks) == (tensors + [tensor]) + ReadTensors(lens[i + 1..], rest')
  {
    var (got, rest') := if lens[i] == 0 then ([], rest) else ReadUntil(lens[i], rest, []);
    var tensor := if lens[i] > 0 && |got| >= lens[i] then Some(got[..lens[i]]) else None;
    assert lens[i..][1..] == lens[i + 1..];
    Associates(tensors, [tensor], ReadTensors(lens[i + 1..], rest'));
  }

  /** The inner loop: chunks until there are enough bytes. */
  method ReadChunks(need: nat, chunks: seq<Bytes>) returns (got: Bytes, rest: seq<Bytes>)
    ensures (got, rest) == ReadUntil(need, chunks, [])
  {
    got, rest := [], chunks;
    while |got| < need && rest != []
      invariant ReadUntil(need, rest, got) == ReadUntil(need, chunks, [])
      decreases |rest|
    {
      got := got + rest[0];
      rest := rest[1..];
    }
  }

  /** The reading loops of import_stream over the shard metadata. */
  method ReadShardTensors(metas: seq<ShardMeta>, chunks: seq<Bytes>) returns (tensors: seq<Option<Bytes>>)
    ensures tensors == ReadTensors(Lens(metas), chunks)
  {
    tensors := [];
    var rest := chunks;
    ghost var lens := Lens(metas);
    assert lens[0..] == lens;
    for i := 0 to |metas|
      invariant |tensors| == i && ReadTensors(lens, chunks) == tensors + ReadTensors(lens[i..], rest)
    {
      ReadStep(lens, chunks, i, tensors, rest);
      var need := metas[i].tensorLen;
      if need == 0 {
        tensors := tensors + [None];
        continue;
      }
      var got;
      got, rest := ReadChunks(need, rest);
      tensors := tensors + [if |got| >= need then Some(got[..need]) else None];
    }
  }

  // ---------- reading ----------

  /** Chunk list consumed by ReadUntil: the least prefix with enough bytes. */
  lemma {:induction false} ReadUntilPrefix(need: nat, chunks: seq<Bytes>, got: Bytes) returns (k: nat)
    requires |got| + |Flatten(chunks)| >= need
    ensures k <= |chunks| && ReadUntil(need, chunks, got) == (got + Flatten(chunks[..k]), chunks[k..])
    ensures |got| + |Flatten(chunks[..k])| >= need
    ensures forall j :: 0 <= j < k ==> |got| + |Flatten(chunks[..j])| < need
    decreases |chunks|
  {
    if |got| >= need || chunks == [] {
      k := 0;
      assert chunks[..0] == [] && got + [] == got && chunks[0..] == chunks;
    } else {
      var g := got + chunks[0];
      var m := ReadUntilPrefix(need, chunks[1..], g);
      k := m + 1;
      assert forall j :: 0 < j <= |chunks| ==> chunks[..j] == [chunks[0]] + chunks[1..][..j - 1];
      assert forall j :: 0 < j <= |chunks| ==> chunks[..j][1..] == chunks[1..][..j - 1];
      assert chunks[..k][0] == chunks[0];
      assert got + Flatten(chunks[..k]) == g + Flatten(chunks[1..][..m]);
      assert chunks[1..][m..] == chunks[k..];
      forall j | 0 <= j < k ensures |got| + |Flatten(chunks[..j])| < need {
        if j > 0 { assert |g| + |Flatten(chunks[1..][..j - 1])| < need; }
      }
    }
  }

  function Sum(lens: seq<nat>): nat {
    if lens == [] then 0 else lens[0] + Sum(lens[1..])
  }

  lemma {:induction false} ReadUntilConserves(need: nat, chunks: seq<Bytes>, got: Bytes)
    ensures var (g, rest) := ReadUntil(need, chunks, got); |g| + |Flatten(rest)| == |got| + |Flatten(chunks)|
    decreases |chunks|
  {
    if |got| < need && chunks != [] { ReadUntilConserves(need, chunks[1..], got + chunks[0]); }
  }

  ghost predicate AllRead(lens: seq<nat>, r: seq<Option<Bytes>>)
    requires |r| == |lens|
  {
    forall i :: 0 <= i < |lens| && lens[i] > 0 ==> r[i].Some?
  }

  /** Every tensor can be read only if the chunks hold as many bytes as the tensors need. */
  lemma {:induction false} AllReadNeedsBytes(lens: seq<nat>, chunks: seq<Bytes>)
    requires AllRead(lens, ReadTensors(lens, chunks))
    ensures |Flatten(chunks)| >= Sum(lens)
    decreases |lens|
  {
    if lens != [] {
      var r := ReadTensors(lens, chunks);
      var rest := if lens[0] == 0 then chunks else ReadUntil(lens[0], chunks, []).1;
      assert r[1..] == ReadTensors(lens[1..], rest);
      forall i | 0 <= i < |lens| - 1 && lens[1..][i] > 0 ensures r[1..][i].Some? {
        assert lens[i + 1] > 0;
      }
      AllReadNeedsBytes(lens[1..], rest);
      if lens[0] > 0 {
        assert r[0].Some?;
        ReadUntilConserves(lens[0], chunks, []);
      }
    }
  }

  /** Some chunk ends, or the first begins, n bytes into the stream. */
  ghost predicate Boundary(chunks: seq<Bytes>, n: nat) {
    exists k :: 0 <= k <= |chunks| && |Flatten(chunks[..k])| == n
  }

  /** No chunk crosses a tensor boundary: every tensor boundary is a chunk boundary. */
  ghost predicate Aligned(tensors: seq<Bytes>, chunks: seq<Bytes>) {
    forall j :: 0 <= j <= |tensors| ==> Boundary(chunks, |Flatten(tensors[..j])|)
  }

  lemma PrefixLonger(chunks: seq<Bytes>, i: nat, k: nat)
    requires i <= k <= |chunks|
    ensures |Flatten(chunks[..k])| == |Flatten(chunks[..i])| + |Flatten(chunks[i..k])|
  {
    assert chunks[..k] == chunks[..i] + chunks[i..k];
    FlattenSplit(chunks[..i], chunks[i..k]);
  }

  /** Cutting off the first k chunks shifts every later boundary by their length. */
  lemma BoundaryShift(chunks: seq<Bytes>, k: nat, n: nat)
    requires k <= |chunks|
    ensures Boundary(chunks, |Flatten(chunks[..k])| + n) <==> Boundary(chunks[k..], n)
  {
    var cs, cut := chunks[k..], |Flatten(chunks[..k])|;
    if Boundary(chunks, cut + n) {
      var i: nat :| i <= |chunks| && |Flatten(chunks[..i])| == cut + n;
      if i >= k {
        PrefixLonger(chunks, k, i);
        assert cs[..i - k] == chunks[k..i];
      } else {
        PrefixLonger(chunks, i, k);
        assert |Flatten(cs[..0])| == 0;
      }
    }
    if Boundary(cs, n) {
      var m: nat :| m <= |cs| && |Flatten(cs[..m])| == n;
      PrefixLonger(chunks, k, k + m);
      assert cs[..m] == chunks[k..k + m];
    }
  }

  ghost function Expected(tensors: seq<Bytes>): (r: seq<Option<Bytes>>)
    ensures |r| == |tensors| && forall i :: 0 <= i < |r| ==> r[i] == if tensors[i] == [] then None else Some(tensors[i])
  {
    if tensors == [] then [] else [if tensors[0] == [] then None else Some(tensors[0])] + Expected(tensors[1..])
  }

  ghost function LensOf(tensors: seq<Bytes>): (r: seq<nat>)
    ensures |r| == |tensors| && forall i :: 0 <= i < |r| ==> r[i] == |tensors[i]|
  {
    if tensors == [] then [] else [|tensors[0]|] + LensOf(tensors[1..])
  }

  lemma {:induction false} SumIsLength(tensors: seq<Bytes>)
    ensures Sum(LensOf(tensors)) == |Flatten(tensors)|
  {
    if tensors != [] {
      SumIsLength(tensors[1..]);
      assert LensOf(tensors)[1..] == LensOf(tensors[1..]);
    }
  }

  lemma TensorShift(tensors: seq<Bytes>, j: nat)
    requires j < |tensors|
    ensures |Flatten(tensors[..j + 1])| == |tensors[0]| + |Flatten(tensors[1..][..j])|
  {
    assert tensors[..j + 1][1..] == tensors[1..][..j];
  }

  /** Cutting off k chunks that spell exactly the first tensor. */
  lemma AlignedTail(tensors: seq<Bytes>, chunks: seq<Bytes>, k: nat)
    requires tensors != [] && k <= |chunks| && Flatten(chunks[..k]) == tensors[0]
    ensures Aligned(tensors, chunks) <==> Aligned(tensors[1..], chunks[k..])
  {
    var ts, cs := tensors[1..], chunks[k..];
    forall j | 0 <= j <= |ts|
      ensures Boundary(chunks, |Flatten(tensors[..j + 1])|) <==> Boundary(cs, |Flatten(ts[..j])|)
    {
      TensorShift(tensors, j);
      BoundaryShift(chunks, k, |Flatten(ts[..j])|);
    }
    assert |Flatten(chunks[..0])| == |Flatten(tensors[..0])|;
    if Aligned(ts, cs) {
      forall j | 0 <= j <= |tensors| ensures Boundary(chunks, |Flatten(tensors[..j])|) {
        if j > 0 { assert Boundary(cs, |Flatten(ts[..j - 1])|); }
      }
    }
    if Aligned(tensors, chunks) {
      forall j | 0 <= j <= |ts| ensures Boundary(cs, |Flatten(ts[..j])|) {
        assert Boundary(chunks, |Flatten(tensors[..j + 1])|);
      }
    }
  }

  /** Reading the concatenated tensors back from any chunking of them succeeds exactly when no
      chunk crosses a tensor boundary. */
  lemma {:induction false} ReadBackIff(tensors: seq<Bytes>, chunks: seq<Bytes>)
    requires Flatten(chunks) == Flatten(tensors)
    ensures ReadTensors(LensOf(tensors), chunks) == Expected(tensors) <==> Aligned(tensors, chunks)
    decreases |tensors|
  {
    if tensors == [] {
      assert |Flatten(chunks[..0])| == |Flatten(tensors[..0])|;
    } else {
      var t, ts := tensors[0], tensors[1..];
      assert LensOf(tensors)[1..] == LensOf(ts) && Expected(tensors)[1..] == Expected(ts);
      if t == [] {
        assert Flatten(ts) == Flatten(tensors) && chunks[..0] == [] && chunks[0..] == chunks;
        AlignedTail(tensors, chunks, 0);
        ReadBackIff(ts, chunks);
        HeadAndTail(ReadTensors(LensOf(tensors), chunks), Expected(tensors));
      } else {
        ReadFirst(tensors, chunks);
      }
    }
  }

  lemma HeadAndTail<T>(a: seq<T>, b: seq<T>)
    requires |a| == |b| > 0 && a[0] == b[0]
    ensures a == b <==> a[1..] == b[1..]
  {
    if a[1..] == b[1..] {
      assert a == [a[0]] + a[1..] && b == [b[0]] + b[1..];
    }
  }

  /** The first tensor is always read right; what matters is whether its last chunk ends with it. */
  lemma ReadFirst(tensors: seq<Bytes>, chunks: seq<Bytes>)
    requires Flatten(chunks) == Flatten(tensors) && tensors != [] && tensors[0] != []
    ensures ReadTensors(LensOf(tensors), chunks) == Expected(tensors) <==> Aligned(tensors, chunks)
    decreases |tensors|, 0
  {
    var t, ts, lens := tensors[0], tensors[1..], LensOf(tensors);
    var k := ReadUntilPrefix(|t|, chunks, []);
    var got, rest := Flatten(chunks[..k]), chunks[k..];
    assert chunks == chunks[..k] + rest && [] + got == got;
    FlattenSplit(chunks[..k], rest);
    var r := ReadTensors(lens, chunks);
    assert lens[1..] == LensOf(ts) && Expected(tensors)[1..] == Expected(ts);
    assert got[..|t|] == Flatten(chunks)[..|t|] == t;
    assert r == [Some(t)] + ReadTensors(LensOf(ts), rest);
    assert r[1..] == ReadTensors(LensOf(ts), rest);
    HeadAndTail(r, Expected(tensors));
    if |got| == |t| {
      assert got == t;
      assert Flatten(rest) == Flatten(chunks)[|t|..] == Flatten(ts);
      AlignedTail(tensors, chunks, k);
      ReadBackIff(ts, rest);
    } else {
      Misaligned(tensors, chunks, k);
      if ReadTensors(LensOf(ts), rest) == Expected(ts) {
        forall i | 0 <= i < |ts| && LensOf(ts)[i] > 0 ensures Expected(ts)[i].Some? {
        }
        AllReadNeedsBytes(LensOf(ts), rest);
        SumIsLength(ts);
      }
    }
  }

  lemma Misaligned(tensors: seq<Bytes>, chunks: seq<Bytes>, k: nat)
    requires tensors != [] && k <= |chunks| && |Flatten(chunks[..k])| > |tensors[0]|
    requires forall j :: 0 <= j < k ==> |Flatten(chunks[..j])| < |tensors[0]|
    ensures !Aligned(tensors, chunks)
  {
    TensorShift(tensors, 0);
    forall i | 0 <= i <= |chunks| ensures |Flatten(chunks[..i])| != |Flatten(tensors[..1])| {
      if i >= k { PrefixLonger(chunks, k, i); }
    }
    assert !Boundary(chunks, |Flatten(tensors[..1])|);
  }

  // ---------- the stream ----------

  /** Every tensor is absent or has some bytes. */
  ghost predicate Streamable(e: Entry) {
    forall i :: 0 <= i < |e.shards| ==> e.shards[i].tensor != Some([])
  }

  lemma HeaderParses(e: Entry, json: Json)
    requires json.Undoes(MetadataOf(e)) && Header(e, json).Some?
    ensures var h := Header(e, json).value;
            && MAGIC <= h && |h| >= 12
            && |h| == 12 + FromBigEndian(h[8..12])
            && json.dec(h[12..]) == Some(MetadataOf(e))
  {
    var meta := json.enc(MetadataOf(e));
    var h := Header(e, json).value;
    assert |MAGIC| == 8;
    assert h[8..12] == BigEndian(|meta|, 4) && h[12..] == meta;
    BigEndianInverse(|meta|, 4);
  }

  /** A tensor without bytes is read as an absent one. */
  lemma {:induction false} EmptyReadsAsAbsent(lens: seq<nat>, chunks: seq<Bytes>, i: nat)
    requires i < |lens| && lens[i] == 0
    ensures ReadTensors(lens, chunks)[i] == None
  {
    if i > 0 {
      EmptyReadsAsAbsent(lens[1..], if lens[0] == 0 then chunks else ReadUntil(lens[0], chunks, []).1, i - 1);
    }
  }

  lemma ShardsRebuilt(e: Entry, ts: seq<Option<Bytes>>)
    requires |ts| == |e.shards| && forall i :: 0 <= i < |ts| && Tensors(e.shards)[i] == [] ==> ts[i] == None
    ensures ShardsFrom(Metas(e.shards), ts) == e.shards <==> Streamable(e) && ts == Expected(Tensors(e.shards))
  {
    var r, x := ShardsFrom(Metas(e.shards), ts), Expected(Tensors(e.shards));
    forall i | 0 <= i < |ts|
      ensures r[i] == e.shards[i] <==> e.shards[i].tensor != Some([]) && ts[i] == x[i]
    {
    }
  }

  lemma ImportOfExport(e: Entry, json: Json, chunks: seq<Bytes>)
    requires json.Undoes(MetadataOf(e)) && Header(e, json).Some?
    ensures Import(Header(e, json).value, chunks, json)
         == Some(e.(shards := ShardsFrom(Metas(e.shards), ReadTensors(LensOf(Tensors(e.shards)), chunks))))
  {
    var h := Header(e, json).value;
    HeaderParses(e, json);
    assert h[12..12 + FromBigEndian(h[8..12])] == h[12..];
    assert Lens(Metas(e.shards)) == LensOf(Tensors(e.shards));
  }

  /** Round trip: importing an exported stream rebuilds the entry, metadata and tensors, if and
      only if no tensor is present but empty and no chunk of the body crosses a boundary between
      two shards' tensors. */
  lemma StreamRoundTripIff(e: Entry, json: Json, chunks: seq<Bytes>)
    requires json.Undoes(MetadataOf(e)) && Header(e, json).Some? && Flatten(chunks) == Body(e)
    ensures Import(Header(e, json).value, chunks, json) == Some(e) <==> Streamable(e) && Aligned(Tensors(e.shards), chunks)
  {
    var ts := ReadTensors(LensOf(Tensors(e.shards)), chunks);
    ImportOfExport(e, json, chunks);
    ReadBackIff(Tensors(e.shards), chunks);
    forall i | 0 <= i < |ts| && Tensors(e.shards)[i] == [] ensures ts[i] == None {
      EmptyReadsAsAbsent(LensOf(Tensors(e.shards)), chunks, i);
    }
    ShardsRebuilt(e, ts);
    assert e.(shards := ShardsFrom(Metas(e.shards), ts)) == e <==> ShardsFrom(Metas(e.shards), ts) == e.shards;
  }

  /** Nothing is imported without the magic, the length and metadata that can be read. */
  lemma ImportedIff(header: Bytes, chunks: seq<Bytes>, json: Json)
    ensures Import(header, chunks, json).Some? <==>
              && |header| >= 12 && header[..8] == [0x46, 0x4D, 0x55, 0x4B, 0x56, 0x54, 0x30, 0x31]
              && var end := 12 + FromBigEndian(header[8..12]);
                 json.dec(header[12..if end <= |header| then end else |header|]).Some?
  {
    if |header| >= 12 {
      assert MAGIC <= header <==> header[..8] == MAGIC;
      assert header[12..|header|] == header[12..];
    }
  }

  /** Whatever arrives, a tensor that is read has the announced length, and one that does not arrive
      whole is absent; when nothing more arrives, so are all the others. */
  lemma {:induction false} TensorsHaveTheirLength(lens: seq<nat>, chunks: seq<Bytes>, i: nat)
    requires i < |lens|
    ensures ReadTensors(lens, chunks)[i].Some? ==> |ReadTensors(lens, chunks)[i].value| == lens[i] > 0
    ensures chunks == [] ==> ReadTensors(lens, chunks)[i] == None
  {
    if i > 0 {
      TensorsHaveTheirLength(lens[1..], if lens[0] == 0 then chunks else ReadUntil(lens[0], chunks, []).1, i - 1);
    }
  }

  // ---------- the route ----------

  lemma ShortBoundaries(chunks: seq<Bytes>, p: nat)
    requires |chunks| <= 1
    ensures Boundary(chunks, p) <==> (p == 0 || p == |Flatten(chunks)|)
  {
    assert |Flatten(chunks[..0])| == 0 && chunks[..|chunks|] == chunks;
    if Boundary(chunks, p) {
      var k :| 0 <= k <= |chunks| && |Flatten(chunks[..k])| == p;
      assert k == 0 || k == |chunks|;
    }
  }

  lemma InsideFirst(chunks: seq<Bytes>, p: nat)
    requires |chunks| > 0 && p < |chunks[0]|
    ensures Boundary(chunks, p) <==> p == 0
  {
    assert |Flatten(chunks[..0])| == 0;
    TensorShift(chunks, 0);
    if Boundary(chunks, p) {
      var k: nat :| k <= |chunks| && |Flatten(chunks[..k])| == p;
      if k > 0 { PrefixLonger(chunks, 1, k); }
    }
  }

  /** The boundaries of equal chunks: the multiples of their size, and the end. */
  lemma {:induction false} CutBoundaries(bs: Bytes, size: nat, p: nat)
    requires size > 0 && p <= |bs|
    ensures Boundary(Cut(bs, size), p) <==> (p % size == 0 || p == |bs|)
    decreases |bs|
  {
    var cs := Cut(bs, size);
    CutFlattens(bs, size);
    if p < size { ModBelow(p, size); }
    if |bs| <= size {
      ShortBoundaries(cs, p);
    } else if p < size {
      InsideFirst(cs, p);
    } else {
      ModShift(p, size);
      CutBoundaries(bs[size..], size, p - size);
      assert cs[1..] == Cut(bs[size..], size);
      TensorShift(cs, 0);
      BoundaryShift(cs, 1, p - size);
    }
  }

  /** The first j tensors end on a multiple of 65536 bytes or with the body. */
  ghost predicate OnRouteBoundary(e: Entry, j: nat)
    requires j <= |e.shards|
  {
    var p := |Flatten(Tensors(e.shards)[..j])|;
    p % 65536 == 0 || p == |Body(e)|
  }

  /** The import route gives back an exported entry if and only if no tensor is present but empty
      and every boundary between two tensors lies on a multiple of 65536 bytes or at the end of
      the body. */
  lemma RouteRoundTripIff(e: Entry, json: Json)
    requires json.Undoes(MetadataOf(e)) && Header(e, json).Some?
    ensures ImportRoute(Header(e, json).value + Body(e), json) == Some(e) <==>
            Streamable(e) &&
            forall j :: 0 <= j <= |e.shards| ==> OnRouteBoundary(e, j)
  {
    var h, body, ts := Header(e, json).value, Body(e), Tensors(e.shards);
    var request := h + body;
    HeaderParses(e, json);
    assert request[8..12] == h[8..12] && request[..|h|] == h && request[|h|..] == body;
    CutFlattens(body, ROUTE_CHUNK);
    var chunks := Cut(body, ROUTE_CHUNK);
    StreamRoundTripIff(e, json, chunks);
    forall j | 0 <= j <= |ts|
      ensures Boundary(chunks, |Flatten(ts[..j])|) <==> OnRouteBoundary(e, j)
    {
      PrefixLonger(ts, j, |ts|);
      assert ts[..|ts|] == ts;
      CutBoundaries(body, ROUTE_CHUNK, |Flatten(ts[..j])|);
    }
  }

  /** A concrete failure: with two tensors of one byte each, the first chunk of the route crosses
      from one to the other, whatever JSON does with the metadata. */
  lemma TwoSmallTensorsAreLost(e: Entry, json: Json)
    requires json.Undoes(MetadataOf(e)) && Header(e, json).Some?
    requires |e.shards| == 2 && e.shards[0].tensor == Some([7]) && e.shards[1].tensor == Some([9])
    ensures ImportRoute(Header(e, json).value + Body(e), json) != Some(e)
  {
    var ts := Tensors(e.shards);
    assert ts == [[7], [9]];
    assert ts[1..] == [[9]] && ts[..1] == [[7]];
    assert Flatten([[9]]) == [9] + Flatten([]) && Flatten([[7]]) == [7] + Flatten([]);
    assert Flatten(ts) == [7] + Flatten(ts[1..]);
    assert |Flatten(ts[..1])| == 1 && |Body(e)| == 2;
    RouteRoundTripIff(e, json);
    assert !OnRouteBoundary(e, 1);
  }

  /** Such an entry and such a coding exist. */
  lemma TwoSmallTensorsExist(name: Name) returns (e: Entry, json: Json)
    ensures json.Undoes(MetadataOf(e)) && Header(e, json).Some?
    ensures |e.shards| == 2 && e.shards[0].tensor == Some([7]) && e.shards[1].tensor == Some([9])
  {
    e := Entry(Id(name), name, name, name, [Shard(name, 1, false, Some([7])), Shard(name, 1, false, Some([9]))],
               0, 2, 0.0, 1.0, 0);
    json := Numbering([MetadataOf(e)]);
    NumberingUndoes([MetadataOf(e)]);
    Pow256Four();
  }
}
