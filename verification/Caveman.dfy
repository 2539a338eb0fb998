/** The Caveman codec: a dictionary coder with tagged records, a difference coder on top of zlib,
    plain zlib, and the choice between them. */
module Caveman {
  import opened Options
  import opened ByteStrings
  import opened Sequences

  // ---------- the dictionary coder ----------

  /** Codes of dictionary tokens, and the tokens of codes. Tokens are Python integers of any size. */
  type Codes = map<int, Bytes>
  type Tokens = map<Bytes, int>

  const TOKEN_HIT: Byte := 0x01
  const LITERAL: Byte := 0x02

  const TOKEN_LIMIT := 0x1_0000_0000

  /** The leading token of the data, if four bytes are left and the dictionary has it. */
  predicate Hit(codes: Codes, data: Bytes) {
    |data| >= 4 && FromBigEndian(data[..4]) in codes
  }

  function Encode(codes: Codes, data: Bytes): Bytes {
    if data == [] then []
    else if Hit(codes, data) then [TOKEN_HIT] + codes[FromBigEndian(data[..4])] + Encode(codes, data[4..])
    else [LITERAL, data[0]] + Encode(codes, data[1..])
  }

  function Prepend(a: Bytes, b: Option<Bytes>): Option<Bytes> {
    if b.Some? then Some(a + b.value) else None
  }

  lemma PrependTwice(a: Bytes, b: Bytes, o: Option<Bytes>)
    ensures Prepend(a, Prepend(b, o)) == Prepend(a + b, o)
    ensures Prepend([], o) == o && Prepend(a, Some([])) == Some(a)
  {
    assert a + [] == a;
    if o.Some? {
      assert a + (b + o.value) == (a + b) + o.value && [] + o.value == o.value;
    }
  }

  /** The bytes the record at the head of the data stands for, and the length of the record.
      A record cut short ends the reading; a token that is no 32-bit number is an error. */
  datatype Record = Yields(bytes: Bytes, size: nat) | CutShort | BadToken

  function Read(tokens: Tokens, data: Bytes): (r: Record)
    requires data != []
    ensures r.Yields? ==> 0 < r.size <= |data|
  {
    if data[0] == TOKEN_HIT then
      if |data| < 3 then CutShort
      else
        var code := data[1..3];
        if code !in tokens then Yields(code, 3)
        else if 0 <= tokens[code] < TOKEN_LIMIT then
          Pow256Four();
          Yields(BigEndian(tokens[code], 4), 3)
        else BadToken
    else if data[0] == LITERAL then
      if |data| < 2 then CutShort else Yields([data[1]], 2)
    else Yields([data[0]], 1)
  }

  function Decode(tokens: Tokens, data: Bytes): Option<Bytes>
    decreases |data|
  {
    if data == [] then Some([])
    else match Read(tokens, data)
      case Yields(bs, size) => Prepend(bs, Decode(tokens, data[size..]))
      case CutShort => Some([])
      case BadToken => None
  }

  function DictCompressed(codes: Codes, data: Bytes): Bytes {
    if codes == map[] then data else Encode(codes, data)
  }

  function DictDecompressed(tokens: Tokens, data: Bytes): Option<Bytes> {
    if tokens == map[] then Some(data) else Decode(tokens, data)
  }

  /** Codes are two bytes long and lead back to their tokens. */
  ghost predicate Invertible(codes: Codes, tokens: Tokens) {
    && (codes == map[] <==> tokens == map[])
    && forall t :: t in codes ==> |codes[t]| == 2 && codes[t] in tokens && tokens[codes[t]] == t
  }

  lemma EncodeFrom(codes: Codes, data: Bytes, i: nat)
    requires i < |data|
    ensures Encode(codes, data[i..]) ==
            if i + 4 <= |data| && FromBigEndian(data[i..i + 4]) in codes
            then ([TOKEN_HIT] + codes[FromBigEndian(data[i..i + 4])]) + Encode(codes, data[i + 4..])
            else [LITERAL, data[i]] + Encode(codes, data[i + 1..])
  {
    var rest := data[i..];
    assert rest[1..] == data[i + 1..];
    if i + 4 <= |data| {
      assert rest[..4] == data[i..i + 4] && rest[4..] == data[i + 4..];
    }
  }

  function Hits(codes: Codes, data: Bytes): nat {
    if data == [] then 0
    else if Hit(codes, data) then 1 + Hits(codes, data[4..])
    else Hits(codes, data[1..])
  }

  /** Every byte costs two, except that a hit saves five of its eight. */
  lemma {:induction false} EncodeSize(codes: Codes, tokens: Tokens, data: Bytes)
    requires Invertible(codes, tokens)
    ensures |Encode(codes, data)| == 2 * |data| - 5 * Hits(codes, data)
  {
    if data != [] {
      EncodeSize(codes, tokens, if Hit(codes, data) then data[4..] else data[1..]);
    }
  }

  lemma {:induction false} DecodeUndoesEncode(codes: Codes, tokens: Tokens, data: Bytes)
    requires Invertible(codes, tokens)
    ensures Decode(tokens, Encode(codes, data)) == Some(data)
  {
    if data != [] {
      var e := Encode(codes, data);
      if Hit(codes, data) {
        var t := FromBigEndian(data[..4]);
        Pow256Four();
        FromBigEndianInverse(data[..4]);
        assert e[1..3] == codes[t] && e[3..] == Encode(codes, data[4..]);
        assert Read(tokens, e) == Yields(data[..4], 3);
        DecodeUndoesEncode(codes, tokens, data[4..]);
        assert data == data[..4] + data[4..];
      } else {
        assert e[2..] == Encode(codes, data[1..]);
        assert Read(tokens, e) == Yields([data[0]], 2);
        DecodeUndoesEncode(codes, tokens, data[1..]);
        assert data == [data[0]] + data[1..];
      }
    }
  }

  /** Dictionary decompression undoes compression for every byte string; the result is at most
      twice the input, and shorter than the input exactly if more than a fifth of it are hits. */
  lemma DictRoundTrip(codes: Codes, tokens: Tokens, data: Bytes)
    requires Invertible(codes, tokens)
    ensures DictDecompressed(tokens, DictCompressed(codes, data)) == Some(data)
    ensures |DictCompressed(codes, data)| <= 2 * |data|
    ensures codes != map[] ==> (|DictCompressed(codes, data)| < |data| <==> |data| < 5 * Hits(codes, data))
  {
    DecodeUndoesEncode(codes, tokens, data);
    EncodeSize(codes, tokens, data);
  }

  /** What the reader makes of bytes no encoder writes: an unknown code and an unknown tag stand for
      themselves, a record cut short ends the reading, and a token that does not fit is an error. */
  lemma ForeignRecords(tokens: Tokens, a: Byte, b: Byte, tag: Byte, data: Bytes)
    requires tag != 0x01 && tag != 0x02
    ensures [a, b] !in tokens ==> Decode(tokens, [0x01, a, b] + data) == Prepend([a, b], Decode(tokens, data))
    ensures [a, b] in tokens && !(0 <= tokens[[a, b]] < 0x1_0000_0000) ==> Decode(tokens, [0x01, a, b] + data) == None
    ensures Decode(tokens, [tag] + data) == Prepend([tag], Decode(tokens, data))
    ensures Decode(tokens, [0x01]) == Decode(tokens, [0x01, a]) == Decode(tokens, [0x02]) == Some([])
  {
    var record, other := [0x01, a, b] + data, [tag] + data;
    assert record[0] == TOKEN_HIT && record[1..3] == [a, b] && record[3..] == data;
    assert other[0] == tag && other[1..] == data;
  }

  // ---------- the difference coder ----------

  /** zlib at some level, as a pair of which the decoder undoes the encoder. A zlib stream starts
      with two header bytes, so nothing shorter is one. */
  datatype Zlib = Zlib(compress: (Bytes, nat) -> Bytes, decompress: Bytes -> Option<Bytes>) {
    ghost predicate Faithful() {
      && (forall data: Bytes, level: nat :: decompress(compress(data, level)) == Some(data))
      && (forall data: Bytes :: |data| < 2 ==> decompress(data) == None)
    }
  }

  /** Such a pair exists: two bytes in front of the data. */
  lemma ZlibExists() returns (zlib: Zlib)
    ensures zlib.Faithful()
  {
    zlib := Zlib((data, _) => [0x78, 0x9C] + data, bytes => if |bytes| < 2 then None else Some(bytes[2..]));
    forall data: Bytes, level: nat ensures zlib.decompress(zlib.compress(data, level)) == Some(data) {
      assert ([0x78, 0x9C] + data)[2..] == data;
    }
  }

  function Minus(a: int, b: int): Byte {
    (a - b) % 256
  }

  function Plus(a: int, b: int): Byte {
    (a + b) % 256
  }

  lemma PlusUndoesMinus(a: Byte, b: Byte)
    ensures Plus(b, Minus(a, b)) == a
  {
  }

  /** The first byte, then each byte minus the one before it, modulo 256. */
  function Differences(data: Bytes): (r: Bytes)
    ensures |r| == |data|
  {
    seq(|data|, i requires 0 <= i < |data| => if i == 0 then data[0] else Minus(data[i], data[i - 1]))
  }

  /** Running sums modulo 256. */
  function Sums(data: Bytes): (r: Bytes)
    ensures |r| == |data|
  {
    if |data| <= 1 then data
    else
      var front := Sums(data[..|data| - 1]);
      front + [Plus(front[|front| - 1], data[|data| - 1])]
  }

  lemma {:induction false} SumsUndoDifferences(data: Bytes)
    ensures Sums(Differences(data)) == data
  {
    if |data| > 1 {
      var n := |data| - 1;
      assert Differences(data)[..n] == Differences(data[..n]);
      SumsUndoDifferences(data[..n]);
      assert data == data[..n] + [data[n]];
      PlusUndoesMinus(data[n], data[n - 1]);
    } else {
      assert Differences(data) == data;
    }
  }

  function DiffCompressed(data: Bytes, zlib: Zlib): Bytes {
    if |data| < 2 then data else zlib.compress(Differences(data), 1)
  }

  function DiffDecompressed(data: Bytes, zlib: Zlib): Option<Bytes> {
    match zlib.decompress(data)
    case None => None
    case Some(ds) => Some(Sums(ds))
  }

  /** A single byte is lost: it is passed through, and zlib does not read it. */
  lemma OneByteIsLost(b: Byte, zlib: Zlib)
    requires zlib.Faithful()
    ensures DiffDecompressed(DiffCompressed([b], zlib), zlib) == None
  {
  }

  /** Difference decompression undoes compression exactly from two bytes on. */
  lemma DiffRoundTripIff(data: Bytes, zlib: Zlib)
    requires zlib.Faithful()
    ensures DiffDecompressed(DiffCompressed(data, zlib), zlib) == Some(data) <==> |data| >= 2
  {
    SumsUndoDifferences(data);
  }

  // ---------- the choice ----------

  /** The four-byte windows looked at: those at multiples of four that end before the data does. */
  ghost function Windows(data: Bytes, count: nat): set<Bytes>
    requires 4 * count <= |data|
  {
    set k | 0 <= k < count :: data[4 * k..4 * k + 4]
  }

  /** More than a tenth as many repeated windows as different ones. */
  ghost predicate Repetitive(data: Bytes) {
    |data| >= 8 &&
    var count := (|data| - 1) / 4;
    10 * (count - |Windows(data, count)|) > |Windows(data, count)|
  }

  /** The repeated windows make up more than 0.1 of the number of different ones. */
  lemma RepetitiveRatio(data: Bytes)
    ensures Repetitive(data) <==>
              && |data| >= 8
              && var count := (|data| - 1) / 4;
                 |Windows(data, count)| > 0 && (count - |Windows(data, count)|) as real / |Windows(data, count)| as real > 0.1
  {
    if |data| >= 8 {
      var count := (|data| - 1) / 4;
      var windows := Windows(data, count);
      assert data[4 * 0..4 * 0 + 4] in windows;
      RatioAbove(count - |windows|, |windows|);
    }
  }

  lemma RatioAbove(a: int, b: nat)
    requires b > 0
    ensures a as real / b as real > 0.1 <==> 10 * a > b
  {
    QuotientAbove(a as real, b as real);
    assert 10.0 * a as real == (10 * a) as real;
  }

  lemma QuotientAbove(x: real, y: real)
    requires y > 0.0
    ensures x / y > 0.1 <==> 10.0 * x > y
  {
    var q := x / y;
    assert x == q * y;
    assert 10.0 * x - y == (10.0 * q - 1.0) * y;
    SignOfProduct(10.0 * q - 1.0, y);
  }

  lemma SignOfProduct(a: real, y: real)
    requires y > 0.0
    ensures a * y > 0.0 <==> a > 0.0
  {
  }

  ghost function Selected(data: Bytes): string {
    if |data| < 64 then "dict" else if Repetitive(data) then "diff" else "zlib"
  }

  ghost function Reported(data: Bytes, how: string): string {
    if how == "auto" then Selected(data) else how
  }

  function Compressed(codes: Codes, data: Bytes, how: string, zlib: Zlib): Bytes {
    if how == "zlib" then zlib.compress(data, 3)
    else if how == "diff" then DiffCompressed(data, zlib)
    else if how == "dict" then DictCompressed(codes, data)
    else data
  }

  function Decompressed(tokens: Tokens, data: Bytes, how: string, zlib: Zlib): Option<Bytes> {
    if how == "zlib" then zlib.decompress(data)
    else if how == "diff" then DiffDecompressed(data, zlib)
    else if how == "dict" then DictDecompressed(tokens, data)
    else Some(data)
  }

  /** Whatever is asked for, decompressing with the reported method gives the data back, except
      for differences of fewer than two bytes; the automatic choice never asks for those. */
  lemma RoundTripIff(codes: Codes, tokens: Tokens, data: Bytes, how: string, zlib: Zlib)
    requires Invertible(codes, tokens) && zlib.Faithful()
    ensures var used := Reported(data, how);
            Decompressed(tokens, Compressed(codes, data, used, zlib), used, zlib) == Some(data)
            <==> !(how == "diff" && |data| < 2)
  {
    var used := Reported(data, how);
    assert how == "auto" && |data| < 2 ==> used == "dict";
    if used == "dict" {
      DictRoundTrip(codes, tokens, data);
    } else if used == "diff" {
      DiffRoundTripIff(data, zlib);
    }
  }

  // ---------- the compressor ----------

  datatype CompressStats = CompressStats(originalBytes: nat, compressedBytes: nat, used: string)

  /** What Counter.most_common(size) returns: the distinct tokens, most frequent first, cut to size. */
  ghost predicate MostCommon(common: seq<int>, sample: seq<int>, size: nat) {
    && Distinct(common)
    && (forall i, j :: 0 <= i < j < |common| ==> multiset(sample)[common[i]] >= multiset(sample)[common[j]])
    && (forall t :: t in common ==> t in sample)
    && |common| <= size
    && (|common| < size ==> forall t :: t in sample ==> t in common)
    && (forall t, i :: t in sample && t !in common && 0 <= i < |common| ==>
          multiset(sample)[common[i]] >= multiset(sample)[t])
  }

  predicate Maps(tokens: Tokens, code: Bytes, token: int) {
    code in tokens && tokens[code] == token
  }

  /** The k-th token has the number k, in `width` bytes, as its code, and the code leads back to it. */
  ghost predicate Numbered(codes: Codes, tokens: Tokens, common: seq<int>, width: nat)
    requires |common| <= Pow256(width)
  {
    && codes.Keys == (set t | t in common)
    && (forall k {:trigger common[k]} :: 0 <= k < |common| ==>
          codes[common[k]] == BigEndian(k, width) && Maps(tokens, BigEndian(k, width), common[k]))
    && forall code :: code in tokens ==> tokens[code] in codes && codes[tokens[code]] == code
  }

  lemma CodesDiffer(i: nat, k: nat, width: nat)
    requires i < k < Pow256(width)
    ensures BigEndian(i, width) != BigEndian(k, width)
  {
    BigEndianInverse(i, width);
    BigEndianInverse(k, width);
  }

  lemma NextCodeIsNew(codes: Codes, tokens: Tokens, common: seq<int>, width: nat)
    requires |common| < Pow256(width) && Numbered(codes, tokens, common, width)
    ensures BigEndian(|common|, width) !in tokens
    ensures forall k {:trigger common[k]} :: 0 <= k < |common| ==> BigEndian(k, width) != BigEndian(|common|, width)
  {
    forall k | 0 <= k < |common| ensures BigEndian(k, width) != BigEndian(|common|, width) {
      CodesDiffer(k, |common|, width);
    }
  }

  lemma NumberedStep(codes: Codes, tokens: Tokens, common: seq<int>, token: int, width: nat)
    requires |common| < Pow256(width) && token !in common && Numbered(codes, tokens, common, width)
    ensures var code := BigEndian(|common|, width);
            Numbered(codes[token := code], tokens[code := token], common + [token], width)
  {
    NextCodeIsNew(codes, tokens, common, width);
    AddedCode(codes, tokens, common, token, width, BigEndian(|common|, width));
  }

  lemma AddedCode(codes: Codes, tokens: Tokens, common: seq<int>, token: int, width: nat, code: Bytes)
    requires |common| < Pow256(width) && token !in common && Numbered(codes, tokens, common, width)
    requires code == BigEndian(|common|, width) && code !in tokens
    ensures Numbered(codes[token := code], tokens[code := token], common + [token], width)
  {
    var longer, codes', tokens' := common + [token], codes[token := code], tokens[code := token];
    forall k | 0 <= k < |longer|
      ensures codes'[longer[k]] == BigEndian(k, width) && Maps(tokens', BigEndian(k, width), longer[k])
    {
      if k < |common| {
        assert longer[k] == common[k] && common[k] in common && Maps(tokens, BigEndian(k, width), common[k]);
      }
    }
    forall c | c in tokens' ensures tokens'[c] in codes' && codes'[tokens'[c]] == c {
      if c != code { assert tokens[c] in codes && tokens[c] in common; }
    }
    assert forall t :: t in longer <==> t in common || t == token;
    assert codes'.Keys == set t | t in longer;
  }

  const CODE_WIDTH: nat := 2

  lemma NewToken(common: seq<int>, i: nat)
    requires Distinct(common) && i < |common|
    ensures common[i] !in common[..i]
  {
  }

  lemma NumberedInvertible(codes: Codes, tokens: Tokens, common: seq<int>)
    requires |common| <= Pow256(2) && Numbered(codes, tokens, common, 2)
    ensures Invertible(codes, tokens)
  {
    forall t | t in codes ensures |codes[t]| == 2 && codes[t] in tokens && tokens[codes[t]] == t {
      var k :| 0 <= k < |common| && common[k] == t;
      assert Maps(tokens, BigEndian(k, 2), common[k]);
    }
    if common != [] {
      assert common[0] in codes && Maps(tokens, BigEndian(0, 2), common[0]);
    }
    if tokens != map[] {
      var code :| code in tokens;
      assert tokens[code] in codes;
    }
  }

  class CavemanCompressor {
    const dictionarySize: nat
    const zlib: Zlib
    var codes: Codes
    var tokens: Tokens
    var stats: CompressStats

    ghost predicate Valid()
      reads this
    {
      dictionarySize <= 65536 && Invertible(codes, tokens)
    }

    constructor (dictionarySize: nat, zlib: Zlib)
      ensures Valid() && this.dictionarySize == (if dictionarySize < 65536 then dictionarySize else 65536)
      ensures this.zlib == zlib && codes == map[] && tokens == map[]
    {
      this.dictionarySize := if dictionarySize < 65536 then dictionarySize else 65536;
      this.zlib := zlib;
      codes, tokens := map[], map[];
      stats := CompressStats(0, 0, "");
    }

    /** Replaces the dictionary by the numbering of the most common tokens. */
    method BuildDictionary(ghost sample: seq<int>, common: seq<int>)
      requires Valid() && MostCommon(common, sample, dictionarySize)
      modifies `codes, `tokens
      ensures Valid() && |common| <= Pow256(2) && Numbered(codes, tokens, common, 2)
    {
      Pow256Four();
      FillDictionary(common);
      NumberedInvertible(codes, tokens, common);
    }

    method FillDictionary(common: seq<int>)
      requires |common| <= Pow256(CODE_WIDTH) && Distinct(common)
      modifies `codes, `tokens
      ensures Numbered(codes, tokens, common, CODE_WIDTH)
    {
      codes, tokens := map[], map[];
      for i := 0 to |common|
        invariant Numbered(codes, tokens, common[..i], CODE_WIDTH)
      {
        var code := BigEndian(i, CODE_WIDTH);
        OneMore(common, i);
        NewToken(common, i);
        NumberedStep(codes, tokens, common[..i], common[i], CODE_WIDTH);
        codes := codes[common[i] := code];
        tokens := tokens[code := common[i]];
      }
      assert common[..|common|] == common;
    }

    method DictCompress(data: Bytes) returns (result: Bytes)
      ensures result == DictCompressed(codes, data)
    {
      if codes == map[] {
        return data;
      }
      result := [];
      var i := 0;
      while i < |data|
        invariant 0 <= i <= |data|
        invariant Encode(codes, data) == result + Encode(codes, data[i..])
      {
        EncodeFrom(codes, data, i);
        if i + 4 <= |data| {
          var token := FromBigEndian(data[i..i + 4]);
          if token in codes {
            Associates(result, [TOKEN_HIT] + codes[token], Encode(codes, data[i + 4..]));
            result := result + ([TOKEN_HIT] + codes[token]);
            i := i + 4;
            continue;
          }
        }
        Associates(result, [LITERAL, data[i]], Encode(codes, data[i + 1..]));
        result := result + [LITERAL, data[i]];
        i := i + 1;
      }
    }

    method DictDecompress(data: Bytes) returns (result: Option<Bytes>)
      ensures result == DictDecompressed(tokens, data)
    {
      if tokens == map[] {
        return Some(data);
      }
      var bytes: Bytes := [];
      var i := 0;
      PrependTwice([], [], Decode(tokens, data));
      assert data[0..] == data;
      while i < |data|
        invariant 0 <= i <= |data|
        invariant Decode(tokens, data) == Prepend(bytes, Decode(tokens, data[i..]))
      {
        ghost var rest := data[i..];
        ghost var record := Read(tokens, rest);
        if record.Yields? {
          PrependTwice(bytes, record.bytes, Decode(tokens, rest[record.size..]));
        }
        var ctrl := data[i];
        i := i + 1;
        if ctrl == TOKEN_HIT {
          if i + 2 > |data| { break; }
          var code := data[i..i + 2];
          assert rest[1..3] == code && rest[3..] == data[i + 2..];
          if code !in tokens {
            bytes := bytes + code;
          } else if 0 <= tokens[code] < TOKEN_LIMIT {
            Pow256Four();
            bytes := bytes + BigEndian(tokens[code], 4);
          } else {
            return None;
          }
          i := i + 2;
        } else if ctrl == LITERAL {
          if i >= |data| { break; }
          assert rest[2..] == data[i + 1..];
          bytes := bytes + [data[i]];
          i := i + 1;
        } else {
          assert rest[1..] == data[i..];
          bytes := bytes + [ctrl];
        }
      }
      PrependTwice(bytes, [], None);
      result := Some(bytes);
    }

    method DiffCompress(data: Bytes) returns (result: Bytes)
      ensures result == DiffCompressed(data, zlib)
    {
      if |data| < 2 {
        return data;
      }
      var ds := data[..1];
      for i := 1 to |data|
        invariant ds == Differences(data)[..i]
      {
        ds := ds + [Minus(data[i], data[i - 1])];
      }
      assert Differences(data)[..|data|] == Differences(data);
      result := zlib.compress(ds, 1);
    }

    method DiffDecompress(data: Bytes) returns (result: Option<Bytes>)
      ensures result == DiffDecompressed(data, zlib)
    {
      var inflated := zlib.decompress(data);
      if inflated == None || |inflated.value| < 1 {
        return inflated;
      }
      var ds := inflated.value;
      var bytes := [ds[0]];
      for i := 1 to |ds|
        invariant |bytes| == i && bytes == Sums(ds[..i])
      {
        assert ds[..i + 1][..i] == ds[..i];
        bytes := bytes + [Plus(bytes[i - 1], ds[i])];
      }
      assert ds[..|ds|] == ds;
      result := Some(bytes);
    }

    method HasRepeatedPattern(data: Bytes) returns (r: bool)
      ensures r == Repetitive(data)
    {
      if |data| < 8 {
        return false;
      }
      var windows: set<Bytes> := {};
      var repeats, i := 0, 0;
      ghost var k := 0;
      while i < |data| - 4
        invariant i == 4 * k && k <= (|data| - 1) / 4 && 4 * k <= |data|
        invariant windows == Windows(data, k) && repeats + |windows| == k
      {
        var window := data[i..i + 4];
        if window in windows {
          repeats := repeats + 1;
        }
        assert Windows(data, k + 1) == windows + {window};
        assert window in windows ==> windows + {window} == windows;
        windows := windows + {window};
        i := i + 4;
        k := k + 1;
      }
      r := 10 * repeats > if |windows| > 1 then |windows| else 1;
    }

    method SelectMethod(data: Bytes) returns (how: string)
      ensures how == Selected(data)
    {
      if |data| < 64 {
        return "dict";
      }
      var repeated := HasRepeatedPattern(data);
      return if repeated then "diff" else "zlib";
    }

    method Compress(data: Bytes, how: string) returns (compressed: Bytes, s: CompressStats)
      requires Valid() && zlib.Faithful()
      modifies `stats
      ensures s == stats && s.used == Reported(data, how)
      ensures s.originalBytes == |data| && s.compressedBytes == |compressed|
      ensures compressed == Compressed(codes, data, s.used, zlib)
      ensures s.used == "dict" ==> compressed == if codes == map[] then data else Encode(codes, data)
      ensures s.used == "diff" && |data| >= 2 ==> compressed == zlib.compress(Differences(data), 1)
      ensures s.used == "zlib" ==> compressed == zlib.compress(data, 3)
      ensures how == "auto" ==> (s.used == "dict" <==> |data| < 64) && (s.used == "diff" <==> |data| >= 64 && Repetitive(data))
      ensures !(how == "diff" && |data| < 2) ==> Decompressed(tokens, compressed, s.used, zlib) == Some(data)
    {
      var used := how;
      if how == "auto" {
        used := SelectMethod(data);
      }
      if used == "zlib" {
        compressed := zlib.compress(data, 3);
      } else if used == "diff" {
        compressed := DiffCompress(data);
      } else if used == "dict" {
        compressed := DictCompress(data);
      } else {
        compressed := data;
      }
      stats := CompressStats(|data|, |compressed|, used);
      s := stats;
      RoundTripIff(codes, tokens, data, how, zlib);
    }

    method Decompress(data: Bytes, how: string) returns (result: Option<Bytes>)
      ensures result == Decompressed(tokens, data, how, zlib)
    {
      if how == "zlib" {
        result := zlib.decompress(data);
      } else if how == "diff" {
        result := DiffDecompress(data);
      } else if how == "dict" {
        result := DictDecompress(data);
      } else {
        result := Some(data);
      }
    }
  }
}
