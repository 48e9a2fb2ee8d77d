/** The byte decoding of calandigital.py: reading a memory block as
    fixed-width big-endian words (`read_data`), merging the blocks of a
    multi-block spectrum (`read_interleave_data`), and turning packed
    128-bit snapshot words into int16 samples (`read_snapshots`).
    Hardware reads are replaced by the bytes or words they return. */
module Calandigital {
  import opened Outcomes
  import opened Digits
  import opened NumpyBuffers

  // ---------------------------------------------------------------------
  // read_data

  /** Number of words in a block with `awidth` address bits. */
  function Depth(awidth: nat): (d: nat)
    ensures d >= 1
  {
    Pow2(awidth)
  }

  /** The byte count read_data asks the board for: `depth*dwidth/8`, a true division. */
  function RequestedBytes(awidth: nat, dwidth: nat): (r: real)
    ensures r >= 0.0
    ensures dwidth % 8 == 0 ==> r == (Depth(awidth) * (dwidth / 8)) as real
  {
    (Depth(awidth) * dwidth) as real / 8.0
  }

  /** `read_data`: `raw` stands for the bytes the board returned for the block;
      they are read as consecutive items of `dtype`. */
  function ReadData(raw: seq<Byte>, dtype: DType): (r: Result<seq<int>>)
    ensures r.Ok? <==> |raw| % dtype.ItemBytes() == 0
    ensures r.Ok? ==> |r.value| == |raw| / dtype.ItemBytes()
    ensures r.Ok? ==> forall v <- r.value :: dtype.Holds(v)
  {
    if |raw| % dtype.ItemBytes() == 0 then
      ItemsHold(raw, dtype);
      FromBuffer(raw, dtype)
    else
      FromBuffer(raw, dtype)
  }

  /** `read_data` with its dtype given as a string, as the callers pass it:
      numpy parses the string when it decodes the bytes, so a string it does
      not understand is a TypeError whatever the bytes. */
  function ReadDataAs(raw: seq<Byte>, dtype: string): (r: Result<seq<int>>)
    ensures r.Ok? <==> ParseDType(dtype).Ok? && |raw| % ParseDType(dtype).value.ItemBytes() == 0
    ensures ParseDType(dtype).Err? ==> r.Err? && r.error.TypeError?
    ensures r.Ok? ==> forall v <- r.value :: ParseDType(dtype).value.Holds(v)
  {
    var dt :- ParseDType(dtype);
    ReadData(raw, dt)
  }

  /** Passing a dtype's own string reads the block as that dtype. */
  lemma ReadDataAsString(raw: seq<Byte>, dt: DType)
    ensures ReadDataAs(raw, DTypeString(dt)) == ReadData(raw, dt)
  {
    ParseDTypeString(dt);
  }

  /** When the block supplies depth*dwidth/8 bytes and the item size is dwidth/8,
      read_data returns exactly 2^awidth words. */
  lemma ReadDataLength(raw: seq<Byte>, awidth: nat, dwidth: nat, dtype: DType)
    requires |raw| as real == RequestedBytes(awidth, dwidth)
    requires dtype.Bits() == dwidth
    ensures ReadData(raw, dtype).Ok?
    ensures |ReadData(raw, dtype).value| == Depth(awidth)
  {
    var n := dtype.ItemBytes();
    var d := Depth(awidth);
    assert (d * dwidth) as real / 8.0 == (d * n) as real;
    assert |raw| == d * n;
    SizeDivision(d, dtype);
  }

  /** Word i of the block is the integer stored in bytes i*n .. (i+1)*n - 1:
      big-endian unsigned for ">u" dtypes, big-endian two's complement for ">i". */
  lemma ReadDataWord(raw: seq<Byte>, dtype: DType, i: nat)
    requires |raw| % dtype.ItemBytes() == 0
    requires (i + 1) * dtype.ItemBytes() <= |raw|
    ensures ReadData(raw, dtype).Ok? && i < |ReadData(raw, dtype).value|
    ensures var group := Group(raw, dtype, i);
            var word := ReadData(raw, dtype).value[i];
            && (dtype.order == BigEndian && dtype.kind == Unsigned ==> word == BeValue(group))
            && (dtype.order == BigEndian && dtype.kind == Signed ==> word == ToSigned(BeValue(group), dtype.Bits()))
            && (dtype.order == LittleEndian && dtype.kind == Unsigned ==> word == LeValue(group))
            && (dtype.order == LittleEndian && dtype.kind == Signed ==> word == ToSigned(LeValue(group), dtype.Bits()))
  {
    ItemsAt(raw, dtype, i);
    assert ReadData(raw, dtype) == Ok(Items(raw, dtype));
  }

  /** Reading a block that holds the item bytes of some words gives those words back. */
  lemma ReadDataOfStored(words: seq<int>, dtype: DType)
    requires forall v <- words :: dtype.Holds(v)
    ensures ReadData(ToBuffer(words, dtype), dtype) == Ok(words)
  {
    FromToBuffer(words, dtype);
  }

  // ---------------------------------------------------------------------
  // read_interleave_data

  predicate SameLength(blocks: seq<seq<int>>, d: nat)
  {
    forall b <- blocks :: |b| == d
  }

  /** Column i of the stacked matrix: word i of every block, in block order. */
  function Column(blocks: seq<seq<int>>, d: nat, i: nat): (col: seq<int>)
    requires SameLength(blocks, d) && i < d
    ensures |col| == |blocks|
  {
    seq(|blocks|, j requires 0 <= j < |blocks| => blocks[j][i])
  }

  /** The first c columns of the stacked matrix, one column after another. */
  function ColumnMajor(blocks: seq<seq<int>>, d: nat, c: nat): (out: seq<int>)
    requires SameLength(blocks, d) && c <= d
    ensures |out| == c * |blocks|
  {
    if c == 0 then [] else ColumnMajor(blocks, d, c - 1) + Column(blocks, d, c - 1)
  }

  lemma SlotBelow(i: nat, j: nat, m: nat, c: nat)
    requires i < c && j < m
    ensures i * m + j < c * m
    ensures i < c - 1 ==> i * m + j < (c - 1) * m
    ensures i == c - 1 ==> i * m + j - (c - 1) * m == j
  {
    assert (i + 1) * m <= c * m;
    assert i < c - 1 ==> (i + 1) * m <= (c - 1) * m;
  }

  /** Entry i*m + j of the flattened matrix is word i of block j. */
  lemma {:induction false} ColumnMajorAt(blocks: seq<seq<int>>, d: nat, c: nat, i: nat, j: nat)
    requires SameLength(blocks, d) && c <= d
    requires i < c && j < |blocks|
    ensures i * |blocks| + j < |ColumnMajor(blocks, d, c)|
    ensures ColumnMajor(blocks, d, c)[i * |blocks| + j] == blocks[j][i]
  {
    var m := |blocks|;
    SlotBelow(i, j, m, c);
    if i < c - 1 {
      ColumnMajorAt(blocks, d, c - 1, i, j);
    }
  }

  /** `np.vstack(blocks).reshape((-1,), order='F')`: a ValueError for an empty
      list or blocks of unequal length; otherwise the m-by-depth matrix read
      column by column. */
  function Interleave(blocks: seq<seq<int>>): (r: Result<seq<int>>)
    ensures r.Ok? <==> |blocks| > 0 && SameLength(blocks, |blocks[0]|)
    ensures r.Err? ==> r.error.ValueError?
    ensures r.Ok? ==> |r.value| == |blocks| * |blocks[0]|
  {
    if |blocks| == 0 then
      Err(ValueError("need at least one array to concatenate"))
    else if !SameLength(blocks, |blocks[0]|) then
      Err(ValueError("all the input array dimensions must match"))
    else
      Ok(ColumnMajor(blocks, |blocks[0]|, |blocks[0]|))
  }

  /** With m blocks, entry i*m + j of the interleaved data is word i of block j. */
  lemma InterleaveAt(blocks: seq<seq<int>>, i: nat, j: nat)
    requires Interleave(blocks).Ok?
    requires i < |blocks[0]| && j < |blocks|
    ensures 0 <= i * |blocks| + j < |Interleave(blocks).value|
    ensures Interleave(blocks).value[i * |blocks| + j] == blocks[j][i]
  {
    ColumnMajorAt(blocks, |blocks[0]|, |blocks[0]|, i, j);
  }

  /** Every m-th element of xs starting at index j (the slice `xs[j::m]`). */
  function Strided(xs: seq<int>, m: nat, j: nat): seq<int>
    requires m >= 1
    decreases |xs| - j
  {
    if j >= |xs| then [] else [xs[j]] + Strided(xs, m, j + m)
  }

  lemma {:induction false} StridedFrom(out: seq<int>, blocks: seq<seq<int>>, j: nat, i: nat)
    requires |blocks| > 0 && SameLength(blocks, |blocks[0]|)
    requires Interleave(blocks) == Ok(out)
    requires j < |blocks| && i <= |blocks[0]|
    ensures Strided(out, |blocks|, i * |blocks| + j) == blocks[j][i..]
    decreases |blocks[0]| - i
  {
    var m, d := |blocks|, |blocks[0]|;
    if i == d {
      assert i * m + j >= |out| by {
        assert d * m + j >= d * m;
      }
    } else {
      assert i * m + j + m == (i + 1) * m + j;
      InterleaveAt(blocks, i, j);
      StridedFrom(out, blocks, j, i + 1);
      assert blocks[j][i..] == [blocks[j][i]] + blocks[j][i + 1..];
    }
  }

  /** Taking every m-th element starting at j recovers block j unchanged. */
  lemma Deinterleave(blocks: seq<seq<int>>, j: nat)
    requires Interleave(blocks).Ok? && j < |blocks|
    ensures Strided(Interleave(blocks).value, |blocks|, j) == blocks[j]
  {
    StridedFrom(Interleave(blocks).value, blocks, j, 0);
    assert blocks[j][0..] == blocks[j];
  }

  /** Interleaving a single block gives that block's data. */
  lemma InterleaveSingle(block: seq<int>)
    ensures Interleave([block]) == Ok(block)
  {
    var d := |block|;
    var out := ColumnMajor([block], d, d);
    forall i | 0 <= i < d
      ensures out[i] == block[i]
    {
      ColumnMajorAt([block], d, d, i, 0);
    }
    assert out == block;
  }

  /** `[read_data(...) for bram in brams]`: the first failing read ends the list. */
  function ReadAll(raws: seq<seq<Byte>>, dtype: DType): (r: Result<seq<seq<int>>>)
    ensures r.Ok? <==> forall raw <- raws :: |raw| % dtype.ItemBytes() == 0
    ensures r.Err? ==> r.error.ValueError?
    ensures r.Ok? ==> |r.value| == |raws|
    ensures r.Ok? ==> forall j :: 0 <= j < |raws| ==> ReadData(raws[j], dtype) == Ok(r.value[j])
  {
    if raws == [] then Ok([])
    else
      var first :- ReadData(raws[0], dtype);
      var rest :- ReadAll(raws[1..], dtype);
      assert forall raw <- raws :: raw == raws[0] || raw in raws[1..];
      Ok([first] + rest)
  }

  /** `read_interleave_data`: `raws[j]` stands for the bytes the board returned for block j. */
  function ReadInterleaveData(raws: seq<seq<Byte>>, dtype: DType): (r: Result<seq<int>>)
    ensures r.Ok? <==> && |raws| > 0
                       && (forall raw <- raws :: |raw| % dtype.ItemBytes() == 0)
                       && (forall raw <- raws :: |raw| == |raws[0]|)
    ensures r.Err? ==> r.error.ValueError?
  {
    var blocks :- ReadAll(raws, dtype);
    BlockLengths(raws, blocks, dtype);
    Interleave(blocks)
  }

  /** `read_interleave_data` with its dtype given as a string: with no blocks,
      `np.vstack([])` raises ValueError before any dtype is parsed; otherwise
      the first block's decoding parses it, so an unknown dtype is a TypeError. */
  function ReadInterleaveDataAs(raws: seq<seq<Byte>>, dtype: string): (r: Result<seq<int>>)
    ensures ParseDType(dtype).Ok? ==> r == ReadInterleaveData(raws, ParseDType(dtype).value)
    ensures ParseDType(dtype).Err? ==> r.Err? && (r.error.TypeError? <==> |raws| > 0)
  {
    if raws == [] then
      Interleave([])
    else
      var dt :- ParseDType(dtype);
      ReadInterleaveData(raws, dt)
  }

  /** A successful interleaved read is the interleaving of the blocks read one by one. */
  lemma ReadInterleaveDataBlocks(raws: seq<seq<Byte>>, dtype: DType)
    requires ReadInterleaveData(raws, dtype).Ok?
    ensures ReadAll(raws, dtype).Ok?
    ensures ReadInterleaveData(raws, dtype) == Interleave(ReadAll(raws, dtype).value)
  {
  }

  /** Block j of a successful read is `read_data` of byte block j, with
      len(raws[j]) / n words. */
  lemma BlockOfRead(raws: seq<seq<Byte>>, blocks: seq<seq<int>>, dtype: DType, j: nat)
    requires ReadAll(raws, dtype) == Ok(blocks) && j < |raws|
    ensures ReadData(raws[j], dtype) == Ok(blocks[j])
    ensures |blocks[j]| == |raws[j]| / dtype.ItemBytes()
  {
  }

  /** With m blocks, every m-th word of the interleaved read starting at
      word j is block j as `read_data` reads it: the read's layout puts word i
      of block j at index i*m + j. */
  lemma ReadInterleaveDataBlock(raws: seq<seq<Byte>>, dtype: DType, j: nat)
    requires ReadInterleaveData(raws, dtype).Ok? && j < |raws|
    ensures ReadData(raws[j], dtype).Ok?
    ensures Strided(ReadInterleaveData(raws, dtype).value, |raws|, j) == ReadData(raws[j], dtype).value
  {
    ReadInterleaveDataBlocks(raws, dtype);
    var blocks := ReadAll(raws, dtype).value;
    BlockOfRead(raws, blocks, dtype, j);
    Deinterleave(blocks, j);
  }

  /** Blocks read from whole-item byte blocks have equal lengths exactly when the byte blocks do. */
  lemma BlockLengths(raws: seq<seq<Byte>>, blocks: seq<seq<int>>, dtype: DType)
    requires ReadAll(raws, dtype) == Ok(blocks)
    ensures forall j :: 0 <= j < |raws| ==> |blocks[j]| == |raws[j]| / dtype.ItemBytes()
    ensures |raws| > 0 ==> (SameLength(blocks, |blocks[0]|) <==> forall raw <- raws :: |raw| == |raws[0]|)
  {
    var n := dtype.ItemBytes();
    forall j | 0 <= j < |raws|
      ensures |blocks[j]| == |raws[j]| / n && |blocks[j]| * n == |raws[j]|
    {
      assert ReadData(raws[j], dtype) == Ok(blocks[j]);
      WholeItems(|raws[j]|, dtype);
    }
    if |raws| > 0 {
      if SameLength(blocks, |blocks[0]|) {
        forall raw <- raws
          ensures |raw| == |raws[0]|
        {
          var j :| 0 <= j < |raws| && raws[j] == raw;
          assert blocks[j] in blocks;
        }
      } else {
        var b :| b in blocks && |b| != |blocks[0]|;
        var j :| 0 <= j < |blocks| && blocks[j] == b;
        DistinctSizes(|blocks[j]|, |blocks[0]|, dtype);
        assert raws[j] in raws;
      }
    }
  }

  /** With every block read at the same awidth, the interleaved read has
      len(brams) * 2^awidth words. */
  lemma ReadInterleaveDataLength(raws: seq<seq<Byte>>, awidth: nat, dwidth: nat, dtype: DType)
    requires |raws| > 0
    requires forall raw <- raws :: |raw| as real == RequestedBytes(awidth, dwidth)
    requires dtype.Bits() == dwidth
    ensures ReadAll(raws, dtype).Ok? && SameLength(ReadAll(raws, dtype).value, Depth(awidth))
    ensures ReadInterleaveData(raws, dtype).Ok?
    ensures |ReadInterleaveData(raws, dtype).value| == |raws| * Depth(awidth)
  {
    var d := Depth(awidth);
    forall raw <- raws
      ensures ReadData(raw, dtype).Ok? && |ReadData(raw, dtype).value| == d
    {
      ReadDataLength(raw, awidth, dwidth, dtype);
    }
    var blocks := ReadAll(raws, dtype).value;
    forall j | 0 <= j < |blocks|
      ensures |blocks[j]| == d
    {
      assert raws[j] in raws;
    }
  }

  // ---------------------------------------------------------------------
  // read_snapshots

  /** The 16 little-endian bytes of d's 128-bit two's-complement pattern. */
  function WordPattern(d: int): (b: seq<Byte>)
    requires SignedInRange(d, 128)
    ensures |b| == 16 && ToSigned(LeValue(b), 128) == d
  {
    PatternOfSigned(d, 128);
    LeValueOfBytes(ToUnsigned(d, 128), 16);
    LeBytes(ToUnsigned(d, 128), 16)
  }

  /** `d.to_bytes(16, "little", signed=True)`: an OverflowError unless d fits in 128 bits. */
  function WordBytes(d: int): (r: Result<seq<Byte>>)
    ensures r.Ok? <==> SignedInRange(d, 128)
    ensures r.Err? ==> r.error == OverflowError
    ensures r.Ok? ==> |r.value| == 16 && ToSigned(LeValue(r.value), 128) == d
  {
    if SignedInRange(d, 128) then Ok(WordPattern(d)) else Err(OverflowError)
  }

  /** `b"".join([d.to_bytes(16, "little", signed=True) for d in words])`. */
  function JoinWordBytes(words: seq<int>): (r: Result<seq<Byte>>)
    ensures r.Ok? <==> forall d <- words :: SignedInRange(d, 128)
    ensures r.Err? ==> r.error == OverflowError
    ensures r.Ok? ==> |r.value| == 16 * |words|
  {
    if words == [] then Ok([])
    else
      var first :- WordBytes(words[0]);
      var rest :- JoinWordBytes(words[1..]);
      assert forall d <- words :: d == words[0] || d in words[1..];
      Ok(first + rest)
  }

  /** Byte t of word w's 16 bytes sits at offset 16w + t of the joined bytes. */
  lemma {:induction false} JoinWordBytesAt(words: seq<int>, w: nat, t: nat)
    requires JoinWordBytes(words).Ok? && w < |words| && t < 16
    ensures SignedInRange(words[w], 128)
    ensures JoinWordBytes(words).value[16 * w + t] == WordPattern(words[w])[t]
  {
    assert words[w] in words;
    var bytes := JoinWordBytes(words).value;
    var first := WordBytes(words[0]).value;
    var rest := JoinWordBytes(words[1..]).value;
    assert bytes == first + rest;
    if w == 0 {
      assert first == WordPattern(words[0]);
      assert bytes[t] == first[t];
    } else {
      JoinWordBytesAt(words[1..], w - 1, t);
      assert words[1..][w - 1] == words[w];
      assert bytes[16 * w + t] == rest[16 * (w - 1) + t];
    }
  }

  /** The samples of one snapshot: its words as bytes, read as `np.int16`. */
  function SnapshotSamples(words: seq<int>): (r: Result<seq<int>>)
    ensures r.Ok? <==> forall d <- words :: SignedInRange(d, 128)
    ensures r.Err? ==> r.error == OverflowError
    ensures r.Ok? ==> |r.value| == 8 * |words|
  {
    var bytes :- JoinWordBytes(words);
    assert NativeInt16.ItemBytes() == 2 && |bytes| % 2 == 0 && |bytes| / 2 == 8 * |words|;
    FromBuffer(bytes, NativeInt16)
  }

  /** Samples 8w .. 8w+7 of a snapshot are the int16 items of word w's 16 bytes. */
  lemma SnapshotWord(words: seq<int>, w: nat)
    requires SnapshotSamples(words).Ok? && w < |words|
    ensures SignedInRange(words[w], 128)
    ensures SnapshotSamples(words).value[8 * w .. 8 * w + 8] ==
            Items(WordPattern(words[w]), NativeInt16)
  {
    assert words[w] in words;
    var ws := Items(WordPattern(words[w]), NativeInt16);
    SnapshotWordAt(words, w, 0);
    forall k | 0 <= k < 8
      ensures SnapshotSamples(words).value[8 * w + k] == ws[k]
    {
      SnapshotWordAt(words, w, k);
    }
  }

  lemma SnapshotWordAt(words: seq<int>, w: nat, k: nat)
    requires SnapshotSamples(words).Ok? && w < |words| && k < 8
    ensures SignedInRange(words[w], 128)
    ensures |Items(WordPattern(words[w]), NativeInt16)| == 8
    ensures SnapshotSamples(words).value[8 * w + k] ==
            Items(WordPattern(words[w]), NativeInt16)[k]
  {
    assert words[w] in words;
    SamplesOfBytes(words);
    var bytes := JoinWordBytes(words).value;
    var pattern := WordPattern(words[w]);
    var pair := LePair(pattern, 2 * k);
    assert Items(bytes, NativeInt16)[8 * w + k] == ToSigned(pair, 16) by {
      JoinPairAt(words, w, k);
      Int16At(bytes, 8 * w + k);
    }
    assert |Items(pattern, NativeInt16)| == 8 && Items(pattern, NativeInt16)[k] == ToSigned(pair, 16) by {
      Int16At(pattern, k);
    }
  }

  /** Bytes 2k and 2k+1 of word w's pattern sit at offsets 16w+2k and 16w+2k+1 of the joined bytes. */
  lemma JoinPairAt(words: seq<int>, w: nat, k: nat)
    requires JoinWordBytes(words).Ok? && w < |words| && k < 8
    ensures SignedInRange(words[w], 128)
    ensures 2 * (8 * w + k) + 2 <= |JoinWordBytes(words).value|
    ensures LePair(JoinWordBytes(words).value, 2 * (8 * w + k)) == LePair(WordPattern(words[w]), 2 * k)
  {
    JoinWordBytesAt(words, w, 2 * k);
    JoinWordBytesAt(words, w, 2 * k + 1);
    assert 2 * (8 * w + k) == 16 * w + 2 * k;
  }

  lemma SamplesOfBytes(words: seq<int>)
    requires SnapshotSamples(words).Ok?
    ensures JoinWordBytes(words).Ok?
    ensures |JoinWordBytes(words).value| % NativeInt16.ItemBytes() == 0
    ensures SnapshotSamples(words).value == Items(JoinWordBytes(words).value, NativeInt16)
  {
  }

  /** Sample i of a buffer read as `np.int16` is the signed value of byte 2i plus 256 times byte 2i+1. */
  lemma Int16At(buf: seq<Byte>, i: nat)
    requires |buf| % 2 == 0 && 2 * i + 2 <= |buf|
    ensures |buf| % NativeInt16.ItemBytes() == 0
    ensures |Items(buf, NativeInt16)| == |buf| / 2
    ensures Items(buf, NativeInt16)[i] == ToSigned(LePair(buf, 2 * i), 16)
  {
    assert NativeInt16.ItemBytes() == 2;
    ItemsLength(buf, NativeInt16);
    ItemsAt(buf, NativeInt16, i);
    var g := Group(buf, NativeInt16, i);
    assert g == buf[i * 2 .. (i + 1) * 2];
    assert g == [buf[2 * i], buf[2 * i + 1]];
    assert LeValue(g) == g[0] + 256 * LeValue(g[1..]);
    assert LeValue(g[1..]) == g[1] + 256 * LeValue(g[1..][1..]);
    assert LeValue(g) == LePair(buf, 2 * i);
    assert DecodeItem(g, NativeInt16) == ToSigned(LeValue(g), 16);
  }

  /** Sample k of word w is the signed value of bits 16k .. 16k+15 of the word's 128-bit pattern. */
  lemma SnapshotSampleBits(words: seq<int>, w: nat, k: nat)
    requires SnapshotSamples(words).Ok? && w < |words| && k < 8
    ensures SignedInRange(words[w], 128)
    ensures SnapshotSamples(words).value[8 * w + k] == ToSigned(Bits16(ToUnsigned(words[w], 128), k), 16)
  {
    var u := ToUnsigned(words[w], 128);
    SnapshotWordAt(words, w, k);
    assert WordPattern(words[w]) == LeBytes(u, 16);
    Int16At(LeBytes(u, 16), k);
    LeBytesPair(u, 16, k);
  }

  /** The 128-bit integer whose little-endian bytes are those of eight int16 samples. */
  function Reassemble(samples: seq<int>): int
    requires |samples| == 8 && forall v <- samples :: NativeInt16.Holds(v)
  {
    ToSigned(LeValue(ToBuffer(samples, NativeInt16)), 128)
  }

  /** Reassembling the eight samples of a word gives the word back. */
  lemma SnapshotRoundTrip(words: seq<int>, w: nat)
    requires SnapshotSamples(words).Ok? && w < |words|
    ensures var samples := SnapshotSamples(words).value[8 * w .. 8 * w + 8];
            (forall v <- samples :: NativeInt16.Holds(v)) && Reassemble(samples) == words[w]
  {
    SnapshotWord(words, w);
    ToFromBuffer(WordPattern(words[w]), NativeInt16);
  }

  predicate SnapshotReadable(captures: map<string, seq<int>>, name: string)
  {
    name + "_ss" in captures && SnapshotSamples(captures[name + "_ss"]).Ok?
  }

  /** The exception that reading an unreadable snapshot raises. */
  function SnapshotError(captures: map<string, seq<int>>, name: string): PyError
  {
    if name + "_ss" !in captures then MissingSnapshot(name + "_ss")
    else if SnapshotSamples(captures[name + "_ss"]).Err? then SnapshotSamples(captures[name + "_ss"]).error
    else OverflowError
  }

  /** `read_snapshots`: `captures` maps each snapshot object's name to the
      packed words its read returned. One array of samples per name, in order;
      the first name whose snapshot is missing or holds an oversized word ends
      the call with that error. */
  method ReadSnapshots(captures: map<string, seq<int>>, snapnames: seq<string>) returns (r: Result<seq<seq<int>>>)
    ensures r.Ok? <==> forall i :: 0 <= i < |snapnames| ==> SnapshotReadable(captures, snapnames[i])
    ensures r.Ok? ==> |r.value| == |snapnames|
    ensures r.Ok? ==> forall i :: 0 <= i < |snapnames| ==>
                        SnapshotReadable(captures, snapnames[i]) &&
                        |r.value[i]| == 8 * |captures[snapnames[i] + "_ss"]| &&
                        Ok(r.value[i]) == SnapshotSamples(captures[snapnames[i] + "_ss"])
    ensures r.Err? ==> exists i :: 0 <= i < |snapnames| && !SnapshotReadable(captures, snapnames[i]) &&
                        (forall k :: 0 <= k < i ==> SnapshotReadable(captures, snapnames[k])) &&
                        r.error == SnapshotError(captures, snapnames[i])
  {
    var dataList: seq<seq<int>> := [];
    for i := 0 to |snapnames|
      invariant |dataList| == i
      invariant forall k :: 0 <= k < i ==> SnapshotReadable(captures, snapnames[k])
      invariant forall k :: 0 <= k < i ==> Ok(dataList[k]) == SnapshotSamples(captures[snapnames[k] + "_ss"])
    {
      var key := snapnames[i] + "_ss";
      if key !in captures {
        return Err(MissingSnapshot(key));
      }
      var data := SnapshotSamples(captures[key]);
      if data.Err? {
        return Err(data.error);
      }
      assert SnapshotReadable(captures, snapnames[i]);
      dataList := dataList + [data.value];
    }
    return Ok(dataList);
  }
}
