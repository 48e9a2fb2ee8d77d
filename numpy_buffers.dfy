/** The part of numpy that the byte decoding relies on: fixed-width integer
    dtypes written as strings such as ">u4", and `numpy.frombuffer`, which
    reads a byte buffer as consecutive items of one dtype. */
module NumpyBuffers {
  import opened Outcomes
  import opened Digits

  datatype ByteOrder = BigEndian | LittleEndian

  datatype Kind = Unsigned | Signed

  /** numpy has fixed-width integer dtypes of these sizes only. */
  datatype ItemSize = Size1 | Size2 | Size4 | Size8 {
    function Bytes(): nat {
      match this
      case Size1 => 1
      case Size2 => 2
      case Size4 => 4
      case Size8 => 8
    }
  }

  datatype DType = DType(order: ByteOrder, kind: Kind, size: ItemSize) {
    function ItemBytes(): nat { size.Bytes() }

    function Bits(): nat { 8 * size.Bytes() }

    /** The values one item of this dtype can hold. */
    predicate Holds(v: int) {
      if kind == Unsigned then 0 <= v < Pow2(Bits()) else SignedInRange(v, Bits())
    }
  }

  /** `numpy.int16` on a little-endian host. */
  const NativeInt16: DType := DType(LittleEndian, Signed, Size2)

  // ---------------------------------------------------------------------
  // dtype strings

  function SizeDigit(size: ItemSize): char {
    match size
    case Size1 => '1'
    case Size2 => '2'
    case Size4 => '4'
    case Size8 => '8'
  }

  /** The dtype's string, as the code's dtype strings write it: byte order, kind, item size. */
  function DTypeString(dt: DType): (s: string)
    ensures |s| == 3
  {
    [if dt.order == BigEndian then '>' else '<',
     if dt.kind == Unsigned then 'u' else 'i',
     SizeDigit(dt.size)]
  }

  /** Reads a three-character integer dtype string such as ">u4" or "<i2";
      any other string is a type numpy does not understand. */
  function ParseDType(s: string): (r: Result<DType>)
    ensures r.Ok? ==> DTypeString(r.value) == s
    ensures r.Err? ==> r.error.TypeError?
  {
    if |s| == 3 && s[0] in {'>', '<'} && s[1] in {'u', 'i'} && s[2] in {'1', '2', '4', '8'} then
      var order := if s[0] == '>' then BigEndian else LittleEndian;
      var kind := if s[1] == 'u' then Unsigned else Signed;
      var size := if s[2] == '1' then Size1 else if s[2] == '2' then Size2 else if s[2] == '4' then Size4 else Size8;
      Ok(DType(order, kind, size))
    else
      Err(TypeError("data type not understood"))
  }

  lemma ParseDTypeString(dt: DType)
    ensures ParseDType(DTypeString(dt)) == Ok(dt)
  {
  }

  // ---------------------------------------------------------------------
  // One item

  /** The integer stored in one item-sized group of bytes. */
  function DecodeItem(group: seq<Byte>, dt: DType): int
    requires |group| == dt.ItemBytes()
  {
    var u := if dt.order == BigEndian then BeValue(group) else LeValue(group);
    if dt.kind == Unsigned then u else ToSigned(u, dt.Bits())
  }

  /** The bytes that store v as one item. */
  function EncodeItem(v: int, dt: DType): (group: seq<Byte>)
    requires dt.Holds(v)
    ensures |group| == dt.ItemBytes()
  {
    var u := if dt.kind == Unsigned then v else ToUnsigned(v, dt.Bits());
    PatternRange(v, dt);
    if dt.order == BigEndian then BeBytes(u, dt.ItemBytes()) else LeBytes(u, dt.ItemBytes())
  }

  lemma PatternRange(v: int, dt: DType)
    requires dt.Holds(v)
    ensures 0 <= (if dt.kind == Unsigned then v else ToUnsigned(v, dt.Bits())) < Pow2(8 * dt.ItemBytes())
  {
    if dt.kind == Signed {
      PatternOfSigned(v, dt.Bits());
    }
  }

  /** A decoded item is in the dtype's range: [0, 2^bits) unsigned, [-2^(bits-1), 2^(bits-1)) signed. */
  lemma DecodeItemHolds(group: seq<Byte>, dt: DType)
    requires |group| == dt.ItemBytes()
    ensures dt.Holds(DecodeItem(group, dt))
  {
    LeValueBound(group);
    BeValueBound(group);
    if dt.kind == Signed {
      var u := if dt.order == BigEndian then BeValue(group) else LeValue(group);
      SignedOfPattern(u, dt.Bits());
    }
  }

  lemma DecodeEncodeItem(v: int, dt: DType)
    requires dt.Holds(v)
    ensures DecodeItem(EncodeItem(v, dt), dt) == v
  {
    var u := if dt.kind == Unsigned then v else ToUnsigned(v, dt.Bits());
    PatternRange(v, dt);
    if dt.order == BigEndian {
      BeValueOfBytes(u, dt.ItemBytes());
    } else {
      LeValueOfBytes(u, dt.ItemBytes());
    }
    if dt.kind == Signed {
      PatternOfSigned(v, dt.Bits());
    }
  }

  lemma EncodeDecodeItem(group: seq<Byte>, dt: DType)
    requires |group| == dt.ItemBytes()
    ensures dt.Holds(DecodeItem(group, dt)) && EncodeItem(DecodeItem(group, dt), dt) == group
  {
    DecodeItemHolds(group, dt);
    var u := if dt.order == BigEndian then BeValue(group) else LeValue(group);
    LeValueBound(group);
    BeValueBound(group);
    if dt.kind == Signed {
      SignedOfPattern(u, dt.Bits());
    }
    BeBytesOfValue(group);
    LeBytesOfValue(group);
  }

  // ---------------------------------------------------------------------
  // numpy.frombuffer

  // The arithmetic facts below are proved by cases on the item size, where
  // the size is a literal and the facts are linear.

  lemma SizeDivision(x: nat, dt: DType)
    ensures (x * dt.ItemBytes()) / dt.ItemBytes() == x
    ensures (x * dt.ItemBytes()) % dt.ItemBytes() == 0
  {
    match dt.size
    case Size1 =>
    case Size2 =>
    case Size4 =>
    case Size8 =>
  }

  lemma WholeItems(len: int, dt: DType)
    requires len % dt.ItemBytes() == 0
    ensures (len / dt.ItemBytes()) * dt.ItemBytes() == len
  {
    match dt.size
    case Size1 =>
    case Size2 =>
    case Size4 =>
    case Size8 =>
  }

  lemma NextOffset(i: nat, dt: DType)
    ensures 0 <= i * dt.ItemBytes()
    ensures (i + 1) * dt.ItemBytes() == i * dt.ItemBytes() + dt.ItemBytes()
  {
    match dt.size
    case Size1 =>
    case Size2 =>
    case Size4 =>
    case Size8 =>
  }

  lemma DistinctSizes(x: int, y: int, dt: DType)
    requires x != y
    ensures x * dt.ItemBytes() != y * dt.ItemBytes()
  {
    match dt.size
    case Size1 =>
    case Size2 =>
    case Size4 =>
    case Size8 =>
  }

  /** Item i of a buffer of whole items lies inside the buffer when i is below the item count. */
  lemma ItemInside(i: nat, len: int, dt: DType)
    requires len % dt.ItemBytes() == 0 && i < len / dt.ItemBytes()
    ensures (i + 1) * dt.ItemBytes() <= len
  {
    match dt.size
    case Size1 =>
    case Size2 =>
    case Size4 =>
    case Size8 =>
  }

  /** A non-empty buffer of whole items holds at least one item, and whole items remain after it. */
  lemma DropChunk(len: int, dt: DType)
    requires len > 0 && len % dt.ItemBytes() == 0
    ensures len >= dt.ItemBytes() && (len - dt.ItemBytes()) % dt.ItemBytes() == 0
    ensures (len - dt.ItemBytes()) / dt.ItemBytes() + 1 == len / dt.ItemBytes()
  {
    match dt.size
    case Size1 =>
    case Size2 =>
    case Size4 =>
    case Size8 =>
  }

  /** Whole items followed by one more item are whole items. */
  lemma AddChunk(len: int, dt: DType)
    requires len % dt.ItemBytes() == 0
    ensures (len + dt.ItemBytes()) % dt.ItemBytes() == 0
  {
    match dt.size
    case Size1 =>
    case Size2 =>
    case Size4 =>
    case Size8 =>
  }

  /** The bytes of item i: offsets i*n .. (i+1)*n - 1. */
  function Group(buf: seq<Byte>, dt: DType, i: nat): (g: seq<Byte>)
    requires (i + 1) * dt.ItemBytes() <= |buf|
    ensures |g| == dt.ItemBytes()
  {
    NextOffset(i, dt);
    buf[i * dt.ItemBytes() .. (i + 1) * dt.ItemBytes()]
  }

  /** The items of a buffer whose length is a multiple of the item size, in buffer order. */
  function Items(buf: seq<Byte>, dt: DType): seq<int>
    requires |buf| % dt.ItemBytes() == 0
    decreases |buf|
  {
    var n := dt.ItemBytes();
    if |buf| == 0 then []
    else
      DropChunk(|buf|, dt);
      [DecodeItem(buf[..n], dt)] + Items(buf[n..], dt)
  }

  /** A buffer of k items' worth of bytes holds k items. */
  lemma {:induction false} ItemsLength(buf: seq<Byte>, dt: DType)
    requires |buf| % dt.ItemBytes() == 0
    ensures |Items(buf, dt)| == |buf| / dt.ItemBytes()
    decreases |buf|
  {
    if |buf| > 0 {
      DropChunk(|buf|, dt);
      ItemsLength(buf[dt.ItemBytes()..], dt);
    }
  }

  /** `numpy.frombuffer(buf, dtype=dt)`: a ValueError unless the buffer length
      is a multiple of the item size; otherwise one item per group of bytes. */
  function FromBuffer(buf: seq<Byte>, dt: DType): (r: Result<seq<int>>)
    ensures r.Ok? <==> |buf| % dt.ItemBytes() == 0
    ensures r.Ok? ==> |r.value| == |buf| / dt.ItemBytes()
    ensures r.Err? ==> r.error.ValueError?
  {
    if |buf| % dt.ItemBytes() != 0 then
      Err(ValueError("buffer size must be a multiple of element size"))
    else
      ItemsLength(buf, dt);
      Ok(Items(buf, dt))
  }

  /** Item i of a buffer is the integer stored in bytes i*n .. (i+1)*n - 1. */
  lemma {:induction false} ItemsAt(buf: seq<Byte>, dt: DType, i: nat)
    requires |buf| % dt.ItemBytes() == 0
    requires (i + 1) * dt.ItemBytes() <= |buf|
    ensures i < |Items(buf, dt)|
    ensures Items(buf, dt)[i] == DecodeItem(Group(buf, dt, i), dt)
  {
    var n := dt.ItemBytes();
    ItemsHead(buf, dt);
    if i > 0 {
      ChunkShift(buf, dt, i);
      ItemsAt(buf[n..], dt, i - 1);
    }
  }

  /** A non-empty buffer's first item is decoded from its first group, and the
      remaining items are those of the rest of the buffer. */
  lemma ItemsHead(buf: seq<Byte>, dt: DType)
    requires |buf| % dt.ItemBytes() == 0 && dt.ItemBytes() <= |buf|
    ensures |buf[dt.ItemBytes()..]| % dt.ItemBytes() == 0
    ensures |Items(buf, dt)| >= 1
    ensures Items(buf, dt)[0] == DecodeItem(Group(buf, dt, 0), dt) == DecodeItem(buf[..dt.ItemBytes()], dt)
    ensures Items(buf, dt)[1..] == Items(buf[dt.ItemBytes()..], dt)
  {
    var n := dt.ItemBytes();
    DropChunk(|buf|, dt);
    assert Group(buf, dt, 0) == buf[..n];
  }

  /** Item i of a buffer is item i - 1 of the buffer without its first item. */
  lemma ChunkShift(buf: seq<Byte>, dt: DType, i: nat)
    requires 1 <= i && (i + 1) * dt.ItemBytes() <= |buf|
    ensures i * dt.ItemBytes() <= |buf| - dt.ItemBytes()
    ensures Group(buf[dt.ItemBytes()..], dt, i - 1) == Group(buf, dt, i)
  {
    NextOffset(i, dt);
    NextOffset(i - 1, dt);
  }

  /** Every item read from a buffer is in the dtype's range. */
  lemma {:induction false} ItemsHold(buf: seq<Byte>, dt: DType)
    requires |buf| % dt.ItemBytes() == 0
    ensures forall v <- Items(buf, dt) :: dt.Holds(v)
    decreases |buf|
  {
    if |buf| > 0 {
      var n := dt.ItemBytes();
      DropChunk(|buf|, dt);
      DecodeItemHolds(buf[..n], dt);
      ItemsHold(buf[n..], dt);
      assert Items(buf, dt) == [DecodeItem(buf[..n], dt)] + Items(buf[n..], dt);
    }
  }

  /** The bytes that store a list of values as consecutive items (`ndarray.tobytes`). */
  function ToBuffer(vs: seq<int>, dt: DType): seq<Byte>
    requires forall v <- vs :: dt.Holds(v)
  {
    if vs == [] then [] else EncodeItem(vs[0], dt) + ToBuffer(vs[1..], dt)
  }

  lemma {:induction false} ToBufferLength(vs: seq<int>, dt: DType)
    requires forall v <- vs :: dt.Holds(v)
    ensures |ToBuffer(vs, dt)| == |vs| * dt.ItemBytes()
  {
    if vs != [] {
      ToBufferLength(vs[1..], dt);
      NextOffset(|vs| - 1, dt);
    }
  }

  /** Reading the bytes written for a list of values gives the values back. */
  lemma {:induction false} FromToBuffer(vs: seq<int>, dt: DType)
    requires forall v <- vs :: dt.Holds(v)
    ensures FromBuffer(ToBuffer(vs, dt), dt) == Ok(vs)
  {
    FromToItems(vs, dt);
  }

  /** The bytes written for a list of values are whole items. */
  lemma {:induction false} ToBufferWhole(vs: seq<int>, dt: DType)
    requires forall v <- vs :: dt.Holds(v)
    ensures |ToBuffer(vs, dt)| % dt.ItemBytes() == 0
  {
    if vs != [] {
      ToBufferWhole(vs[1..], dt);
      AddChunk(|ToBuffer(vs[1..], dt)|, dt);
    }
  }

  lemma {:induction false} FromToItems(vs: seq<int>, dt: DType)
    requires forall v <- vs :: dt.Holds(v)
    ensures |ToBuffer(vs, dt)| % dt.ItemBytes() == 0
    ensures Items(ToBuffer(vs, dt), dt) == vs
  {
    ToBufferWhole(vs, dt);
    if vs != [] {
      var n := dt.ItemBytes();
      var buf := ToBuffer(vs, dt);
      var tail := ToBuffer(vs[1..], dt);
      FromToItems(vs[1..], dt);
      assert buf[..n] == EncodeItem(vs[0], dt) && buf[n..] == tail;
      DecodeEncodeItem(vs[0], dt);
      ItemsHead(buf, dt);
      var items := Items(buf, dt);
      assert items == [items[0]] + items[1..];
    }
  }

  /** Writing back the items read from a buffer gives the same bytes. */
  lemma {:induction false} ToFromBuffer(buf: seq<Byte>, dt: DType)
    requires |buf| % dt.ItemBytes() == 0
    ensures FromBuffer(buf, dt).Ok?
    ensures forall v <- FromBuffer(buf, dt).value :: dt.Holds(v)
    ensures ToBuffer(FromBuffer(buf, dt).value, dt) == buf
  {
    ItemsHold(buf, dt);
    ToFromItems(buf, dt);
  }

  lemma {:induction false} ToFromItems(buf: seq<Byte>, dt: DType)
    requires |buf| % dt.ItemBytes() == 0
    requires forall v <- Items(buf, dt) :: dt.Holds(v)
    ensures ToBuffer(Items(buf, dt), dt) == buf
    decreases |buf|
  {
    if |buf| > 0 {
      var n := dt.ItemBytes();
      DropChunk(|buf|, dt);
      var vs := Items(buf, dt);
      assert vs[0] == DecodeItem(buf[..n], dt) && vs[1..] == Items(buf[n..], dt);
      ToFromItems(buf[n..], dt);
      EncodeDecodeItem(buf[..n], dt);
      calc {
        ToBuffer(vs, dt);
        EncodeItem(vs[0], dt) + ToBuffer(vs[1..], dt);
        buf[..n] + buf[n..];
        buf;
      }
    }
  }
}
