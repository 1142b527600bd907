/** `Memory`: a flat, byte-addressed, little-endian store of a fixed size
    chosen at construction. Every access is bounds-checked against that
    size and fails with `MemoryViolation` carrying the requested address. */
module ByteMemory {
  import opened Errors

  /** The backing bytes; the source's separate `size` field always equals
      their number. */
  datatype Memory = Memory(data: seq<bv8>)

  /** `Memory::size`. */
  function Size(m: Memory): (n: nat)
    ensures n == |m.data|
  {
    |m.data|
  }

  /** An access of `width` bytes at `addr` lies entirely inside memory. */
  predicate InBounds(m: Memory, addr: bv32, width: nat) {
    addr as int + width <= |m.data|
  }

  /* Little-endian byte order: the least significant byte at the lowest
     address. */

  function HalfFromBytes(b0: bv8, b1: bv8): bv16 {
    ((b1 as bv16) << 8) | (b0 as bv16)
  }

  function WordFromBytes(b0: bv8, b1: bv8, b2: bv8, b3: bv8): bv32 {
    ((b3 as bv32) << 24) | ((b2 as bv32) << 16) | ((b1 as bv32) << 8) | (b0 as bv32)
  }

  function HalfToBytes(v: bv16): (bytes: seq<bv8>)
    ensures |bytes| == 2
  {
    [(v & 0xFF) as bv8, (v >> 8) as bv8]
  }

  function WordToBytes(v: bv32): (bytes: seq<bv8>)
    ensures |bytes| == 4
  {
    [(v & 0xFF) as bv8, ((v >> 8) & 0xFF) as bv8, ((v >> 16) & 0xFF) as bv8, (v >> 24) as bv8]
  }

  /** Splitting a halfword into bytes and joining them gives it back, and
      joining two bytes and splitting the result gives them back. */
  lemma HalfBytesRoundTrip(v: bv16, b0: bv8, b1: bv8)
    ensures HalfFromBytes(HalfToBytes(v)[0], HalfToBytes(v)[1]) == v
    ensures HalfToBytes(HalfFromBytes(b0, b1)) == [b0, b1]
  {
  }

  /** Splitting a word into bytes and joining them gives it back, and
      joining four bytes and splitting the result gives them back. */
  lemma WordBytesRoundTrip(v: bv32)
    ensures var b := WordToBytes(v); WordFromBytes(b[0], b[1], b[2], b[3]) == v
  {
  }

  lemma WordBytesRoundTripReverse(b0: bv8, b1: bv8, b2: bv8, b3: bv8)
    ensures WordToBytes(WordFromBytes(b0, b1, b2, b3)) == [b0, b1, b2, b3]
  {
  }

  /** The bytes of a word, least significant first: byte k holds bits
      8k + 7 .. 8k. */
  lemma WordBytesLittleEndian(v: bv32)
    ensures var b := WordToBytes(v);
      && b[0] as bv32 == v & 0xFF
      && b[1] as bv32 == (v >> 8) & 0xFF
      && b[2] as bv32 == (v >> 16) & 0xFF
      && b[3] as bv32 == v >> 24
  {
  }

  /** The halfword and the word stored little-endian from index `a`. */
  function HalfAt(data: seq<bv8>, a: nat): bv16
    requires a + 2 <= |data|
  {
    HalfFromBytes(data[a], data[a + 1])
  }

  function WordAt(data: seq<bv8>, a: nat): bv32
    requires a + 4 <= |data|
  {
    WordFromBytes(data[a], data[a + 1], data[a + 2], data[a + 3])
  }

  /** `Memory::new`: `size` zero bytes. */
  function New(size: nat): (m: Memory)
    ensures Size(m) == size
    ensures forall a :: 0 <= a < size ==> m.data[a] == 0
  {
    Memory(seq(size, _ => 0))
  }

  /** `Memory::clear`: every byte zero, the size unchanged. */
  function Clear(m: Memory): (m': Memory)
    ensures Size(m') == Size(m)
    ensures forall a :: 0 <= a < Size(m) ==> m'.data[a] == 0
  {
    New(|m.data|)
  }

  /* Loads. Each one checks the last byte it would read against the size
     and reports the first address on failure. */

  /** `Memory::load_byte`. */
  function LoadByte(m: Memory, addr: bv32): (r: Result<bv8>)
    ensures r.Ok? <==> InBounds(m, addr, 1)
    ensures r.Err? ==> r.error == MemoryViolation(addr)
  {
    var a := addr as int;
    if a >= |m.data| then Err(MemoryViolation(addr))
    else Ok(m.data[a])
  }

  /** `Memory::load_halfword`. */
  function LoadHalfword(m: Memory, addr: bv32): (r: Result<bv16>)
    ensures r.Ok? <==> InBounds(m, addr, 2)
    ensures r.Err? ==> r.error == MemoryViolation(addr)
  {
    var a := addr as int;
    if a + 1 >= |m.data| then Err(MemoryViolation(addr))
    else Ok(HalfAt(m.data, a))
  }

  /** `Memory::load_word`. */
  function LoadWord(m: Memory, addr: bv32): (r: Result<bv32>)
    ensures r.Ok? <==> InBounds(m, addr, 4)
    ensures r.Err? ==> r.error == MemoryViolation(addr)
  {
    var a := addr as int;
    if a + 3 >= |m.data| then Err(MemoryViolation(addr))
    else Ok(WordAt(m.data, a))
  }

  /** `Memory::load_bytes`: `len` consecutive bytes. */
  function LoadBytes(m: Memory, addr: bv32, len: nat): (r: Result<seq<bv8>>)
    ensures r.Ok? <==> InBounds(m, addr, len)
    ensures r.Err? ==> r.error == MemoryViolation(addr)
    ensures r.Ok? ==> |r.value| == len
  {
    var a := addr as int;
    if a + len > |m.data| then Err(MemoryViolation(addr))
    else Ok(m.data[a..a + len])
  }

  /* Stores. A store that fails leaves no new memory; one that succeeds
     changes exactly the bytes it covers. */

  /** The memory with `bytes` written from address `a` on. */
  function Overwrite(m: Memory, a: nat, bytes: seq<bv8>): (m': Memory)
    requires a + |bytes| <= |m.data|
    ensures Size(m') == Size(m)
    ensures m'.data[a..a + |bytes|] == bytes
    ensures forall k :: 0 <= k < |m.data| && !(a <= k < a + |bytes|) ==> m'.data[k] == m.data[k]
  {
    Memory(m.data[..a] + bytes + m.data[a + |bytes|..])
  }

  /** `Memory::store_byte`. */
  function StoreByte(m: Memory, addr: bv32, value: bv8): (r: Result<Memory>)
    ensures r.Ok? <==> InBounds(m, addr, 1)
    ensures r.Err? ==> r.error == MemoryViolation(addr)
    ensures r.Ok? ==> r.value == Overwrite(m, addr as int, [value])
  {
    var a := addr as int;
    if a >= |m.data| then Err(MemoryViolation(addr))
    else Ok(Overwrite(m, a, [value]))
  }

  /** `Memory::store_halfword`. */
  function StoreHalfword(m: Memory, addr: bv32, value: bv16): (r: Result<Memory>)
    ensures r.Ok? <==> InBounds(m, addr, 2)
    ensures r.Err? ==> r.error == MemoryViolation(addr)
    ensures r.Ok? ==> r.value == Overwrite(m, addr as int, HalfToBytes(value))
  {
    var a := addr as int;
    if a + 1 >= |m.data| then Err(MemoryViolation(addr))
    else Ok(Overwrite(m, a, HalfToBytes(value)))
  }

  /** `Memory::store_word`. */
  function StoreWord(m: Memory, addr: bv32, value: bv32): (r: Result<Memory>)
    ensures r.Ok? <==> InBounds(m, addr, 4)
    ensures r.Err? ==> r.error == MemoryViolation(addr)
    ensures r.Ok? ==> r.value == Overwrite(m, addr as int, WordToBytes(value))
  {
    var a := addr as int;
    if a + 3 >= |m.data| then Err(MemoryViolation(addr))
    else Ok(Overwrite(m, a, WordToBytes(value)))
  }

  /** `Memory::store_bytes`. */
  function StoreBytes(m: Memory, addr: bv32, bytes: seq<bv8>): (r: Result<Memory>)
    ensures r.Ok? <==> InBounds(m, addr, |bytes|)
    ensures r.Err? ==> r.error == MemoryViolation(addr)
    ensures r.Ok? ==> r.value == Overwrite(m, addr as int, bytes)
  {
    var a := addr as int;
    if a + |bytes| > |m.data| then Err(MemoryViolation(addr))
    else Ok(Overwrite(m, a, bytes))
  }

  /* Reading back what was stored. */

  lemma LoadStoreByte(m: Memory, addr: bv32, value: bv8)
    requires InBounds(m, addr, 1)
    ensures LoadByte(StoreByte(m, addr, value).value, addr) == Ok(value)
  {
  }

  lemma HalfAtOverwrite(m: Memory, a: nat, value: bv16)
    requires a + 2 <= |m.data|
    ensures HalfAt(Overwrite(m, a, HalfToBytes(value)).data, a) == value
  {
    var d := Overwrite(m, a, HalfToBytes(value)).data;
    assert d[a..a + 2] == HalfToBytes(value);
    assert d[a] == HalfToBytes(value)[0] && d[a + 1] == HalfToBytes(value)[1];
    HalfBytesRoundTrip(value, 0, 0);
  }

  lemma WordAtOverwrite(m: Memory, a: nat, value: bv32)
    requires a + 4 <= |m.data|
    ensures WordAt(Overwrite(m, a, WordToBytes(value)).data, a) == value
  {
    var d := Overwrite(m, a, WordToBytes(value)).data;
    var b := WordToBytes(value);
    assert d[a..a + 4] == b;
    assert d[a] == b[0] && d[a + 1] == b[1] && d[a + 2] == b[2] && d[a + 3] == b[3];
    WordBytesRoundTrip(value);
  }

  lemma LoadStoreHalfword(m: Memory, addr: bv32, value: bv16)
    requires InBounds(m, addr, 2)
    ensures LoadHalfword(StoreHalfword(m, addr, value).value, addr) == Ok(value)
  {
    var a := addr as int;
    var m' := Overwrite(m, a, HalfToBytes(value));
    assert StoreHalfword(m, addr, value) == Ok(m');
    HalfAtOverwrite(m, a, value);
    assert LoadHalfword(m', addr) == Ok(HalfAt(m'.data, a));
  }

  lemma LoadStoreWord(m: Memory, addr: bv32, value: bv32)
    requires InBounds(m, addr, 4)
    ensures LoadWord(StoreWord(m, addr, value).value, addr) == Ok(value)
  {
    var a := addr as int;
    var m' := Overwrite(m, a, WordToBytes(value));
    assert StoreWord(m, addr, value) == Ok(m');
    WordAtOverwrite(m, a, value);
    assert LoadWord(m', addr) == Ok(WordAt(m'.data, a));
  }

  lemma LoadStoreBytes(m: Memory, addr: bv32, bytes: seq<bv8>)
    requires InBounds(m, addr, |bytes|)
    ensures LoadBytes(StoreBytes(m, addr, bytes).value, addr, |bytes|) == Ok(bytes)
  {
  }

  /** Overwriting bytes outside a word leaves the word as it was. */
  lemma WordAtFrame(m: Memory, a: nat, bytes: seq<bv8>, o: nat)
    requires a + |bytes| <= |m.data| && o + 4 <= |m.data|
    requires o + 4 <= a || a + |bytes| <= o
    ensures WordAt(Overwrite(m, a, bytes).data, o) == WordAt(m.data, o)
  {
    var d := Overwrite(m, a, bytes).data;
    assert d[o] == m.data[o] && d[o + 1] == m.data[o + 1];
    assert d[o + 2] == m.data[o + 2] && d[o + 3] == m.data[o + 3];
  }

  /** A word store leaves every word that does not overlap it as it was. */
  lemma StoreWordFrame(m: Memory, addr: bv32, value: bv32, other: bv32)
    requires InBounds(m, addr, 4)
    requires other as int + 4 <= addr as int || addr as int + 4 <= other as int
    ensures LoadWord(StoreWord(m, addr, value).value, other) == LoadWord(m, other)
  {
    var a := addr as int;
    var o := other as int;
    var m' := Overwrite(m, a, WordToBytes(value));
    assert StoreWord(m, addr, value) == Ok(m');
    if o + 4 <= |m.data| {
      WordAtFrame(m, a, WordToBytes(value), o);
      assert LoadWord(m', other) == Ok(WordAt(m'.data, o));
      assert LoadWord(m, other) == Ok(WordAt(m.data, o));
    }
  }
}
