/**
 * Byte-order helpers of the HAL's system header: the XOR byte swaps
 * swap32 and swap16, the big-endian conversions built on them, and the
 * little-endian conversions, which are identities on the little-endian
 * targets the HAL runs on.
 *
 * The C macros copy their argument into a union of an integer and a byte
 * array, exchange bytes of the array in place, and read the integer back.
 * Here the union's two views are HostBytes32/HostValue32 (and their 16-bit
 * twins), the byte array is a Dafny array<bv8>, and the exchanges are the
 * source's XOR assignments, one statement each.
 */
module ByteOrder {

  /** Reverses a sequence of bytes (byte i of the result is byte |s|-1-i of s). */
  function Reversed(s: seq<bv8>): (r: seq<bv8>)
    ensures |r| == |s|
    ensures forall i :: 0 <= i < |s| ==> r[i] == s[|s| - 1 - i]
  {
    if s == [] then [] else Reversed(s[1..]) + [s[0]]
  }

  // ---------------------------------------------------------------------
  // Encodings and the union's views of an integer
  // ---------------------------------------------------------------------

  /** The bytes of d in little-endian order: least significant byte first. */
  function LittleEndianBytes32(d: bv32): (b: seq<bv8>)
    ensures |b| == 4
  {
    [(d & 0xFF) as bv8, ((d >> 8) & 0xFF) as bv8, ((d >> 16) & 0xFF) as bv8, (d >> 24) as bv8]
  }

  /** The bytes of d in big-endian (network) order: most significant byte first. */
  function BigEndianBytes32(d: bv32): (b: seq<bv8>)
    ensures |b| == 4
  {
    [(d >> 24) as bv8, ((d >> 16) & 0xFF) as bv8, ((d >> 8) & 0xFF) as bv8, (d & 0xFF) as bv8]
  }

  function LittleEndianBytes16(d: bv16): (b: seq<bv8>)
    ensures |b| == 2
  {
    [(d & 0xFF) as bv8, (d >> 8) as bv8]
  }

  function BigEndianBytes16(d: bv16): (b: seq<bv8>)
    ensures |b| == 2
  {
    [(d >> 8) as bv8, (d & 0xFF) as bv8]
  }

  /**
   * What the union's byte array `ret8` holds after `tmp.ret = d`. The
   * targets are little-endian, so memory holds the little-endian bytes.
   */
  function HostBytes32(d: bv32): (b: seq<bv8>)
    ensures |b| == 4
  {
    LittleEndianBytes32(d)
  }

  /** What the union's integer `ret` reads when its byte array holds b. */
  function HostValue32(b: seq<bv8>): (r: bv32)
    requires |b| == 4
  {
    (b[0] as bv32) | ((b[1] as bv32) << 8) | ((b[2] as bv32) << 16) | ((b[3] as bv32) << 24)
  }

  function HostBytes16(d: bv16): (b: seq<bv8>)
    ensures |b| == 2
  {
    LittleEndianBytes16(d)
  }

  function HostValue16(b: seq<bv8>): (r: bv16)
    requires |b| == 2
  {
    (b[0] as bv16) | ((b[1] as bv16) << 8)
  }

  /** The union's two views describe the same memory: reading back what was stored gives the bytes. */
  lemma HostViews32(b: seq<bv8>)
    requires |b| == 4
    ensures HostBytes32(HostValue32(b)) == b
  {
  }

  /** ... and storing an integer and reading it back gives the integer. */
  lemma HostValueOfBytes32(d: bv32)
    ensures HostValue32(HostBytes32(d)) == d
  {
  }

  lemma HostViews16(b: seq<bv8>)
    requires |b| == 2
    ensures HostBytes16(HostValue16(b)) == b
  {
  }

  lemma HostValueOfBytes16(d: bv16)
    ensures HostValue16(HostBytes16(d)) == d
  {
  }

  // ---------------------------------------------------------------------
  // Pure byte reversal: the specification of swap32 and swap16
  // ---------------------------------------------------------------------

  /** The 32-bit byte reversal written with shifts and masks. */
  function ByteSwap32(d: bv32): (r: bv32)
  {
    ((d & 0xFF) << 24) | ((d & 0xFF00) << 8) | ((d & 0xFF_0000) >> 8) | ((d & 0xFF00_0000) >> 24)
  }

  function ByteSwap16(d: bv16): (r: bv16)
  {
    ((d & 0xFF) << 8) | ((d & 0xFF00) >> 8)
  }

  /** Byte i of ByteSwap32(d) in memory is byte 3 - i of d. */
  lemma ByteSwap32Reverses(d: bv32)
    ensures HostBytes32(ByteSwap32(d)) == Reversed(HostBytes32(d))
  {
  }

  /** Byte 0 of ByteSwap16(d) in memory is byte 1 of d, and byte 1 is byte 0. */
  lemma ByteSwap16Reverses(d: bv16)
    ensures HostBytes16(ByteSwap16(d)) == Reversed(HostBytes16(d))
  {
  }

  /** swap32 undoes itself. */
  lemma ByteSwap32Involution(d: bv32)
    ensures ByteSwap32(ByteSwap32(d)) == d
  {
  }

  /** swap16 undoes itself. */
  lemma ByteSwap16Involution(d: bv16)
    ensures ByteSwap16(ByteSwap16(d)) == d
  {
  }

  // ---------------------------------------------------------------------
  // The macros swap32 and swap16, as the in-place XOR swaps they are
  // ---------------------------------------------------------------------

  /** The byte operation of `x ^= y`. */
  function Xor(x: bv8, y: bv8): (r: bv8)
  {
    x ^ y
  }

  /** The algebra behind the XOR swap: after x ^= y, y ^= x, x ^= y the values have traded places. */
  lemma XorSwapValues(x: bv8, y: bv8)
    ensures Xor(y, Xor(x, y)) == x
    ensures Xor(Xor(x, y), Xor(y, Xor(x, y))) == y
  {
  }

  /**
   * One three-step XOR swap, `a[i] ^= a[j]; a[j] ^= a[i]; a[i] ^= a[j];`:
   * it exchanges bytes i and j and touches no other byte. It needs i != j:
   * on one byte the first step would clear it.
   */
  method XorSwap(a: array<bv8>, i: nat, j: nat)
    requires i < a.Length && j < a.Length && i != j
    modifies a
    ensures a[i] == old(a[j]) && a[j] == old(a[i])
    ensures forall k :: 0 <= k < a.Length && k != i && k != j ==> a[k] == old(a[k])
  {
    XorSwapValues(a[i], a[j]);
    a[i] := Xor(a[i], a[j]);
    a[j] := Xor(a[j], a[i]);
    a[i] := Xor(a[i], a[j]);
  }

  /** The body of swap32 on the union's byte array: 0 <-> 3, then 1 <-> 2. */
  method SwapBytes32InPlace(a: array<bv8>)
    requires a.Length == 4
    modifies a
    ensures a[..] == Reversed(old(a[..]))
  {
    XorSwap(a, 0, 3);
    XorSwap(a, 1, 2);
  }

  /** The body of swap16 on the union's byte array: 0 <-> 1. */
  method SwapBytes16InPlace(a: array<bv8>)
    requires a.Length == 2
    modifies a
    ensures a[..] == Reversed(old(a[..]))
  {
    XorSwap(a, 0, 1);
  }

  /** swap32(d): store d in the union, swap its bytes in place, read it back. */
  method Swap32(d: bv32) returns (r: bv32)
    ensures r == ByteSwap32(d)
    ensures HostBytes32(r) == Reversed(HostBytes32(d))
  {
    var ret8 := new bv8[4];
    var b := HostBytes32(d);
    ret8[0], ret8[1], ret8[2], ret8[3] := b[0], b[1], b[2], b[3];
    assert ret8[..] == b;
    SwapBytes32InPlace(ret8);
    r := HostValue32(ret8[..]);
    HostViews32(ret8[..]);
    ByteSwap32Reverses(d);
    HostValueOfBytes32(r);
    HostValueOfBytes32(ByteSwap32(d));
  }

  /** swap16(d): store d in the union, swap its two bytes in place, read it back. */
  method Swap16(d: bv16) returns (r: bv16)
    ensures r == ByteSwap16(d)
    ensures HostBytes16(r) == Reversed(HostBytes16(d))
  {
    var ret8 := new bv8[2];
    var b := HostBytes16(d);
    ret8[0], ret8[1] := b[0], b[1];
    assert ret8[..] == b;
    SwapBytes16InPlace(ret8);
    r := HostValue16(ret8[..]);
    HostViews16(ret8[..]);
    ByteSwap16Reverses(d);
    HostValueOfBytes16(r);
    HostValueOfBytes16(ByteSwap16(d));
  }

  // ---------------------------------------------------------------------
  // Endian conversions
  // ---------------------------------------------------------------------

  /** cpu_to_be32: the result lies in memory as the big-endian bytes of d. */
  function CpuToBe32(d: bv32): (r: bv32)
    ensures HostBytes32(r) == BigEndianBytes32(d)
  {
    ByteSwap32(d)
  }

  /** be32_to_cpu: d lies in memory as the big-endian bytes of the result. */
  function Be32ToCpu(d: bv32): (r: bv32)
    ensures BigEndianBytes32(r) == HostBytes32(d)
  {
    ByteSwap32(d)
  }

  /** cpu_to_be16: the result lies in memory as the big-endian bytes of d. */
  function CpuToBe16(d: bv16): (r: bv16)
    ensures HostBytes16(r) == BigEndianBytes16(d)
  {
    ByteSwap16(d)
  }

  /** be16_to_cpu: d lies in memory as the big-endian bytes of the result. */
  function Be16ToCpu(d: bv16): (r: bv16)
    ensures BigEndianBytes16(r) == HostBytes16(d)
  {
    ByteSwap16(d)
  }

  /**
   * cpu_to_le32: on the little-endian host, memory already holds the
   * little-endian bytes. The macro expands to its argument unparenthesised;
   * this is its meaning on a value.
   */
  function CpuToLe32(d: bv32): (r: bv32)
    ensures HostBytes32(r) == LittleEndianBytes32(d)
  {
    d
  }

  function Le32ToCpu(d: bv32): (r: bv32)
    ensures LittleEndianBytes32(r) == HostBytes32(d)
  {
    d
  }

  function CpuToLe16(d: bv16): (r: bv16)
    ensures HostBytes16(r) == LittleEndianBytes16(d)
  {
    d
  }

  function Le16ToCpu(d: bv16): (r: bv16)
    ensures LittleEndianBytes16(r) == HostBytes16(d)
  {
    d
  }

  /** Converting to big-endian and back, either way round, is the identity. */
  lemma Be32RoundTrip(d: bv32)
    ensures Be32ToCpu(CpuToBe32(d)) == d
    ensures CpuToBe32(Be32ToCpu(d)) == d
  {
  }

  lemma Be16RoundTrip(d: bv16)
    ensures Be16ToCpu(CpuToBe16(d)) == d
    ensures CpuToBe16(Be16ToCpu(d)) == d
  {
  }

  lemma Le32RoundTrip(d: bv32)
    ensures Le32ToCpu(CpuToLe32(d)) == d
    ensures CpuToLe32(Le32ToCpu(d)) == d
  {
  }

  lemma Le16RoundTrip(d: bv16)
    ensures Le16ToCpu(CpuToLe16(d)) == d
    ensures CpuToLe16(Le16ToCpu(d)) == d
  {
  }
}
