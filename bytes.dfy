/** Byte-level vocabulary shared by the packet codec, the key derivation and the
    credential store: C integer widths, C strings, the two 16-bit byte orders,
    and the C library's memcpy/memcmp. */
module Bytes {

  /** `uint8_t` / `unsigned char`. */
  type uint8 = x: int | 0 <= x < 0x100

  /** `uint16_t`. */
  type uint16 = x: int | 0 <= x < 0x1_0000

  /** The 32-byte buffers that hold a ristretto255 point or scalar encoding. */
  type Bytes32 = s: seq<uint8> | |s| == 32 witness seq(32, i => 0)

  /** The 64-byte output of SHA-512. */
  type Bytes64 = s: seq<uint8> | |s| == 64 witness seq(64, i => 0)

  /** The bytes of a NUL-terminated C string, terminator excluded, hold no NUL. */
  predicate NoNul(s: seq<uint8>) {
    forall i :: 0 <= i < |s| ==> s[i] != 0
  }

  type CString = s: seq<uint8> | NoNul(s)

  /** `strlen`: the index of the first NUL byte, or the whole length when the
      buffer holds none (where C would read past the end). */
  function StrLen(s: seq<uint8>): (n: nat)
    ensures n <= |s|
    ensures NoNul(s[..n])
    ensures n < |s| ==> s[n] == 0
  {
    if s == [] || s[0] == 0 then 0
    else
      var n := 1 + StrLen(s[1..]);
      assert s[..n] == [s[0]] + s[1..][..n - 1];
      n
  }

  /** The C string a buffer holds: its bytes before the first NUL (`strdup`). */
  function CStringOf(s: seq<uint8>): CString {
    s[..StrLen(s)]
  }

  /** Reading a terminated string back recovers it, whatever follows the NUL. */
  lemma {:induction false} CStringOfTerminated(id: CString, rest: seq<uint8>)
    ensures CStringOf(id + [0] + rest) == id
  {
    var s := id + [0] + rest;
    if id == [] {
      assert s[0] == 0;
    } else {
      assert id[0] != 0;
      assert s[1..] == id[1..] + [0] + rest;
      CStringOfTerminated(id[1..], rest);
      assert StrLen(s) == 1 + StrLen(s[1..]);
    }
  }

  // ---------------------------------------------------------------------
  // 16-bit integers in the two byte orders

  /** `htons`: a 16-bit value as two bytes, most significant first. */
  function BigEndian16(x: uint16): (r: seq<uint8>)
    ensures |r| == 2 && FromBigEndian16(r[0], r[1]) == x
  {
    [x / 0x100, x % 0x100]
  }

  function FromBigEndian16(hi: uint8, lo: uint8): uint16 {
    hi * 0x100 + lo
  }

  /** A 16-bit value as a little-endian host stores it in memory. */
  function LittleEndian16(x: uint16): (r: seq<uint8>)
    ensures |r| == 2 && FromLittleEndian16(r[0], r[1]) == x
  {
    [x % 0x100, x / 0x100]
  }

  function FromLittleEndian16(lo: uint8, hi: uint8): uint16 {
    hi * 0x100 + lo
  }

  /** Decoding two bytes and encoding the value again gives back those bytes. */
  lemma BigEndian16Bytes(hi: uint8, lo: uint8)
    ensures BigEndian16(FromBigEndian16(hi, lo)) == [hi, lo]
  {
  }

  /** The same for the little-endian order. */
  lemma LittleEndian16Bytes(lo: uint8, hi: uint8)
    ensures LittleEndian16(FromLittleEndian16(lo, hi)) == [lo, hi]
  {
  }

  // ---------------------------------------------------------------------
  // memcpy and memcmp over heap buffers

  /** 32 zero bytes. */
  function Zeros32(): (z: Bytes32)
    ensures forall i :: 0 <= i < 32 ==> z[i] == 0
  {
    seq(32, i => 0)
  }

  /** `memcpy(dst + offset, src, |src|)`: the bytes at `offset` become `src`,
      every other byte of `dst` keeps its value. */
  method CopyInto(dst: array<uint8>, offset: nat, src: seq<uint8>)
    requires offset + |src| <= dst.Length
    modifies dst
    ensures dst[..] == old(dst[..offset]) + src + old(dst[offset + |src|..])
    ensures offset == 0 && |src| == dst.Length ==> dst[..] == src
  {
    var i := 0;
    while i < |src|
      invariant 0 <= i <= |src|
      invariant dst[..offset] == old(dst[..offset])
      invariant dst[offset..offset + i] == src[..i]
      invariant dst[offset + |src|..] == old(dst[offset + |src|..])
      invariant dst[offset + i..offset + |src|] == old(dst[offset + i..offset + |src|])
    {
      dst[offset + i] := src[i];
      i := i + 1;
    }
    assert dst[..] == dst[..offset] + dst[offset..offset + |src|] + dst[offset + |src|..];
  }

  /** A fresh heap buffer holding `init`; it stands for a fixed-size array
      embedded in a struct when a libsodium call writes into it. */
  method NewBuffer(init: seq<uint8>) returns (buffer: array<uint8>)
    ensures fresh(buffer)
    ensures buffer[..] == init
  {
    buffer := new uint8[|init|](i => 0);
    CopyInto(buffer, 0, init);
  }

  /** `memcmp(a, b, n) == 0`: the first `n` bytes of the two buffers agree. */
  method SameBytes(a: seq<uint8>, b: array<uint8>, n: nat) returns (same: bool)
    requires n <= |a| && n <= b.Length
    ensures same <==> a[..n] == b[..n]
  {
    var i := 0;
    while i < n
      invariant 0 <= i <= n
      invariant a[..i] == b[..i]
    {
      if a[i] != b[i] {
        assert a[..n][i] != b[..n][i];
        return false;
      }
      i := i + 1;
    }
    return true;
  }
}
