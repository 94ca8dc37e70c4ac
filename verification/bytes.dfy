/**
  Fixed-width integers and their byte encodings.

  The wire structs are read and written by casting a packed C struct over a
  byte buffer, so every multi-byte field is laid out in the host's byte order
  unless the code converts it with htonl/ntohl. The targets are little-endian,
  so host order is modelled as little-endian and network order as big-endian.
*/
module Bytes {

  type uint8 = x: int | 0 <= x < 0x100
  type uint16 = x: int | 0 <= x < 0x1_0000
  type uint32 = x: int | 0 <= x < 0x1_0000_0000
  type uint64 = x: int | 0 <= x < 0x1_0000_0000_0000_0000
  type int32 = x: int | -0x8000_0000 <= x < 0x8000_0000
  type int64 = x: int | -0x8000_0000_0000_0000 <= x < 0x8000_0000_0000_0000

  function Pow256(n: nat): (r: nat)
    ensures r >= 1
  {
    if n == 0 then 1 else 256 * Pow256(n - 1)
  }

  /** Little-endian encoding of x in exactly n bytes. */
  function LE(x: nat, n: nat): (r: seq<uint8>)
    requires x < Pow256(n)
    ensures |r| == n
  {
    if n == 0 then [] else [x % 256] + LE(x / 256, n - 1)
  }

  /** The value of a little-endian byte string. */
  function FromLE(s: seq<uint8>): (r: nat)
    ensures r < Pow256(|s|)
  {
    if |s| == 0 then 0 else s[0] + 256 * FromLE(s[1..])
  }

  /** Big-endian (network order) encoding of x in exactly n bytes. */
  function BE(x: nat, n: nat): (r: seq<uint8>)
    requires x < Pow256(n)
    ensures |r| == n
  {
    if n == 0 then [] else BE(x / 256, n - 1) + [x % 256]
  }

  /** The value of a big-endian byte string. */
  function FromBE(s: seq<uint8>): (r: nat)
    ensures r < Pow256(|s|)
  {
    if |s| == 0 then 0 else FromBE(s[..|s| - 1]) * 256 + s[|s| - 1]
  }

  lemma {:induction false} FromLEOfLE(x: nat, n: nat)
    requires x < Pow256(n)
    ensures FromLE(LE(x, n)) == x
  {
    if n > 0 {
      var t := LE(x / 256, n - 1);
      assert LE(x, n)[1..] == t;
      FromLEOfLE(x / 256, n - 1);
    }
  }

  lemma {:induction false} LEOfFromLE(s: seq<uint8>)
    ensures LE(FromLE(s), |s|) == s
  {
    if |s| > 0 {
      var v := FromLE(s[1..]);
      assert (s[0] + 256 * v) % 256 == s[0];
      assert (s[0] + 256 * v) / 256 == v;
      LEOfFromLE(s[1..]);
      assert s == [s[0]] + s[1..];
    }
  }

  lemma {:induction false} FromBEOfBE(x: nat, n: nat)
    requires x < Pow256(n)
    ensures FromBE(BE(x, n)) == x
  {
    if n > 0 {
      var t := BE(x / 256, n - 1);
      assert BE(x, n)[..n - 1] == t;
      FromBEOfBE(x / 256, n - 1);
    }
  }

  lemma {:induction false} BEOfFromBE(s: seq<uint8>)
    ensures BE(FromBE(s), |s|) == s
  {
    if |s| > 0 {
      var v := FromBE(s[..|s| - 1]);
      assert (v * 256 + s[|s| - 1]) % 256 == s[|s| - 1];
      assert (v * 256 + s[|s| - 1]) / 256 == v;
      BEOfFromBE(s[..|s| - 1]);
      assert s == s[..|s| - 1] + [s[|s| - 1]];
    }
  }

  /** Reinterpret a signed 32-bit value as its unsigned bit pattern (a C cast). */
  function Bits32(x: int32): (r: uint32)
    ensures x >= 0 ==> r == x
    ensures x < 0 ==> r == x + 0x1_0000_0000
  {
    if x < 0 then x + 0x1_0000_0000 else x
  }

  /** Reinterpret an unsigned 32-bit pattern as a signed value (two's complement). */
  function Signed32(u: uint32): (r: int32)
    ensures Bits32(r) == u
  {
    if u >= 0x8000_0000 then u - 0x1_0000_0000 else u
  }

  function Bits64(x: int64): (r: uint64)
    ensures Signed64(r) == x
  {
    if x < 0 then x + 0x1_0000_0000_0000_0000 else x
  }

  function Signed64(u: uint64): (r: int64)
  {
    if u >= 0x8000_0000_0000_0000 then u - 0x1_0000_0000_0000_0000 else u
  }

  lemma Signed32OfBits32(x: int32)
    ensures Signed32(Bits32(x)) == x
  {
  }

  /** A C cast of an arbitrary integer to uint32_t keeps the low 32 bits. */
  function TruncU32(x: int): (r: uint32)
    ensures 0 <= x < 0x1_0000_0000 ==> r == x
  {
    x % 0x1_0000_0000
  }

  /** Host-order (little-endian) encodings of the C field types. */
  function EncI32(x: int32): (r: seq<uint8>)
    ensures |r| == 4
  {
    LE(Bits32(x), 4)
  }

  function DecI32(s: seq<uint8>): (r: int32)
    requires |s| == 4
  {
    Signed32(FromLE(s))
  }

  function EncU32(x: uint32): (r: seq<uint8>)
    ensures |r| == 4
  {
    LE(x, 4)
  }

  function DecU32(s: seq<uint8>): (r: uint32)
    requires |s| == 4
  {
    FromLE(s)
  }

  function EncI64(x: int64): (r: seq<uint8>)
    ensures |r| == 8
  {
    LE(Bits64(x), 8)
  }

  function DecI64(s: seq<uint8>): (r: int64)
    requires |s| == 8
  {
    Signed64(FromLE(s))
  }

  function EncU64(x: uint64): (r: seq<uint8>)
    ensures |r| == 8
  {
    LE(x, 8)
  }

  function DecU64(s: seq<uint8>): (r: uint64)
    requires |s| == 8
  {
    FromLE(s)
  }

  lemma I32RoundTrip(x: int32)
    ensures DecI32(EncI32(x)) == x
  {
    FromLEOfLE(Bits32(x), 4);
  }

  lemma U32RoundTrip(x: uint32)
    ensures DecU32(EncU32(x)) == x
  {
    FromLEOfLE(x, 4);
  }

  lemma I64RoundTrip(x: int64)
    ensures DecI64(EncI64(x)) == x
  {
    FromLEOfLE(Bits64(x), 8);
  }

  lemma U64RoundTrip(x: uint64)
    ensures DecU64(EncU64(x)) == x
  {
    FromLEOfLE(x, 8);
  }

  /** Every 4-byte string is the encoding of exactly one int32. */
  lemma I32Surjective(s: seq<uint8>)
    requires |s| == 4
    ensures EncI32(DecI32(s)) == s
  {
    LEOfFromLE(s);
  }
}
