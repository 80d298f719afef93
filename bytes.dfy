/**
 * Bytes, fixed-width integers and their little-endian encodings: the
 * vocabulary shared by the on-chain program (Borsh, `to_le_bytes`) and the
 * client (`DataView`, `Buffer.read*LE`/`write*LE`, `Uint8Array.set`).
 */
module Bytes {
  import opened Wrappers

  type byte = x: int | 0 <= x < 256

  const TWO_16: int := 0x1_0000
  const TWO_32: int := 0x1_0000_0000
  const TWO_63: int := 0x8000_0000_0000_0000
  const TWO_64: int := 0x1_0000_0000_0000_0000

  type u8 = byte
  type u16 = x: int | 0 <= x < 0x1_0000
  type u32 = x: int | 0 <= x < 0x1_0000_0000
  type u64 = x: int | 0 <= x < 0x1_0000_0000_0000_0000
  type i64 = x: int | -0x8000_0000_0000_0000 <= x < 0x8000_0000_0000_0000

  /** `n` zero bytes: a freshly allocated `Uint8Array(n)` or `Buffer.alloc(n)`. */
  function Zeros(n: nat): (z: seq<byte>)
  {
    seq(n, _ => 0)
  }

  /** A 32-byte field: a public key or a ciphertext. */
  type Bytes32 = s: seq<byte> | |s| == 32 witness Zeros(32)

  predicate AllZero(s: seq<byte>)
  {
    forall i :: 0 <= i < |s| ==> s[i] == 0
  }

  lemma AllZeroIsZeros(s: seq<byte>)
    ensures AllZero(s) <==> s == Zeros(|s|)
  {
  }

  function Pow256(n: nat): (p: nat)
    ensures p > 0
  {
    if n == 0 then 1 else 256 * Pow256(n - 1)
  }

  lemma Pow256Widths()
    ensures Pow256(1) == 256 && Pow256(2) == TWO_16
    ensures Pow256(4) == TWO_32 && Pow256(8) == TWO_64
  {
    assert Pow256(2) == 256 * Pow256(1);
    assert Pow256(3) == 256 * Pow256(2);
    assert Pow256(4) == 256 * Pow256(3);
    assert Pow256(5) == 256 * Pow256(4);
    assert Pow256(6) == 256 * Pow256(5);
    assert Pow256(7) == 256 * Pow256(6);
    assert Pow256(8) == 256 * Pow256(7);
  }

  /** The `n`-byte little-endian encoding of `x` (of `x` modulo 256^n when it is wider). */
  function ToLE(x: nat, n: nat): (r: seq<byte>)
    ensures |r| == n
  {
    if n == 0 then [] else [x % 256] + ToLE(x / 256, n - 1)
  }

  /** The unsigned value of little-endian bytes. */
  function FromLE(s: seq<byte>): (v: nat)
    ensures v < Pow256(|s|)
  {
    if |s| == 0 then 0 else s[0] + 256 * FromLE(s[1..])
  }

  /** Decoding inverts encoding on values that fit the width. */
  lemma {:induction false} FromLEToLE(x: nat, n: nat)
    requires x < Pow256(n)
    ensures FromLE(ToLE(x, n)) == x
  {
    if n > 0 {
      FromLEToLE(x / 256, n - 1);
      assert ToLE(x, n)[1..] == ToLE(x / 256, n - 1);
    }
  }

  /** Encoding inverts decoding: every byte string is the encoding of its value. */
  lemma {:induction false} ToLEFromLE(s: seq<byte>)
    ensures ToLE(FromLE(s), |s|) == s
  {
    if |s| > 0 {
      ToLEFromLE(s[1..]);
      assert (s[0] + 256 * FromLE(s[1..])) / 256 == FromLE(s[1..]);
      assert (s[0] + 256 * FromLE(s[1..])) % 256 == s[0];
    }
  }

  /** Two equal-width encodings are equal exactly when the values agree modulo the width. */
  lemma ToLEInjective(x: nat, y: nat, n: nat)
    requires x < Pow256(n) && y < Pow256(n)
    ensures ToLE(x, n) == ToLE(y, n) <==> x == y
  {
    FromLEToLE(x, n);
    FromLEToLE(y, n);
  }

  /** Two's-complement reading of a 64-bit unsigned value (`readBigInt64LE`, `i64::from_le_bytes`). */
  function ToSigned64(u: nat): (v: i64)
    requires u < TWO_64
  {
    if u < TWO_63 then u else u - TWO_64
  }

  /** The 64-bit pattern of a signed value (`i64::to_le_bytes`). */
  function ToUnsigned64(x: i64): (u: nat)
    ensures u < TWO_64 && ToSigned64(u) == x
  {
    if x < 0 then x + TWO_64 else x
  }

  /** Reading a signed value back from its bit pattern loses nothing. */
  lemma SignedRoundTrip(u: nat)
    requires u < TWO_64
    ensures ToUnsigned64(ToSigned64(u)) == u
  {
  }

  /**
   * `Buffer.readUInt8`/`readUInt16LE`/`readBigUInt64LE` at `offset`: `None`
   * (the `RangeError` the call throws) when the field runs past the end.
   */
  function ReadUIntLE(data: seq<byte>, offset: nat, width: nat): (r: Option<nat>)
    ensures r.Some? <==> offset + width <= |data|
    ensures r.Some? ==> r.value < Pow256(width)
  {
    if offset + width <= |data| then Some(FromLE(data[offset..offset + width])) else None
  }

  /** `Buffer.readBigInt64LE` at `offset`. */
  function ReadInt64LE(data: seq<byte>, offset: nat): (r: Option<i64>)
    ensures r.Some? <==> offset + 8 <= |data|
  {
    Pow256Widths();
    var u :- ReadUIntLE(data, offset, 8);
    Some(ToSigned64(u))
  }

  /** `Uint8Array.subarray(start, end)` for `start <= end`: clipped to the data, never failing. */
  function Subarray(data: seq<byte>, start: nat, end: nat): (r: seq<byte>)
    requires start <= end
    ensures |r| <= end - start
    ensures end <= |data| ==> r == data[start..end]
  {
    if end <= |data| then data[start..end]
    else if start <= |data| then data[start..]
    else []
  }

  /** Adjacent slices glue back into the longer prefix. */
  lemma Glue(s: seq<byte>, i: nat, j: nat)
    requires i <= j <= |s|
    ensures s[..i] + s[i..j] == s[..j]
  {
  }

  /** JavaScript `s.slice(0, n)` for `n >= 0`: the first `n` bytes, or all of them. */
  function Take(s: seq<byte>, n: nat): (r: seq<byte>)
  {
    if |s| <= n then s else s[..n]
  }

  /** What `Uint8Array.set(s.slice(0, n), k)` leaves in `n` zero-filled bytes at `k`. */
  function TakePadded(s: seq<byte>, n: nat): (r: seq<byte>)
  {
    Take(s, n) + Zeros(n - |Take(s, n)|)
  }

  lemma TakePaddedShape(s: seq<byte>, n: nat)
    ensures |TakePadded(s, n)| == n
    ensures |s| >= n ==> TakePadded(s, n) == s[..n]
  {
  }

  /** Bitwise exclusive or, one bit at a time from the low end. */
  function XorNat(a: nat, b: nat): nat
    decreases a + b
  {
    if a == 0 && b == 0 then 0 else (a + b) % 2 + 2 * XorNat(a / 2, b / 2)
  }

  function Pow2(k: nat): (p: nat)
    ensures p > 0
  {
    if k == 0 then 1 else 2 * Pow2(k - 1)
  }

  lemma {:induction false} XorNatBound(a: nat, b: nat, k: nat)
    requires a < Pow2(k) && b < Pow2(k)
    ensures XorNat(a, b) < Pow2(k)
    decreases k
  {
    if !(a == 0 && b == 0) {
      assert k > 0;
      XorNatBound(a / 2, b / 2, k - 1);
    }
  }

  lemma HalveDigit(bit: int, q: int, r: int)
    requires 0 <= bit < 2 && r == bit + 2 * q
    ensures r / 2 == q && r % 2 == bit
  {
  }

  lemma ParityCancels(a: int, m: int, bit: int)
    requires bit == (a + m) % 2
    ensures (bit + m) % 2 == a % 2
  {
  }

  lemma {:induction false} XorNatZero(a: nat)
    ensures XorNat(a, 0) == a
  {
    if a != 0 {
      XorNatZero(a / 2);
    }
  }

  lemma {:induction false} XorNatInvolutive(a: nat, m: nat)
    ensures XorNat(XorNat(a, m), m) == a
    decreases a + m, 1
  {
    if m == 0 {
      XorNatZero(a);
      XorNatZero(XorNat(a, 0));
    } else {
      XorNatInvolutiveStep(a, m);
    }
  }

  lemma {:induction false} XorNatInvolutiveStep(a: nat, m: nat)
    requires m != 0
    ensures XorNat(XorNat(a, m), m) == a
    decreases a + m, 0
  {
    var bit, q := (a + m) % 2, XorNat(a / 2, m / 2);
    var r := XorNat(a, m);
    assert r == bit + 2 * q;
    HalveDigit(bit, q, r);
    ParityCancels(a, m, bit);
    XorNatInvolutive(a / 2, m / 2);
    assert XorNat(q, m / 2) == a / 2;
    assert XorNat(r, m) == (r + m) % 2 + 2 * XorNat(r / 2, m / 2);
    assert XorNat(r, m) == a % 2 + 2 * (a / 2);
  }

  /** Bitwise exclusive or of two bytes (JavaScript `^` on `Uint8Array` elements). */
  function Xor(a: byte, b: byte): byte
  {
    assert Pow2(8) == 256 by {
      assert Pow2(4) == 16;
    }
    XorNatBound(a, b, 8);
    XorNat(a, b)
  }

  lemma XorInvolutive(a: byte, m: byte)
    ensures Xor(Xor(a, m), m) == a
  {
    XorNatInvolutive(a, m);
  }

  function XorBytes(a: seq<byte>, b: seq<byte>): (r: seq<byte>)
    requires |a| == |b|
  {
    seq(|a|, i requires 0 <= i < |a| => Xor(a[i], b[i]))
  }

  /** Masking twice with the same mask gives back the plaintext. */
  lemma XorBytesInvolutive(a: seq<byte>, m: seq<byte>)
    requires |a| == |m|
    ensures XorBytes(XorBytes(a, m), m) == a
  {
    forall i | 0 <= i < |a|
      ensures XorBytes(XorBytes(a, m), m)[i] == a[i]
    {
      XorInvolutive(a[i], m[i]);
    }
  }

  /** `s` with the bytes at `offset .. offset + |src|` replaced by `src`. */
  function Overwrite(s: seq<byte>, offset: nat, src: seq<byte>): (r: seq<byte>)
    requires offset + |src| <= |s|
    ensures |r| == |s|
  {
    s[..offset] + src + s[offset + |src|..]
  }

  lemma ZerosSplit(a: nat, b: nat)
    ensures Zeros(a + b) == Zeros(a) + Zeros(b)
  {
  }

  /** Writing `src` into a zero-filled region of `n >= |src|` bytes leaves `src` followed by zeros there. */
  lemma OverwriteZeros(prefix: seq<byte>, src: seq<byte>, n: nat, suffix: seq<byte>)
    requires |src| <= n
    ensures Overwrite(prefix + Zeros(n) + suffix, |prefix|, src) == prefix + (src + Zeros(n - |src|)) + suffix
  {
    var s := prefix + Zeros(n) + suffix;
    ZerosSplit(|src|, n - |src|);
    assert s[..|prefix|] == prefix;
    assert s[|prefix| + |src|..] == Zeros(n - |src|) + suffix;
  }

  /** Writing `src` at the start of a zero-filled tail of `|src| + rest` bytes. */
  lemma FillZeros(prefix: seq<byte>, src: seq<byte>, rest: nat)
    ensures Overwrite(prefix + Zeros(|src| + rest), |prefix|, src) == prefix + src + Zeros(rest)
  {
    ZerosSplit(|src|, rest);
    assert prefix + Zeros(|src| + rest) == prefix + Zeros(|src|) + Zeros(rest);
    OverwriteZeros(prefix, src, |src|, Zeros(rest));
    assert Zeros(0) == [];
  }

  /** Writing the first `n` bytes of `s` at the start of a zero-filled tail of `n + rest` bytes. */
  lemma FillPadded(prefix: seq<byte>, s: seq<byte>, n: nat, rest: nat)
    ensures Overwrite(prefix + Zeros(n + rest), |prefix|, Take(s, n)) == prefix + TakePadded(s, n) + Zeros(rest)
  {
    ZerosSplit(n, rest);
    assert prefix + Zeros(n + rest) == prefix + Zeros(n) + Zeros(rest);
    OverwriteZeros(prefix, Take(s, n), n, Zeros(rest));
  }

  /**
   * Copies `src` into `buf` at `offset`:`Uint8Array.prototype.set`, and
   * `Buffer.copy` / `Buffer.write*LE` when the bytes fit (they always do at the
   * call sites modelled here).
   */
  method Write(buf: array<byte>, offset: nat, src: seq<byte>)
    requires offset + |src| <= buf.Length
    modifies buf
    ensures buf[..] == Overwrite(old(buf[..]), offset, src)
  {
    ghost var before := buf[..];
    for i := 0 to |src|
      invariant forall j :: 0 <= j < buf.Length ==>
        buf[j] == if offset <= j < offset + i then src[j - offset] else before[j]
    {
      buf[offset + i] := src[i];
    }
    ghost var after := before[..offset] + src + before[offset + |src|..];
    assert |after| == buf.Length;
    forall j | 0 <= j < buf.Length
      ensures buf[..][j] == after[j]
    {
    }
  }
}
