/**
 * The client's placeholder confidentiality layer (app/src/lib/encryption.ts):
 * a 64-bit amount masked into a 32-byte ciphertext, the 64-byte proof blobs
 * the on-chain verifiers parse, and the health factor over decrypted values.
 *
 * The two foreign primitives are parameters: `nacl.hash` (SHA-512) is any
 * function with 64-byte output, and `nacl.randomBytes(24)` is the `nonce`
 * argument.
 */
module Encryption {
  import opened Bytes
  import opened Wrappers

  type Digest64 = s: seq<byte> | |s| == 64 witness Zeros(64)

  /** `nacl.hash`: SHA-512, whose digest is always 64 bytes. */
  type Sha512 = seq<byte> -> Digest64

  datatype EncryptionKeyPair = EncryptionKeyPair(publicKey: seq<byte>, secretKey: seq<byte>)

  const NONCE_LENGTH: nat := 24
  const CIPHERTEXT_LENGTH: nat := 32
  const PROOF_LENGTH: nat := 64

  /** The 56 hashed bytes: the nonce, then `secretKey.slice(0, 32)` in a zero-filled tail. */
  function MaskInput(nonce: seq<byte>, keyPair: EncryptionKeyPair): seq<byte>
  {
    nonce + TakePadded(keyPair.secretKey, 32)
  }

  /** The first 8 digest bytes, XORed onto the little-endian amount. */
  function Mask(hash: Sha512, nonce: seq<byte>, keyPair: EncryptionKeyPair): (m: seq<byte>)
    ensures |m| == 8
  {
    hash(MaskInput(nonce, keyPair))[..8]
  }

  /**
   * What `encryptAmount` returns when the random source yields `nonce`.
   * `DataView.setBigUint64` stores the amount modulo 2^64.
   */
  function Ciphertext(amount: int, keyPair: EncryptionKeyPair, nonce: seq<byte>, hash: Sha512): seq<byte>
  {
    XorBytes(ToLE(amount % TWO_64, 8), Mask(hash, nonce, keyPair)) + nonce
  }

  /** What `decryptAmount` returns: null for a wrong length, 0 for the all-zero sentinel. */
  function Plaintext(encrypted: seq<byte>, keyPair: EncryptionKeyPair, hash: Sha512): Option<u64>
  {
    if |encrypted| != CIPHERTEXT_LENGTH then None
    else if AllZero(encrypted) then Some(0)
    else
      Pow256Widths();
      Some(FromLE(XorBytes(encrypted[..8], Mask(hash, encrypted[8..], keyPair))))
  }

  /** Assembles the 56-byte hash input in a zero-filled buffer, as both directions do. */
  method BuildMask(nonce: seq<byte>, keyPair: EncryptionKeyPair, hash: Sha512) returns (mask: seq<byte>)
    requires |nonce| == NONCE_LENGTH
    ensures mask == Mask(hash, nonce, keyPair)
  {
    var maskInput := new byte[24 + 32](_ => 0);
    assert maskInput[..] == [] + Zeros(24) + Zeros(32);
    Write(maskInput, 0, nonce);
    OverwriteZeros([], nonce, 24, Zeros(32));
    assert maskInput[..] == nonce + Zeros(32) + [];
    Write(maskInput, 24, Take(keyPair.secretKey, 32));
    OverwriteZeros(nonce, Take(keyPair.secretKey, 32), 32, []);
    var input := maskInput[..];
    assert input == MaskInput(nonce, keyPair);
    mask := hash(input)[..8];
  }

  /** The byte-wise XOR loop over the first eight bytes. */
  method XorLoop(data: seq<byte>, mask: seq<byte>) returns (r: seq<byte>)
    requires |data| == 8 && |mask| == 8
    ensures r == XorBytes(data, mask)
  {
    var out := new byte[8](_ => 0);
    for i := 0 to 8
      invariant forall j :: 0 <= j < i ==> out[j] == Xor(data[j], mask[j])
    {
      out[i] := Xor(data[i], mask[i]);
    }
    r := out[..];
  }

  method EncryptAmount(amount: int, keyPair: EncryptionKeyPair, nonce: seq<byte>, hash: Sha512)
    returns (result: seq<byte>)
    requires |nonce| == NONCE_LENGTH
    ensures result == Ciphertext(amount, keyPair, nonce, hash)
  {
    var plaintext := ToLE(amount % TWO_64, 8);
    var mask := BuildMask(nonce, keyPair, hash);
    var encrypted := XorLoop(plaintext, mask);

    var packed := new byte[32](_ => 0);
    assert packed[..] == [] + Zeros(8) + Zeros(24);
    Write(packed, 0, encrypted);
    OverwriteZeros([], encrypted, 8, Zeros(24));
    assert packed[..] == encrypted + Zeros(24) + [];
    Write(packed, 8, nonce);
    OverwriteZeros(encrypted, nonce, 24, []);
    result := packed[..];
  }

  method DecryptAmount(encrypted: seq<byte>, keyPair: EncryptionKeyPair, hash: Sha512)
    returns (r: Option<u64>)
    ensures r == Plaintext(encrypted, keyPair, hash)
  {
    if |encrypted| != CIPHERTEXT_LENGTH {
      return None;
    }
    if AllZero(encrypted) {
      return Some(0);
    }
    var mask := BuildMask(encrypted[8..32], keyPair, hash);
    assert encrypted[8..32] == encrypted[8..];
    var decrypted := XorLoop(encrypted[..8], mask);
    Pow256Widths();
    r := Some(FromLE(decrypted));
  }

  /** The ciphertext layout: masked little-endian amount in bytes 0..8, the nonce in 8..32. */
  lemma CiphertextLayout(amount: int, keyPair: EncryptionKeyPair, nonce: seq<byte>, hash: Sha512)
    requires |nonce| == NONCE_LENGTH
    ensures |Ciphertext(amount, keyPair, nonce, hash)| == CIPHERTEXT_LENGTH
    ensures Ciphertext(amount, keyPair, nonce, hash)[8..] == nonce
    ensures forall i :: 0 <= i < 8 ==>
      Ciphertext(amount, keyPair, nonce, hash)[i] == Xor(ToLE(amount % TWO_64, 8)[i], Mask(hash, nonce, keyPair)[i])
  {
  }

  /** A ciphertext is the all-zero sentinel exactly when the nonce is zero and the amount equals the mask. */
  lemma CiphertextAllZeroIff(amount: int, keyPair: EncryptionKeyPair, nonce: seq<byte>, hash: Sha512)
    requires |nonce| == NONCE_LENGTH
    ensures AllZero(Ciphertext(amount, keyPair, nonce, hash)) <==>
      AllZero(nonce) && ToLE(amount % TWO_64, 8) == Mask(hash, nonce, keyPair)
  {
    var p, m := ToLE(amount % TWO_64, 8), Mask(hash, nonce, keyPair);
    var c := Ciphertext(amount, keyPair, nonce, hash);
    assert c[..8] == XorBytes(p, m) && c[8..] == nonce;
    XorBytesZeroIff(p, m);
    assert AllZero(c) <==> AllZero(c[..8]) && AllZero(c[8..]);
  }

  /** A masked block is all zero exactly when the block equals the mask. */
  lemma XorBytesZeroIff(a: seq<byte>, m: seq<byte>)
    requires |a| == |m|
    ensures AllZero(XorBytes(a, m)) <==> a == m
  {
    if AllZero(XorBytes(a, m)) {
      forall i | 0 <= i < |a|
        ensures a[i] == m[i]
      {
        assert XorBytes(a, m)[i] == Xor(a[i], m[i]) == 0;
        XorZeroIff(a[i], m[i]);
      }
    }
    if a == m {
      forall i | 0 <= i < |a|
        ensures XorBytes(a, m)[i] == 0
      {
        XorZeroIff(a[i], m[i]);
      }
    }
  }

  lemma XorZeroIff(a: byte, b: byte)
    ensures Xor(a, b) == 0 <==> a == b
  {
    XorNatZeroIff(a, b);
  }

  lemma {:induction false} XorNatZeroIff(a: nat, b: nat)
    ensures XorNat(a, b) == 0 <==> a == b
    decreases a + b
  {
    if !(a == 0 && b == 0) {
      XorNatZeroIff(a / 2, b / 2);
      assert a == 2 * (a / 2) + a % 2 && b == 2 * (b / 2) + b % 2;
    }
  }

  /**
   * Round trip: decrypting with the same key recovers the amount (modulo
   * 2^64), unless the ciphertext happens to be the all-zero sentinel.
   */
  lemma RoundTrip(amount: int, keyPair: EncryptionKeyPair, nonce: seq<byte>, hash: Sha512)
    requires |nonce| == NONCE_LENGTH
    requires !AllZero(Ciphertext(amount, keyPair, nonce, hash))
    ensures Plaintext(Ciphertext(amount, keyPair, nonce, hash), keyPair, hash) == Some(amount % TWO_64)
  {
    var p, m := ToLE(amount % TWO_64, 8), Mask(hash, nonce, keyPair);
    var c := Ciphertext(amount, keyPair, nonce, hash);
    assert c[..8] == XorBytes(p, m) && c[8..] == nonce;
    XorBytesInvolutive(p, m);
    Pow256Widths();
    FromLEToLE(amount % TWO_64, 8);
  }

  /** With a nonce that is not all zero the round trip always holds. */
  lemma RoundTripFreshNonce(amount: int, keyPair: EncryptionKeyPair, nonce: seq<byte>, hash: Sha512)
    requires |nonce| == NONCE_LENGTH && !AllZero(nonce)
    ensures !AllZero(Ciphertext(amount, keyPair, nonce, hash))
    ensures Plaintext(Ciphertext(amount, keyPair, nonce, hash), keyPair, hash) == Some(amount % TWO_64)
  {
    CiphertextAllZeroIff(amount, keyPair, nonce, hash);
    RoundTrip(amount, keyPair, nonce, hash);
  }

  /** A 64-bit amount encrypted with a fresh nonce gives a 32-byte ciphertext, not the sentinel, that decrypts to it. */
  lemma RoundTripU64(amount: u64, keyPair: EncryptionKeyPair, nonce: seq<byte>, hash: Sha512)
    requires |nonce| == NONCE_LENGTH && !AllZero(nonce)
    ensures |Ciphertext(amount, keyPair, nonce, hash)| == CIPHERTEXT_LENGTH
    ensures !AllZero(Ciphertext(amount, keyPair, nonce, hash))
    ensures Plaintext(Ciphertext(amount, keyPair, nonce, hash), keyPair, hash) == Some(amount)
  {
    assert amount % TWO_64 == amount;
    CiphertextLayout(amount, keyPair, nonce, hash);
    RoundTripFreshNonce(amount, keyPair, nonce, hash);
  }

  /**
   * The side condition is needed: an all-zero nonce together with an amount
   * equal to the mask yields the sentinel, which decrypts to 0.
   */
  lemma SentinelCollision(amount: int, keyPair: EncryptionKeyPair, nonce: seq<byte>, hash: Sha512)
    requires |nonce| == NONCE_LENGTH && AllZero(nonce)
    requires ToLE(amount % TWO_64, 8) == Mask(hash, nonce, keyPair)
    ensures Plaintext(Ciphertext(amount, keyPair, nonce, hash), keyPair, hash) == Some(0)
  {
    CiphertextAllZeroIff(amount, keyPair, nonce, hash);
  }

  /** Any input that is not exactly 32 bytes decrypts to null. */
  lemma WrongLengthIsNull(encrypted: seq<byte>, keyPair: EncryptionKeyPair, hash: Sha512)
    requires |encrypted| != CIPHERTEXT_LENGTH
    ensures Plaintext(encrypted, keyPair, hash) == None
  {
  }

  /** The all-zero sentinel decrypts to 0 under every key. */
  lemma ZeroSentinel(keyPair: EncryptionKeyPair, hash: Sha512)
    ensures Plaintext(Zeros(CIPHERTEXT_LENGTH), keyPair, hash) == Some(0)
  {
  }

  /** Decryption reads only the ciphertext and the first 32 secret-key bytes. */
  lemma DecryptionDependsOnKeyPrefix(encrypted: seq<byte>, k1: EncryptionKeyPair, k2: EncryptionKeyPair, hash: Sha512)
    requires TakePadded(k1.secretKey, 32) == TakePadded(k2.secretKey, 32)
    ensures Plaintext(encrypted, k1, hash) == Plaintext(encrypted, k2, hash)
  {
    if |encrypted| == CIPHERTEXT_LENGTH && !AllZero(encrypted) {
      assert MaskInput(encrypted[8..], k1) == MaskInput(encrypted[8..], k2);
    }
  }

  // ---------------------------------------------------------------------
  // Proof blobs (the placeholder for the confidential-compute proof oracle)
  // ---------------------------------------------------------------------

  /** Bytes 0..16: collateral prefix; 16..32: debt prefix; 32..40: amount; 40..42: LTV; 42..64: zero. */
  function BorrowProof(encryptedCollateral: seq<byte>, encryptedDebt: seq<byte>, amount: int, ltvRatio: int): seq<byte>
  {
    TakePadded(encryptedCollateral, 16) + TakePadded(encryptedDebt, 16)
      + ToLE(amount % TWO_64, 8) + ToLE(ltvRatio % TWO_16, 2) + Zeros(22)
  }

  /** The borrow layout without the LTV: bytes 40..64 stay zero. */
  function WithdrawalProof(encryptedCollateral: seq<byte>, encryptedDebt: seq<byte>, amount: int): seq<byte>
  {
    TakePadded(encryptedCollateral, 16) + TakePadded(encryptedDebt, 16)
      + ToLE(amount % TWO_64, 8) + Zeros(24)
  }

  /** The two prefixes, then the threshold at bytes 32..34, then zeros. */
  function LiquidationProof(encryptedCollateral: seq<byte>, encryptedDebt: seq<byte>, liquidationThreshold: int): seq<byte>
  {
    TakePadded(encryptedCollateral, 16) + TakePadded(encryptedDebt, 16)
      + ToLE(liquidationThreshold % TWO_16, 2) + Zeros(30)
  }

  /** The step the three generators share: both 16-byte prefixes into a zeroed 64-byte buffer. */
  method WritePrefixes(buf: array<byte>, encryptedCollateral: seq<byte>, encryptedDebt: seq<byte>)
    requires buf.Length == PROOF_LENGTH && buf[..] == Zeros(PROOF_LENGTH)
    modifies buf
    ensures buf[..] == TakePadded(encryptedCollateral, 16) + TakePadded(encryptedDebt, 16) + Zeros(32)
  {
    assert buf[..] == [] + Zeros(16 + 48);
    Write(buf, 0, Take(encryptedCollateral, 16));
    FillPadded([], encryptedCollateral, 16, 48);
    assert buf[..] == TakePadded(encryptedCollateral, 16) + Zeros(16 + 32);
    Write(buf, 16, Take(encryptedDebt, 16));
    FillPadded(TakePadded(encryptedCollateral, 16), encryptedDebt, 16, 32);
  }

  method GenerateBorrowProof(encryptedCollateral: seq<byte>, encryptedDebt: seq<byte>, borrowAmount: int, ltvRatio: int)
    returns (proof: seq<byte>)
    ensures proof == BorrowProof(encryptedCollateral, encryptedDebt, borrowAmount, ltvRatio)
  {
    var prefixes := TakePadded(encryptedCollateral, 16) + TakePadded(encryptedDebt, 16);
    var amount := ToLE(borrowAmount % TWO_64, 8);
    var ltv := ToLE(ltvRatio % TWO_16, 2);
    var buf := new byte[PROOF_LENGTH](_ => 0);
    WritePrefixes(buf, encryptedCollateral, encryptedDebt);
    assert buf[..] == prefixes + Zeros(|amount| + 24);
    Write(buf, 32, amount);
    FillZeros(prefixes, amount, 24);
    assert buf[..] == prefixes + amount + Zeros(|ltv| + 22);
    Write(buf, 40, ltv);
    FillZeros(prefixes + amount, ltv, 22);
    proof := buf[..];
  }

  method GenerateWithdrawalProof(encryptedCollateral: seq<byte>, encryptedDebt: seq<byte>, withdrawAmount: int, ltvRatio: int)
    returns (proof: seq<byte>)
    ensures proof == WithdrawalProof(encryptedCollateral, encryptedDebt, withdrawAmount)
  {
    var prefixes := TakePadded(encryptedCollateral, 16) + TakePadded(encryptedDebt, 16);
    var amount := ToLE(withdrawAmount % TWO_64, 8);
    var buf := new byte[PROOF_LENGTH](_ => 0);
    WritePrefixes(buf, encryptedCollateral, encryptedDebt);
    assert buf[..] == prefixes + Zeros(|amount| + 24);
    Write(buf, 32, amount);
    FillZeros(prefixes, amount, 24);
    proof := buf[..];
  }

  method GenerateLiquidationProof(encryptedCollateral: seq<byte>, encryptedDebt: seq<byte>, liquidationThreshold: int)
    returns (proof: seq<byte>)
    ensures proof == LiquidationProof(encryptedCollateral, encryptedDebt, liquidationThreshold)
  {
    var prefixes := TakePadded(encryptedCollateral, 16) + TakePadded(encryptedDebt, 16);
    var threshold := ToLE(liquidationThreshold % TWO_16, 2);
    var buf := new byte[PROOF_LENGTH](_ => 0);
    WritePrefixes(buf, encryptedCollateral, encryptedDebt);
    assert buf[..] == prefixes + Zeros(|threshold| + 30);
    Write(buf, 32, threshold);
    FillZeros(prefixes, threshold, 30);
    proof := buf[..];
  }

  // ---------------------------------------------------------------------
  // Health factor
  // ---------------------------------------------------------------------

  /** A JavaScript number as the health code uses it: `Infinity` or a finite value. */
  datatype HealthFactor = Infinity | Finite(value: real)

  /** BigInt `/`: the quotient truncated toward zero. */
  function BigIntDiv(a: int, b: int): int
    requires b != 0
  {
    var q := (if a < 0 then -a else a) / (if b < 0 then -b else b);
    if (a < 0) != (b < 0) then -q else q
  }

  /** `computeHealthFactor`: a percentage where 100 is the liquidation boundary. */
  function ComputeHealthFactor(collateral: int, debt: int, liquidationThreshold: int): (h: HealthFactor)
    ensures h.Infinity? <==> debt == 0
    ensures h.Finite? ==> h.value == h.value.Floor as real
  {
    if debt == 0 then Infinity
    else Finite(BigIntDiv(collateral * liquidationThreshold * 100, debt * 10000) as real)
  }

  /**
   * On the client's non-negative amounts the finite factor is the floor of
   * `collateral * threshold * 100 / (debt * 10000)`, with no rounding before
   * that one division.
   */
  lemma HealthFactorIsFloor(collateral: nat, debt: nat, liquidationThreshold: nat)
    requires debt > 0
    ensures var h := ComputeHealthFactor(collateral, debt, liquidationThreshold);
      h.Finite? && 0 <= h.value.Floor &&
      h.value.Floor * (debt * 10000) <= collateral * liquidationThreshold * 100 < (h.value.Floor + 1) * (debt * 10000)
  {
    DivIsFloor(collateral * liquidationThreshold * 100, debt * 10000);
  }

  /** Truncating division of non-negative operands is floor division. */
  lemma DivIsFloor(n: nat, d: nat)
    requires d > 0
    ensures 0 <= BigIntDiv(n, d) && BigIntDiv(n, d) * d <= n < (BigIntDiv(n, d) + 1) * d
  {
    var q := n / d;
    assert n == q * d + n % d;
    assert (q + 1) * d == q * d + d;
  }

  lemma HealthFactorExamples()
    ensures ComputeHealthFactor(100, 0, 8000) == Infinity
    ensures ComputeHealthFactor(100, 80, 8000) == Finite(100.0)
    ensures ComputeHealthFactor(100, 160, 8000) == Finite(50.0)
    ensures ComputeHealthFactor(10, 5, 8000) == Finite(160.0)
  {
  }

  lemma DivAtLeast(n: nat, d: nat, k: nat)
    requires d > 0
    ensures n / d >= k <==> n >= k * d
  {
    var q, r := n / d, n % d;
    assert n == q * d + r && 0 <= r < d;
    if q >= k {
      assert q * d >= k * d by {
        assert (q - k) * d >= 0;
      }
    } else {
      assert (k - q) * d >= d by {
        assert k - q >= 1;
      }
    }
  }

  /**
   * On non-negative balances the health factor is at least 100 exactly when
   * collateral times the threshold covers the debt in basis points.
   */
  lemma HealthAtLeast100Iff(collateral: nat, debt: nat, liquidationThreshold: nat)
    requires debt > 0
    ensures ComputeHealthFactor(collateral, debt, liquidationThreshold).Finite?
    ensures ComputeHealthFactor(collateral, debt, liquidationThreshold).value >= 100.0 <==>
      collateral * liquidationThreshold >= debt * 10000
  {
    var x := collateral * liquidationThreshold;
    assert x * 100 >= 0 && debt * 10000 > 0;
    DivAtLeast(x * 100, debt * 10000, 100);
    assert 100 * (debt * 10000) == (debt * 10000) * 100;
  }

  lemma DivMonotone(a: nat, b: nat, d: nat)
    requires d > 0 && a <= b
    ensures a / d <= b / d
  {
    if a / d > b / d {
      DivAtLeast(a, d, b / d + 1);
      DivAtLeast(b, d, b / d + 1);
    }
  }

  /** More collateral never lowers the health factor of a position with debt. */
  lemma HealthMonotoneInCollateral(c1: nat, c2: nat, debt: nat, liquidationThreshold: nat)
    requires debt > 0 && c1 <= c2
    ensures ComputeHealthFactor(c1, debt, liquidationThreshold).value <= ComputeHealthFactor(c2, debt, liquidationThreshold).value
  {
    assert c1 * liquidationThreshold <= c2 * liquidationThreshold by {
      assert (c2 - c1) * liquidationThreshold >= 0;
    }
    DivMonotone(c1 * liquidationThreshold * 100, c2 * liquidationThreshold * 100, debt * 10000);
  }
}
