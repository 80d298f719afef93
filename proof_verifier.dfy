/**
 * The on-chain proof checks of programs/shadow-lend/src/lib.rs: the binding
 * hash input built by `compute_proof_binding` and the three
 * `verify_inco_*_proof` byte-slice checks, set against the client's proof
 * generators.
 */
module ProofVerifier {
  import opened Bytes
  import opened Accounts
  import Encryption

  const PROOF_MIN_LENGTH: nat := 64
  const PROOF_HASH_OFFSET: nat := 42
  const PROOF_HASH_LENGTH: nat := 16

  /** The runtime's `hash` (SHA-256): always a 32-byte digest. */
  type Sha256 = seq<byte> -> Bytes32

  /** The 74 bytes hashed by `compute_proof_binding`: collateral, debt, amount, parameter. */
  function BindingInput(encryptedCollateral: Bytes32, encryptedDebt: Bytes32, amount: u64, param: u16): seq<byte>
  {
    encryptedCollateral + encryptedDebt + ToLE(amount, 8) + ToLE(param, 2)
  }

  /** The first 16 bytes of the digest of the binding input. */
  function ProofBinding(encryptedCollateral: Bytes32, encryptedDebt: Bytes32, amount: u64, param: u16, hash: Sha256): (b: seq<byte>)
    ensures |b| == PROOF_HASH_LENGTH
  {
    hash(BindingInput(encryptedCollateral, encryptedDebt, amount, param))[..16]
  }

  /** `compute_proof_binding`: grows the input buffer slice by slice, hashes it and keeps 16 bytes. */
  method ComputeProofBinding(encryptedCollateral: Bytes32, encryptedDebt: Bytes32, amount: u64, param: u16, hash: Sha256)
    returns (result: seq<byte>)
    ensures result == ProofBinding(encryptedCollateral, encryptedDebt, amount, param, hash)
  {
    var data: seq<byte> := [];
    data := data + encryptedCollateral;
    data := data + encryptedDebt;
    data := data + ToLE(amount, 8);
    data := data + ToLE(param, 2);
    assert data == BindingInput(encryptedCollateral, encryptedDebt, amount, param);
    var hashResult := hash(data);
    result := hashResult[..16];
  }

  /** The binding input determines all four values, so the binding hashes exactly those. */
  lemma BindingInputInjective(c1: Bytes32, d1: Bytes32, a1: u64, p1: u16, c2: Bytes32, d2: Bytes32, a2: u64, p2: u16)
    requires BindingInput(c1, d1, a1, p1) == BindingInput(c2, d2, a2, p2)
    ensures c1 == c2 && d1 == d2 && a1 == a2 && p1 == p2
  {
    var b1, b2 := BindingInput(c1, d1, a1, p1), BindingInput(c2, d2, a2, p2);
    assert b1[..32] == c1 && b2[..32] == c2;
    assert b1[32..64] == d1 && b2[32..64] == d2;
    assert b1[64..72] == ToLE(a1, 8) && b2[64..72] == ToLE(a2, 8);
    assert b1[72..] == ToLE(p1, 2) && b2[72..] == ToLE(p2, 2);
    Pow256Widths();
    ToLEInjective(a1, a2, 8);
    ToLEInjective(p1, p2, 2);
  }

  /** Bytes 0..32 of a proof bind it to the position's two ciphertexts. */
  predicate BoundToPosition(proof: seq<byte>, position: Position)
    requires |proof| >= 32
  {
    proof[0..16] == position.encryptedCollateral[0..16] && proof[16..32] == position.encryptedDebt[0..16]
  }

  /** `verify_inco_borrow_proof`. */
  function VerifyBorrowProof(proof: seq<byte>, position: Position, amount: u64, hash: Sha256): (ok: bool)
    ensures ok <==> (
      |proof| >= PROOF_MIN_LENGTH && BoundToPosition(proof, position) && FromLE(proof[32..40]) == amount &&
      (AllZero(proof[42..58]) ||
       proof[42..58] == ProofBinding(position.encryptedCollateral, position.encryptedDebt, amount, FromLE(proof[40..42]), hash)))
  {
    if |proof| < PROOF_MIN_LENGTH then false
    else if proof[0..16] != position.encryptedCollateral[0..16] then false
    else if proof[16..32] != position.encryptedDebt[0..16] then false
    else if FromLE(proof[32..40]) != amount then false
    else
      Pow256Widths();
      var ltvRatio := FromLE(proof[40..42]);
      var expectedHash := ProofBinding(position.encryptedCollateral, position.encryptedDebt, amount, ltvRatio, hash);
      var proofHash := proof[PROOF_HASH_OFFSET..PROOF_HASH_OFFSET + PROOF_HASH_LENGTH];
      if AllZero(proofHash) then true
      else proofHash == expectedHash
  }

  /** `verify_inco_withdrawal_proof`. */
  function VerifyWithdrawalProof(proof: seq<byte>, position: Position, amount: u64): (ok: bool)
    ensures ok <==> |proof| >= PROOF_MIN_LENGTH && BoundToPosition(proof, position) && FromLE(proof[32..40]) == amount
  {
    if |proof| < PROOF_MIN_LENGTH then false
    else if proof[0..16] != position.encryptedCollateral[0..16] then false
    else if proof[16..32] != position.encryptedDebt[0..16] then false
    else FromLE(proof[32..40]) == amount
  }

  /** `verify_inco_liquidation_proof`: the threshold at bytes 32..34 is read and logged, not checked. */
  function VerifyLiquidationProof(proof: seq<byte>, position: Position): (ok: bool)
    ensures ok <==> |proof| >= PROOF_MIN_LENGTH && BoundToPosition(proof, position)
  {
    if |proof| < PROOF_MIN_LENGTH then false
    else if proof[0..16] != position.encryptedCollateral[0..16] then false
    else proof[16..32] == position.encryptedDebt[0..16]
  }

  /**
   * What the three checks have in common, and where they differ: all need 64
   * bytes bound to the position; borrow and withdrawal also need the amount;
   * borrow alone looks at the hash field, which it accepts when all zero or
   * equal to the binding.
   */
  lemma VerifiersCompared(proof: seq<byte>, position: Position, amount: u64, hash: Sha256)
    ensures VerifyLiquidationProof(proof, position) <==>
      |proof| >= PROOF_MIN_LENGTH && BoundToPosition(proof, position)
    ensures VerifyWithdrawalProof(proof, position, amount) <==>
      VerifyLiquidationProof(proof, position) && FromLE(proof[32..40]) == amount
    ensures VerifyBorrowProof(proof, position, amount, hash) ==>
      VerifyWithdrawalProof(proof, position, amount)
    ensures VerifyWithdrawalProof(proof, position, amount) && AllZero(proof[42..58]) ==>
      VerifyBorrowProof(proof, position, amount, hash)
    ensures (VerifyWithdrawalProof(proof, position, amount) &&
      proof[42..58] == ProofBinding(position.encryptedCollateral, position.encryptedDebt, amount, FromLE(proof[40..42]), hash)) ==>
      VerifyBorrowProof(proof, position, amount, hash)
  {
  }

  /** A borrow proof with a non-zero hash field is accepted only if it carries the binding. */
  lemma BorrowHashMustBind(proof: seq<byte>, position: Position, amount: u64, hash: Sha256)
    requires |proof| >= PROOF_MIN_LENGTH && !AllZero(proof[42..58])
    requires VerifyBorrowProof(proof, position, amount, hash)
    ensures proof[42..58] == ProofBinding(position.encryptedCollateral, position.encryptedDebt, amount, FromLE(proof[40..42]), hash)
  {
  }

  /** The amount in a generated proof reads back as the amount modulo 2^64. */
  lemma AmountField(c: seq<byte>, d: seq<byte>, a: int, tail: seq<byte>)
    ensures FromLE((TakePadded(c, 16) + TakePadded(d, 16) + ToLE(a % TWO_64, 8) + tail)[32..40]) == a % TWO_64
  {
    var p := TakePadded(c, 16) + TakePadded(d, 16) + ToLE(a % TWO_64, 8) + tail;
    TakePaddedShape(c, 16);
    TakePaddedShape(d, 16);
    assert p[32..40] == ToLE(a % TWO_64, 8);
    Pow256Widths();
    FromLEToLE(a % TWO_64, 8);
  }

  /** The prefixes a generator copies are the ones the verifiers compare. */
  lemma PrefixFields(position: Position, tail: seq<byte>)
    ensures |TakePadded(position.encryptedCollateral, 16) + TakePadded(position.encryptedDebt, 16) + tail| >= 32
    ensures BoundToPosition(TakePadded(position.encryptedCollateral, 16) + TakePadded(position.encryptedDebt, 16) + tail, position)
  {
    TakePaddedShape(position.encryptedCollateral, 16);
    TakePaddedShape(position.encryptedDebt, 16);
  }

  /**
   * The client's borrow proof for the position's current ciphertexts is
   * accepted for the same amount, whatever the LTV it carries: its hash
   * field is zero, the demo branch of the verifier.
   */
  lemma GeneratedBorrowProofAccepted(position: Position, amount: u64, ltvRatio: int, hash: Sha256)
    ensures VerifyBorrowProof(
      Encryption.BorrowProof(position.encryptedCollateral, position.encryptedDebt, amount, ltvRatio), position, amount, hash)
  {
    var tail := ToLE(ltvRatio % TWO_16, 2) + Zeros(22);
    var proof := Encryption.BorrowProof(position.encryptedCollateral, position.encryptedDebt, amount, ltvRatio);
    assert proof == TakePadded(position.encryptedCollateral, 16) + TakePadded(position.encryptedDebt, 16) + ToLE(amount % TWO_64, 8) + tail;
    PrefixFields(position, ToLE(amount % TWO_64, 8) + tail);
    AmountField(position.encryptedCollateral, position.encryptedDebt, amount, tail);
    assert proof[42..58] == Zeros(22)[..16];
  }

  lemma GeneratedWithdrawalProofAccepted(position: Position, amount: u64)
    ensures VerifyWithdrawalProof(
      Encryption.WithdrawalProof(position.encryptedCollateral, position.encryptedDebt, amount), position, amount)
  {
    var proof := Encryption.WithdrawalProof(position.encryptedCollateral, position.encryptedDebt, amount);
    assert proof == TakePadded(position.encryptedCollateral, 16) + TakePadded(position.encryptedDebt, 16) + ToLE(amount % TWO_64, 8) + Zeros(24);
    PrefixFields(position, ToLE(amount % TWO_64, 8) + Zeros(24));
    AmountField(position.encryptedCollateral, position.encryptedDebt, amount, Zeros(24));
  }

  /** The liquidation proof carries the threshold at bytes 32..34, where the verifier reads it. */
  lemma GeneratedLiquidationProofAccepted(position: Position, liquidationThreshold: u16)
    ensures |Encryption.LiquidationProof(position.encryptedCollateral, position.encryptedDebt, liquidationThreshold)| == PROOF_MIN_LENGTH
    ensures FromLE(Encryption.LiquidationProof(position.encryptedCollateral, position.encryptedDebt, liquidationThreshold)[32..34]) == liquidationThreshold
    ensures VerifyLiquidationProof(
      Encryption.LiquidationProof(position.encryptedCollateral, position.encryptedDebt, liquidationThreshold), position)
  {
    var proof := Encryption.LiquidationProof(position.encryptedCollateral, position.encryptedDebt, liquidationThreshold);
    PrefixFields(position, ToLE(liquidationThreshold % TWO_16, 2) + Zeros(30));
    ThresholdField(position.encryptedCollateral, position.encryptedDebt, liquidationThreshold);
  }

  lemma ThresholdField(c: seq<byte>, d: seq<byte>, t: u16)
    ensures FromLE((TakePadded(c, 16) + TakePadded(d, 16) + ToLE(t % TWO_16, 2) + Zeros(30))[32..34]) == t
  {
    var p := TakePadded(c, 16) + TakePadded(d, 16) + ToLE(t % TWO_16, 2) + Zeros(30);
    TakePaddedShape(c, 16);
    TakePaddedShape(d, 16);
    assert t % TWO_16 == t;
    assert p[32..34] == ToLE(t, 2);
    Pow256Widths();
    FromLEToLE(t, 2);
  }

  /** A proof generated for one amount is rejected for any other amount. */
  lemma GeneratedProofRejectsOtherAmount(position: Position, amount: u64, other: u64, ltvRatio: int, hash: Sha256)
    requires other != amount
    ensures !VerifyBorrowProof(
      Encryption.BorrowProof(position.encryptedCollateral, position.encryptedDebt, amount, ltvRatio), position, other, hash)
    ensures !VerifyWithdrawalProof(
      Encryption.WithdrawalProof(position.encryptedCollateral, position.encryptedDebt, amount), position, other)
  {
    AmountField(position.encryptedCollateral, position.encryptedDebt, amount, ToLE(ltvRatio % TWO_16, 2) + Zeros(22));
    AmountField(position.encryptedCollateral, position.encryptedDebt, amount, Zeros(24));
    assert Encryption.BorrowProof(position.encryptedCollateral, position.encryptedDebt, amount, ltvRatio)
      == TakePadded(position.encryptedCollateral, 16) + TakePadded(position.encryptedDebt, 16) + ToLE(amount % TWO_64, 8) + (ToLE(ltvRatio % TWO_16, 2) + Zeros(22));
    assert Encryption.WithdrawalProof(position.encryptedCollateral, position.encryptedDebt, amount)
      == TakePadded(position.encryptedCollateral, 16) + TakePadded(position.encryptedDebt, 16) + ToLE(amount % TWO_64, 8) + Zeros(24);
  }

  /**
   * A proof generated from stale ciphertexts, whose collateral prefix differs
   * from the stored one, is rejected by every verifier.
   */
  lemma StaleProofRejected(position: Position, staleCollateral: Bytes32, amount: u64, ltvRatio: int, hash: Sha256)
    requires staleCollateral[..16] != position.encryptedCollateral[..16]
    ensures !VerifyBorrowProof(Encryption.BorrowProof(staleCollateral, position.encryptedDebt, amount, ltvRatio), position, amount, hash)
    ensures !VerifyWithdrawalProof(Encryption.WithdrawalProof(staleCollateral, position.encryptedDebt, amount), position, amount)
    ensures !VerifyLiquidationProof(Encryption.LiquidationProof(staleCollateral, position.encryptedDebt, ltvRatio), position)
  {
    TakePaddedShape(staleCollateral, 16);
    assert Encryption.BorrowProof(staleCollateral, position.encryptedDebt, amount, ltvRatio)[..16] == staleCollateral[..16];
    assert Encryption.WithdrawalProof(staleCollateral, position.encryptedDebt, amount)[..16] == staleCollateral[..16];
    assert Encryption.LiquidationProof(staleCollateral, position.encryptedDebt, ltvRatio)[..16] == staleCollateral[..16];
  }

  /**
   * The liquidation check reads nothing past byte 32: any two proofs of the
   * same length that share their first 32 bytes get the same verdict, so the
   * claimed health never matters.
   */
  lemma LiquidationIgnoresTail(p: seq<byte>, q: seq<byte>, position: Position)
    requires |p| == |q| >= 32 && p[..32] == q[..32]
    ensures VerifyLiquidationProof(p, position) == VerifyLiquidationProof(q, position)
  {
    assert p[0..16] == p[..32][0..16] && q[0..16] == q[..32][0..16];
    assert p[16..32] == p[..32][16..32] && q[16..32] == q[..32][16..32];
  }

  /** The withdrawal check reads nothing past byte 40. */
  lemma WithdrawalIgnoresTail(p: seq<byte>, q: seq<byte>, position: Position, amount: u64)
    requires |p| == |q| >= 40 && p[..40] == q[..40]
    ensures VerifyWithdrawalProof(p, position, amount) == VerifyWithdrawalProof(q, position, amount)
  {
    assert p[0..16] == p[..40][0..16] && q[0..16] == q[..40][0..16];
    assert p[16..32] == p[..40][16..32] && q[16..32] == q[..40][16..32];
    assert p[32..40] == p[..40][32..40] && q[32..40] == q[..40][32..40];
  }
}
