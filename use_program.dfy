/**
 * The second set of account decoders in app/src/hooks/useProgram.ts (inlined
 * in its `usePool` and `usePosition`) and `decryptPosition`, which turns a
 * position into SOL amounts, a health ratio and a borrowing limit.
 */
module UseProgram {
  import opened Bytes
  import opened Wrappers
  import opened Accounts
  import opened Encryption
  import UsePool
  import UsePosition

  // ---------------------------------------------------------------------
  // Pool
  // ---------------------------------------------------------------------

  /** `PoolState`: the pool fields without the bump. */
  datatype PoolState = PoolState(
    authority: Pubkey,
    collateralMint: Pubkey,
    borrowMint: Pubkey,
    ltvRatio: u16,
    interestRate: u16,
    liquidationThreshold: u16,
    totalDeposits: u64,
    totalBorrows: u64,
    activePositions: u64,
    isActive: bool)

  /** The last field read ends at byte 134. */
  const POOL_STATE_MIN: nat := 134

  /**
   * The fields at their offsets. `isActive` is `data[135] === 1`; past the
   * end the index is `undefined`, which is not 1.
   */
  function PoolStateAt(data: seq<byte>): PoolState
    requires |data| >= POOL_STATE_MIN
  {
    Pow256Widths();
    PoolState(data[8..40], data[40..72], data[72..104],
              FromLE(data[104..106]), FromLE(data[106..108]), FromLE(data[108..110]),
              FromLE(data[110..118]), FromLE(data[118..126]), FromLE(data[126..134]),
              |data| > 135 && data[135] == 1)
  }

  /** The inline pool decoder: a running offset; the reads throw below 134 bytes. */
  method DecodePoolState(data: seq<byte>) returns (r: Option<PoolState>)
    ensures r == if |data| < POOL_STATE_MIN then None else Some(PoolStateAt(data))
  {
    Pow256Widths();
    var offset := 8;
    var authority := PublicKeyFrom(Subarray(data, offset, offset + 32));
    offset := offset + 32;
    var collateralMint := PublicKeyFrom(Subarray(data, offset, offset + 32));
    offset := offset + 32;
    var borrowMint := PublicKeyFrom(Subarray(data, offset, offset + 32));
    offset := offset + 32;
    var ltvRatio :- ReadUIntLE(data, offset, 2);
    offset := offset + 2;
    var interestRate :- ReadUIntLE(data, offset, 2);
    offset := offset + 2;
    var liquidationThreshold :- ReadUIntLE(data, offset, 2);
    offset := offset + 2;
    var totalDeposits :- ReadUIntLE(data, offset, 8);
    offset := offset + 8;
    var totalBorrows :- ReadUIntLE(data, offset, 8);
    offset := offset + 8;
    var activePositions :- ReadUIntLE(data, offset, 8);
    offset := offset + 8;
    var isActive := offset + 1 < |data| && data[offset + 1] == 1;
    r := Some(PoolState(authority, collateralMint, borrowMint, ltvRatio, interestRate, liquidationThreshold,
                        totalDeposits, totalBorrows, activePositions, isActive));
  }

  function PoolView(p: Pool): PoolState
  {
    PoolState(p.authority, p.collateralMint, p.borrowMint, p.ltvRatio, p.interestRate,
              p.liquidationThreshold, p.totalDeposits, p.totalBorrows, p.activePositions, p.isActive)
  }

  /** On every full pool account the two pool decoders agree field for field. */
  lemma PoolDecodersAgree(data: seq<byte>)
    requires |data| >= UsePool.POOL_SIZE
    ensures PoolStateAt(data) == PoolView(UsePool.PoolAt(data))
  {
  }

  /** Decoding the Anchor encoding of a pool gives back every field but the bump. */
  lemma PoolStateRoundTrip(p: Pool, discriminator: Discriminator)
    ensures PoolStateAt(EncodePool(p, discriminator)) == PoolView(p)
  {
    UsePool.PoolRoundTrip(p, discriminator, []);
    assert EncodePool(p, discriminator) + [] == EncodePool(p, discriminator);
  }

  /**
   * This decoder is laxer than `deserializePool`: 134 or 135 bytes decode
   * (as an inactive pool) where the other rejects them.
   */
  lemma PoolStateAcceptsShortAccounts(data: seq<byte>)
    requires POOL_STATE_MIN <= |data| < UsePool.POOL_SIZE
    ensures !PoolStateAt(data).isActive
  {
  }

  // ---------------------------------------------------------------------
  // Position
  // ---------------------------------------------------------------------

  /** `PositionState`: the position fields without the bump. */
  datatype PositionState = PositionState(
    owner: Pubkey,
    pool: Pubkey,
    encryptedCollateral: seq<byte>,
    encryptedDebt: seq<byte>,
    lastUpdate: i64,
    isActive: bool)

  /**
   * The inline position decoder as written: it skips 4 bytes before each
   * ciphertext, so the ciphertexts come from 76..108 and 112..144 and the
   * timestamp read at 144 needs 152 bytes.
   */
  function PositionStateAsWritten(data: seq<byte>): Option<PositionState>
  {
    if |data| < 152 then None
    else
      Pow256Widths();
      Some(PositionState(data[8..40], data[40..72], data[76..108], data[112..144],
                         ToSigned64(FromLE(data[144..152])), |data| > 152 && data[152] == 1))
  }

  method DecodePositionStateAsWritten(data: seq<byte>) returns (r: Option<PositionState>)
    ensures r == PositionStateAsWritten(data)
  {
    var offset := 8;
    var owner := PublicKeyFrom(Subarray(data, offset, offset + 32));
    offset := offset + 32;
    var pool := PublicKeyFrom(Subarray(data, offset, offset + 32));
    offset := offset + 32;
    offset := offset + 4;
    var encryptedCollateral := Subarray(data, offset, offset + 32);
    offset := offset + 32;
    offset := offset + 4;
    var encryptedDebt := Subarray(data, offset, offset + 32);
    offset := offset + 32;
    var lastUpdate :- ReadInt64LE(data, offset);
    offset := offset + 8;
    var isActive := offset < |data| && data[offset] == 1;
    r := Some(PositionState(owner, pool, encryptedCollateral, encryptedDebt, lastUpdate, isActive));
  }

  /**
   * A position account is 146 bytes, so the decoder as written throws on
   * every one the program creates.
   */
  lemma AsWrittenRejectsEveryPositionAccount(p: Position, discriminator: Discriminator)
    ensures PositionStateAsWritten(EncodePosition(p, discriminator)) == None
  {
  }

  /** Without the skips the last read ends at byte 144. */
  const POSITION_STATE_MIN: nat := 144

  /** The decoder with the skips removed reads the offsets of the `Position` layout. */
  function PositionStateAt(data: seq<byte>): PositionState
    requires |data| >= POSITION_STATE_MIN
  {
    Pow256Widths();
    PositionState(data[8..40], data[40..72], data[72..104], data[104..136],
                  ToSigned64(FromLE(data[136..144])), |data| > 144 && data[144] == 1)
  }

  method DecodePositionState(data: seq<byte>) returns (r: Option<PositionState>)
    ensures r == if |data| < POSITION_STATE_MIN then None else Some(PositionStateAt(data))
  {
    var offset := 8;
    var owner := PublicKeyFrom(Subarray(data, offset, offset + 32));
    offset := offset + 32;
    var pool := PublicKeyFrom(Subarray(data, offset, offset + 32));
    offset := offset + 32;
    var encryptedCollateral := Subarray(data, offset, offset + 32);
    offset := offset + 32;
    var encryptedDebt := Subarray(data, offset, offset + 32);
    offset := offset + 32;
    var lastUpdate :- ReadInt64LE(data, offset);
    offset := offset + 8;
    var isActive := offset < |data| && data[offset] == 1;
    r := Some(PositionState(owner, pool, encryptedCollateral, encryptedDebt, lastUpdate, isActive));
  }

  function PositionView(p: Position): PositionState
  {
    PositionState(p.owner, p.pool, p.encryptedCollateral, p.encryptedDebt, p.lastUpdate, p.isActive)
  }

  /** The corrected decoder agrees with `deserializePosition` on every full account. */
  lemma PositionDecodersAgree(data: seq<byte>)
    requires |data| >= POSITION_SPACE
    ensures PositionStateAt(data) == PositionView(UsePosition.PositionAt(data))
  {
  }

  /** and gives back every field of an encoded position but the bump. */
  lemma PositionStateRoundTrip(p: Position, discriminator: Discriminator, trailing: seq<byte>)
    ensures PositionStateAt(EncodePosition(p, discriminator) + trailing) == PositionView(p)
  {
    UsePosition.PositionRoundTrip(p, discriminator, trailing);
    PositionDecodersAgree(EncodePosition(p, discriminator) + trailing);
  }

  // ---------------------------------------------------------------------
  // decryptPosition
  // ---------------------------------------------------------------------

  const LAMPORTS_PER_SOL: nat := 1_000_000_000
  const LIQUIDATION_THRESHOLD: nat := 8000
  const LTV_RATIO: nat := 7500

  /** `Number(lamports) / LAMPORTS_PER_SOL`, as an exact quotient. */
  function Sol(lamports: int): real
  {
    lamports as real / LAMPORTS_PER_SOL as real
  }

  /** `DecryptedPosition`: SOL amounts, a health ratio and the remaining borrow limit in SOL. */
  datatype DecryptedPosition = DecryptedPosition(collateral: real, debt: real, healthFactor: HealthFactor, maxBorrow: real)

  /** An all-zero field is read as 0 without decrypting it. */
  function FieldLamports(encrypted: seq<byte>, keyPair: EncryptionKeyPair, hash: Sha512): Option<u64>
  {
    if AllZero(encrypted) then Some(0) else Plaintext(encrypted, keyPair, hash)
  }

  /** The percentage of `computeHealthFactor` divided by 100. */
  function Ratio(h: HealthFactor): (r: HealthFactor)
    ensures h.Infinity? <==> r.Infinity?
    ensures h.Finite? ==> r.value * 100.0 == h.value
  {
    match h
    case Infinity => Infinity
    case Finite(v) => Finite(v / 100.0)
  }

  function ValueOrZero(x: Option<u64>): u64
  {
    if x.Some? then x.value else 0
  }

  /** `maxBorrowLamports`: 75% of the collateral less the debt, or 0 unless both decrypt. */
  function MaxBorrowLamports(collateral: Option<u64>, debt: Option<u64>): int
  {
    if collateral.Some? && debt.Some? then BigIntDiv(collateral.value * LTV_RATIO, 10000) - debt.value
    else 0
  }

  function DecryptPosition(position: PositionState, keyPair: EncryptionKeyPair, hash: Sha512): (d: DecryptedPosition)
    ensures d.collateral >= 0.0 && d.debt >= 0.0 && d.maxBorrow >= 0.0
    ensures d.healthFactor.Infinity? <==> d.debt == 0.0
  {
    var hasCollateralData := !AllZero(position.encryptedCollateral);
    var hasDebtData := !AllZero(position.encryptedDebt);
    if !hasCollateralData && !hasDebtData then DecryptedPosition(0.0, 0.0, Infinity, 0.0)
    else
      var collateralLamports := FieldLamports(position.encryptedCollateral, keyPair, hash);
      var debtLamports := FieldLamports(position.encryptedDebt, keyPair, hash);
      var collateral := if collateralLamports.Some? then Sol(collateralLamports.value) else 0.0;
      var debt := if debtLamports.Some? then Sol(debtLamports.value) else 0.0;
      var healthFactor :=
        if debt > 0.0 then Ratio(ComputeHealthFactor(ValueOrZero(collateralLamports), ValueOrZero(debtLamports),
                                                     LIQUIDATION_THRESHOLD))
        else Infinity;
      var maxBorrowLamports := MaxBorrowLamports(collateralLamports, debtLamports);
      var maxBorrow := if maxBorrowLamports > 0 then Sol(maxBorrowLamports) else 0.0;
      DecryptedPosition(collateral, debt, healthFactor, maxBorrow)
  }

  /** A freshly opened position reads as empty with infinite health. */
  lemma DecryptEmptyPosition(position: PositionState, keyPair: EncryptionKeyPair, hash: Sha512)
    requires AllZero(position.encryptedCollateral) && AllZero(position.encryptedDebt)
    ensures DecryptPosition(position, keyPair, hash) == DecryptedPosition(0.0, 0.0, Infinity, 0.0)
  {
  }

  /** On 32-byte fields the all-zero shortcut gives what `decryptAmount` gives. */
  lemma ShortcutAgreesWithDecrypt(encrypted: seq<byte>, keyPair: EncryptionKeyPair, hash: Sha512)
    requires |encrypted| == CIPHERTEXT_LENGTH
    ensures FieldLamports(encrypted, keyPair, hash) == Plaintext(encrypted, keyPair, hash)
  {
  }

  /** What a position holding `collateral` and `debt` lamports shows. */
  function Shown(collateral: u64, debt: u64): DecryptedPosition
  {
    var limit := collateral * LTV_RATIO / 10000;
    DecryptedPosition(Sol(collateral), Sol(debt),
                      Ratio(ComputeHealthFactor(collateral, debt, LIQUIDATION_THRESHOLD)),
                      if limit > debt then Sol(limit - debt) else 0.0)
  }

  /**
   * A position whose fields the client encrypted with fresh nonces shows the
   * encrypted amounts, the health percentage divided by 100 at the fixed 80%
   * threshold, and a borrow limit of `floor(c * 0.75) - d` clamped at 0.
   */
  lemma DecryptEncryptedPosition(position: PositionState, keyPair: EncryptionKeyPair, hash: Sha512,
                                 collateral: u64, debt: u64, nonce1: seq<byte>, nonce2: seq<byte>)
    requires |nonce1| == NONCE_LENGTH && !AllZero(nonce1) && |nonce2| == NONCE_LENGTH && !AllZero(nonce2)
    requires position.encryptedCollateral == Ciphertext(collateral, keyPair, nonce1, hash)
    requires position.encryptedDebt == Ciphertext(debt, keyPair, nonce2, hash)
    ensures DecryptPosition(position, keyPair, hash) == Shown(collateral, debt)
  {
    RoundTripU64(collateral, keyPair, nonce1, hash);
    RoundTripU64(debt, keyPair, nonce2, hash);
    DecryptFromPlaintexts(position, keyPair, hash, collateral, debt);
  }

  /** Whatever the ciphertexts, a position shows the two amounts its fields decrypt to. */
  lemma DecryptFromPlaintexts(position: PositionState, keyPair: EncryptionKeyPair, hash: Sha512, collateral: u64, debt: u64)
    requires Plaintext(position.encryptedCollateral, keyPair, hash) == Some(collateral)
    requires Plaintext(position.encryptedDebt, keyPair, hash) == Some(debt)
    ensures DecryptPosition(position, keyPair, hash) == Shown(collateral, debt)
  {
  }
}
