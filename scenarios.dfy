/**
 * Client and program together: the instruction data the lending hook builds,
 * with its selector replaced by the program's (`Reselect`), goes through the
 * program's dispatch into a ledger handler, and the client decrypts what the
 * handler stored.
 */
module Scenarios {
  import opened Bytes
  import opened Wrappers
  import opened Accounts
  import opened Encryption
  import opened ProofVerifier
  import opened Ledger
  import opened UsePosition
  import opened UseLending
  import UseProgram
  import HealthIndicator

  /**
   * The program's dispatcher on the client's deposit data, with the selector
   * corrected: the instruction the deposit handler receives.
   */
  method ReceiveDeposit(data: seq<byte>, amount: u64, ciphertext: Bytes32) returns (ix: Instruction)
    requires data == AmountData(DEPOSIT_COLLATERAL, amount, ciphertext)
    ensures ix == DepositCollateralIx(amount, ciphertext)
  {
    ReselectedAmountDataParses(amount, ciphertext);
    ix := ParseInstruction(Reselect(data)).value;
  }

  /** The same for the client's repay data. */
  method ReceiveRepay(data: seq<byte>, amount: u64, ciphertext: Bytes32) returns (ix: Instruction)
    requires data == AmountData(REPAY, amount, ciphertext)
    ensures ix == RepayIx(amount, ciphertext)
  {
    ReselectedAmountDataParses(amount, ciphertext);
    ix := ParseInstruction(Reselect(data)).value;
  }

  /** The same for the client's borrow data, proof included. */
  method ReceiveBorrow(data: seq<byte>, amount: u64, ciphertext: Bytes32, proof: seq<byte>) returns (ix: Instruction)
    requires |proof| < TWO_32 && data == ProofData(BORROW, amount, ciphertext, proof)
    ensures ix == BorrowIx(amount, ciphertext, proof)
  {
    ReselectedProofDataParses(amount, ciphertext, proof);
    ix := ParseInstruction(Reselect(data)).value;
  }

  /** A ledger with an initialised pool and an open, empty position for `ownerKey`. */
  method OpenedLedger(poolKey: Pubkey, ownerKey: Pubkey, ownerLamports: nat, now: i64) returns (ledger: Ledger)
    ensures fresh(ledger) && ledger.Valid() && ledger.Opened()
    ensures ledger.pool.value.totalDeposits == 0 && ledger.pool.value.totalBorrows == 0
    ensures ledger.pool.value.ltvRatio == 7500 && ledger.pool.value.liquidationThreshold == 8000
    ensures ledger.position.value.encryptedCollateral == Zeros(32) && ledger.position.value.encryptedDebt == Zeros(32)
    ensures ledger.vault == 0 && ledger.owner == ownerLamports && ledger.liquidator == 0
  {
    ledger := new Ledger(poolKey, ownerKey, 0, ownerLamports, 0);
    var initialized := ledger.InitializePool(ownerKey, ownerKey, ownerKey, 7500, 500, 8000, 255);
    var openedPosition := ledger.OpenPosition(now, 254);
  }

  /**
   * A ledger after one deposit of `collateral` built by the client from an
   * owner holding `collateral + funds` lamports, and the position the client
   * then decodes. A first deposit sends the same data under the corrected
   * builder, since the decoded collateral is still 0.
   */
  method DepositedLedger(poolKey: Pubkey, ownerKey: Pubkey, collateral: u64, funds: nat,
                         keyPair: EncryptionKeyPair, nonce: seq<byte>, hash: Sha512, now: i64)
    returns (ledger: Ledger, decoded: Option<DecodedPosition>)
    requires 0 < collateral
    requires |nonce| == NONCE_LENGTH && !AllZero(nonce)
    ensures fresh(ledger) && ledger.Valid() && ledger.Opened()
    ensures ledger.pool.value.ltvRatio == 7500
    ensures ledger.pool.value.totalDeposits == collateral && ledger.pool.value.totalBorrows == 0
    ensures ledger.position.value.encryptedCollateral == Ciphertext(collateral, keyPair, nonce, hash)
    ensures ledger.position.value.encryptedDebt == Zeros(32)
    ensures ledger.vault == collateral && ledger.owner == funds
    ensures decoded.Some? && decoded.value.collateral == collateral && decoded.value.debt == 0
  {
    ledger := OpenedLedger(poolKey, ownerKey, collateral + funds, now);
    var c := Ciphertext(collateral, keyPair, nonce, hash);
    RoundTripU64(collateral, keyPair, nonce, hash);
    var data := DepositCollateralData(true, ledger.pool, collateral, keyPair, nonce, hash);
    var ix := ReceiveDeposit(data.value, collateral, c);
    var r := ledger.DepositCollateral(ix.amount, ix.encryptedAmount, now);
    ZeroSentinel(keyPair, hash);
    DecodedAmounts(ledger.position.value, keyPair, ledger.pool.value, hash, collateral, 0);
    decoded := Decode(ledger.position.value, keyPair, ledger.pool.value, hash);
  }

  /**
   * Deposit as written: two deposits of `a1` then `a2` add both to
   * `total_deposits`, but the stored collateral ciphertext decrypts to `a2`
   * alone, since each deposit encrypts its own amount and the handler
   * overwrites the field.
   */
  method DepositTwiceAsWritten(poolKey: Pubkey, ownerKey: Pubkey, a1: u64, a2: u64,
                               keyPair: EncryptionKeyPair, nonce1: seq<byte>, nonce2: seq<byte>, hash: Sha512, now: i64)
    returns (shownCollateral: Option<u64>, totalDeposits: nat)
    requires 0 < a1 && 0 < a2 && a1 + a2 < TWO_64
    requires |nonce1| == NONCE_LENGTH && !AllZero(nonce1) && |nonce2| == NONCE_LENGTH && !AllZero(nonce2)
    ensures totalDeposits == a1 + a2
    ensures shownCollateral == Some(a2)
  {
    var ledger, decoded := DepositedLedger(poolKey, ownerKey, a1, a2, keyPair, nonce1, hash, now);

    var c := Ciphertext(a2, keyPair, nonce2, hash);
    RoundTripU64(a2, keyPair, nonce2, hash);
    var data := DepositCollateralData(true, ledger.pool, a2, keyPair, nonce2, hash);
    var ix := ReceiveDeposit(data.value, a2, c);
    assert ix == DepositCollateralIx(a2, c);
    var r := ledger.DepositCollateral(ix.amount, ix.encryptedAmount, now);
    assert ledger.position.value.encryptedCollateral == c;

    shownCollateral := DecryptAmount(ledger.position.value.encryptedCollateral, keyPair, hash);
    totalDeposits := ledger.pool.value.totalDeposits;
  }

  /**
   * Deposit corrected: the second deposit encrypts the decoded collateral
   * plus its amount, so the stored ciphertext tracks `total_deposits`.
   */
  method DepositTwiceCorrected(poolKey: Pubkey, ownerKey: Pubkey, a1: u64, a2: u64,
                               keyPair: EncryptionKeyPair, nonce1: seq<byte>, nonce2: seq<byte>, hash: Sha512, now: i64)
    returns (shownCollateral: Option<u64>, totalDeposits: nat)
    requires 0 < a1 && 0 < a2 && a1 + a2 < TWO_64
    requires |nonce1| == NONCE_LENGTH && !AllZero(nonce1) && |nonce2| == NONCE_LENGTH && !AllZero(nonce2)
    ensures totalDeposits == a1 + a2
    ensures shownCollateral.Some? && shownCollateral.value == a1 + a2
  {
    var ledger, decoded := DepositedLedger(poolKey, ownerKey, a1, a2, keyPair, nonce1, hash, now);

    var total: u64 := a1 + a2;
    assert DepositNewCollateral(decoded, a2) == total;
    var c := Ciphertext(total, keyPair, nonce2, hash);
    RoundTripU64(total, keyPair, nonce2, hash);
    var shown := DecryptAmount(c, keyPair, hash);
    assert shown == Some(total);
    var data := DepositCollateralDataCorrected(true, ledger.pool, decoded, a2, keyPair, nonce2, hash);
    var ix := ReceiveDeposit(data.value, a2, c);
    assert ix == DepositCollateralIx(a2, c);
    var r := ledger.DepositCollateral(ix.amount, ix.encryptedAmount, now);
    var stored := ledger.position.value.encryptedCollateral;
    assert stored == c;

    shownCollateral := DecryptAmount(stored, keyPair, hash);
    assert shownCollateral == shown;
    totalDeposits := ledger.pool.value.totalDeposits;
  }

  /**
   * The deposited ledger after a borrow of `borrowed` with the proof the
   * client generates, and the position the client then decodes.
   */
  method BorrowedLedger(poolKey: Pubkey, ownerKey: Pubkey, collateral: u64, borrowed: u64,
                        keyPair: EncryptionKeyPair, nonce1: seq<byte>, nonce2: seq<byte>,
                        hash: Sha512, bindingHash: Sha256, now: i64)
    returns (ledger: Ledger, decoded: Option<DecodedPosition>)
    requires 0 < borrowed <= collateral
    requires |nonce1| == NONCE_LENGTH && !AllZero(nonce1) && |nonce2| == NONCE_LENGTH && !AllZero(nonce2)
    ensures fresh(ledger) && ledger.Valid() && ledger.Opened()
    ensures ledger.position.value.encryptedDebt == Ciphertext(borrowed, keyPair, nonce2, hash)
    ensures ledger.owner == borrowed
    ensures decoded.Some? && decoded.value.collateral == collateral && decoded.value.debt == borrowed
  {
    var deposited;
    ledger, deposited := DepositedLedger(poolKey, ownerKey, collateral, 0, keyPair, nonce1, hash, now);

    var position := ledger.position.value;
    var c := Ciphertext(borrowed, keyPair, nonce2, hash);
    RoundTripU64(borrowed, keyPair, nonce2, hash);
    assert BorrowNewDebt(deposited, borrowed) == borrowed && ledger.pool.value.ltvRatio == 7500;
    var data := BorrowData(true, ledger.pool, ledger.position, deposited, borrowed, keyPair, nonce2, hash);
    var proof := Encryption.BorrowProof(position.encryptedCollateral, position.encryptedDebt, borrowed, 7500);
    assert data == Ok(ProofData(BORROW, borrowed, c, proof));
    GeneratedBorrowProofAccepted(position, borrowed, 7500, bindingHash);
    var ix := ReceiveBorrow(data.value, borrowed, c, proof);
    var r := ledger.Borrow(ix.amount, ix.encryptedNewDebt, ix.incoProof, now, bindingHash);
    assert r == Ok(());
    assert ledger.position.value.encryptedCollateral == Ciphertext(collateral, keyPair, nonce1, hash);
    assert ledger.position.value.encryptedDebt == c;

    RoundTripU64(collateral, keyPair, nonce1, hash);
    DecodedAmounts(ledger.position.value, keyPair, ledger.pool.value, hash, collateral, borrowed);
    decoded := Decode(ledger.position.value, keyPair, ledger.pool.value, hash);
  }

  /**
   * Deposit, borrow with the generated proof, repay the whole debt: the
   * client then reads a debt of 0, yet `close_position` refuses, because
   * the encrypted zero carries its nonce and is not the all-zero sentinel.
   */
  method RepayInFullThenClose(poolKey: Pubkey, ownerKey: Pubkey, collateral: u64, borrowed: u64,
                              keyPair: EncryptionKeyPair, nonce1: seq<byte>, nonce2: seq<byte>, nonce3: seq<byte>,
                              hash: Sha512, bindingHash: Sha256, now: i64)
    returns (shownDebt: Option<u64>, closed: Result<(), ErrorCode>)
    requires 0 < borrowed <= collateral
    requires |nonce1| == NONCE_LENGTH && !AllZero(nonce1) && |nonce2| == NONCE_LENGTH && !AllZero(nonce2)
    requires |nonce3| == NONCE_LENGTH && !AllZero(nonce3)
    ensures shownDebt == Some(0)
    ensures closed == Err(PositionHasDebt)
  {
    var ledger, decoded := BorrowedLedger(poolKey, ownerKey, collateral, borrowed, keyPair, nonce1, nonce2,
                                          hash, bindingHash, now);
    assert ClampedSub(decoded.value.debt, borrowed) == 0;

    var c := Ciphertext(0, keyPair, nonce3, hash);
    RoundTripU64(0, keyPair, nonce3, hash);
    var data := RepayData(true, ledger.pool, decoded, borrowed, keyPair, nonce3, hash);
    var ix := ReceiveRepay(data.value, borrowed, c);
    assert ix == RepayIx(borrowed, c);
    var r := ledger.Repay(ix.amount, ix.encryptedNewDebt, now);
    assert ledger.position.value.encryptedDebt == c;

    shownDebt := DecryptAmount(ledger.position.value.encryptedDebt, keyPair, hash);
    assert AllZero(Zeros(32));
    closed := ledger.ClosePosition();
  }

  /**
   * `close_position` looks only at the debt: a position with collateral
   * and no borrow closes, and the deposited lamports stay in the vault.
   */
  method DepositThenClose(poolKey: Pubkey, ownerKey: Pubkey, amount: u64,
                          keyPair: EncryptionKeyPair, nonce: seq<byte>, hash: Sha512, now: i64)
    returns (closed: Result<(), ErrorCode>, vaultLamports: nat, ownerLamports: nat)
    requires 0 < amount
    requires |nonce| == NONCE_LENGTH
    ensures closed == Ok(())
    ensures vaultLamports == amount && ownerLamports == 0
  {
    var ledger := OpenedLedger(poolKey, ownerKey, amount, now);
    var r1 := ledger.DepositCollateral(amount, Ciphertext(amount, keyPair, nonce, hash), now);
    closed := ledger.ClosePosition();
    vaultLamports := ledger.vault;
    ownerLamports := ledger.owner;
  }

  /**
   * The two scales side by side: a position at 160% of its liquidation
   * boundary is "Healthy" on the percentage `usePosition` passes to the
   * indicator, while the ratio `decryptPosition` reports falls in the
   * indicator's "Critical" band; so does every ratio below 100.
   */
  lemma RatioScaleOnIndicator(collateral: u64, debt: u64)
    requires debt > 0 && collateral * UseProgram.LIQUIDATION_THRESHOLD * 100 < debt * 10000 * 10000
    ensures HealthIndicator.GetHealthStatus(UseProgram.Shown(collateral, debt).healthFactor).name == "Critical"
    ensures HealthIndicator.GetHealthStatus(ComputeHealthFactor(200, 100, 8000)).name == "Healthy"
    ensures HealthIndicator.GetHealthStatus(UseProgram.Shown(200, 100).healthFactor).name == "Critical"
  {
    var n := collateral * UseProgram.LIQUIDATION_THRESHOLD * 100;
    DivAtLeast(n, debt * 10000, 10000);
    assert 10000 * (debt * 10000) == debt * 10000 * 10000;
    assert ComputeHealthFactor(200, 100, 8000) == Finite(160.0);
  }
}
