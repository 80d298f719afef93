/**
 * The instruction handlers of programs/shadow-lend/src/lib.rs as a state
 * machine over one pool, one owner's position and the lamport balances of
 * the vault, the owner and a liquidator.
 *
 * A Solana instruction is atomic: when a handler returns an error or panics
 * (`checked_add(..).unwrap()` on overflow), none of its writes persist, so
 * every failing method below leaves the state as it was. Account checks that
 * Anchor performs before the handler body (the account must exist, `init`
 * must find it absent, `constraint = position.is_active`) are the first
 * errors of each method. The clock and the rent minimum are parameters.
 */
module Ledger {
  import opened Bytes
  import opened Wrappers
  import opened Accounts
  import opened ProofVerifier

  datatype ErrorCode =
    // `ShadowLendError`
    | InvalidAmount
    | InvalidIncoProof
    | InsufficientLiquidity
    | PositionHealthy
    | PositionHasDebt
    | Unauthorized
    // raised by Anchor or the runtime
    | AccountNotInitialized
    | AccountAlreadyInUse
    | ConstraintRaw
    | InsufficientFunds
    | ArithmeticOverflow

  /** Rust's `u64::saturating_sub`: the least value in range that is at least `a - b`. */
  function SaturatingSub(a: u64, b: u64): (r: u64)
    ensures r <= a && r >= a - b
    ensures r == 0 || r + b == a
  {
    if a >= b then a - b else 0
  }

  class Ledger {
    /** The pool PDA and the wallet whose position PDA this ledger holds. */
    const poolKey: Pubkey
    const ownerKey: Pubkey

    var pool: Option<Pool>
    var position: Option<Position>
    var vault: nat
    var owner: nat
    var liquidator: nat

    /**
     * A position is only ever opened against an existing pool, and it
     * records the owner and pool it was opened for.
     */
    ghost predicate Valid()
      reads this
    {
      position.Some? ==>
        pool.Some? && position.value.owner == ownerKey && position.value.pool == poolKey
    }

    /** Both accounts a position handler loads exist. */
    predicate Opened()
      reads this
    {
      pool.Some? && position.Some?
    }

    /** The lamports the handlers move between accounts. */
    function Lamports(): nat
      reads this
    {
      vault + owner + liquidator
    }

    constructor (poolKey: Pubkey, ownerKey: Pubkey, vaultLamports: nat, ownerLamports: nat, liquidatorLamports: nat)
      ensures Valid()
      ensures this.poolKey == poolKey && this.ownerKey == ownerKey
      ensures pool == None && position == None
      ensures vault == vaultLamports && owner == ownerLamports && liquidator == liquidatorLamports
    {
      this.poolKey := poolKey;
      this.ownerKey := ownerKey;
      pool := None;
      position := None;
      vault := vaultLamports;
      owner := ownerLamports;
      liquidator := liquidatorLamports;
    }

    /** `initialize_pool`: stores the configuration verbatim with zeroed counters. */
    method InitializePool(authority: Pubkey, collateralMint: Pubkey, borrowMint: Pubkey,
                          ltvRatio: u16, interestRate: u16, liquidationThreshold: u16, bump: u8)
      returns (r: Result<(), ErrorCode>)
      requires Valid()
      modifies this`pool
      ensures Valid()
      ensures r == if old(pool).Some? then Err(AccountAlreadyInUse) else Ok(())
      ensures r.Err? ==> pool == old(pool)
      ensures r.Ok? ==> pool == Some(Pool(authority, collateralMint, borrowMint,
                                          ltvRatio, interestRate, liquidationThreshold,
                                          0, 0, 0, bump, true))
    {
      if pool.Some? {
        return Err(AccountAlreadyInUse);
      }
      pool := Some(Pool(authority, collateralMint, borrowMint,
                        ltvRatio, interestRate, liquidationThreshold,
                        0, 0, 0, bump, true));
      r := Ok(());
    }

    /** `open_position`: an empty active position, one more open position in the pool. */
    method OpenPosition(now: i64, bump: u8) returns (r: Result<(), ErrorCode>)
      requires Valid()
      modifies this`pool, this`position
      ensures Valid()
      ensures r == if old(pool).None? then Err(AccountNotInitialized)
                   else if old(position).Some? then Err(AccountAlreadyInUse)
                   else if old(pool).value.activePositions + 1 >= TWO_64 then Err(ArithmeticOverflow)
                   else Ok(())
      ensures r.Err? ==> pool == old(pool) && position == old(position)
      ensures r.Ok? ==>
        position == Some(Position(ownerKey, poolKey, Zeros(32), Zeros(32), now, true, bump)) &&
        pool == Some(old(pool).value.(activePositions := old(pool).value.activePositions + 1))
    {
      if pool.None? {
        return Err(AccountNotInitialized);
      }
      if position.Some? {
        return Err(AccountAlreadyInUse);
      }
      var p := pool.value;
      if p.activePositions + 1 >= TWO_64 {
        return Err(ArithmeticOverflow);
      }
      position := Some(Position(ownerKey, poolKey, Zeros(32), Zeros(32), now, true, bump));
      pool := Some(p.(activePositions := p.activePositions + 1));
      r := Ok(());
    }

    /**
     * `deposit_collateral`: moves `amount` from the owner to the vault and
     * overwrites the collateral ciphertext with the one supplied.
     */
    method DepositCollateral(amount: u64, encryptedAmount: Bytes32, now: i64) returns (r: Result<(), ErrorCode>)
      requires Valid()
      modifies this`pool, this`position, this`vault, this`owner
      ensures Valid() && Lamports() == old(Lamports())
      ensures r == if !old(Opened()) then Err(AccountNotInitialized)
                   else if amount == 0 then Err(InvalidAmount)
                   else if old(owner) < amount then Err(InsufficientFunds)
                   else if old(pool).value.totalDeposits + amount >= TWO_64 then Err(ArithmeticOverflow)
                   else Ok(())
      ensures r.Err? ==> pool == old(pool) && position == old(position) && vault == old(vault) && owner == old(owner)
      ensures r.Ok? ==>
        owner == old(owner) - amount && vault == old(vault) + amount &&
        position == Some(old(position).value.(encryptedCollateral := encryptedAmount, lastUpdate := now)) &&
        pool == Some(old(pool).value.(totalDeposits := old(pool).value.totalDeposits + amount))
    {
      if !Opened() {
        return Err(AccountNotInitialized);
      }
      if amount == 0 {
        return Err(InvalidAmount);
      }
      if owner < amount {
        return Err(InsufficientFunds);
      }
      var p := pool.value;
      if p.totalDeposits + amount >= TWO_64 {
        return Err(ArithmeticOverflow);
      }
      owner := owner - amount;
      vault := vault + amount;
      position := Some(position.value.(encryptedCollateral := encryptedAmount, lastUpdate := now));
      pool := Some(p.(totalDeposits := p.totalDeposits + amount));
      r := Ok(());
    }

    /**
     * `borrow`: after the proof and liquidity checks, moves `amount` from the
     * vault to the owner and stores the new debt ciphertext.
     */
    method Borrow(amount: u64, encryptedNewDebt: Bytes32, incoProof: seq<byte>, now: i64, hash: Sha256)
      returns (r: Result<(), ErrorCode>)
      requires Valid()
      modifies this`pool, this`position, this`vault, this`owner
      ensures Valid() && Lamports() == old(Lamports())
      ensures r == if !old(Opened()) then Err(AccountNotInitialized)
                   else if amount == 0 then Err(InvalidAmount)
                   else if !VerifyBorrowProof(incoProof, old(position).value, amount, hash) then Err(InvalidIncoProof)
                   else if old(vault) < amount then Err(InsufficientLiquidity)
                   else if old(pool).value.totalBorrows + amount >= TWO_64 then Err(ArithmeticOverflow)
                   else Ok(())
      ensures r.Err? ==> pool == old(pool) && position == old(position) && vault == old(vault) && owner == old(owner)
      ensures r.Ok? ==>
        vault == old(vault) - amount && owner == old(owner) + amount &&
        position == Some(old(position).value.(encryptedDebt := encryptedNewDebt, lastUpdate := now)) &&
        pool == Some(old(pool).value.(totalBorrows := old(pool).value.totalBorrows + amount))
    {
      if !Opened() {
        return Err(AccountNotInitialized);
      }
      if amount == 0 {
        return Err(InvalidAmount);
      }
      if !VerifyBorrowProof(incoProof, position.value, amount, hash) {
        return Err(InvalidIncoProof);
      }
      if vault < amount {
        return Err(InsufficientLiquidity);
      }
      var p := pool.value;
      if p.totalBorrows + amount >= TWO_64 {
        return Err(ArithmeticOverflow);
      }
      vault := vault - amount;
      owner := owner + amount;
      position := Some(position.value.(encryptedDebt := encryptedNewDebt, lastUpdate := now));
      pool := Some(p.(totalBorrows := p.totalBorrows + amount));
      r := Ok(());
    }

    /** `repay`: moves `amount` from the owner to the vault; total borrows never go below 0. */
    method Repay(amount: u64, encryptedNewDebt: Bytes32, now: i64) returns (r: Result<(), ErrorCode>)
      requires Valid()
      modifies this`pool, this`position, this`vault, this`owner
      ensures Valid() && Lamports() == old(Lamports())
      ensures r == if !old(Opened()) then Err(AccountNotInitialized)
                   else if amount == 0 then Err(InvalidAmount)
                   else if old(owner) < amount then Err(InsufficientFunds)
                   else Ok(())
      ensures r.Err? ==> pool == old(pool) && position == old(position) && vault == old(vault) && owner == old(owner)
      ensures r.Ok? ==>
        owner == old(owner) - amount && vault == old(vault) + amount &&
        position == Some(old(position).value.(encryptedDebt := encryptedNewDebt, lastUpdate := now)) &&
        pool == Some(old(pool).value.(totalBorrows := SaturatingSub(old(pool).value.totalBorrows, amount)))
    {
      if !Opened() {
        return Err(AccountNotInitialized);
      }
      if amount == 0 {
        return Err(InvalidAmount);
      }
      if owner < amount {
        return Err(InsufficientFunds);
      }
      owner := owner - amount;
      vault := vault + amount;
      position := Some(position.value.(encryptedDebt := encryptedNewDebt, lastUpdate := now));
      var p := pool.value;
      pool := Some(p.(totalBorrows := SaturatingSub(p.totalBorrows, amount)));
      r := Ok(());
    }

    /** `withdraw_collateral`: the mirror of borrow on the collateral side. */
    method WithdrawCollateral(amount: u64, encryptedNewCollateral: Bytes32, incoProof: seq<byte>, now: i64)
      returns (r: Result<(), ErrorCode>)
      requires Valid()
      modifies this`pool, this`position, this`vault, this`owner
      ensures Valid() && Lamports() == old(Lamports())
      ensures r == if !old(Opened()) then Err(AccountNotInitialized)
                   else if amount == 0 then Err(InvalidAmount)
                   else if !VerifyWithdrawalProof(incoProof, old(position).value, amount) then Err(InvalidIncoProof)
                   else if old(vault) < amount then Err(InsufficientLiquidity)
                   else Ok(())
      ensures r.Err? ==> pool == old(pool) && position == old(position) && vault == old(vault) && owner == old(owner)
      ensures r.Ok? ==>
        vault == old(vault) - amount && owner == old(owner) + amount &&
        position == Some(old(position).value.(encryptedCollateral := encryptedNewCollateral, lastUpdate := now)) &&
        pool == Some(old(pool).value.(totalDeposits := SaturatingSub(old(pool).value.totalDeposits, amount)))
    {
      if !Opened() {
        return Err(AccountNotInitialized);
      }
      if amount == 0 {
        return Err(InvalidAmount);
      }
      if !VerifyWithdrawalProof(incoProof, position.value, amount) {
        return Err(InvalidIncoProof);
      }
      if vault < amount {
        return Err(InsufficientLiquidity);
      }
      vault := vault - amount;
      owner := owner + amount;
      position := Some(position.value.(encryptedCollateral := encryptedNewCollateral, lastUpdate := now));
      var p := pool.value;
      pool := Some(p.(totalDeposits := SaturatingSub(p.totalDeposits, amount)));
      r := Ok(());
    }

    /**
     * `liquidate`: deactivates the position and sends everything in the vault
     * above the rent minimum to the liquidator.
     */
    method Liquidate(incoProof: seq<byte>, rentMinimum: nat) returns (r: Result<(), ErrorCode>)
      requires Valid()
      modifies this`pool, this`position, this`vault, this`liquidator
      ensures Valid() && Lamports() == old(Lamports())
      ensures r == if !old(Opened()) then Err(AccountNotInitialized)
                   else if !old(position).value.isActive then Err(ConstraintRaw)
                   else if !VerifyLiquidationProof(incoProof, old(position).value) then Err(PositionHealthy)
                   else Ok(())
      ensures r.Err? ==> pool == old(pool) && position == old(position) && vault == old(vault) && liquidator == old(liquidator)
      ensures r.Ok? ==>
        position == Some(old(position).value.(isActive := false)) &&
        vault == (if old(vault) > rentMinimum then rentMinimum else old(vault)) &&
        liquidator == old(liquidator) + (if old(vault) > rentMinimum then old(vault) - rentMinimum else 0) &&
        pool == Some(old(pool).value.(activePositions := SaturatingSub(old(pool).value.activePositions, 1)))
    {
      if !Opened() {
        return Err(AccountNotInitialized);
      }
      if !position.value.isActive {
        return Err(ConstraintRaw);
      }
      if !VerifyLiquidationProof(incoProof, position.value) {
        return Err(PositionHealthy);
      }
      position := Some(position.value.(isActive := false));
      var transferable := if vault >= rentMinimum then vault - rentMinimum else 0;
      if transferable > 0 {
        vault := vault - transferable;
        liquidator := liquidator + transferable;
      }
      var p := pool.value;
      pool := Some(p.(activePositions := SaturatingSub(p.activePositions, 1)));
      r := Ok(());
    }

    /**
     * `close_position`: allowed only when the debt ciphertext is 32 zero
     * bytes (the collateral is not looked at); the account is then closed.
     */
    method ClosePosition() returns (r: Result<(), ErrorCode>)
      requires Valid()
      modifies this`pool, this`position
      ensures Valid()
      ensures r == if !old(Opened()) then Err(AccountNotInitialized)
                   else if old(position).value.encryptedDebt != Zeros(32) then Err(PositionHasDebt)
                   else Ok(())
      ensures r.Err? ==> pool == old(pool) && position == old(position)
      ensures r.Ok? ==>
        position == None &&
        pool == Some(old(pool).value.(activePositions := SaturatingSub(old(pool).value.activePositions, 1)))
    {
      if !Opened() {
        return Err(AccountNotInitialized);
      }
      if position.value.encryptedDebt != Zeros(32) {
        return Err(PositionHasDebt);
      }
      var p := pool.value;
      pool := Some(p.(activePositions := SaturatingSub(p.activePositions, 1)));
      position := None;
      r := Ok(());
    }
  }
}
