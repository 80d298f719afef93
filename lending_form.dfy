/**
 * The decisions of app/src/components/lend/LendingForm.tsx: whether an action
 * first opens a position, the button label, and the projected health factor
 * after the action.
 */
module LendingForm {
  import opened Wrappers
  import opened Accounts
  import opened Encryption
  import opened UsePosition
  import opened UseLending

  datatype Action = Deposit | Borrow | Repay | Withdraw

  /** `needsPosition`: a deposit or a borrow without a position opens one first. */
  function NeedsPosition(hasPosition: bool, action: Action): (needs: bool)
    ensures needs ==> !hasPosition
    ensures (action.Repay? || action.Withdraw?) ==> !needs
    ensures !hasPosition && (action.Deposit? || action.Borrow?) ==> needs
  {
    !hasPosition && (action == Deposit || action == Borrow)
  }

  function ActionLabel(action: Action): string
  {
    match action
    case Deposit => "Deposit Collateral"
    case Borrow => "Borrow"
    case Repay => "Repay"
    case Withdraw => "Withdraw"
  }

  /** `getButtonLabel`: a transaction in flight, then a missing key, then a missing position, then the action. */
  function ButtonLabel(status: TxStatus, needsEncryption: bool, needsPosition: bool, action: Action): (text: string)
    ensures text == "Preparing..." || text == "Confirming..." || text == "Sign & Continue" ||
            text == "Create Position & Deposit" || text == ActionLabel(action)
  {
    if status == Pending then "Preparing..."
    else if status == Confirming then "Confirming..."
    else if needsEncryption then "Sign & Continue"
    else if needsPosition then "Create Position & Deposit"
    else ActionLabel(action)
  }

  /**
   * Each label appears exactly under its condition, so the earlier checks
   * take priority; a borrow that must open a position is also labelled
   * "Create Position & Deposit".
   */
  lemma ButtonLabelPriority(status: TxStatus, needsEncryption: bool, needsPosition: bool, action: Action)
    ensures var text := ButtonLabel(status, needsEncryption, needsPosition, action);
      (text == "Preparing..." <==> status == Pending) &&
      (text == "Confirming..." <==> status == Confirming) &&
      (text == "Sign & Continue" <==> status != Pending && status != Confirming && needsEncryption) &&
      (text == "Create Position & Deposit" <==>
         status != Pending && status != Confirming && !needsEncryption && needsPosition) &&
      (text == ActionLabel(action) <==>
         status != Pending && status != Confirming && !needsEncryption && !needsPosition)
  {
    assert "Preparing..." != "Confirming..." && "Preparing..."[0] == 'P' && "Confirming..."[0] == 'C';
    assert "Sign & Continue"[0] == 'S' && "Create Position & Deposit"[1] == 'r';
    match action
    case Deposit => assert ActionLabel(action)[0] == 'D';
    case Borrow => assert ActionLabel(action)[0] == 'B';
    case Repay => assert ActionLabel(action)[0] == 'R';
    case Withdraw => assert ActionLabel(action)[0] == 'W';
  }

  /** The balances the form projects after an action of `amount` lamports. */
  function Projected(action: Action, collateral: int, debt: int, amount: int): (int, int)
  {
    match action
    case Deposit => (collateral + amount, debt)
    case Borrow => (collateral, debt + amount)
    case Repay => (collateral, ClampedSub(debt, amount))
    case Withdraw => (ClampedSub(collateral, amount), debt)
  }

  /**
   * `estimateNewHealth`: null while the decoded position, the pool or the
   * amount (`None` for an empty field) is missing; otherwise the balances are
   * updated in a switch and the health formula is applied to them.
   */
  method EstimateNewHealth(decodedPosition: Option<DecodedPosition>, pool: Option<Pool>,
                           amount: Option<int>, action: Action)
    returns (health: Option<HealthFactor>)
    ensures decodedPosition.None? || pool.None? || amount.None? ==> health == None
    ensures decodedPosition.Some? && pool.Some? && amount.Some? ==>
      var balances := Projected(action, decodedPosition.value.collateral, decodedPosition.value.debt, amount.value);
      health == Some(ComputeHealthFactor(balances.0, balances.1, pool.value.liquidationThreshold))
  {
    if decodedPosition.None? || pool.None? || amount.None? {
      return None;
    }
    var amountLamports := amount.value;
    var newCollateral := decodedPosition.value.collateral;
    var newDebt := decodedPosition.value.debt;
    match action {
      case Deposit =>
        newCollateral := newCollateral + amountLamports;
      case Borrow =>
        newDebt := newDebt + amountLamports;
      case Repay =>
        newDebt := if newDebt > amountLamports then newDebt - amountLamports else 0;
      case Withdraw =>
        newCollateral := if newCollateral > amountLamports then newCollateral - amountLamports else 0;
    }
    if newDebt == 0 {
      return Some(Infinity);
    }
    var numerator := newCollateral * pool.value.liquidationThreshold;
    var denominator := newDebt * 10000;
    health := Some(Finite(BigIntDiv(numerator * 100, denominator) as real));
  }

  /**
   * With a zero amount the projection is the health the position already
   * shows (as `usePosition` decodes it with the same pool).
   */
  lemma ZeroAmountKeepsHealth(d: DecodedPosition, pool: Pool, action: Action)
    requires d.healthFactor == ComputeHealthFactor(d.collateral, d.debt, pool.liquidationThreshold)
    ensures var b := Projected(action, d.collateral, d.debt, 0);
      ComputeHealthFactor(b.0, b.1, pool.liquidationThreshold) == d.healthFactor
  {
  }

  /** Repaying at least the whole debt projects infinite health. */
  lemma FullRepayIsInfinite(collateral: int, debt: int, amount: int, liquidationThreshold: int)
    requires amount >= debt
    ensures var b := Projected(Repay, collateral, debt, amount);
      ComputeHealthFactor(b.0, b.1, liquidationThreshold) == Infinity
  {
  }

  /** A deposit never projects a lower health than the position has. */
  lemma DepositNeverLowersHealth(collateral: nat, debt: nat, amount: nat, liquidationThreshold: nat)
    requires debt > 0
    ensures var b := Projected(Deposit, collateral, debt, amount);
      ComputeHealthFactor(collateral, debt, liquidationThreshold).value
        <= ComputeHealthFactor(b.0, b.1, liquidationThreshold).value
  {
    HealthMonotoneInCollateral(collateral, collateral + amount, debt, liquidationThreshold);
  }

  /** A withdrawal never projects a higher health than the position has. */
  lemma WithdrawNeverRaisesHealth(collateral: nat, debt: nat, amount: nat, liquidationThreshold: nat)
    requires debt > 0
    ensures var b := Projected(Withdraw, collateral, debt, amount);
      ComputeHealthFactor(b.0, b.1, liquidationThreshold).value
        <= ComputeHealthFactor(collateral, debt, liquidationThreshold).value
  {
    HealthMonotoneInCollateral(ClampedSub(collateral, amount), collateral, debt, liquidationThreshold);
  }

  /** The form's projection uses the same new balances as the transaction the action then builds. */
  lemma ProjectionMatchesBuilders(d: DecodedPosition, amount: int)
    ensures Projected(Borrow, d.collateral, d.debt, amount).1 == BorrowNewDebt(Some(d), amount)
    ensures Projected(Repay, d.collateral, d.debt, amount).1 == ClampedSub(d.debt, amount)
    ensures Projected(Withdraw, d.collateral, d.debt, amount).0 == ClampedSub(d.collateral, amount)
  {
  }
}
