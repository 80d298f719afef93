/**
 * The health bands of app/src/components/ui/HealthIndicator.tsx and the value
 * it prints. The component takes the percentage scale of
 * `computeHealthFactor`, where 100 is the liquidation boundary.
 */
module HealthIndicator {
  import opened Encryption

  const SUCCESS: string := "var(--shadow-success)"
  const WARNING: string := "var(--shadow-warning)"
  const ERROR: string := "var(--shadow-error)"

  datatype HealthStatus = HealthStatus(name: string, color: string, level: nat)

  /** `getHealthStatus`: the first band whose lower bound the value reaches. */
  function GetHealthStatus(healthFactor: HealthFactor): (s: HealthStatus)
    ensures healthFactor.Infinity? ==> s == HealthStatus("Safe", SUCCESS, 100)
    ensures healthFactor.Finite? ==> var v := healthFactor.value;
      (s.name == "Safe" <==> v > 200.0) &&
      (s.name == "Healthy" <==> 150.0 <= v <= 200.0) &&
      (s.name == "Moderate" <==> 120.0 <= v < 150.0) &&
      (s.name == "At Risk" <==> 100.0 <= v < 120.0) &&
      (s.name == "Critical" <==> v < 100.0)
    ensures s.level == (if s.name == "Safe" then 100 else if s.name == "Healthy" then 80
      else if s.name == "Moderate" then 60 else if s.name == "At Risk" then 40 else 20)
    ensures s.color == (if s.level >= 80 then SUCCESS else if s.level >= 40 then WARNING else ERROR)
  {
    if healthFactor.Infinity? || healthFactor.value > 200.0 then HealthStatus("Safe", SUCCESS, 100)
    else if healthFactor.value >= 150.0 then HealthStatus("Healthy", SUCCESS, 80)
    else if healthFactor.value >= 120.0 then HealthStatus("Moderate", WARNING, 60)
    else if healthFactor.value >= 100.0 then HealthStatus("At Risk", WARNING, 40)
    else HealthStatus("Critical", ERROR, 20)
  }

  /** The order of JavaScript numbers on these values: `Infinity` above every finite one. */
  predicate AtMost(a: HealthFactor, b: HealthFactor)
  {
    b.Infinity? || (a.Finite? && a.value <= b.value)
  }

  /** A healthier position never shows a lower level. */
  lemma LevelMonotone(a: HealthFactor, b: HealthFactor)
    requires AtMost(a, b)
    ensures GetHealthStatus(a).level <= GetHealthStatus(b).level
  {
  }

  /** The bar width `Math.min(level, 100)`. */
  function BarWidth(healthFactor: HealthFactor): (width: nat)
    ensures width <= 100
    ensures width == GetHealthStatus(healthFactor).level
  {
    var level := GetHealthStatus(healthFactor).level;
    if level < 100 then level else 100
  }

  /** Below the liquidation boundary, and only there, a health percentage shows "Critical". */
  lemma CriticalIffLiquidatable(collateral: nat, debt: nat, liquidationThreshold: nat)
    requires debt > 0
    ensures GetHealthStatus(ComputeHealthFactor(collateral, debt, liquidationThreshold)).name == "Critical" <==>
      collateral * liquidationThreshold < debt * 10000
  {
    HealthAtLeast100Iff(collateral, debt, liquidationThreshold);
  }

  // ---------------------------------------------------------------------
  // displayValue
  // ---------------------------------------------------------------------

  /** The decimal digit for `d`. */
  function DigitChar(d: nat): (c: char)
    requires d < 10
    ensures '0' <= c <= '9' && (c - '0') as nat == d
  {
    ('0' as int + d) as char
  }

  /** The decimal digits of `n`, as `Number.prototype.toString` writes them. */
  function NatToString(n: nat): (s: string)
    ensures |s| >= 1
    ensures forall i | 0 <= i < |s| :: '0' <= s[i] <= '9'
  {
    if n < 10 then [DigitChar(n)] else NatToString(n / 10) + [DigitChar(n % 10)]
  }

  /** Reads a string of decimal digits back as a number. */
  function DigitsValue(s: string): nat
    requires forall i | 0 <= i < |s| :: '0' <= s[i] <= '9'
  {
    if s == [] then 0 else 10 * DigitsValue(s[..|s| - 1]) + (s[|s| - 1] - '0') as nat
  }

  /** The digits written for `n` read back as `n`, so different values print differently. */
  lemma {:induction false} DigitsRoundTrip(n: nat)
    ensures DigitsValue(NatToString(n)) == n
  {
    if n >= 10 {
      var s := NatToString(n);
      assert s[..|s| - 1] == NatToString(n / 10);
      DigitsRoundTrip(n / 10);
    }
  }

  /** `toFixed(0)` rounds halves away from zero; a negative value keeps its sign, even when it rounds to 0. */
  function ToFixed0(v: real): (s: string)
    ensures |s| >= 1
  {
    if v < 0.0 then "-" + NatToString((-v + 0.5).Floor) else NatToString((v + 0.5).Floor)
  }

  /** `displayValue`: "---" for an infinite factor, otherwise the rounded percentage. */
  function DisplayValue(healthFactor: HealthFactor): (s: string)
    ensures healthFactor.Infinity? ==> s == "---"
    ensures healthFactor.Finite? ==> |s| >= 2 && s[|s| - 1] == '%' && '0' <= s[|s| - 2] <= '9'
  {
    if healthFactor.Infinity? then "---" else ToFixed0(healthFactor.value) + "%"
  }

  /** The dashes appear exactly for `Infinity`. */
  lemma DisplayDashesIff(healthFactor: HealthFactor)
    ensures DisplayValue(healthFactor) == "---" <==> healthFactor.Infinity?
  {
    if healthFactor.Finite? {
      var s := DisplayValue(healthFactor);
      assert s[|s| - 1] == '%';
    }
  }

  /** A non-negative whole percentage is printed as its digits. */
  lemma DisplayWholePercentage(n: nat)
    ensures DisplayValue(Finite(n as real)) == NatToString(n) + "%"
  {
    assert (n as real + 0.5).Floor == n;
  }

  /**
   * The ratio scale of `decryptPosition` (the percentage divided by 100)
   * read on this component's percentage bands: every position below 100
   * times its liquidation boundary shows "Critical".
   */
  lemma RatioScaleReadsCritical(percentage: real)
    requires percentage < 10000.0
    ensures GetHealthStatus(Finite(percentage / 100.0)).name == "Critical"
  {
  }
}
