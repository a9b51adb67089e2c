/** Threshold calibration (core/behavior/calibration_engine.py). Floats are modelled as reals. */
module Calibration {
  import opened Common
  import opened AcceptanceTrackers

  datatype CalibrationConfig = CalibrationConfig(enabled: bool, minThreshold: real, maxThreshold: real, stepSize: real)
  {
    predicate Normal() { minThreshold <= maxThreshold && stepSize > 0.0 }
  }

  const DEFAULT_CONFIG := CalibrationConfig(true, 0.5, 0.9, 0.05)

  /** Bounds in the wrong order and a step that is not positive fall back to the defaults. */
  function Normalize(raw: CalibrationConfig): (cfg: CalibrationConfig)
    ensures cfg.Normal() && cfg.enabled == raw.enabled
    ensures raw.Normal() ==> cfg == raw
    ensures if raw.minThreshold > raw.maxThreshold then cfg.minThreshold == 0.5 && cfg.maxThreshold == 0.9
            else cfg.minThreshold == raw.minThreshold && cfg.maxThreshold == raw.maxThreshold
    ensures cfg.stepSize == if raw.stepSize <= 0.0 then 0.05 else raw.stepSize
  {
    var bounds := if raw.minThreshold > raw.maxThreshold then (DEFAULT_CONFIG.minThreshold, DEFAULT_CONFIG.maxThreshold)
                  else (raw.minThreshold, raw.maxThreshold);
    CalibrationConfig(raw.enabled, bounds.0, bounds.1,
                      if raw.stepSize <= 0.0 then DEFAULT_CONFIG.stepSize else raw.stepSize)
  }

  function Clamp(value: real, lower: real, upper: real): (r: real)
    ensures lower <= upper ==> lower <= r <= upper
    ensures lower <= value <= upper ==> r == value
    ensures lower <= upper ==> (value >= upper ==> r == upper) && (value <= lower ==> r == lower)
  {
    var capped := if value < upper then value else upper;
    if capped > lower then capped else lower
  }

  function Rate(part: int, attempts: int): real {
    if attempts == 0 then 0.0 else part as real / attempts as real
  }

  predicate TooManyRejections(m: Metrics) {
    var attempts := Max(0, m.accepted + m.rejected + m.ignored);
    Rate(m.rejected, attempts) > 0.60 || Rate(m.overrides, attempts) > 0.40
  }

  predicate WellAccepted(m: Metrics) { m.acceptanceRate > 0.70 }

  function Delta(cfg: CalibrationConfig, m: Metrics): real {
    if !cfg.enabled then 0.0
    else if TooManyRejections(m) then cfg.stepSize
    else if WellAccepted(m) then -cfg.stepSize
    else 0.0
  }

  function UpdateThreshold(cfg: CalibrationConfig, current: real, m: Metrics): (r: real)
    requires cfg.Normal()
    ensures cfg.minThreshold <= r <= cfg.maxThreshold
    ensures var clamped := Clamp(current, cfg.minThreshold, cfg.maxThreshold);
      && (r > clamped <==> cfg.enabled && TooManyRejections(m) && clamped < cfg.maxThreshold)
      && (r < clamped <==> cfg.enabled && !TooManyRejections(m) && WellAccepted(m) && clamped > cfg.minThreshold)
      && (r > clamped ==> r == clamped + cfg.stepSize || r == cfg.maxThreshold < clamped + cfg.stepSize)
      && (r < clamped ==> r == clamped - cfg.stepSize || r == cfg.minThreshold > clamped - cfg.stepSize)
  {
    var clamped := Clamp(current, cfg.minThreshold, cfg.maxThreshold);
    if !cfg.enabled then clamped
    else Clamp(clamped + Delta(cfg, m), cfg.minThreshold, cfg.maxThreshold)
  }

  /** Recalibrating once for each of `ms`, in order. */
  ghost function Recalibrate(cfg: CalibrationConfig, t: real, ms: seq<Metrics>): real
    requires cfg.Normal()
  {
    if ms == [] then t else UpdateThreshold(cfg, Recalibrate(cfg, t, ms[..|ms| - 1]), ms[|ms| - 1])
  }

  lemma ClampStep(lo: real, hi: real, t: real, s: real, d: real)
    requires lo <= t <= hi && (d < 0.0 ==> s <= 0.0) && (d > 0.0 ==> s >= 0.0) && (d == 0.0 ==> s == 0.0)
    ensures Clamp(Clamp(t + s, lo, hi) + d, lo, hi) == Clamp(t + (s + d), lo, hi)
  {
  }

  /** `n` clamped moves by `d`. */
  ghost function Moves(lo: real, hi: real, t: real, d: real, n: nat): real {
    if n == 0 then t else Clamp(Clamp(Moves(lo, hi, t, d, n - 1), lo, hi) + d, lo, hi)
  }

  /** `n` times `d`, as a sum. */
  ghost function Times(n: nat, d: real): real {
    if n == 0 then 0.0 else Times(n - 1, d) + d
  }

  lemma MultipleSucc(n: nat, d: real)
    ensures (n + 1) as real * d == n as real * d + d
  {
  }

  lemma {:induction false} TimesIsProduct(n: nat, d: real)
    ensures Times(n, d) == n as real * d
  {
    if n > 0 {
      TimesIsProduct(n - 1, d);
      MultipleSucc(n - 1, d);
    }
  }

  lemma {:induction false} MovesClosedForm(lo: real, hi: real, t: real, d: real, n: nat)
    requires lo <= hi && n > 0
    ensures Moves(lo, hi, t, d, n) == Clamp(Clamp(t, lo, hi) + Times(n, d), lo, hi)
    ensures (d < 0.0 ==> Times(n, d) <= 0.0) && (d > 0.0 ==> Times(n, d) >= 0.0) && (d == 0.0 ==> Times(n, d) == 0.0)
  {
    if n == 1 {
      assert Moves(lo, hi, t, d, 0) == t && Times(0, d) == 0.0;
    } else {
      MovesClosedForm(lo, hi, t, d, n - 1);
      ClampStep(lo, hi, Clamp(t, lo, hi), Times(n - 1, d), d);
    }
  }

  lemma UpdateIsMove(cfg: CalibrationConfig, t: real, m: Metrics, d: real)
    requires cfg.Normal() && Delta(cfg, m) == d
    ensures var lo, hi := cfg.minThreshold, cfg.maxThreshold;
      UpdateThreshold(cfg, t, m) == Clamp(Clamp(t, lo, hi) + d, lo, hi)
  {
  }

  /** All these metrics ask for the same move. */
  ghost predicate Steady(cfg: CalibrationConfig, ms: seq<Metrics>, d: real) {
    forall i | 0 <= i < |ms| :: Delta(cfg, ms[i]) == d
  }

  lemma {:induction false} RecalibrateIsMoves(cfg: CalibrationConfig, t: real, ms: seq<Metrics>, d: real)
    requires cfg.Normal()
    requires Steady(cfg, ms, d)
    ensures Recalibrate(cfg, t, ms) == Moves(cfg.minThreshold, cfg.maxThreshold, t, d, |ms|)
    decreases |ms|
  {
    if ms != [] {
      var n := |ms| - 1;
      RecalibrateIsMoves(cfg, t, ms[..n], d);
      UpdateIsMove(cfg, Recalibrate(cfg, t, ms[..n]), ms[n], d);
    }
  }

  lemma {:induction false} SteadyMoves(cfg: CalibrationConfig, t: real, ms: seq<Metrics>, d: real)
    requires cfg.Normal() && ms != []
    requires Steady(cfg, ms, d)
    ensures Recalibrate(cfg, t, ms)
         == Clamp(Clamp(t, cfg.minThreshold, cfg.maxThreshold) + Times(|ms|, d), cfg.minThreshold, cfg.maxThreshold)
  {
    RecalibrateIsMoves(cfg, t, ms, d);
    MovesClosedForm(cfg.minThreshold, cfg.maxThreshold, t, d, |ms|);
  }

  lemma ClampProduct(lo: real, hi: real, c: real, n: nat, d: real)
    ensures Clamp(c + Times(n, d), lo, hi) == Clamp(c + n as real * d, lo, hi)
  {
    TimesIsProduct(n, d);
  }

  /**
   Closed form of feedback: as long as the metrics keep pointing the same way, `n` recalibrations move the
   clamped threshold by `n` steps and clamp once. Unchanged metrics are the special case.
   */
  lemma {:induction false} SteadyFeedback(cfg: CalibrationConfig, t: real, ms: seq<Metrics>, d: real, n: nat)
    requires cfg.Normal() && |ms| == n > 0 && Steady(cfg, ms, d)
    ensures var lo, hi := cfg.minThreshold, cfg.maxThreshold;
      Recalibrate(cfg, t, ms) == Clamp(Clamp(t, lo, hi) + n as real * d, lo, hi)
  {
    var lo, hi := cfg.minThreshold, cfg.maxThreshold;
    SteadyMoves(cfg, t, ms, d);
    ClampProduct(lo, hi, Clamp(t, lo, hi), n, d);
  }

  /** After one recalibration the threshold is within bounds for good, whatever the metrics. */
  lemma ThresholdBounded(cfg: CalibrationConfig, t: real, ms: seq<Metrics>)
    requires cfg.Normal() && ms != []
    ensures cfg.minThreshold <= Recalibrate(cfg, t, ms) <= cfg.maxThreshold
  {
  }

  lemma QuotientAbove(x: real, n: real, bound: real)
    requires n > 0.0 && x / n > bound
    ensures x > bound * n
  {
    var q := x / n;
    assert q * n == x;
  }

  /**
   On metrics a tracker can produce, high acceptance never meets high rejection: the two rules fire together exactly
   when overrides alone are high, and then the threshold rises.
   */
  lemma RulesExclusive(s: Stats)
    ensures var m := Compute(s);
      WellAccepted(m) ==>
        && Rate(s.rejected, s.Attempts()) <= 0.60
        && (TooManyRejections(m) <==> Rate(m.overrides, s.Attempts()) > 0.40)
  {
    if s.Attempts() > 0 {
      var n := s.Attempts() as real;
      var a, r := s.accepted as real, s.rejected as real;
      assert a + r <= n;
      if a / n > 0.70 && r / n > 0.60 {
        QuotientAbove(a, n, 0.70);
        QuotientAbove(r, n, 0.60);
        assert false;
      }
    }
  }

  /** Overrides do meet high acceptance: one accepted suggestion that was also overridden. */
  lemma OverridesOutweighAcceptance(cfg: CalibrationConfig)
    requires cfg.Normal() && cfg.enabled
    ensures var m := Compute(Stats(1, 0, 0, 1)); WellAccepted(m) && Delta(cfg, m) == cfg.stepSize
  {
    assert 1 as real / 1 as real == 1.0;
  }

  lemma TenTimes(k: nat, n: nat, tenths: nat)
    ensures 10.0 * (k as real) == (10 * k) as real
    ensures tenths as real * n as real == (tenths * n) as real
  {
  }

  lemma QuotientExceeds(k: nat, n: nat, tenths: nat)
    requires n > 0
    ensures k as real / n as real > tenths as real / 10.0 <==> 10 * k > tenths * n
  {
    var x, y, b := k as real, n as real, tenths as real / 10.0;
    var q := x / y;
    assert q * y == x;
    if q > b {
      assert (q - b) * y > 0.0;
    } else {
      assert (b - q) * y >= 0.0;
    }
    assert b * y * 10.0 == tenths as real * y;
    TenTimes(k, n, tenths);
  }

  /** The three limits on the counts of a tracker: more than six, four and seven tenths of the attempts. */
  lemma LimitsInTenths(s: Stats)
    ensures var m, n := Compute(s), s.Attempts();
      && (TooManyRejections(m) <==> n > 0 && (10 * s.rejected > 6 * n || 10 * s.overrides > 4 * n))
      && (WellAccepted(m) <==> n > 0 && 10 * s.accepted > 7 * n)
  {
    if s.Attempts() > 0 {
      QuotientExceeds(s.rejected, s.Attempts(), 6);
      QuotientExceeds(s.overrides, s.Attempts(), 4);
      QuotientExceeds(s.accepted, s.Attempts(), 7);
    }
  }
}
