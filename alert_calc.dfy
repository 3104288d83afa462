/**
 * `calculate_alert_status` and `calculate_flood_score` from
 * app/services/github_data.py, and the `AlertLevel` enumeration of
 * app/models/schemas.py. Water levels and thresholds are `real`.
 */
module AlertCalc {
  import opened Wrappers

  datatype AlertLevel = MAJOR | MINOR | ALERT | NORMAL | NO_DATA {

    /** The enumeration's string value, which is also what the service stores in a record. */
    function Name(): string {
      match this
      case MAJOR => "MAJOR"
      case MINOR => "MINOR"
      case ALERT => "ALERT"
      case NORMAL => "NORMAL"
      case NO_DATA => "NO_DATA"
    }

    /** Severity rank of a status computed from a reading: NORMAL < ALERT < MINOR < MAJOR. */
    function Rank(): nat {
      match this
      case MAJOR => 3
      case MINOR => 2
      case ALERT => 1
      case NORMAL => 0
      case NO_DATA => 0
    }
  }

  /**
   * The threshold keys of a station dict; a key may be absent.
   * `calculate_alert_status` reads an absent threshold as +infinity,
   * `calculate_flood_score` reads it as 0.
   */
  datatype Thresholds = Thresholds(alertLevel: Option<real>, minorFloodLevel: Option<real>, majorFloodLevel: Option<real>)

  /** `level >= threshold`, where an absent threshold (+infinity) is never crossed. */
  predicate Crossed(level: real, threshold: Option<real>) {
    threshold.Some? && level >= threshold.value
  }

  function CalculateAlertStatus(waterLevel: Option<real>, station: Thresholds): (status: AlertLevel)
    ensures status == NO_DATA <==> waterLevel.None?
  {
    if waterLevel.None? then NO_DATA
    else
      var level := waterLevel.value;
      if Crossed(level, station.majorFloodLevel) then MAJOR
      else if Crossed(level, station.minorFloodLevel) then MINOR
      else if Crossed(level, station.alertLevel) then ALERT
      else NORMAL
  }

  /**
   * The status is the most severe threshold the level reaches: every crossed
   * threshold is at most as severe as the status, and the status's own
   * threshold (if any) is crossed.
   */
  lemma StatusIsMostSevereCrossed(level: real, t: Thresholds)
    ensures var s := CalculateAlertStatus(Some(level), t);
      && (Crossed(level, t.majorFloodLevel) <==> s.Rank() >= 3)
      && (Crossed(level, t.minorFloodLevel) ==> s.Rank() >= 2)
      && (Crossed(level, t.alertLevel) ==> s.Rank() >= 1)
      && (s == MINOR ==> Crossed(level, t.minorFloodLevel))
      && (s == ALERT ==> Crossed(level, t.alertLevel))
      && (s == NORMAL <==> !Crossed(level, t.majorFloodLevel) && !Crossed(level, t.minorFloodLevel) && !Crossed(level, t.alertLevel))
  {
  }

  /** An absent threshold is never reached. */
  lemma AbsentThresholdNeverReached(level: real, t: Thresholds)
    ensures t.majorFloodLevel.None? ==> CalculateAlertStatus(Some(level), t) != MAJOR
    ensures t.minorFloodLevel.None? ==> CalculateAlertStatus(Some(level), t) != MINOR
    ensures t.alertLevel.None? ==> CalculateAlertStatus(Some(level), t) != ALERT
  {
  }

  /** With present, ordered thresholds a higher water level never gives a less severe status. */
  lemma StatusMonotone(low: real, high: real, alert: real, minor: real, major: real)
    requires low <= high
    requires alert <= minor <= major
    ensures var t := Thresholds(Some(alert), Some(minor), Some(major));
      CalculateAlertStatus(Some(low), t).Rank() <= CalculateAlertStatus(Some(high), t).Rank()
  {
  }

  /** The merge path stores 0 for a missing threshold, so any level >= 0 is MAJOR there. */
  lemma ZeroThresholdsGiveMajor(level: real)
    requires level >= 0.0
    ensures CalculateAlertStatus(Some(level), Thresholds(Some(0.0), Some(0.0), Some(0.0))) == MAJOR
  {
  }

  function CalculateFloodScore(waterLevel: Option<real>, station: Thresholds): (score: Option<real>)
    ensures score.None? <==>
      waterLevel.None? || station.majorFloodLevel.GetOr(0.0) <= station.alertLevel.GetOr(0.0)
    ensures score.Some? ==>
      var alert := station.alertLevel.GetOr(0.0);
      score.value * (station.majorFloodLevel.GetOr(0.0) - alert) == waterLevel.value - alert
  {
    if waterLevel.None? then None
    else
      var alert := station.alertLevel.GetOr(0.0);
      var major := station.majorFloodLevel.GetOr(0.0);
      if major <= alert then None
      else Some((waterLevel.value - alert) / (major - alert))
  }

  /** The score is 0 exactly at the alert threshold and 1 exactly at the major-flood threshold. */
  lemma FloodScoreAnchors(alert: real, major: real, minor: Option<real>)
    requires alert < major
    ensures CalculateFloodScore(Some(alert), Thresholds(Some(alert), minor, Some(major))) == Some(0.0)
    ensures CalculateFloodScore(Some(major), Thresholds(Some(alert), minor, Some(major))) == Some(1.0)
  {
    var d := major - alert;
    assert (alert - alert) / d == 0.0;
    assert d / d == 1.0;
  }

  /** The score is strictly increasing in the level and is not clamped to [0, 1]. */
  lemma FloodScoreStrictlyIncreasing(low: real, high: real, t: Thresholds)
    requires low < high
    requires t.alertLevel.GetOr(0.0) < t.majorFloodLevel.GetOr(0.0)
    ensures CalculateFloodScore(Some(low), t).value < CalculateFloodScore(Some(high), t).value
  {
    var alert, major := t.alertLevel.GetOr(0.0), t.majorFloodLevel.GetOr(0.0);
    var sl, sh := CalculateFloodScore(Some(low), t).value, CalculateFloodScore(Some(high), t).value;
    assert (sh - sl) * (major - alert) == high - low;
  }

  /**
   * With present, ordered thresholds and a non-degenerate scale, score and
   * status agree: score >= 1 exactly when MAJOR, score >= 0 exactly when the
   * status is ALERT or worse.
   */
  lemma FloodScoreAgreesWithStatus(level: real, alert: real, minor: real, major: real)
    requires alert <= minor <= major && alert < major
    ensures var t := Thresholds(Some(alert), Some(minor), Some(major));
      var score := CalculateFloodScore(Some(level), t).value;
      var status := CalculateAlertStatus(Some(level), t);
      && (score >= 1.0 <==> status == MAJOR)
      && (score >= 0.0 <==> status.Rank() >= 1)
  {
    var t := Thresholds(Some(alert), Some(minor), Some(major));
    var score := CalculateFloodScore(Some(level), t).value;
    assert score * (major - alert) == level - alert;
    assert (score - 1.0) * (major - alert) == level - major;
    SignOfScaled(score, major - alert);
    SignOfScaled(score - 1.0, major - alert);
  }

  lemma SignOfScaled(x: real, d: real)
    requires d > 0.0
    ensures x * d >= 0.0 <==> x >= 0.0
  {
    if x < 0.0 {
      assert x * d == -((-x) * d);
    }
  }
}
