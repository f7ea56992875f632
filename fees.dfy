/**
 * The parking fee of app.py: Ksh. 100 per hour, never less than Ksh. 100,
 * `max(100, round(hours * 100, 2))`. Amounts are kept in cents (hundredths
 * of a shilling), so rounding to two decimals is rounding to the nearest
 * cent. The exit page charges by the whole minutes it shows; the revenue
 * figures charge by the exact session length, here in whole seconds.
 */
module Fees {
  /** Ksh. 100 */
  const MinimumChargeCents := 10000

  /** hours * 100 shillings = 500 * minutes / 3 cents, to the nearest cent (a third never ties). */
  function CentsForMinutes(minutes: int): int {
    (500 * minutes + 1) / 3
  }

  /** hours * 100 shillings = 25 * seconds / 9 cents, to the nearest cent (a ninth never ties). */
  function CentsForSeconds(seconds: int): int {
    (25 * seconds + 4) / 9
  }

  /** The fee shown and charged on the exit page for a stay of `minutes`. */
  function ExitFeeCents(minutes: int): (r: int)
    ensures r >= MinimumChargeCents && r >= CentsForMinutes(minutes)
    ensures r == MinimumChargeCents || r == CentsForMinutes(minutes)
  {
    var c := CentsForMinutes(minutes);
    if c < MinimumChargeCents then MinimumChargeCents else c
  }

  /** The fee the revenue figures count for a closed session of `seconds`. */
  function SessionFeeCents(seconds: int): (r: int)
    ensures r >= MinimumChargeCents && r >= CentsForSeconds(seconds)
    ensures r == MinimumChargeCents || r == CentsForSeconds(seconds)
  {
    var c := CentsForSeconds(seconds);
    if c < MinimumChargeCents then MinimumChargeCents else c
  }

  /** `int(seconds / 60)`: whole minutes, truncated toward zero. */
  function MinutesParked(seconds: int): (r: int)
    ensures seconds >= 0 ==> 0 <= 60 * r <= seconds
    ensures seconds <= 0 ==> seconds <= 60 * r <= 0
    ensures -60 < seconds < 60 ==> r == 0
  {
    if seconds >= 0 then seconds / 60 else -((-seconds) / 60)
  }

  /** The rounded amount is within half a cent of the exact 500 * minutes / 3 cents. */
  lemma MinutesRounding(minutes: int)
    ensures -3 < 2 * (3 * CentsForMinutes(minutes) - 500 * minutes) <= 3
  {
  }

  /** The rounded amount is within half a cent of the exact 25 * seconds / 9 cents. */
  lemma SecondsRounding(seconds: int)
    ensures -9 < 2 * (9 * CentsForSeconds(seconds) - 25 * seconds) <= 9
  {
  }

  /**
   * The exit fee is never below Ksh. 100, is exactly Ksh. 100 for any stay
   * of at most an hour (five minutes, say), and is the rounded hourly
   * charge beyond that.
   */
  lemma ExitFeeFloor(minutes: int)
    ensures ExitFeeCents(minutes) >= MinimumChargeCents
    ensures minutes <= 60 ==> ExitFeeCents(minutes) == MinimumChargeCents
    ensures minutes > 60 ==> ExitFeeCents(minutes) == CentsForMinutes(minutes) > MinimumChargeCents
    ensures ExitFeeCents(5) == MinimumChargeCents
  {
    MinutesRounding(minutes);
    MinutesRounding(60);
  }

  /** A longer stay never costs less. */
  lemma ExitFeeMonotone(m1: int, m2: int)
    requires m1 <= m2
    ensures ExitFeeCents(m1) <= ExitFeeCents(m2)
  {
    MinutesRounding(m1);
    MinutesRounding(m2);
  }

  /** The session fee is never below Ksh. 100 and is exactly that for a session of at most an hour. */
  lemma SessionFeeFloor(seconds: int)
    ensures SessionFeeCents(seconds) >= MinimumChargeCents
    ensures seconds <= 3600 ==> SessionFeeCents(seconds) == MinimumChargeCents
    ensures seconds > 3600 ==> SessionFeeCents(seconds) == CentsForSeconds(seconds)
  {
    SecondsRounding(seconds);
    SecondsRounding(3600);
  }

  lemma SessionFeeMonotone(s1: int, s2: int)
    requires s1 <= s2
    ensures SessionFeeCents(s1) <= SessionFeeCents(s2)
  {
    SecondsRounding(s1);
    SecondsRounding(s2);
  }

  /** The minutes shown are the whole minutes of the stay, rounded toward zero. */
  lemma MinutesParkedBounds(seconds: int)
    ensures seconds >= 0 ==> 0 <= 60 * MinutesParked(seconds) <= seconds < 60 * (MinutesParked(seconds) + 1)
    ensures seconds < 0 ==> 60 * (MinutesParked(seconds) - 1) < seconds <= 60 * MinutesParked(seconds) <= 0
  {
  }

  /** For a stay of whole minutes both formulas charge the same. */
  lemma WholeMinutesAgree(minutes: int)
    ensures SessionFeeCents(60 * minutes) == ExitFeeCents(minutes)
  {
    var q := (500 * minutes) / 3;
    var r := (500 * minutes) % 3;
    assert 500 * minutes == 3 * q + r && 0 <= r < 3;
    assert 25 * (60 * minutes) == 9 * q + 3 * r;
    assert CentsForMinutes(minutes) == q + (if r == 2 then 1 else 0);
    assert CentsForSeconds(60 * minutes) == q + (if r == 2 then 1 else 0);
  }

  /** Charging by the truncated minutes never asks more than charging by the exact length. */
  lemma ExitFeeAtMostSessionFee(seconds: int)
    requires seconds >= 0
    ensures ExitFeeCents(MinutesParked(seconds)) <= SessionFeeCents(seconds)
  {
    MinutesParkedBounds(seconds);
    WholeMinutesAgree(MinutesParked(seconds));
    SessionFeeMonotone(60 * MinutesParked(seconds), seconds);
  }
}
