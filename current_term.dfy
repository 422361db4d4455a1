/** The current term derived from the calendar date (the clock is a parameter). */
module CurrentTerm {
  import opened Strs
  import Terms

  /** Months 2-4 are spring, 5-8 summer, and every other month fall. */
  function SeasonOfMonth(month: int): (s: char)
    ensures 2 <= month <= 4 ==> s == 'S'
    ensures 5 <= month <= 8 ==> s == 'X'
    ensures (month < 2 || month > 8) ==> s == 'F'
  {
    if 2 <= month <= 4 then 'S' else if 5 <= month <= 8 then 'X' else 'F'
  }

  /** `get_current_term`: `str(year)` without its first two characters, then the season letter. */
  function GetCurrentTerm(year: nat, month: int): string
  {
    var y := NatToString(year);
    (if |y| >= 2 then y[2..] else "") + [SeasonOfMonth(month)]
  }

  /** The last two decimal digits of a four-digit year. */
  lemma LastTwoDigits(year: nat)
    requires 1000 <= year <= 9999
    ensures var y := NatToString(year); |y| == 4 && y[2..] == [DigitChar((year / 10) % 10), DigitChar(year % 10)]
  {
    NatToStringLength(year);
    NatToStringLength(year / 10);
    NatToStringLength(year / 100);
    var y := NatToString(year);
    assert y == NatToString(year / 100) + [DigitChar((year / 10) % 10)] + [DigitChar(year % 10)];
  }

  /**
   * For a four-digit year the current term is a well-formed term whose year is the
   * year modulo 100 and whose value is positive.
   */
  lemma CurrentTermIsTerm(year: nat, month: int)
    requires 1000 <= year <= 9999
    ensures var t := GetCurrentTerm(year, month);
      |t| == 3 && Terms.MatchesTermRegex(t) && Terms.WellFormed(t) && Terms.YearOf(t) == year % 100
      && t[2] == SeasonOfMonth(month)
      && Terms.NumericValueOfTerm(t).Ok? && Terms.NumericValueOfTerm(t).value > 0
  {
    LastTwoDigits(year);
    var t := GetCurrentTerm(year, month);
    assert t[0] == DigitChar((year / 10) % 10) && t[1] == DigitChar(year % 10);
    assert t[..2][0] == t[0] && t[..2][1] == t[1];
  }
}
