/**
 * Academic terms such as "24F": a two-digit year and a season letter
 * (W winter, S spring, X summer, F fall).
 */
module Terms {
  import opened Wrappers
  import opened Strs

  datatype TermError = SeasonKeyError | TermIndexError | TermValueError

  predicate IsSeasonLetter(c: char) { c in "WSXFwsxf" }

  /**
   * `term_regex.match(t)` succeeds: two ASCII digits and a season letter, then the
   * end of the string, where Python's `$` also accepts a single trailing newline.
   */
  predicate MatchesTermRegex(t: string)
  {
    (|t| == 3 || (|t| == 4 && t[3] == '\n')) && IsDigit(t[0]) && IsDigit(t[1]) && IsSeasonLetter(t[2])
  }

  /** The two-digit year of a matching term. */
  function YearOf(t: string): nat
    requires MatchesTermRegex(t)
  {
    DigitVal(t[0]) * 10 + DigitVal(t[1])
  }

  /** The season table `{"s": 2, "x": 3, "f": 4}`, looked up by the lower-cased letter. */
  function SeasonRank(c: char): Option<nat>
  {
    match LowerChar(c)
    case 's' => Some(2)
    case 'x' => Some(3)
    case 'f' => Some(4)
    case _ => None
  }

  /**
   * `numeric_value_of_term`: year * 10 plus the season's rank; 0 for a string that
   * does not match the term regex; a KeyError for a winter term.
   */
  function NumericValueOfTerm(t: string): (r: Result<nat, TermError>)
    ensures !MatchesTermRegex(t) ==> r == Ok(0)
    ensures MatchesTermRegex(t) ==> (r.Err? <==> t[2] in "Ww")
    ensures r.Ok? && MatchesTermRegex(t) ==> r.value >= 2 && r.value / 10 == YearOf(t) && SeasonRank(t[2]) == Some(r.value % 10)
  {
    if !MatchesTermRegex(t) then Ok(0)
    else match SeasonRank(t[2])
      case Some(rank) => Ok(YearOf(t) * 10 + rank)
      case None => Err(SeasonKeyError)
  }

  /** A term `is_valid_term` accepts the shape of: three characters, a two-digit year, a season in X/S/F. */
  predicate WellFormed(t: string)
  {
    |t| == 3 && AllDigits(t[..2]) && UpperChar(t[2]) in "XSF"
  }

  /** The ordering of terms by value is year first, then season within the year (S < X < F). */
  lemma TermOrder(a: string, b: string)
    requires WellFormed(a) && WellFormed(b)
    ensures NumericValueOfTerm(a).Ok? && NumericValueOfTerm(b).Ok?
    ensures NumericValueOfTerm(a).value <= NumericValueOfTerm(b).value <==>
      YearOf(a) < YearOf(b) || (YearOf(a) == YearOf(b) && SeasonRank(a[2]).value <= SeasonRank(b[2]).value)
  {
    assert a[..2][0] == a[0] && a[..2][1] == a[1];
    assert b[..2][0] == b[0] && b[..2][1] == b[1];
  }

  /**
   * `is_valid_term` against the current term: false for a malformed term; when both
   * terms have a value, valid iff the term is not after the current one; when the
   * current term has none, only the season letters are compared.
   */
  function IsValidTerm(term: string, current: string): (r: Result<bool, TermError>)
  {
    if |term| != 3 || !AllDigits(term[..2]) || UpperChar(term[2]) !in "XSF" then Ok(false)
    else match NumericValueOfTerm(current)
      case Err(e) => Err(e)
      case Ok(currentValue) =>
        var termValue := NumericValueOfTerm(term).value;
        if termValue == 0 || currentValue == 0 then
          (if |current| < 3 then Err(TermIndexError) else Ok(!(UpperChar(term[2]) > UpperChar(current[2]))))
        else Ok(currentValue >= termValue)
  }

  /** A malformed term is never valid and never raises. */
  lemma IsValidTermRejectsMalformed(term: string, current: string)
    requires !WellFormed(term)
    ensures IsValidTerm(term, current) == Ok(false)
  {
  }

  /** For well-formed terms and a current term with a value, validity is "not later than the current term". */
  lemma IsValidTermIsOrder(term: string, current: string)
    requires WellFormed(term) && MatchesTermRegex(current) && current[2] !in "Ww"
    ensures IsValidTerm(term, current).Ok?
    ensures IsValidTerm(term, current).value <==> NumericValueOfTerm(term).value <= NumericValueOfTerm(current).value
  {
    assert term[..2][0] == term[0] && term[..2][1] == term[1];
  }

  /** A winter current term makes every well-formed term raise, as the season table has no "w". */
  lemma IsValidTermWinterCurrent(term: string, current: string)
    requires WellFormed(term) && MatchesTermRegex(current) && current[2] in "Ww"
    ensures IsValidTerm(term, current) == Err(SeasonKeyError)
  {
  }

  /** `split_term`: the year as an int and the season upper-cased, or ValueError. */
  function SplitTerm(t: string): (r: Result<(nat, char), TermError>)
    ensures r.Ok? <==> MatchesTermRegex(t)
    ensures r.Ok? ==> r.value.0 == YearOf(t) && r.value.0 < 100 && r.value.1 == UpperChar(t[2]) && r.value.1 in "WSXF"
    ensures r.Err? ==> r.error == TermValueError
  {
    if MatchesTermRegex(t) then Ok((YearOf(t), UpperChar(t[2]))) else Err(TermValueError)
  }

  /** The season table of `get_next_term`. */
  function NextSeason(s: char): Option<char>
  {
    match s
    case 'W' => Some('S')
    case 'S' => Some('X')
    case 'X' => Some('F')
    case 'F' => Some('W')
    case _ => None
  }

  /** `get_next_term`: the following season, in the next year after fall; the year is printed unpadded. */
  function GetNextTerm(t: string): (r: Result<string, TermError>)
    ensures r.Err? <==> !MatchesTermRegex(t)
  {
    match SplitTerm(t)
    case Err(e) => Err(e)
    case Ok((year, season)) =>
      var y := if season == 'F' then year + 1 else year;
      Ok(NatToString(y) + [NextSeason(season).value])
  }

  /** The term with year `y` (10..99) and season `s`, as `get_next_term` prints it. */
  function MakeTerm(y: nat, s: char): string
  {
    NatToString(y) + [s]
  }

  lemma MakeTermParts(y: nat, s: char)
    requires 10 <= y < 100 && s in "WSXF"
    ensures |MakeTerm(y, s)| == 3 && MatchesTermRegex(MakeTerm(y, s))
    ensures YearOf(MakeTerm(y, s)) == y && UpperChar(MakeTerm(y, s)[2]) == s
  {
    NatToStringLength(y);
    NatToStringValue(y);
    var d := NatToString(y);
    assert d[..|d| - 1] == [d[0]];
    assert DigitsValue([d[0]]) == DigitVal(d[0]) by { assert [d[0]][..0] == []; }
  }

  /**
   * The successor of a term with year 10..98 is a three-character term that `split_term`
   * accepts: the season moves W→S→X→F→W and the year grows by one only when leaving F.
   */
  lemma NextTermStep(y: nat, s: char)
    requires 10 <= y <= 98 && s in "WSXF"
    ensures var n := GetNextTerm(MakeTerm(y, s));
      n.Ok? && |n.value| == 3 && SplitTerm(n.value).Ok?
      && SplitTerm(n.value).value == (if s == 'F' then y + 1 else y, NextSeason(s).value)
  {
    MakeTermParts(y, s);
    var y2 := if s == 'F' then y + 1 else y;
    MakeTermParts(y2, NextSeason(s).value);
    assert GetNextTerm(MakeTerm(y, s)) == Ok(MakeTerm(y2, NextSeason(s).value));
  }

  lemma NextTermMake(y: nat, s: char)
    requires 10 <= y <= 98 && s in "WSXF"
    ensures GetNextTerm(MakeTerm(y, s)) == Ok(MakeTerm(if s == 'F' then y + 1 else y, NextSeason(s).value))
  {
    MakeTermParts(y, s);
  }

  /** The year of a successor is not zero-padded: "05S" is followed by "5X". */
  lemma NextTermUnpadded()
    ensures GetNextTerm("05S") == Ok("5X")
  {
    assert MatchesTermRegex("05S");
    assert SplitTerm("05S") == Ok((5, 'S'));
    assert NatToString(5) == "5";
    assert NatToString(5) + ['X'] == "5X";
  }

  /** The fall term of year 99 is followed by a four-character term "100W". */
  lemma NextTermCentury()
    ensures GetNextTerm("99F") == Ok("100W")
  {
    assert MatchesTermRegex("99F");
    assert SplitTerm("99F") == Ok((99, 'F'));
    assert NatToString(1) == "1";
    assert NatToString(10) == NatToString(1) + "0";
    assert NatToString(100) == NatToString(10) + "0";
    assert NatToString(100) + ['W'] == "100W";
  }
}
