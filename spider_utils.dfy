/** The crawler's small parsers: department-code clean-up, `int_or_none` and course-number parsing. */
module SpiderUtils {
  import opened Wrappers
  import opened Strs

  /** `DEPARTMENT_CORRECTIONS.get(code, code)`. */
  function Corrected(code: string): string
  {
    if code == "M&SS" then "QSS" else if code == "WGST" then "WGSS" else code
  }

  /** `clean_department_code` without the HTML unescape: strip, upper-case, then apply the two renames. */
  function CleanDepartmentCode(department: string): (r: string)
    ensures Upper(PyStrip(department)) == "M&SS" ==> r == "QSS"
    ensures Upper(PyStrip(department)) == "WGST" ==> r == "WGSS"
    ensures Upper(PyStrip(department)) !in {"M&SS", "WGST"} ==> r == Upper(PyStrip(department))
  {
    Corrected(Upper(PyStrip(department)))
  }

  /** ASCII upper-casing changes no character's whitespace class. */
  lemma UpperKeepsSpace(c: char)
    ensures IsPySpace(UpperChar(c)) == IsPySpace(c)
  {
  }

  /** Upper-casing a string with no whitespace at either end leaves none there. */
  lemma UpperStripped(s: string)
    requires s == [] || (!IsPySpace(s[0]) && !IsPySpace(s[|s| - 1]))
    ensures PyStrip(Upper(s)) == Upper(s)
  {
    if s != [] {
      UpperKeepsSpace(s[0]);
      UpperKeepsSpace(s[|s| - 1]);
    }
    PyStripNoOp(Upper(s));
  }

  /** The renamed codes are upper-case, stripped and not renamed again. */
  lemma CorrectedFixed(u: string)
    requires Upper(u) == u && PyStrip(u) == u
    ensures Upper(Corrected(u)) == Corrected(u) && PyStrip(Corrected(u)) == Corrected(u)
    ensures Corrected(Corrected(u)) == Corrected(u)
  {
    if u == "M&SS" {
      assert Upper("QSS") == "QSS";
      PyStripNoOp("QSS");
    } else if u == "WGST" {
      assert Upper("WGSS") == "WGSS";
      PyStripNoOp("WGSS");
    }
  }

  /** A cleaned code is its own clean form: cleaning twice is cleaning once. */
  lemma CleanIdempotent(department: string)
    ensures CleanDepartmentCode(CleanDepartmentCode(department)) == CleanDepartmentCode(department)
  {
    var s := PyStrip(department);
    PyStripEnds(department);
    UpperStripped(s);
    UpperIdempotent(s);
    CorrectedFixed(Upper(s));
  }

  /** `int(s)` raised ValueError. */
  datatype ValueError = ValueError

  /** `int_or_none`: None and "" give None, anything else `int(s)`. */
  function IntOrNone(s: Option<string>): (r: Result<Option<int>, ValueError>)
    ensures (s == None || s == Some("")) ==> r == Ok(None)
    ensures s.Some? && s.value != "" ==> (r.Ok? <==> PyInt(s.value).Some?)
    ensures r.Ok? && r.value.Some? ==> s.Some? && PyInt(s.value) == r.value
  {
    if s.None? || s.value == "" then Ok(None)
    else match PyInt(s.value)
      case None => Err(ValueError)
      case Some(i) => Ok(Some(i))
  }

  /** `int_or_none(str(i))` is `i`. */
  lemma IntOrNoneOfInt(i: int)
    ensures IntOrNone(Some(IntToString(i))) == Ok(Some(i))
  {
    PyIntOfIntToString(i);
    assert |NatToString(if i < 0 then -i else i)| >= 1;
  }

  /** Why `parse_number_and_subnumber` raised. */
  datatype NumberError = NotAnInteger | TooManyDots

  /**
   * `parse_number_and_subnumber`: "a.b" gives (int a, int b), "a" gives (int a, None),
   * and more than one dot fails the assertion.
   */
  function ParseNumberAndSubnumber(text: string): (r: Result<(int, Option<int>), NumberError>)
    ensures r == Err(TooManyDots) <==> |SplitOn(text, ".")| > 2
    ensures r.Ok? ==> PyInt(SplitOn(text, ".")[0]) == Some(r.value.0)
    ensures r.Ok? ==> (r.value.1.Some? <==> |SplitOn(text, ".")| == 2)
  {
    var numbers := SplitOn(text, ".");
    if |numbers| == 2 then
      match (PyInt(numbers[0]), PyInt(numbers[1]))
      case (Some(a), Some(b)) => Ok((a, Some(b)))
      case _ => Err(NotAnInteger)
    else if |numbers| == 1 then
      match PyInt(numbers[0])
      case Some(a) => Ok((a, None))
      case None => Err(NotAnInteger)
    else Err(TooManyDots)
  }

  /** More than one dot is exactly what fails the assertion. */
  lemma TooManyDotsIff(text: string)
    ensures ParseNumberAndSubnumber(text) == Err(TooManyDots) <==> Count(text, '.') >= 2
  {
    SplitCount(text, '.');
  }

  /** `str(a) + "." + str(b)` parses back to (a, b), and `str(a)` to (a, None). */
  lemma ParseNumberRoundTrip(a: int, b: int)
    ensures ParseNumberAndSubnumber(IntToString(a) + "." + IntToString(b)) == Ok((a, Some(b)))
    ensures ParseNumberAndSubnumber(IntToString(a)) == Ok((a, None))
  {
    NoDot(a);
    NoDot(b);
    SplitNoSep(IntToString(b), '.');
    SplitFirst(IntToString(a), '.', IntToString(b));
    assert IntToString(a) + "." + IntToString(b) == IntToString(a) + ['.'] + IntToString(b);
    PyIntOfIntToString(a);
    PyIntOfIntToString(b);
    SplitNoSep(IntToString(a), '.');
  }

  /** The decimal text of an integer has no dot. */
  lemma NoDot(i: int)
    ensures '.' !in IntToString(i)
  {
    var n := if i < 0 then -i else i;
    assert AllDigits(NatToString(n));
    if i < 0 {
      assert IntToString(i) == "-" + NatToString(n);
      assert forall k :: 0 <= k < |IntToString(i)| ==> IntToString(i)[k] != '.' by {
        forall k | 0 <= k < |IntToString(i)| ensures IntToString(i)[k] != '.' {
          if k > 0 { assert IntToString(i)[k] == NatToString(n)[k - 1]; }
        }
      }
    }
  }
}
