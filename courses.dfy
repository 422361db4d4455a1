/**
 * Courses: the search-box classification, the short display name, the offered periods
 * of a term, the last term offered, the short description and the instructor list.
 */
module Courses {
  import opened Wrappers
  import opened Ids
  import opened Strs
  import opened Seqs
  import opened Terms

  datatype Course = Course(id: CourseId, title: string, department: string, number: Option<int>, description: string)

  /** The longest prefix of `s` without an ASCII digit (`\D*`). */
  function NonDigitPrefix(s: string): (d: string)
    ensures |d| <= |s| && d == s[..|d|]
    ensures forall i :: 0 <= i < |d| ==> !IsDigit(d[i])
    ensures |d| < |s| ==> IsDigit(s[|d|])
    decreases |s|
  {
    if |s| > 0 && !IsDigit(s[0]) then [s[0]] + NonDigitPrefix(s[1..]) else ""
  }

  /**
   * The `department_or_query` and `number` groups of `^(\D*)(\d*)(.*)`, each stripped;
   * the pattern matches every query.
   */
  function SearchGroups(query: string): (g: (string, string))
  {
    var dept := NonDigitPrefix(query);
    var number := DigitPrefix(query[|dept|..]);
    (PyStrip(dept), PyStrip(number))
  }

  /** What a search query asks the course table for. */
  datatype SearchPlan =
    | NoResults
    | TitleFieldError(text: string)
    | DepartmentAndNumber(department: string, number: nat)
    | DepartmentOrTitle(text: string)

  /** `CourseManager.search`, up to the query it runs. */
  function ClassifySearch(query: string): (p: SearchPlan)
    ensures SearchGroups(query).0 == "" <==> p == NoResults
    ensures p.TitleFieldError? <==> SearchGroups(query).0 != "" && !(2 <= |SearchGroups(query).0| <= 4)
  {
    var (dept, number) := SearchGroups(query);
    if dept == "" then NoResults
    else if !(2 <= |dept| <= 4) then TitleFieldError(dept)
    else if number != "" then
      DigitPrefixAllDigits(query[|NonDigitPrefix(query)|..]);
      DepartmentAndNumber(dept, DigitsValue(number))
    else DepartmentOrTitle(dept)
  }

  lemma DigitPrefixAllDigits(s: string)
    ensures AllDigits(PyStrip(DigitPrefix(s)))
  {
    var d := DigitPrefix(s);
    if |d| > 0 {
      assert !IsPySpace(d[0]) && !IsPySpace(d[|d| - 1]);
    }
    PyStripNoOp(d);
  }

  /** Django's `__iexact` (ASCII letters). */
  predicate IExact(a: string, b: string)
  {
    Lower(a) == Lower(b)
  }

  /** Django's `__icontains` (ASCII letters). */
  predicate IContains(text: string, part: string)
  {
    Contains(Lower(text), Lower(part))
  }

  function InDepartment(dept: string): Course -> bool
  {
    (c: Course) => IExact(c.department, dept)
  }

  function InDepartmentWithNumber(dept: string, number: nat): Course -> bool
  {
    (c: Course) => IExact(c.department, dept) && c.number == Some(number)
  }

  function TitleContains(text: string): Course -> bool
  {
    (c: Course) => IContains(c.title, text)
  }

  /** The query raises a FieldError: the model has `course_title`, not `title`. */
  datatype SearchError = UnknownField(name: string)

  /**
   * The courses a search plan returns, in table order (the `order_by("number")` of the
   * department match is not modelled).
   */
  function RunPlan(courses: seq<Course>, plan: SearchPlan): (r: Result<seq<Course>, SearchError>)
    ensures r.Err? <==> plan.TitleFieldError?
    ensures r.Ok? ==> forall k :: 0 <= k < |r.value| ==> r.value[k] in courses
    ensures plan.NoResults? ==> r == Ok([])
  {
    match plan
    case NoResults => Ok([])
    case TitleFieldError(_) => Err(UnknownField("title"))
    case DepartmentAndNumber(dept, number) => Ok(Filter(courses, InDepartmentWithNumber(dept, number)))
    case DepartmentOrTitle(text) =>
      var byDept := Filter(courses, InDepartment(text));
      if |byDept| == 0 then Ok(Filter(courses, TitleContains(text))) else Ok(byDept)
  }

  /** `CourseManager.search`. */
  function RunSearch(courses: seq<Course>, query: string): Result<seq<Course>, SearchError>
  {
    RunPlan(courses, ClassifySearch(query))
  }

  /** A department-only search falls back to titles exactly when no course is in that department. */
  lemma DepartmentOrTitleFallback(courses: seq<Course>, text: string)
    ensures (forall k :: 0 <= k < |courses| ==> !IExact(courses[k].department, text)) ==>
      RunPlan(courses, DepartmentOrTitle(text)) == Ok(Filter(courses, TitleContains(text)))
    ensures (exists k :: 0 <= k < |courses| && IExact(courses[k].department, text)) ==>
      RunPlan(courses, DepartmentOrTitle(text)) == Ok(Filter(courses, InDepartment(text)))
  {
    FilterEmpty(courses, InDepartment(text));
  }

  /** `n` zero-filled to `width` digits. */
  function ZeroFill(s: string, width: nat): (r: string)
    ensures |r| == if |s| >= width then |s| else width
    ensures r[|r| - |s|..] == s
    ensures forall i :: 0 <= i < |r| - |s| ==> r[i] == '0'
  {
    if |s| >= width then s else seq(width - |s|, i => '0') + s
  }

  /** `format(n, "03d")`: at least three characters, zeros after the sign. */
  function Pad3(n: int): (s: string)
    ensures |s| >= 3
  {
    if n >= 0 then ZeroFill(NatToString(n), 3) else "-" + ZeroFill(NatToString(-n), 2)
  }

  /** `short_name`: the department and the zero-filled number; a missing number makes `format` raise. */
  function ShortName(c: Course): (r: Option<string>)
    ensures c.number.None? <==> r.None?
    ensures c.number.Some? ==> r == Some(c.department + Pad3(c.number.value))
  {
    if c.number.None? then None else Some(c.department + Pad3(c.number.value))
  }

  lemma {:induction false} ZerosValue(z: string, s: string)
    requires forall i :: 0 <= i < |z| ==> z[i] == '0'
    requires AllDigits(s)
    ensures AllDigits(z + s) && DigitsValue(z + s) == DigitsValue(s)
    decreases |s|
  {
    var t := z + s;
    assert AllDigits(t) by {
      forall i | 0 <= i < |t| ensures IsDigit(t[i]) {
        if i < |z| { assert t[i] == z[i]; } else { assert t[i] == s[i - |z|]; }
      }
    }
    if |s| == 0 {
      assert t == z;
      ZerosOnly(z);
    } else {
      assert t[..|t| - 1] == z + s[..|s| - 1];
      ZerosValue(z, s[..|s| - 1]);
    }
  }

  lemma {:induction false} ZerosOnly(z: string)
    requires forall i :: 0 <= i < |z| ==> z[i] == '0'
    ensures AllDigits(z) && DigitsValue(z) == 0
    decreases |z|
  {
    if |z| > 0 {
      ZerosOnly(z[..|z| - 1]);
    }
  }

  /** A zero-filled decimal text reads back as the number. */
  lemma ZeroFillValue(n: nat, width: nat)
    ensures AllDigits(ZeroFill(NatToString(n), width)) && DigitsValue(ZeroFill(NatToString(n), width)) == n
  {
    var digits := NatToString(n);
    var f := ZeroFill(digits, width);
    NatToStringValue(n);
    var z := f[..|f| - |digits|];
    assert f == z + digits;
    ZerosValue(z, digits);
  }

  /** The padded number reads back as the number. */
  lemma Pad3Value(n: int)
    ensures PyInt(Pad3(n)) == Some(n)
  {
    if n >= 0 {
      var f := ZeroFill(NatToString(n), 3);
      ZeroFillValue(n, 3);
      PyIntOfDigits(f);
    } else {
      var f := ZeroFill(NatToString(-n), 2);
      ZeroFillValue(-n, 2);
      PyIntOfNegatedDigits(f, n);
    }
  }

  /** Numbers from 0 to 999 print as exactly three digits. */
  lemma Pad3Width(n: int)
    requires 0 <= n < 1000
    ensures |Pad3(n)| == 3 && AllDigits(Pad3(n))
  {
    NatToStringLength(n);
  }

  lemma {:induction false} NonDigitPrefixConcat(a: string, b: string)
    requires forall i :: 0 <= i < |a| ==> !IsDigit(a[i])
    requires |b| > 0 && IsDigit(b[0])
    ensures NonDigitPrefix(a + b) == a
    decreases |a|
  {
    if |a| > 0 {
      assert (a + b)[1..] == a[1..] + b;
      NonDigitPrefixConcat(a[1..], b);
    } else {
      assert a + b == b;
    }
  }

  lemma LetterOrDigitNotSpace(c: char)
    requires IsLetter(c) || IsDigit(c)
    ensures !IsPySpace(c)
  {
  }

  /** The search groups of a department followed by a digit string are the two. */
  lemma SearchGroupsOfSplit(d: string, digits: string)
    requires |d| > 0 && forall i :: 0 <= i < |d| ==> IsLetter(d[i])
    requires |digits| > 0 && AllDigits(digits)
    ensures SearchGroups(d + digits) == (d, digits)
  {
    var q := d + digits;
    NonDigitPrefixConcat(d, digits);
    assert q[|d|..] == digits;
    DigitPrefixAll(digits);
    LetterOrDigitNotSpace(d[0]);
    LetterOrDigitNotSpace(d[|d| - 1]);
    PyStripNoOp(d);
    LetterOrDigitNotSpace(digits[0]);
    LetterOrDigitNotSpace(digits[|digits| - 1]);
    PyStripNoOp(digits);
  }

  /** The search groups of a short name are its department and its padded number. */
  lemma SearchGroupsOfShortName(d: string, n: nat)
    requires 2 <= |d| <= 4 && forall i :: 0 <= i < |d| ==> IsLetter(d[i])
    ensures SearchGroups(d + Pad3(n)) == (d, Pad3(n))
    ensures AllDigits(Pad3(n)) && DigitsValue(Pad3(n)) == n
  {
    ZeroFillValue(n, 3);
    assert Pad3(n) == ZeroFill(NatToString(n), 3);
    SearchGroupsOfSplit(d, Pad3(n));
  }

  /**
   * Searching for a course's short name, when its department is two to four letters
   * and its number is not negative, asks for that department and number, and the
   * course is among the results.
   */
  lemma ShortNameFound(courses: seq<Course>, c: Course)
    requires c in courses
    requires 2 <= |c.department| <= 4 && forall i :: 0 <= i < |c.department| ==> IsLetter(c.department[i])
    requires c.number.Some? && c.number.value >= 0
    ensures ClassifySearch(ShortName(c).value) == DepartmentAndNumber(c.department, c.number.value)
    ensures RunSearch(courses, ShortName(c).value).Ok? && c in RunSearch(courses, ShortName(c).value).value
  {
    SearchGroupsOfShortName(c.department, c.number.value);
    FilterKeeps(courses, InDepartmentWithNumber(c.department, c.number.value), c);
  }

  /** One offering of a course in a term, with its class period and instructors. */
  datatype Instructor = Instructor(id: int, name: string)
  datatype Offering = Offering(term: string, period: string, instructors: seq<Instructor>)

  predicate ShortPeriod(o: Offering, term: string)
  {
    o.term == term && |o.period| <= 3
  }

  predicate LongPeriod(o: Offering, term: string)
  {
    o.term == term && |o.period| > 3
  }

  /**
   * `offered_times`: the distinct periods of at most three characters among the term's
   * offerings (in some order), then "other" iff a term offering has a longer period.
   */
  method OfferedTimes(offerings: seq<Offering>, term: string) returns (times: seq<string>)
    ensures var redacted := exists k :: 0 <= k < |offerings| && LongPeriod(offerings[k], term);
      var short := if redacted && |times| >= 1 then times[..|times| - 1] else times;
      (redacted ==> |times| >= 1 && times[|times| - 1] == "other")
      && (forall i, j :: 0 <= i < j < |short| ==> short[i] != short[j])
      && (forall p :: p in short <==> exists k :: 0 <= k < |offerings| && ShortPeriod(offerings[k], term) && offerings[k].period == p)
  {
    var distinct: seq<string> := [];
    var redacted := false;
    var i := 0;
    while i < |offerings|
      invariant 0 <= i <= |offerings|
      invariant forall a, b :: 0 <= a < b < |distinct| ==> distinct[a] != distinct[b]
      invariant forall p :: p in distinct <==> exists k :: 0 <= k < i && ShortPeriod(offerings[k], term) && offerings[k].period == p
      invariant redacted <==> exists k :: 0 <= k < i && LongPeriod(offerings[k], term)
    {
      var o := offerings[i];
      if o.term == term {
        if |o.period| <= 3 {
          if o.period !in distinct {
            distinct := distinct + [o.period];
          }
        } else {
          redacted := true;
        }
      }
      i := i + 1;
    }
    times := if redacted then distinct + ["other"] else distinct;
    if redacted {
      assert times[..|times| - 1] == distinct;
    }
  }

  /** `prefetched_is_offered`: some offering is in the term. */
  method PrefetchedIsOffered(offerings: seq<Offering>, term: string) returns (offered: bool)
    ensures offered <==> exists k :: 0 <= k < |offerings| && offerings[k].term == term
  {
    var i := 0;
    while i < |offerings|
      invariant 0 <= i <= |offerings|
      invariant forall k :: 0 <= k < i ==> offerings[k].term != term
    {
      if offerings[i].term == term {
        return true;
      }
      i := i + 1;
    }
    return false;
  }

  /**
   * `last_offered`: the last offering's term, or else the first median term with the
   * greatest positive numeric value, or None; a winter term among the medians makes
   * `numeric_value_of_term` raise.
   */
  method LastOffered(offerings: seq<Offering>, medianTerms: seq<string>) returns (r: Result<Option<string>, TermError>)
    ensures |offerings| > 0 ==> r == Ok(Some(offerings[|offerings| - 1].term))
    ensures |offerings| == 0 ==>
      (r.Err? <==> exists k :: 0 <= k < |medianTerms| && NumericValueOfTerm(medianTerms[k]).Err?)
    ensures |offerings| == 0 && r == Ok(None) ==>
      forall k :: 0 <= k < |medianTerms| ==> NumericValueOfTerm(medianTerms[k]) == Ok(0)
    ensures |offerings| == 0 && r.Ok? && r.value.Some? ==>
      exists k :: 0 <= k < |medianTerms| && medianTerms[k] == r.value.value
        && NumericValueOfTerm(medianTerms[k]).Ok? && NumericValueOfTerm(medianTerms[k]).value > 0
        && (forall j :: 0 <= j < |medianTerms| ==> NumericValueOfTerm(medianTerms[j]).Ok? && NumericValueOfTerm(medianTerms[j]).value <= NumericValueOfTerm(medianTerms[k]).value)
        && (forall j :: 0 <= j < k ==> NumericValueOfTerm(medianTerms[j]).value < NumericValueOfTerm(medianTerms[k]).value)
  {
    if |offerings| > 0 {
      return Ok(Some(offerings[|offerings| - 1].term));
    }
    var maxTerm: Option<string> := None;
    var maxValue: nat := 0;
    ghost var maxIndex := 0;
    var i := 0;
    while i < |medianTerms|
      invariant 0 <= i <= |medianTerms|
      invariant forall j :: 0 <= j < i ==> NumericValueOfTerm(medianTerms[j]).Ok? && NumericValueOfTerm(medianTerms[j]).value <= maxValue
      invariant maxTerm.None? ==> maxValue == 0
      invariant maxTerm.Some? ==> (0 <= maxIndex < i && medianTerms[maxIndex] == maxTerm.value
        && NumericValueOfTerm(medianTerms[maxIndex]) == Ok(maxValue) && maxValue > 0
        && forall j :: 0 <= j < maxIndex ==> NumericValueOfTerm(medianTerms[j]).value < maxValue)
    {
      var value := NumericValueOfTerm(medianTerms[i]);
      if value.Err? {
        return Err(value.error);
      }
      if value.value > maxValue {
        maxTerm := Some(medianTerms[i]);
        maxValue := value.value;
        maxIndex := i;
      }
      i := i + 1;
    }
    r := Ok(maxTerm);
  }

  /** `short_description`: the first two ". "-separated sentences and "...", None for an empty text. */
  function ShortDescription(description: string): (r: Option<string>)
    ensures description == "" <==> r.None?
  {
    if description == "" then None
    else
      var parts := SplitOn(description, ". ");
      Some(Join(parts[..if |parts| < 2 then |parts| else 2], ". ") + "...")
  }

  /** The short description is a prefix of the description followed by "...", the whole text iff it has at most one ". ". */
  lemma ShortDescriptionIsPrefix(description: string)
    requires description != ""
    ensures var r := ShortDescription(description).value;
      |r| >= 3 && r[|r| - 3..] == "..." && |r| - 3 <= |description|
      && r[..|r| - 3] == description[..|r| - 3]
      && (|SplitOn(description, ". ")| <= 2 ==> |r| - 3 == |description|)
      && (|SplitOn(description, ". ")| > 2 ==> |r| - 3 < |description|)
  {
    var parts := SplitOn(description, ". ");
    JoinSplit(description, ". ");
    var n := if |parts| < 2 then |parts| else 2;
    var head := Join(parts[..n], ". ");
    if |parts| > 2 {
      var tail := Join(parts[2..], ". ");
      assert parts[..n] == [parts[0], parts[1]];
      assert [parts[0], parts[1]][1..] == [parts[1]];
      assert parts[1..][1..] == parts[2..];
      assert Join(parts[1..], ". ") == parts[1] + ". " + tail;
      assert Join(parts, ". ") == parts[0] + ". " + (parts[1] + ". " + tail);
      assert Join(parts[..n], ". ") == parts[0] + ". " + Join([parts[0], parts[1]][1..], ". ");
      assert head == parts[0] + ". " + parts[1];
      assert parts[0] + ". " + (parts[1] + ". " + tail) == head + ". " + tail;
      assert |head| < |description|;
    } else {
      assert parts[..n] == parts;
    }
    var r := head + "...";
    assert r[..|r| - 3] == head;
  }

  /** The instructors of `offerings` whose ids are not in `seen`, first occurrences only, in order. */
  function DedupFrom(s: seq<Instructor>, seen: set<int>): (r: seq<Instructor>)
    ensures forall k :: 0 <= k < |r| ==> r[k] in s && r[k].id !in seen
    decreases |s|
  {
    if |s| == 0 then []
    else if s[0].id in seen then DedupFrom(s[1..], seen)
    else [s[0]] + DedupFrom(s[1..], seen + {s[0].id})
  }

  predicate DistinctIds(r: seq<Instructor>)
  {
    forall a, b :: 0 <= a < b < |r| ==> r[a].id != r[b].id
  }

  /** No two kept instructors share an id. */
  lemma {:induction false} DedupDistinct(s: seq<Instructor>, seen: set<int>)
    ensures DistinctIds(DedupFrom(s, seen))
    decreases |s|
  {
    if |s| > 0 {
      if s[0].id in seen {
        DedupDistinct(s[1..], seen);
        assert DedupFrom(s, seen) == DedupFrom(s[1..], seen);
      } else {
        var rest := DedupFrom(s[1..], seen + {s[0].id});
        DedupDistinct(s[1..], seen + {s[0].id});
        assert DedupFrom(s, seen) == [s[0]] + rest;
        DistinctCons(s[0], rest);
      }
    }
  }

  /** An instructor whose id none of `rest` has can go in front of distinct `rest`. */
  lemma DistinctCons(x: Instructor, rest: seq<Instructor>)
    requires DistinctIds(rest) && forall k :: 0 <= k < |rest| ==> rest[k].id != x.id
    ensures DistinctIds([x] + rest)
  {
    var r := [x] + rest;
    forall a, b | 0 <= a < b < |r|
      ensures r[a].id != r[b].id
    {
      assert r[b] == rest[b - 1];
      if a > 0 {
        assert r[a] == rest[a - 1];
      }
    }
  }

  /** The ids that occur in `s`. */
  function IdSet(s: seq<Instructor>): set<int>
    decreases |s|
  {
    if |s| == 0 then {} else {s[0].id} + IdSet(s[1..])
  }

  /** Exactly the ids of `s` outside `seen` are kept. */
  lemma {:induction false} DedupKeepsIds(s: seq<Instructor>, seen: set<int>)
    ensures IdSet(DedupFrom(s, seen)) == IdSet(s) - seen
    decreases |s|
  {
    if |s| > 0 {
      if s[0].id in seen {
        DedupKeepsIds(s[1..], seen);
      } else {
        DedupKeepsIds(s[1..], seen + {s[0].id});
        var rest := DedupFrom(s[1..], seen + {s[0].id});
        assert ([s[0]] + rest)[1..] == rest;
      }
    }
  }

  /** The first instructor of `s` with this id. */
  function FirstWithId(s: seq<Instructor>, id: int): Option<Instructor>
    decreases |s|
  {
    if |s| == 0 then None else if s[0].id == id then Some(s[0]) else FirstWithId(s[1..], id)
  }

  predicate FirstOccurrences(s: seq<Instructor>, r: seq<Instructor>)
  {
    forall k :: 0 <= k < |r| ==> FirstWithId(s, r[k].id) == Some(r[k])
  }

  /** Each kept instructor is the first occurrence of its id. */
  lemma {:induction false} DedupKeepsFirst(s: seq<Instructor>, seen: set<int>)
    ensures FirstOccurrences(s, DedupFrom(s, seen))
    decreases |s|
  {
    if |s| > 0 {
      var r := DedupFrom(s, seen);
      if s[0].id in seen {
        DedupKeepsFirst(s[1..], seen);
        assert r == DedupFrom(s[1..], seen);
        assert FirstOccurrences(s[1..], r);
        forall k | 0 <= k < |r|
          ensures FirstWithId(s, r[k].id) == Some(r[k])
        {
          assert r[k].id !in seen;
          assert FirstWithId(s, r[k].id) == FirstWithId(s[1..], r[k].id);
        }
      } else {
        var seen' := seen + {s[0].id};
        DedupKeepsFirst(s[1..], seen');
        var rest := DedupFrom(s[1..], seen');
        assert r == [s[0]] + rest;
        assert FirstOccurrences(s[1..], rest);
        forall k | 0 <= k < |r|
          ensures FirstWithId(s, r[k].id) == Some(r[k])
        {
          if k > 0 {
            assert r[k] == rest[k - 1];
            assert rest[k - 1].id !in seen';
            assert FirstWithId(s, r[k].id) == FirstWithId(s[1..], r[k].id);
          }
        }
      }
    }
  }

  /** The instructors of the offerings in `term` (all offerings when `term` is empty), in order. */
  function AllInstructors(offerings: seq<Offering>, term: string): seq<Instructor>
    decreases |offerings|
  {
    if |offerings| == 0 then []
    else
      var rest := AllInstructors(offerings[..|offerings| - 1], term);
      var o := offerings[|offerings| - 1];
      if term == "" || o.term == term then rest + o.instructors else rest
  }

  /**
   * `get_instructors`: the instructors of the term's offerings with duplicate ids
   * removed, keeping first occurrences in order.
   */
  method GetInstructors(offerings: seq<Offering>, term: string) returns (unique: seq<Instructor>)
    ensures unique == DedupFrom(AllInstructors(offerings, term), {})
  {
    var instructors: seq<Instructor> := [];
    var i := 0;
    while i < |offerings|
      invariant 0 <= i <= |offerings|
      invariant instructors == AllInstructors(offerings[..i], term)
    {
      assert offerings[..i + 1][..i] == offerings[..i];
      if term == "" || offerings[i].term == term {
        instructors := instructors + offerings[i].instructors;
      }
      i := i + 1;
    }
    assert offerings[..i] == offerings;
    unique := [];
    var seen: set<int> := {};
    var j := 0;
    while j < |instructors|
      invariant 0 <= j <= |instructors|
      invariant unique + DedupFrom(instructors[j..], seen) == DedupFrom(instructors, {})
    {
      assert instructors[j..][1..] == instructors[j + 1..];
      if instructors[j].id !in seen {
        seen := seen + {instructors[j].id};
        unique := unique + [instructors[j]];
      }
      j := j + 1;
    }
  }
}
