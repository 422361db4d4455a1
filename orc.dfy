/**
 * The course-page crawler's text handling: the prerequisite normaliser, the
 * course-detail URL test, the heading and "Credits" regular expressions, the scan
 * over a page's text blocks, and the import of crawled records keyed by course code.
 */
module Orc {
  import opened Wrappers
  import opened Strs
  import opened Values

  const CourseDetailUrlPrefix: string := "https://www.ji.sjtu.edu.cn/academics/courses/courses-by-number/course-info/?id="
  const OrcBaseUrl: string := "https://www.ji.sjtu.edu.cn/academics/courses/courses-by-number/"

  /** The en dash of the page headings as it reads after a UTF-8/cp1252 mix-up, with a space on each side. */
  const HeadingSeparator: string := " \U{E2}\U{20AC}\U{201C} "

  // ---------------------------------------------------------------------------
  // Prerequisite text
  // ---------------------------------------------------------------------------

  /**
   * `extract_prerequisites`: drop "Pre-requisites:", join "Obtained Credit" and
   * "Credits Submitted" with underscores, pad "&&" and "||" with spaces, stripping
   * after every step.
   */
  function ExtractPrerequisites(text: string): (r: string)
    ensures r == [] || (!IsPySpace(r[0]) && !IsPySpace(r[|r| - 1]))
  {
    var r1 := PyStrip(ReplaceAll(text, "Pre-requisites:", ""));
    var r2 := PyStrip(ReplaceAll(r1, "Obtained Credit", "Obtained_Credit"));
    var r3 := PyStrip(ReplaceAll(r2, "Credits Submitted", "Credits_Submitted"));
    var r4 := PyStrip(ReplaceAll(r3, "&&", " && "));
    var r5 := ReplaceAll(r4, "||", " || ");
    PyStripEnds(r5);
    PyStrip(r5)
  }

  /** None of the five patterns the normaliser rewrites. */
  predicate Plain(text: string)
  {
    !Contains(text, "Pre-requisites:") && !Contains(text, "Obtained Credit") && !Contains(text, "Credits Submitted")
    && !Contains(text, "&&") && !Contains(text, "||")
  }

  /** Stripping keeps a string plain, and stripping twice is stripping once. */
  lemma StripPlain(text: string)
    requires Plain(text)
    ensures Plain(PyStrip(text)) && PyStrip(PyStrip(text)) == PyStrip(text)
  {
    StripKeepsAbsent(text, "Pre-requisites:");
    StripKeepsAbsent(text, "Obtained Credit");
    StripKeepsAbsent(text, "Credits Submitted");
    StripKeepsAbsent(text, "&&");
    StripKeepsAbsent(text, "||");
    PyStripIdempotent(text);
  }

  /** Text containing none of the five patterns is only stripped. */
  lemma PlainPrerequisites(text: string)
    requires Plain(text)
    ensures ExtractPrerequisites(text) == PyStrip(text)
  {
    ReplaceAbsent(text, "Pre-requisites:", "");
    var s := PyStrip(text);
    StripPlain(text);
    ReplaceAbsent(s, "Obtained Credit", "Obtained_Credit");
    ReplaceAbsent(s, "Credits Submitted", "Credits_Submitted");
    ReplaceAbsent(s, "&&", " && ");
    ReplaceAbsent(s, "||", " || ");
  }

  /** A block that starts with the heading and is otherwise plain gives the rest, stripped. */
  lemma HeadedPrerequisites(rest: string)
    requires Plain(rest)
    ensures ExtractPrerequisites("Pre-requisites:" + rest) == PyStrip(rest)
  {
    var text := "Pre-requisites:" + rest;
    assert text[..|"Pre-requisites:"|] == "Pre-requisites:";
    assert text[|"Pre-requisites:"|..] == rest;
    ReplaceAbsent(rest, "Pre-requisites:", "");
    assert ReplaceAll(text, "Pre-requisites:", "") == rest;
    var s := PyStrip(rest);
    StripPlain(rest);
    ReplaceAbsent(s, "Obtained Credit", "Obtained_Credit");
    ReplaceAbsent(s, "Credits Submitted", "Credits_Submitted");
    ReplaceAbsent(s, "&&", " && ");
    ReplaceAbsent(s, "||", " || ");
  }

  // ---------------------------------------------------------------------------
  // URLs
  // ---------------------------------------------------------------------------

  /** `_is_department_url`: a link is a course page iff it starts with the course-detail prefix. */
  predicate IsDepartmentUrl(url: string)
  {
    StartsWith(url, CourseDetailUrlPrefix)
  }

  /** Every course-info link with an id is a course page; the listing page itself is not. */
  lemma DepartmentUrls(id: string)
    ensures IsDepartmentUrl(CourseDetailUrlPrefix + id)
    ensures !IsDepartmentUrl(OrcBaseUrl)
  {
    assert (CourseDetailUrlPrefix + id)[..|CourseDetailUrlPrefix|] == CourseDetailUrlPrefix;
    assert |OrcBaseUrl| < |CourseDetailUrlPrefix|;
  }

  // ---------------------------------------------------------------------------
  // Course code, number and credits
  // ---------------------------------------------------------------------------

  /** Why crawling one course page raised. */
  datatype CrawlError = NoDepartment | NoNumber | NoTitle | NoCreditDigits

  /** The leading run of ASCII capital letters. */
  function UpperRun(s: string): (u: string)
    ensures |u| <= |s| && u == s[..|u|]
    ensures forall i :: 0 <= i < |u| ==> IsUpper(u[i])
    ensures |u| < |s| ==> !IsUpper(s[|u|])
    decreases |s|
  {
    if |s| > 0 && IsUpper(s[0]) then [s[0]] + UpperRun(s[1..]) else ""
  }

  /** `^[A-Z]{k}` followed by a digit: the department group of `^([A-Z]{2,4})\d+` with `k` letters. */
  predicate DepartmentMatch(code: string, k: int)
  {
    2 <= k <= 4 && k < |code| && (forall i :: 0 <= i < k ==> IsUpper(code[i])) && IsDigit(code[k])
  }

  /** `^[A-Z]{k}\d{3}`: the number group of `^[A-Z]{2,4}(\d{3})` after `k` letters. */
  predicate NumberMatch(code: string, k: int)
  {
    2 <= k <= 4 && k + 3 <= |code| && (forall i :: 0 <= i < k ==> IsUpper(code[i]))
    && (forall i :: k <= i < k + 3 ==> IsDigit(code[i]))
  }

  /** A run of `k` capitals that is followed by a non-capital is the whole leading run. */
  lemma UpperRunLength(code: string, k: int)
    requires 0 <= k < |code| && (forall i :: 0 <= i < k ==> IsUpper(code[i])) && !IsUpper(code[k])
    ensures |UpperRun(code)| == k
  {
  }

  /** The department: the capitals before the first digit when there are two to four of them. */
  function Department(code: string): (r: Result<string, CrawlError>)
    ensures r.Ok? <==> exists k :: DepartmentMatch(code, k)
    ensures r.Ok? ==> DepartmentMatch(code, |r.value|) && r.value == code[..|r.value|]
    ensures r.Err? ==> r.error == NoDepartment
  {
    var u := UpperRun(code);
    assert forall k :: DepartmentMatch(code, k) ==> k == |u| by {
      forall k | DepartmentMatch(code, k) ensures k == |u| { UpperRunLength(code, k); }
    }
    if 2 <= |u| <= 4 && |u| < |code| && IsDigit(code[|u|]) then
      assert DepartmentMatch(code, |u|) by { assert forall i :: 0 <= i < |u| ==> u[i] == code[i]; }
      Ok(u)
    else Err(NoDepartment)
  }

  /** The course number: the three digits right after two to four leading capitals. */
  function Number(code: string): (r: Result<string, CrawlError>)
    ensures r.Ok? <==> exists k :: NumberMatch(code, k)
    ensures r.Ok? ==> (|r.value| == 3 && AllDigits(r.value) && NumberMatch(code, |UpperRun(code)|)
      && r.value == code[|UpperRun(code)|..|UpperRun(code)| + 3])
    ensures r.Err? ==> r.error == NoNumber
  {
    var u := UpperRun(code);
    assert forall k :: NumberMatch(code, k) ==> k == |u| by {
      forall k | NumberMatch(code, k) ensures k == |u| { UpperRunLength(code, k); }
    }
    if 2 <= |u| <= 4 && |u| + 3 <= |code| && AllDigits(code[|u|..|u| + 3]) then
      DigitsSlice(code, |u|);
      assert NumberMatch(code, |u|) by { assert forall i :: 0 <= i < |u| ==> u[i] == code[i]; }
      Ok(code[|u|..|u| + 3])
    else
      DigitsSlice(code, |u|);
      Err(NoNumber)
  }

  /** Three digits from position `k`, as a slice and position by position. */
  lemma DigitsSlice(code: string, k: nat)
    ensures k + 3 <= |code| ==> (AllDigits(code[k..k + 3]) <==> forall i :: k <= i < k + 3 ==> IsDigit(code[i]))
  {
    if k + 3 <= |code| {
      var d := code[k..k + 3];
      assert d[0] == code[k] && d[1] == code[k + 1] && d[2] == code[k + 2];
    }
  }

  /** `text[i..i + n]` is the first maximal run of ASCII digits in `text`. */
  predicate FirstRun(text: string, i: int, n: int)
  {
    0 <= i < i + n <= |text| && (forall j :: 0 <= j < i ==> !IsDigit(text[j]))
    && AllDigits(text[i..i + n]) && (i + n == |text| || !IsDigit(text[i + n]))
  }

  /** The position of the first ASCII digit, or the length when there is none. */
  function FirstDigit(s: string): (i: nat)
    ensures i <= |s| && (forall j :: 0 <= j < i ==> !IsDigit(s[j])) && (i < |s| ==> IsDigit(s[i]))
    decreases |s|
  {
    if |s| == 0 then 0 else if IsDigit(s[0]) then 0 else 1 + FirstDigit(s[1..])
  }

  /** `int(re.findall(r"\d+", text)[0])`: the value of the first maximal run of digits. */
  function Credits(text: string): (r: Result<nat, CrawlError>)
    ensures r.Ok? <==> exists j :: 0 <= j < |text| && IsDigit(text[j])
    ensures r.Ok? ==> exists i, n :: FirstRun(text, i, n) && r.value == DigitsValue(text[i..i + n])
    ensures r.Err? ==> r.error == NoCreditDigits
  {
    var i := FirstDigit(text);
    if i == |text| then Err(NoCreditDigits)
    else
      var d := DigitPrefix(text[i..]);
      assert |d| >= 1 && text[i..i + |d|] == d;
      assert FirstRun(text, i, |d|);
      Ok(DigitsValue(d))
  }

  /** A course heading's code, title, department and number. */
  datatype Heading = Heading(code: string, title: string, department: string, number: string)

  /**
   * The heading split at the separator: the code before it, the title after it, and the
   * department and number read from the code; the regular expressions are applied
   * before the title is taken, so a bad code is reported first.
   */
  function ParseHeading(heading: string): (r: Result<Heading, CrawlError>)
    ensures r.Ok? ==> (r.value.code == SplitOn(heading, HeadingSeparator)[0]
      && Department(r.value.code) == Ok(r.value.department) && Number(r.value.code) == Ok(r.value.number))
    ensures r.Ok? <==> (Department(SplitOn(heading, HeadingSeparator)[0]).Ok? && Number(SplitOn(heading, HeadingSeparator)[0]).Ok?
      && |SplitOn(heading, HeadingSeparator)| >= 2)
  {
    var parts := SplitOn(heading, HeadingSeparator);
    var code := parts[0];
    match Department(code)
    case Err(e) => Err(e)
    case Ok(department) =>
      match Number(code)
      case Err(e) => Err(e)
      case Ok(number) =>
        if |parts| < 2 then Err(NoTitle) else Ok(Heading(code, parts[1], department, number))
  }

  // ---------------------------------------------------------------------------
  // The scan over a course page's text blocks
  // ---------------------------------------------------------------------------

  /** The fields the scan assigns; each later matching block overwrites an earlier one. */
  datatype PageFields = PageFields(credits: nat, preRequisites: string, description: string)

  const NoFields: PageFields := PageFields(0, "", "")

  /** The description a "Description" block at index `i` names: the stripped text two blocks on. */
  function DescriptionAfter(texts: seq<string>, i: nat): string
  {
    var d := if i + 2 < |texts| then texts[i + 2] else "";
    if d == "\n" || Contains(d, "Course Topics") then "" else d
  }

  /** One block of the scan: the first of "Credits", "Pre-requisites", "Description" it contains decides. */
  function ScanStep(texts: seq<string>, i: nat, acc: PageFields): Result<PageFields, CrawlError>
    requires i < |texts|
  {
    var t := texts[i];
    if Contains(t, "Credits") then
      (match Credits(t)
       case Err(e) => Err(e)
       case Ok(c) => Ok(acc.(credits := c)))
    else if Contains(t, "Pre-requisites") then Ok(acc.(preRequisites := ExtractPrerequisites(t)))
    else if Contains(t, "Description") then Ok(acc.(description := DescriptionAfter(texts, i)))
    else Ok(acc)
  }

  /** The fields after the first `n` blocks; a "Credits" block without digits raises and stops the scan. */
  function ScanUpTo(texts: seq<string>, n: nat): Result<PageFields, CrawlError>
    requires n <= |texts|
  {
    if n == 0 then Ok(NoFields)
    else
      match ScanUpTo(texts, n - 1)
      case Err(e) => Err(e)
      case Ok(acc) => ScanStep(texts, n - 1, acc)
  }

  /** One more block continues a scan that has not raised. */
  lemma ScanNext(texts: seq<string>, i: nat, acc: PageFields)
    requires i < |texts| && ScanUpTo(texts, i) == Ok(acc)
    ensures ScanUpTo(texts, i + 1) == ScanStep(texts, i, acc)
  {
  }

  /** Once the scan raised it stays raised. */
  lemma {:induction false} ScanErrStays(texts: seq<string>, i: nat, n: nat)
    requires i <= n <= |texts| && ScanUpTo(texts, i).Err?
    ensures ScanUpTo(texts, n) == ScanUpTo(texts, i)
    decreases n
  {
    if n > i {
      ScanErrStays(texts, i, n - 1);
    }
  }

  /** The credits are those of the last "Credits" block. */
  lemma {:induction false} CreditsLastWins(texts: seq<string>, n: nat, j: nat)
    requires j < n <= |texts| && Contains(texts[j], "Credits")
    requires forall k :: j < k < n ==> !Contains(texts[k], "Credits")
    requires ScanUpTo(texts, n).Ok?
    ensures Credits(texts[j]).Ok? && ScanUpTo(texts, n).value.credits == Credits(texts[j]).value
    decreases n
  {
    if n - 1 > j {
      ScanErrStaysContra(texts, n - 1, n);
      CreditsLastWins(texts, n - 1, j);
    } else {
      ScanErrStaysContra(texts, n - 1, n);
    }
  }

  /** A scan that ends without raising did not raise on any prefix. */
  lemma ScanErrStaysContra(texts: seq<string>, i: nat, n: nat)
    requires i <= n <= |texts| && ScanUpTo(texts, n).Ok?
    ensures ScanUpTo(texts, i).Ok?
  {
    if ScanUpTo(texts, i).Err? {
      ScanErrStays(texts, i, n);
    }
  }

  /** A page without a "Credits" block keeps the default of zero credits. */
  lemma {:induction false} NoCreditsBlock(texts: seq<string>, n: nat)
    requires n <= |texts| && forall k :: 0 <= k < n ==> !Contains(texts[k], "Credits")
    ensures ScanUpTo(texts, n).Ok? && ScanUpTo(texts, n).value.credits == 0
    decreases n
  {
    if n > 0 {
      NoCreditsBlock(texts, n - 1);
    }
  }

  /** One pass of the loop: a block naming "Credits", "Pre-requisites" or "Description" sets that field. */
  method ScanBlock(texts: seq<string>, i: nat, acc: PageFields) returns (r: Result<PageFields, CrawlError>)
    requires i < |texts|
    ensures r == ScanStep(texts, i, acc)
  {
    var t := texts[i];
    if Contains(t, "Credits") {
      var c := Credits(t);
      if c.Err? {
        return Err(c.error);
      }
      r := Ok(acc.(credits := c.value));
    } else if Contains(t, "Pre-requisites") {
      r := Ok(acc.(preRequisites := ExtractPrerequisites(t)));
    } else if Contains(t, "Description") {
      r := Ok(acc.(description := DescriptionAfter(texts, i)));
    } else {
      r := Ok(acc);
    }
  }

  /** The loop over the text blocks of a course page, assigning the credit, prerequisite and description fields. */
  method ScanPage(texts: seq<string>) returns (r: Result<PageFields, CrawlError>)
    ensures r == ScanUpTo(texts, |texts|)
  {
    var acc := NoFields;
    var i := 0;
    while i < |texts|
      invariant 0 <= i <= |texts|
      invariant ScanUpTo(texts, i) == Ok(acc)
    {
      var next := ScanBlock(texts, i, acc);
      ScanNext(texts, i, acc);
      if next.Err? {
        ScanErrStays(texts, i + 1, |texts|);
        return next;
      }
      acc := next.value;
      i := i + 1;
    }
    return Ok(acc);
  }

  /** A crawled course record with the fields `import_department` reads. */
  datatype CourseData = CourseData(code: string, title: string, department: string, number: string, credits: nat,
                                   preRequisites: string, description: string, topics: seq<string>, url: string)

  /**
   * `_crawl_course_data` once the page is fetched: None for an empty heading, otherwise
   * the record built from the heading and the text blocks (the topic list is given).
   */
  function CrawlCourse(heading: string, texts: seq<string>, topics: seq<string>, url: string): (r: Result<Option<CourseData>, CrawlError>)
    ensures heading == "" ==> r == Ok(None)
    ensures r.Ok? && r.value.Some? ==> (ParseHeading(heading).Ok? && ScanUpTo(texts, |texts|).Ok?
      && r.value.value.code == ParseHeading(heading).value.code && r.value.value.url == url
      && r.value.value.credits == ScanUpTo(texts, |texts|).value.credits)
  {
    if heading == "" then Ok(None)
    else
      match ParseHeading(heading)
      case Err(e) => Err(e)
      case Ok(h) =>
        match ScanUpTo(texts, |texts|)
        case Err(e) => Err(e)
        case Ok(f) => Ok(Some(CourseData(h.code, h.title, h.department, h.number, f.credits, f.preRequisites, f.description, topics, url)))
  }

  // ---------------------------------------------------------------------------
  // import_department
  // ---------------------------------------------------------------------------

  /** The fields `import_department` writes as defaults, besides the `course_code` key. */
  const DefaultFields: set<string> := {"course_title", "department", "number", "course_credits", "pre_requisites",
                                        "description", "course_topics", "url"}

  /** A crawled record as the dict the crawler returns. */
  function CourseDataValue(c: CourseData): Value
  {
    Dict(map["course_code" := Str(c.code), "course_title" := Str(c.title), "department" := Str(c.department),
             "number" := Str(c.number), "course_credits" := Int(c.credits), "pre_requisites" := Str(c.preRequisites),
             "description" := Str(c.description), "course_topics" := List(seq(|c.topics|, i requires 0 <= i < |c.topics| => Str(c.topics[i]))),
             "url" := Str(c.url)])
  }

  /** An item `import_department` can read without raising: a dict with the key and every default field. */
  predicate Importable(item: Value)
  {
    item.Dict? && "course_code" in item.m && forall f :: f in DefaultFields ==> f in item.m
  }

  /** Every record the crawler builds can be imported. */
  lemma CrawledImportable(c: CourseData)
    ensures Importable(CourseDataValue(c))
  {
  }

  /** The `course_code` an importable item is keyed by. */
  function Code(item: Value): Value
  {
    if Importable(item) then item.m["course_code"] else Null
  }

  /** The default fields of an importable item. */
  function Defaults(item: Value): (d: map<string, Value>)
    requires Importable(item)
    ensures d.Keys == DefaultFields && forall f :: f in d ==> d[f] == item.m[f]
  {
    map f | f in DefaultFields :: item.m[f]
  }

  /** The rows after importing `items` in order, and whether an item raised; nothing after that item is written. */
  function Upserts(rows: map<Value, map<string, Value>>, items: seq<Value>): (r: (map<Value, map<string, Value>>, bool))
    decreases |items|
  {
    if |items| == 0 then (rows, false)
    else
      var (before, raised) := Upserts(rows, items[..|items| - 1]);
      var item := items[|items| - 1];
      if raised then (before, true)
      else if Importable(item) then (before[Code(item) := Defaults(item)], false)
      else (before, true)
  }

  /** An import raises iff some item is not importable. */
  lemma {:induction false} UpsertsRaise(rows: map<Value, map<string, Value>>, items: seq<Value>)
    ensures Upserts(rows, items).1 <==> exists k :: 0 <= k < |items| && !Importable(items[k])
    decreases |items|
  {
    if |items| > 0 {
      var init := items[..|items| - 1];
      UpsertsRaise(rows, init);
      assert forall k :: 0 <= k < |init| ==> init[k] == items[k];
      if Upserts(rows, init).1 {
        var k :| 0 <= k < |init| && !Importable(init[k]);
        assert !Importable(items[k]);
      }
    }
  }

  /** The row of a code is the defaults of the last item with that code. */
  lemma {:induction false} UpsertsLastWins(rows: map<Value, map<string, Value>>, items: seq<Value>, j: nat)
    requires j < |items| && forall k :: 0 <= k < |items| ==> Importable(items[k])
    requires forall k :: j < k < |items| ==> Code(items[k]) != Code(items[j])
    ensures !Upserts(rows, items).1
    ensures Code(items[j]) in Upserts(rows, items).0
    ensures Upserts(rows, items).0[Code(items[j])] == Defaults(items[j])
    decreases |items|
  {
    var init := items[..|items| - 1];
    UpsertsRaise(rows, items);
    UpsertsRaise(rows, init);
    if j < |items| - 1 {
      UpsertsLastWins(rows, init, j);
    }
  }

  /** A code no item carries keeps its row, or stays absent. */
  lemma {:induction false} UpsertsUntouched(rows: map<Value, map<string, Value>>, items: seq<Value>, code: Value)
    requires forall k :: 0 <= k < |items| ==> !(Importable(items[k]) && Code(items[k]) == code)
    ensures (code in Upserts(rows, items).0) == (code in rows)
    ensures code in rows ==> Upserts(rows, items).0[code] == rows[code]
    decreases |items|
  {
    if |items| > 0 {
      UpsertsUntouched(rows, items[..|items| - 1], code);
    }
  }

  /** The course table `import_department` writes to: one row of default fields per course code. */
  class CourseTable {
    var rows: map<Value, map<string, Value>>

    constructor()
      ensures rows == map[]
    {
      rows := map[];
    }

    /**
     * `import_department`: `update_or_create` keyed by `course_code` for each item in
     * order; an item missing a key raises and leaves the earlier writes in place.
     * The function returns nothing; `raised` says whether it raised.
     */
    method ImportDepartment(items: seq<Value>) returns (raised: bool)
      modifies this
      ensures (rows, raised) == Upserts(old(rows), items)
    {
      var i := 0;
      ghost var start := rows;
      while i < |items|
        invariant 0 <= i <= |items|
        invariant Upserts(start, items[..i]) == (rows, false)
      {
        assert items[..i + 1][..i] == items[..i];
        var item := items[i];
        if !Importable(item) {
          UpsertsRaisedStays(start, items, i + 1);
          return true;
        }
        rows := rows[Code(item) := Defaults(item)];
        i := i + 1;
      }
      assert items[..i] == items;
      return false;
    }
  }

  /** Once an import raised, the later items change nothing. */
  lemma {:induction false} UpsertsRaisedStays(rows: map<Value, map<string, Value>>, items: seq<Value>, i: nat)
    requires i <= |items| && Upserts(rows, items[..i]).1
    ensures Upserts(rows, items) == Upserts(rows, items[..i])
    decreases |items|
  {
    if i < |items| {
      assert items[..|items| - 1][..i] == items[..i];
      UpsertsRaisedStays(rows, items[..|items| - 1], i);
    } else {
      assert items[..i] == items;
    }
  }
}
