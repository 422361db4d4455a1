/**
 * The spider's cache manager without its terminal and file system: JSON-lines framing
 * of saved data, the course-selection save, the menus' choice parsing, the file-type
 * classification and the regrouping of cached records before integration.
 */
module SpiderManager {
  import opened Wrappers
  import opened Strs
  import opened Values
  import opened Seqs

  // ---------------------------------------------------------------------------
  // JSON lines
  // ---------------------------------------------------------------------------

  /**
   * What `json.dump`/`json.loads` guarantee and the framing relies on: a dumped value
   * loads back, fits on one line (control characters are escaped) and is never blank.
   */
  ghost predicate Codec(dump: Value -> string, load: string -> Option<Value>)
  {
    forall v :: load(dump(v)) == Some(v) && '\n' !in dump(v) && PyStrip(dump(v)) != ""
  }

  /** One dumped item per line, each followed by a newline. */
  function Frame(items: seq<Value>, dump: Value -> string): string
    decreases |items|
  {
    if |items| == 0 then "" else Frame(items[..|items| - 1], dump) + dump(items[|items| - 1]) + "\n"
  }

  /** The text `save_to_jsonl` writes: a list item by item, anything else as one line. */
  function SaveContent(data: Value, dump: Value -> string): string
  {
    if data.List? then Frame(data.items, dump) else dump(data) + "\n"
  }

  /** The values of the non-blank lines, in order; None when a line does not parse (`json.loads` raises). */
  function LoadLines(lines: seq<string>, load: string -> Option<Value>): Option<seq<Value>>
    decreases |lines|
  {
    if |lines| == 0 then Some([])
    else
      match LoadLines(lines[..|lines| - 1], load)
      case None => None
      case Some(data) => LoadLine(data, lines[|lines| - 1], load)
  }

  /** One line of the file: a blank line is skipped, any other is parsed and appended. */
  function LoadLine(data: seq<Value>, line: string, load: string -> Option<Value>): Option<seq<Value>>
  {
    if PyStrip(line) == "" then Some(data)
    else match load(line)
      case None => None
      case Some(v) => Some(data + [v])
  }

  /** The lines up to `i + 1` load as the lines up to `i` followed by line `i`. */
  lemma LoadNext(lines: seq<string>, load: string -> Option<Value>, i: nat, data: seq<Value>)
    requires i < |lines| && LoadLines(lines[..i], load) == Some(data)
    ensures LoadLines(lines[..i + 1], load) == LoadLine(data, lines[i], load)
  {
    assert lines[..i + 1][..i] == lines[..i];
  }

  /** What `load_from_jsonl` returns for a file's text. */
  function LoadContent(content: string, load: string -> Option<Value>): Option<seq<Value>>
  {
    LoadLines(SplitOn(content, "\n"), load)
  }

  /** The dumped text of each item. */
  function Dumps(items: seq<Value>, dump: Value -> string): seq<string>
  {
    seq(|items|, i requires 0 <= i < |items| => dump(items[i]))
  }

  /** The frame read from its first line. */
  lemma {:induction false} FrameFront(items: seq<Value>, dump: Value -> string)
    requires |items| > 0
    ensures Frame(items, dump) == dump(items[0]) + "\n" + Frame(items[1..], dump)
    decreases |items|
  {
    if |items| > 1 {
      FrameFront(items[..|items| - 1], dump);
      assert items[..|items| - 1][1..] == items[1..][..|items[1..]| - 1];
    }
  }

  /** No dumped item spans two lines. */
  predicate OneLineEach(items: seq<Value>, dump: Value -> string)
  {
    forall i :: 0 <= i < |items| ==> '\n' !in dump(items[i])
  }

  /** The lines of a frame are the dumped items and a final empty piece. */
  lemma {:induction false} LinesOfFrame(items: seq<Value>, dump: Value -> string)
    requires OneLineEach(items, dump)
    ensures SplitOn(Frame(items, dump), "\n") == Dumps(items, dump) + [""]
    decreases |items|
  {
    if |items| > 0 {
      var head := dump(items[0]);
      var rest := Frame(items[1..], dump);
      FrameFront(items, dump);
      assert OneLineEach(items[1..], dump) by {
        forall i | 0 <= i < |items[1..]| ensures '\n' !in dump(items[1..][i]) { assert items[1..][i] == items[i + 1]; }
      }
      LinesOfFrame(items[1..], dump);
      assert '\n' !in head;
      assert head + "\n" + rest == head + ['\n'] + rest;
      SplitFirst(head, '\n', rest);
      assert Dumps(items, dump) == [head] + Dumps(items[1..], dump);
    }
  }

  /** Every dumped item loads back and is not blank. */
  predicate LoadsBackEach(items: seq<Value>, dump: Value -> string, load: string -> Option<Value>)
  {
    forall i :: 0 <= i < |items| ==> load(dump(items[i])) == Some(items[i]) && PyStrip(dump(items[i])) != ""
  }

  /** What the codec promises for every value, for the items at hand. */
  lemma CodecItems(items: seq<Value>, dump: Value -> string, load: string -> Option<Value>)
    requires Codec(dump, load)
    ensures OneLineEach(items, dump) && LoadsBackEach(items, dump, load)
  {
  }

  /** Loading one more line that parses to the last item gives all the items. */
  lemma LoadLinesSnoc(lines: seq<string>, line: string, load: string -> Option<Value>, items: seq<Value>)
    requires |items| > 0 && LoadLines(lines, load) == Some(items[..|items| - 1])
    requires PyStrip(line) != "" && load(line) == Some(items[|items| - 1])
    ensures LoadLines(lines + [line], load) == Some(items)
  {
    LoadLinesAppend(lines, line, load, items[..|items| - 1]);
    FrontLast(items);
  }

  /** Loading one more line continues from what the earlier lines loaded to. */
  lemma LoadLinesAppend(lines: seq<string>, line: string, load: string -> Option<Value>, data: seq<Value>)
    requires LoadLines(lines, load) == Some(data)
    ensures LoadLines(lines + [line], load) == LoadLine(data, line, load)
  {
    assert (lines + [line])[..|lines|] == lines;
  }

  lemma DumpsSnoc(items: seq<Value>, dump: Value -> string)
    requires |items| > 0
    ensures Dumps(items, dump) == Dumps(items[..|items| - 1], dump) + [dump(items[|items| - 1])]
  {
  }

  lemma LoadsBackPrefix(items: seq<Value>, dump: Value -> string, load: string -> Option<Value>)
    requires |items| > 0 && LoadsBackEach(items, dump, load)
    ensures LoadsBackEach(items[..|items| - 1], dump, load)
    ensures load(dump(items[|items| - 1])) == Some(items[|items| - 1]) && PyStrip(dump(items[|items| - 1])) != ""
  {
  }

  /** Loading the dumped items gives them back. */
  lemma {:induction false} LoadDumps(items: seq<Value>, dump: Value -> string, load: string -> Option<Value>)
    requires LoadsBackEach(items, dump, load)
    ensures LoadLines(Dumps(items, dump), load) == Some(items)
    decreases |items|
  {
    if |items| > 0 {
      var init := items[..|items| - 1];
      DumpsSnoc(items, dump);
      LoadsBackPrefix(items, dump, load);
      LoadDumps(init, dump, load);
      LoadLinesSnoc(Dumps(init, dump), dump(items[|items| - 1]), load, items);
    }
  }

  /** A trailing blank line is skipped. */
  lemma LoadBlankLast(lines: seq<string>, load: string -> Option<Value>)
    ensures LoadLines(lines + [""], load) == LoadLines(lines, load)
  {
    assert (lines + [""])[..|lines|] == lines;
    assert PyStrip("") == "";
  }

  /** The frame of items that load back loads back to those items. */
  lemma FrameLoads(items: seq<Value>, dump: Value -> string, load: string -> Option<Value>)
    requires OneLineEach(items, dump) && LoadsBackEach(items, dump, load)
    ensures LoadContent(Frame(items, dump), load) == Some(items)
  {
    LinesOfFrame(items, dump);
    LoadBlankLast(Dumps(items, dump), load);
    LoadDumps(items, dump, load);
  }

  /** Loading what was saved gives a saved list back, and any other saved value as a one-item list. */
  lemma SaveLoadRoundTrip(data: Value, dump: Value -> string, load: string -> Option<Value>)
    requires Codec(dump, load)
    ensures LoadContent(SaveContent(data, dump), load) == Some(if data.List? then data.items else [data])
  {
    var items := if data.List? then data.items else [data];
    SaveContentFrame(data, dump);
    CodecItems(items, dump, load);
    FrameLoads(items, dump, load);
  }

  /** The saved text is the frame of the saved list, a non-list counting as a one-item list. */
  lemma SaveContentFrame(data: Value, dump: Value -> string)
    ensures SaveContent(data, dump) == Frame(if data.List? then data.items else [data], dump)
  {
    if !data.List? {
      assert [data][..0] == [];
    }
  }

  /** Once a line failed to parse, loading the rest fails too. */
  lemma {:induction false} LoadNoneStays(lines: seq<string>, load: string -> Option<Value>, i: nat)
    requires i <= |lines| && LoadLines(lines[..i], load).None?
    ensures LoadLines(lines, load).None?
    decreases |lines|
  {
    if i < |lines| {
      assert lines[..|lines| - 1][..i] == lines[..i];
      LoadNoneStays(lines[..|lines| - 1], load, i);
    } else {
      assert lines[..i] == lines;
    }
  }

  // ---------------------------------------------------------------------------
  // The cache directory
  // ---------------------------------------------------------------------------

  /** A course catalog as the crawler hands it over: a dict (ordered entries) or any other value. */
  datatype Catalog = CatalogDict(entries: seq<(Value, Value)>) | CatalogValue(v: Value)

  /** Prerequisites as a dict (ordered entries) from a course id to its list of records. */
  type Prerequisites = seq<(Value, seq<Value>)>

  predicate CatalogTruthy(c: Catalog)
  {
    match c
    case CatalogDict(entries) => entries != []
    case CatalogValue(v) => Truthy(v)
  }

  /** The value saved for a catalog: its dict values in order, or the value itself. */
  function CatalogList(c: Catalog): Value
  {
    match c
    case CatalogDict(entries) => List(seq(|entries|, i requires 0 <= i < |entries| => entries[i].1))
    case CatalogValue(v) => v
  }

  /** The records of every course's list, course after course. */
  function Flatten(groups: Prerequisites): seq<Value>
    decreases |groups|
  {
    if |groups| == 0 then [] else Flatten(groups[..|groups| - 1]) + groups[|groups| - 1].1
  }

  /** The file name `save_to_jsonl` writes for a data type. */
  function JsonlName(dataType: string): string
  {
    dataType + ".jsonl"
  }

  /** The cache after `save_coursesel_data`: each non-empty input overwrites its own file. */
  function SavedFiles(files: map<string, string>, lessonTasks: Value, catalog: Catalog, prerequisites: Prerequisites,
                      dump: Value -> string): map<string, string>
  {
    var f1 := if Truthy(lessonTasks) then files[JsonlName("coursesel_lesson_tasks") := SaveContent(lessonTasks, dump)] else files;
    var f2 := if CatalogTruthy(catalog) then f1[JsonlName("coursesel_course_catalog") := SaveContent(CatalogList(catalog), dump)] else f1;
    if prerequisites != [] then f2[JsonlName("coursesel_prerequisites") := SaveContent(List(Flatten(prerequisites)), dump)] else f2
  }

  /** The cache directory: file name to text. */
  class Cache {
    var files: map<string, string>

    constructor()
      ensures files == map[]
    {
      files := map[];
    }

    /** `save_to_jsonl`: overwrite `<data_type>.jsonl` with the framing of `data` and return its name. */
    method SaveToJsonl(data: Value, dataType: string, dump: Value -> string) returns (path: string)
      modifies this
      ensures path == JsonlName(dataType)
      ensures files == old(files)[path := SaveContent(data, dump)]
    {
      path := JsonlName(dataType);
      var content := "";
      if data.List? {
        var i := 0;
        while i < |data.items|
          invariant 0 <= i <= |data.items|
          invariant content == Frame(data.items[..i], dump)
        {
          assert data.items[..i + 1][..i] == data.items[..i];
          content := content + dump(data.items[i]) + "\n";
          i := i + 1;
        }
        assert data.items[..i] == data.items;
      } else {
        content := dump(data) + "\n";
      }
      files := files[path := content];
    }

    /** `load_from_jsonl`: None when the file is missing or a non-blank line does not parse. */
    method LoadFromJsonl(path: string, load: string -> Option<Value>) returns (r: Option<seq<Value>>)
      ensures path !in files ==> r == None
      ensures path in files ==> r == LoadContent(files[path], load)
    {
      if path !in files {
        return None;
      }
      var lines := SplitOn(files[path], "\n");
      var data := [];
      var i := 0;
      while i < |lines|
        invariant 0 <= i <= |lines|
        invariant LoadLines(lines[..i], load) == Some(data)
      {
        LoadNext(lines, load, i, data);
        var line := lines[i];
        if PyStrip(line) != "" {
          var v := load(line);
          if v.None? {
            LoadNoneStays(lines, load, i + 1);
            return None;
          }
          data := data + [v.value];
        }
        i := i + 1;
      }
      assert lines[..i] == lines;
      return Some(data);
    }

    /** The prerequisite records of every course, course after course. */
    static method FlattenPrerequisites(prerequisites: Prerequisites) returns (list: seq<Value>)
      ensures list == Flatten(prerequisites)
    {
      list := [];
      var i := 0;
      while i < |prerequisites|
        invariant 0 <= i <= |prerequisites|
        invariant list == Flatten(prerequisites[..i])
      {
        assert prerequisites[..i + 1][..i] == prerequisites[..i];
        var items := prerequisites[i].1;
        var j := 0;
        while j < |items|
          invariant 0 <= j <= |items|
          invariant list == Flatten(prerequisites[..i]) + items[..j]
        {
          assert items[..j + 1] == items[..j] + [items[j]];
          list := list + [items[j]];
          j := j + 1;
        }
        assert items[..j] == items;
        i := i + 1;
      }
      assert prerequisites[..i] == prerequisites;
    }

    /**
     * `save_coursesel_data`: each non-empty input is saved under its own file (the catalog
     * as its values, the prerequisites flattened), and its key maps to that file's name.
     */
    method SaveCourseselData(lessonTasks: Value, catalog: Catalog, prerequisites: Prerequisites, dump: Value -> string)
      returns (saved: map<string, string>)
      modifies this
      ensures "lesson_tasks" in saved <==> Truthy(lessonTasks)
      ensures "course_catalog" in saved <==> CatalogTruthy(catalog)
      ensures "prerequisites" in saved <==> prerequisites != []
      ensures saved.Keys <= {"lesson_tasks", "course_catalog", "prerequisites"}
      ensures "lesson_tasks" in saved ==> saved["lesson_tasks"] == JsonlName("coursesel_lesson_tasks")
      ensures "course_catalog" in saved ==> saved["course_catalog"] == JsonlName("coursesel_course_catalog")
      ensures "prerequisites" in saved ==> saved["prerequisites"] == JsonlName("coursesel_prerequisites")
      ensures files == SavedFiles(old(files), lessonTasks, catalog, prerequisites, dump)
    {
      saved := map[];
      if Truthy(lessonTasks) {
        var path := SaveToJsonl(lessonTasks, "coursesel_lesson_tasks", dump);
        saved := saved["lesson_tasks" := path];
      }
      if CatalogTruthy(catalog) {
        var path := SaveToJsonl(CatalogList(catalog), "coursesel_course_catalog", dump);
        saved := saved["course_catalog" := path];
      }
      if prerequisites != [] {
        var list := FlattenPrerequisites(prerequisites);
        var path := SaveToJsonl(List(list), "coursesel_prerequisites", dump);
        saved := saved["prerequisites" := path];
      }
    }

    /**
     * The `get_cache_info` fields computed from a file's records: its count and
     * a preview of at most three; None where loading raises.
     */
    method CacheInfo(path: string, load: string -> Option<Value>) returns (r: Option<(nat, seq<Value>)>)
      ensures path in files && LoadContent(files[path], load).Some? ==>
        r == Some((|LoadContent(files[path], load).value|, Preview(LoadContent(files[path], load).value)))
      ensures !(path in files && LoadContent(files[path], load).Some?) ==> r == None
    {
      var data := LoadFromJsonl(path, load);
      if data.None? {
        return None;
      }
      return Some((|data.value|, Preview(data.value)));
    }
  }

  /** A saved prerequisite file loads back to the flattened records. */
  lemma SavedPrerequisitesLoad(files: map<string, string>, lessonTasks: Value, catalog: Catalog, prerequisites: Prerequisites,
                               dump: Value -> string, load: string -> Option<Value>)
    requires Codec(dump, load) && prerequisites != []
    ensures JsonlName("coursesel_prerequisites") in SavedFiles(files, lessonTasks, catalog, prerequisites, dump)
    ensures LoadContent(SavedFiles(files, lessonTasks, catalog, prerequisites, dump)[JsonlName("coursesel_prerequisites")], load)
      == Some(Flatten(prerequisites))
  {
    SaveLoadRoundTrip(List(Flatten(prerequisites)), dump, load);
  }

  /** A saved dict catalog loads back to its values in order. */
  lemma SavedCatalogLoads(files: map<string, string>, lessonTasks: Value, entries: seq<(Value, Value)>, prerequisites: Prerequisites,
                          dump: Value -> string, load: string -> Option<Value>)
    requires Codec(dump, load) && entries != []
    ensures JsonlName("coursesel_course_catalog") in SavedFiles(files, lessonTasks, CatalogDict(entries), prerequisites, dump)
    ensures var loaded := LoadContent(SavedFiles(files, lessonTasks, CatalogDict(entries), prerequisites, dump)[JsonlName("coursesel_course_catalog")], load);
      loaded.Some? && |loaded.value| == |entries| && forall i :: 0 <= i < |entries| ==> loaded.value[i] == entries[i].1
  {
    var saved := SavedFiles(files, lessonTasks, CatalogDict(entries), prerequisites, dump);
    DistinctNames();
    assert saved[JsonlName("coursesel_course_catalog")] == SaveContent(CatalogList(CatalogDict(entries)), dump);
    SaveLoadRoundTrip(CatalogList(CatalogDict(entries)), dump, load);
  }

  /** The three course-selection files have different names. */
  lemma DistinctNames()
    ensures JsonlName("coursesel_course_catalog") != JsonlName("coursesel_prerequisites")
    ensures JsonlName("coursesel_lesson_tasks") != JsonlName("coursesel_prerequisites")
    ensures JsonlName("coursesel_lesson_tasks") != JsonlName("coursesel_course_catalog")
  {
    assert JsonlName("coursesel_course_catalog")[10] != JsonlName("coursesel_prerequisites")[10];
    assert JsonlName("coursesel_lesson_tasks")[10] != JsonlName("coursesel_prerequisites")[10];
    assert JsonlName("coursesel_lesson_tasks")[10] != JsonlName("coursesel_course_catalog")[10];
  }

  /** `data[:3] if len(data) > 3 else data`. */
  function Preview(data: seq<Value>): (r: seq<Value>)
    ensures |r| == (if |data| < 3 then |data| else 3) && r == data[..|r|]
  {
    if |data| > 3 then data[..3] else data
  }

  // ---------------------------------------------------------------------------
  // Menus
  // ---------------------------------------------------------------------------

  /** What one answer to the file menu does. */
  datatype MenuOutcome = Quit | Selected(index: nat) | Retry

  /** One round of `interactive_cache_manager`'s prompt for a list of `n` files. */
  function MenuChoice(answer: string, n: nat): MenuOutcome
  {
    var choice := PyStrip(answer);
    MenuOf(Lower(choice), PyInt(choice), n)
  }

  /**
   * The choice made by the stripped answer, given in lower case and as `int(...)` (None
   * when that raises): "q" quits, a number shown in the list selects its file, anything
   * else asks again.
   */
  function MenuOf(lowered: string, k: Option<int>, n: nat): (r: MenuOutcome)
    ensures lowered == "q" ==> r == Quit
    ensures r.Selected? <==> lowered != "q" && k.Some? && 1 <= k.value <= n
    ensures r.Selected? ==> r.index < n && k == Some(r.index + 1)
    ensures r == Retry <==> lowered != "q" && !(k.Some? && 1 <= k.value <= n)
  {
    if lowered == "q" then Quit
    else match k
      case None => Retry
      case Some(k) => if 0 <= k - 1 < n then Selected(k - 1) else Retry
  }

  /** Typing the number shown beside a file selects that file. */
  lemma MenuChoiceOfNumber(i: nat, n: nat)
    requires i < n
    ensures MenuChoice(IntToString(i + 1), n) == Selected(i)
  {
    var s := IntToString(i + 1);
    assert s == NatToString(i + 1);
    PyStripNoOp(s);
    PyIntOfIntToString(i + 1);
    assert Lower(s) != "q" by {
      if |s| == 1 { assert Lower(s)[0] == LowerChar(s[0]) && IsDigit(s[0]); }
    }
  }

  /** What one answer to the import menu does: view a file, integrate them all, or nothing. */
  datatype WorkflowOutcome = ViewFile(index: nat) | IntegrateAll | InvalidChoice | InvalidInput

  /** `import_workflow`'s choice among `n` files and the extra "Import and integrate" entry. */
  function WorkflowChoice(answer: string, n: nat): WorkflowOutcome
  {
    ChoiceOf(PyInt(PyStrip(answer)), n)
  }

  /**
   * The menu entry picked by the number read from the answer: no number is invalid
   * input, 1 to `n` view a file, `n + 1` integrates them all, anything else is an
   * invalid choice.
   */
  function ChoiceOf(k: Option<int>, n: nat): (r: WorkflowOutcome)
    ensures k.None? <==> r == InvalidInput
    ensures r.ViewFile? <==> k.Some? && 1 <= k.value <= n
    ensures r.ViewFile? ==> k == Some(r.index + 1)
    ensures r == IntegrateAll <==> k == Some(n + 1)
  {
    match k
    case None => InvalidInput
    case Some(k) => if 1 <= k <= n then ViewFile(k - 1) else if k == n + 1 then IntegrateAll else InvalidChoice
  }

  /** Typing a file's number views it, and typing the number after the last integrates them all. */
  lemma WorkflowNumbers(i: nat, n: nat)
    requires i < n
    ensures WorkflowChoice(IntToString(i + 1), n) == ViewFile(i)
    ensures WorkflowChoice(IntToString(n + 1), n) == IntegrateAll
  {
    StripIntToString(i + 1);
    PyIntOfIntToString(i + 1);
    StripIntToString(n + 1);
    PyIntOfIntToString(n + 1);
  }

  /** Why a course-selection crawl does not start, or the APIs it crawls. */
  datatype ApiPlan = EmptySessionId | NoValidApis | CrawlApis(apis: set<string>)

  const ValidApis: set<string> := {"1", "2", "3"}

  /** Each piece stripped of surrounding whitespace. */
  function StripAll(pieces: seq<string>): seq<string>
  {
    seq(|pieces|, i requires 0 <= i < |pieces| => PyStrip(pieces[i]))
  }

  /** The pieces that name API 1, 2 or 3. */
  function SelectedPieces(pieces: seq<string>): set<string>
    decreases |pieces|
  {
    if |pieces| == 0 then {}
    else
      var piece := pieces[|pieces| - 1];
      SelectedPieces(pieces[..|pieces| - 1]) + (if piece in ValidApis then {piece} else {})
  }

  /** A name is selected exactly when it is a valid API among the pieces. */
  lemma {:induction false} SelectedMembers(pieces: seq<string>)
    ensures forall x :: x in SelectedPieces(pieces) <==> x in ValidApis && x in pieces
    decreases |pieces|
  {
    if |pieces| > 0 {
      var init := pieces[..|pieces| - 1];
      SelectedMembers(init);
      assert pieces == init + [pieces[|pieces| - 1]];
    }
  }

  /**
   * The stripped pieces of the answer split on ",", kept when they name API 1, 2 or 3;
   * "4" on its own selects all three.
   */
  function ApiSelection(answer: string): (r: set<string>)
    ensures r <= ValidApis
    ensures PyStrip(answer) == "4" ==> r == ValidApis
  {
    var choice := PyStrip(answer);
    if choice == "4" then ValidApis
    else
      var pieces := StripAll(SplitOn(ReplaceAll(choice, ",", ","), ","));
      SelectedMembers(pieces);
      SelectedPieces(pieces)
  }

  /** The API prompt's parse: the loop adding every valid stripped piece to the selection. */
  method ParseApiChoice(answer: string) returns (selected: set<string>)
    ensures selected == ApiSelection(answer)
  {
    var choice := PyStrip(answer);
    if choice == "4" {
      return ValidApis;
    }
    choice := ReplaceAll(choice, ",", ",");
    var pieces := SplitOn(choice, ",");
    selected := SelectValid(pieces);
  }

  /** The loop over the pieces: each is stripped and kept when it names a valid API. */
  method SelectValid(pieces: seq<string>) returns (selected: set<string>)
    ensures selected == SelectedPieces(StripAll(pieces))
  {
    ghost var stripped := StripAll(pieces);
    selected := {};
    var i := 0;
    while i < |pieces|
      invariant 0 <= i <= |pieces|
      invariant selected == SelectedPieces(stripped[..i])
    {
      var piece := PyStrip(pieces[i]);
      SelectedNext(stripped, i);
      if piece in ValidApis {
        selected := selected + {piece};
      }
      i := i + 1;
    }
    assert stripped[..i] == stripped;
  }

  /** The selection from the first `i + 1` pieces is that from the first `i` and piece `i`. */
  lemma SelectedNext(stripped: seq<string>, i: nat)
    requires i < |stripped|
    ensures SelectedPieces(stripped[..i + 1])
      == SelectedPieces(stripped[..i]) + (if stripped[i] in ValidApis then {stripped[i]} else {})
  {
    assert stripped[..i + 1] == stripped[..i] + [stripped[i]];
    SelectedSnoc(stripped[..i], stripped[i]);
  }

  /** Selecting from one more piece adds it when it is valid. */
  lemma SelectedSnoc(pieces: seq<string>, piece: string)
    ensures SelectedPieces(pieces + [piece]) == SelectedPieces(pieces) + (if piece in ValidApis then {piece} else {})
  {
    assert (pieces + [piece])[..|pieces|] == pieces;
  }

  /** `crawl_coursesel_workflow` up to the crawl: an empty JSESSIONID cancels, then an empty selection does. */
  function CourseselPlan(sessionId: string, answer: string): (r: ApiPlan)
    ensures r == EmptySessionId <==> PyStrip(sessionId) == ""
    ensures r == NoValidApis <==> PyStrip(sessionId) != "" && ApiSelection(answer) == {}
    ensures r.CrawlApis? ==> r.apis == ApiSelection(answer) && r.apis != {} && r.apis <= ValidApis
  {
    if PyStrip(sessionId) == "" then EmptySessionId
    else if ApiSelection(answer) == {} then NoValidApis
    else CrawlApis(ApiSelection(answer))
  }

  /** Replacing a string by itself changes nothing. */
  lemma {:induction false} ReplaceSelf(s: string, pat: string)
    requires |pat| > 0
    ensures ReplaceAll(s, pat, pat) == s
    decreases |s|
  {
    if |s| >= |pat| {
      if s[..|pat|] == pat {
        ReplaceSelf(s[|pat|..], pat);
        assert s == pat + s[|pat|..];
      } else {
        ReplaceSelf(s[1..], pat);
        assert s == [s[0]] + s[1..];
      }
    }
  }

  /** The valid API names are single digits. */
  lemma ValidApiDigit(a: string)
    requires a in ValidApis
    ensures |a| == 1 && IsDigit(a[0])
  {
  }

  /** Two API names with a character between them have nothing to strip. */
  lemma PairStripped(a: string, c: char, b: string)
    requires a in ValidApis && b in ValidApis
    ensures PyStrip(a + [c] + b) == a + [c] + b && a + [c] + b != "4"
  {
    ValidApiDigit(a);
    ValidApiDigit(b);
    var s := a + [c] + b;
    assert s[0] == a[0] && s[|s| - 1] == b[0] && |s| == 3;
    PyStripNoOp(s);
  }

  /** Two API names joined by an ASCII comma split into those two. */
  lemma PairSplit(a: string, b: string)
    requires a in ValidApis && b in ValidApis
    ensures SplitOn(a + "," + b, ",") == [a, b]
  {
    ValidApiDigit(a);
    ValidApiDigit(b);
    assert a + "," + b == a + [','] + b;
    SplitFirst(a, ',', b);
    SplitNoSep(b, ',');
  }

  /** Two API names are their own stripped pieces. */
  lemma PairStripAll(a: string, b: string)
    requires a in ValidApis && b in ValidApis
    ensures StripAll([a, b]) == [a, b]
  {
    ValidApiDigit(a);
    ValidApiDigit(b);
    DigitNotSpace(a);
    DigitNotSpace(b);
    StripFixedPair(a, b);
  }

  /** Two strings that strip to themselves are their own stripped pieces. */
  lemma StripFixedPair(a: string, b: string)
    requires PyStrip(a) == a && PyStrip(b) == b
    ensures StripAll([a, b]) == [a, b]
  {
    var r := StripAll([a, b]);
    assert r[0] == a && r[1] == b;
  }

  /** A one-digit string strips to itself. */
  lemma DigitNotSpace(a: string)
    requires |a| == 1 && IsDigit(a[0])
    ensures PyStrip(a) == a
  {
    assert !IsPySpace(a[0]);
    PyStripNoOp(a);
  }

  /** Two API names select exactly those two. */
  lemma PairSelected(a: string, b: string)
    requires a in ValidApis && b in ValidApis
    ensures SelectedPieces([a, b]) == {a, b}
  {
    SelectedMembers([a, b]);
    var r := SelectedPieces([a, b]);
    assert forall x :: x in r <==> x == a || x == b;
  }

  /** Two API names joined by an ASCII comma select exactly those two. */
  lemma PairPieces(a: string, b: string)
    requires a in ValidApis && b in ValidApis
    ensures SelectedPieces(StripAll(SplitOn(a + "," + b, ","))) == {a, b}
  {
    PairSplit(a, b);
    PairStripAll(a, b);
    PairSelected(a, b);
  }

  /** An answer naming two APIs separated by a comma selects those two. */
  lemma CommaSeparated(a: string, b: string)
    requires a in ValidApis && b in ValidApis
    ensures ApiSelection(a + "," + b) == {a, b}
  {
    assert a + "," + b == a + [','] + b;
    PairStripped(a, ',', b);
    ReplaceSelf(a + "," + b, ",");
    PairPieces(a, b);
  }

  /** The full-width comma the prompt's comment promises to accept. */
  const FullwidthComma: char := '\U{FF0C}'

  /** The selection with the full-width comma read as a separator, as the code's comment intends. */
  function ApiSelectionIntended(answer: string): (r: set<string>)
    ensures r <= ValidApis
    ensures PyStrip(answer) == "4" ==> r == ValidApis
  {
    var choice := PyStrip(answer);
    if choice == "4" then ValidApis
    else
      var pieces := StripAll(SplitOn(ReplaceAll(choice, [FullwidthComma], ","), ","));
      SelectedMembers(pieces);
      SelectedPieces(pieces)
  }

  /** A string containing `p` contains every character of `p`. */
  lemma CharOfContains(s: string, p: string, c: char)
    requires Contains(s, p) && c in p
    ensures c in s
    decreases |s|
  {
    if StartsWith(s, p) {
      var k :| 0 <= k < |p| && p[k] == c;
      assert s[k] == c;
    } else {
      CharOfContains(s[1..], p, c);
    }
  }

  /** As written, two APIs separated by a full-width comma select nothing: the replace swaps an ASCII comma for itself. */
  lemma FullwidthCommaIgnored(a: string, b: string)
    requires a in ValidApis && b in ValidApis
    ensures ApiSelection(a + [FullwidthComma] + b) == {}
  {
    var s := a + [FullwidthComma] + b;
    PairStripped(a, FullwidthComma, b);
    ReplaceSelf(s, ",");
    assert SplitOn(s, ",") == [s] by {
      NoAsciiComma(a, b);
      if Contains(s, ",") {
        CharOfContains(s, ",", ',');
      }
      SplitAbsent(s, ",");
    }
    assert StripAll([s]) == [s];
    SelectedMembers([s]);
  }

  /** Two API names around a full-width comma hold no ASCII comma. */
  lemma NoAsciiComma(a: string, b: string)
    requires a in ValidApis && b in ValidApis
    ensures ',' !in a + [FullwidthComma] + b
  {
    ValidApiDigit(a);
    ValidApiDigit(b);
    var s := a + [FullwidthComma] + b;
    assert forall k :: 0 <= k < |s| ==> s[k] == a[0] || s[k] == FullwidthComma || s[k] == b[0];
  }

  /** Replacing the full-width comma between two API names gives the ASCII-separated answer. */
  lemma WideCommaReplaced(a: string, b: string)
    requires a in ValidApis && b in ValidApis
    ensures ReplaceAll(a + [FullwidthComma] + b, [FullwidthComma], ",") == a + "," + b
  {
    ValidApiDigit(a);
    ValidApiDigit(b);
    var w := [FullwidthComma];
    var s := a + w + b;
    assert ReplaceAll(b, w, ",") == b by {
      assert b[..1] == b && b != w;
      assert ReplaceAll(b, w, ",") == [b[0]] + ReplaceAll(b[1..], w, ",");
    }
    assert s[1..] == w + b && (w + b)[..1] == w && (w + b)[1..] == b;
    assert ReplaceAll(s[1..], w, ",") == "," + b;
    assert s[..1] == a && a != w;
    assert ReplaceAll(s, w, ",") == [s[0]] + ReplaceAll(s[1..], w, ",");
  }

  /** Read as intended, two APIs separated by a full-width comma select exactly those two. */
  lemma FullwidthCommaIntended(a: string, b: string)
    requires a in ValidApis && b in ValidApis
    ensures ApiSelectionIntended(a + [FullwidthComma] + b) == {a, b}
  {
    PairStripped(a, FullwidthComma, b);
    WideCommaReplaced(a, b);
    PairPieces(a, b);
  }

  // ---------------------------------------------------------------------------
  // File types
  // ---------------------------------------------------------------------------

  datatype FileType = LessonTasks | CourseCatalog | PrerequisitesFile | OfficialWebsite | Integrated

  /** The first of the four markers the file name contains decides its type. */
  function TypeOfFile(name: string): (r: FileType)
    ensures r == LessonTasks <==> Contains(name, "coursesel_lesson_tasks")
    ensures r == CourseCatalog <==> !Contains(name, "coursesel_lesson_tasks") && Contains(name, "coursesel_course_catalog")
    ensures r == Integrated <==> (!Contains(name, "coursesel_lesson_tasks") && !Contains(name, "coursesel_course_catalog")
      && !Contains(name, "coursesel_prerequisites") && !Contains(name, "official"))
  {
    if Contains(name, "coursesel_lesson_tasks") then LessonTasks
    else if Contains(name, "coursesel_course_catalog") then CourseCatalog
    else if Contains(name, "coursesel_prerequisites") then PrerequisitesFile
    else if Contains(name, "official") then OfficialWebsite
    else Integrated
  }

  /** A name lacking a character of the marker does not contain the marker. */
  lemma Lacks(name: string, marker: string, c: char)
    requires c in marker && c !in name
    ensures !Contains(name, marker)
  {
    if Contains(name, marker) {
      CharOfContains(name, marker, c);
    }
  }

  /** A name starting with the marker contains it. */
  lemma HasMarker(name: string, marker: string)
    requires StartsWith(name, marker)
    ensures Contains(name, marker)
  {
  }

  /** The saved lesson-task file is classified as lesson tasks. */
  lemma LessonTasksFileClassified()
    ensures TypeOfFile(JsonlName("coursesel_lesson_tasks")) == LessonTasks
  {
    var name := JsonlName("coursesel_lesson_tasks");
    assert name[..|"coursesel_lesson_tasks"|] == "coursesel_lesson_tasks";
    HasMarker(name, "coursesel_lesson_tasks");
  }

  /** The saved catalog file is classified as a course catalog. */
  lemma CatalogFileClassified()
    ensures TypeOfFile(JsonlName("coursesel_course_catalog")) == CourseCatalog
  {
    var name := JsonlName("coursesel_course_catalog");
    assert 'k' in "coursesel_lesson_tasks" && 'k' !in name;
    Lacks(name, "coursesel_lesson_tasks", 'k');
    assert name[..|"coursesel_course_catalog"|] == "coursesel_course_catalog";
    HasMarker(name, "coursesel_course_catalog");
  }

  /** The saved prerequisite file is classified as prerequisites. */
  lemma PrerequisitesFileClassified()
    ensures TypeOfFile(JsonlName("coursesel_prerequisites")) == PrerequisitesFile
  {
    var name := JsonlName("coursesel_prerequisites");
    NoLessonTasksOrCatalog(name);
    assert name[..|"coursesel_prerequisites"|] == "coursesel_prerequisites";
    HasMarker(name, "coursesel_prerequisites");
  }

  /** A name with neither `k` nor `g` holds neither of the first two markers. */
  lemma NoLessonTasksOrCatalog(name: string)
    requires 'k' !in name && 'g' !in name
    ensures !Contains(name, "coursesel_lesson_tasks") && !Contains(name, "coursesel_course_catalog")
  {
    assert 'k' in "coursesel_lesson_tasks";
    Lacks(name, "coursesel_lesson_tasks", 'k');
    assert 'g' in "coursesel_course_catalog";
    Lacks(name, "coursesel_course_catalog", 'g');
  }

  /** A name with none of `k`, `u` and `q` holds none of the three course-selection markers. */
  lemma NoCourseselMarker(name: string)
    requires 'k' !in name && 'u' !in name && 'q' !in name
    ensures !Contains(name, "coursesel_lesson_tasks") && !Contains(name, "coursesel_course_catalog")
    ensures !Contains(name, "coursesel_prerequisites")
  {
    assert 'k' in "coursesel_lesson_tasks";
    Lacks(name, "coursesel_lesson_tasks", 'k');
    assert 'u' in "coursesel_course_catalog";
    Lacks(name, "coursesel_course_catalog", 'u');
    assert 'q' in "coursesel_prerequisites";
    Lacks(name, "coursesel_prerequisites", 'q');
  }

  /** The saved official-site file is classified as official data. */
  lemma OfficialFileClassified()
    ensures TypeOfFile(JsonlName("official")) == OfficialWebsite
  {
    var name := JsonlName("official");
    assert 'k' !in name && 'u' !in name && 'q' !in name;
    NoCourseselMarker(name);
    assert name[..|"official"|] == "official";
    HasMarker(name, "official");
  }

  /** The integrated file matches no marker and is classified as integrated data. */
  lemma IntegratedFileClassified()
    ensures TypeOfFile(JsonlName("integrated")) == Integrated
  {
    var name := JsonlName("integrated");
    assert 'k' !in name && 'u' !in name && 'q' !in name && 'f' !in name;
    UnmarkedIsIntegrated(name);
  }

  /** A name without a `k`, `u`, `q` or `f` carries none of the four markers. */
  lemma UnmarkedIsIntegrated(name: string)
    requires 'k' !in name && 'u' !in name && 'q' !in name && 'f' !in name
    ensures TypeOfFile(name) == Integrated
  {
    NoCourseselMarker(name);
    assert 'f' in "official";
    Lacks(name, "official", 'f');
  }

  /** Every file the spider saves is classified as the kind of data it holds. */
  lemma SavedFilesClassify()
    ensures TypeOfFile(JsonlName("coursesel_lesson_tasks")) == LessonTasks
    ensures TypeOfFile(JsonlName("coursesel_course_catalog")) == CourseCatalog
    ensures TypeOfFile(JsonlName("coursesel_prerequisites")) == PrerequisitesFile
    ensures TypeOfFile(JsonlName("official")) == OfficialWebsite
    ensures TypeOfFile(JsonlName("integrated")) == Integrated
  {
    LessonTasksFileClassified();
    CatalogFileClassified();
    PrerequisitesFileClassified();
    OfficialFileClassified();
    IntegratedFileClassified();
  }

  /** The type of each name, in listing order. */
  function TypesOf(names: seq<string>): (types: seq<FileType>)
    ensures |types| == |names| && forall i :: 0 <= i < |names| ==> types[i] == TypeOfFile(names[i])
  {
    seq(|names|, i requires 0 <= i < |names| => TypeOfFile(names[i]))
  }

  /** The positions among the first `n` types that are `t`, in order. */
  function IndicesOfType(types: seq<FileType>, t: FileType, n: nat): seq<nat>
    requires n <= |types|
  {
    if n == 0 then []
    else
      var last: nat := n - 1;
      IndicesOfType(types, t, last) + (if types[last] == t then [last] else [])
  }

  /** Every position listed is below `n` and holds type `t`. */
  lemma {:induction false} IndicesSound(types: seq<FileType>, t: FileType, n: nat)
    requires n <= |types|
    ensures forall k :: 0 <= k < |IndicesOfType(types, t, n)| ==>
      IndicesOfType(types, t, n)[k] < n && types[IndicesOfType(types, t, n)[k]] == t
  {
    if n > 0 {
      IndicesSound(types, t, n - 1);
      var prev := IndicesOfType(types, t, n - 1);
      var r := IndicesOfType(types, t, n);
      assert r == prev + (if types[n - 1] == t then [n - 1] else []);
      forall k | 0 <= k < |r|
        ensures r[k] < n && types[r[k]] == t
      {
        if k < |prev| {
          assert r[k] == prev[k];
        }
      }
    }
  }

  /** Every position below `n` holding type `t` is listed. */
  lemma {:induction false} IndicesComplete(types: seq<FileType>, t: FileType, n: nat)
    requires n <= |types|
    ensures forall i :: 0 <= i < n && types[i] == t ==> i in IndicesOfType(types, t, n)
  {
    if n > 0 {
      IndicesComplete(types, t, n - 1);
      var prev := IndicesOfType(types, t, n - 1);
      assert forall i :: i in prev ==> i in IndicesOfType(types, t, n);
    }
  }

  /** The positions are listed in increasing order. */
  lemma {:induction false} IndicesIncreasing(types: seq<FileType>, t: FileType, n: nat)
    requires n <= |types|
    ensures forall a, b :: 0 <= a < b < |IndicesOfType(types, t, n)| ==>
      IndicesOfType(types, t, n)[a] < IndicesOfType(types, t, n)[b]
  {
    if n > 0 {
      IndicesIncreasing(types, t, n - 1);
      IndicesSound(types, t, n - 1);
      var prev := IndicesOfType(types, t, n - 1);
      var r := IndicesOfType(types, t, n);
      assert r == prev + (if types[n - 1] == t then [n - 1] else []);
      forall a, b | 0 <= a < b < |r|
        ensures r[a] < r[b]
      {
        assert r[a] == prev[a];
        if b < |prev| {
          assert r[b] == prev[b];
        }
      }
    }
  }

  /** A type that does not occur among the first `n` has no positions. */
  lemma {:induction false} IndicesAbsent(types: seq<FileType>, t: FileType, n: nat)
    requires n <= |types| && t !in types[..n]
    ensures IndicesOfType(types, t, n) == []
  {
    if n > 0 {
      assert types[n - 1] == types[..n][n - 1];
      assert types[..n - 1] == types[..n][..n - 1];
      IndicesAbsent(types, t, n - 1);
    }
  }

  /** `import_workflow`'s `file_groups`: for each type present, the positions of its files in listing order. */
  method GroupFiles(names: seq<string>) returns (groups: map<FileType, seq<nat>>)
    ensures forall t :: t in groups <==> t in TypesOf(names)
    ensures forall t :: t in groups ==> groups[t] == IndicesOfType(TypesOf(names), t, |names|)
  {
    ghost var types := TypesOf(names);
    groups := map[];
    var i: nat := 0;
    while i < |names|
      invariant 0 <= i <= |names|
      invariant GroupedUpTo(types, groups, i)
    {
      var fileType := TypeOfFile(names[i]);
      ghost var before := groups;
      if fileType !in groups {
        groups := groups[fileType := []];
      }
      groups := groups[fileType := groups[fileType] + [i]];
      GroupNext(types, before, i);
      i := i + 1;
    }
    assert types[..i] == types;
  }

  /** The groups hold, for each type among the first `i`, its positions. */
  ghost predicate GroupedUpTo(types: seq<FileType>, groups: map<FileType, seq<nat>>, i: nat)
    requires i <= |types|
  {
    (forall t :: t in groups <==> t in types[..i])
    && (forall t :: t in groups ==> groups[t] == IndicesOfType(types, t, i))
  }

  /** Appending position `i` to the group of its type extends the grouping by one file. */
  lemma GroupNext(types: seq<FileType>, groups: map<FileType, seq<nat>>, i: nat)
    requires i < |types| && GroupedUpTo(types, groups, i)
    ensures var t := types[i];
      GroupedUpTo(types, groups[t := (if t in groups then groups[t] else []) + [i]], i + 1)
  {
    assert types[..i + 1] == types[..i] + [types[i]];
    if types[i] !in groups {
      IndicesAbsent(types, types[i], i);
    }
  }

  // ---------------------------------------------------------------------------
  // Loading for integration
  // ---------------------------------------------------------------------------

  predicate AllDicts(items: seq<Value>)
  {
    forall i :: 0 <= i < |items| ==> items[i].Dict?
  }

  /** `item.get(field)` on a dict record. */
  function Field(item: Value, field: string): Value
  {
    if item.Dict? then Get(item.m, field) else Null
  }

  /** `{item.get(f): item for item in data if item.get(f)}`: each truthy key maps to its last record. */
  function KeyBy(items: seq<Value>, field: string): map<Value, Value>
    decreases |items|
  {
    if |items| == 0 then map[]
    else
      var m := KeyBy(items[..|items| - 1], field);
      var item := items[|items| - 1];
      if Truthy(Field(item, field)) then m[Field(item, field) := item] else m
  }

  /** The keys of `KeyBy` are the truthy keys of the records. */
  lemma {:induction false} KeyByKeys(items: seq<Value>, field: string, k: Value)
    ensures k in KeyBy(items, field) <==> Truthy(k) && exists i :: 0 <= i < |items| && Field(items[i], field) == k
    decreases |items|
  {
    if |items| > 0 {
      var init := items[..|items| - 1];
      KeyByKeys(init, field, k);
      assert forall i :: 0 <= i < |init| ==> init[i] == items[i];
      if k in KeyBy(init, field) {
        var i :| 0 <= i < |init| && Field(init[i], field) == k;
        assert Field(items[i], field) == k;
      }
    }
  }

  /** Later duplicates overwrite earlier ones: a key holds the last record carrying it. */
  lemma {:induction false} KeyByLastWins(items: seq<Value>, field: string, j: nat)
    requires j < |items| && Truthy(Field(items[j], field))
    requires forall k :: j < k < |items| ==> Field(items[k], field) != Field(items[j], field)
    ensures Field(items[j], field) in KeyBy(items, field) && KeyBy(items, field)[Field(items[j], field)] == items[j]
    decreases |items|
  {
    if j < |items| - 1 {
      KeyByLastWins(items[..|items| - 1], field, j);
    }
  }

  /** The predicate "this record's course id is `k`". */
  function HasCourseId(k: Value): Value -> bool
  {
    x => Field(x, "courseId") == k
  }

  /** The records grouped by truthy course id, in order within each group (the `defaultdict(list)`). */
  function Regroup(items: seq<Value>): map<Value, seq<Value>>
    decreases |items|
  {
    if |items| == 0 then map[]
    else
      var m := Regroup(items[..|items| - 1]);
      var item := items[|items| - 1];
      var k := Field(item, "courseId");
      if Truthy(k) then m[k := (if k in m then m[k] else []) + [item]] else m
  }

  /** The group keys are the truthy course ids of the records. */
  lemma {:induction false} RegroupKeys(items: seq<Value>, k: Value)
    ensures k in Regroup(items) <==> Truthy(k) && exists i :: 0 <= i < |items| && Field(items[i], "courseId") == k
    decreases |items|
  {
    if |items| > 0 {
      var init := items[..|items| - 1];
      RegroupKeys(init, k);
      if k in Regroup(init) {
        var i :| 0 <= i < |init| && Field(init[i], "courseId") == k;
        assert items[i] == init[i];
      }
      if exists i :: 0 <= i < |items| && Field(items[i], "courseId") == k {
        var i :| 0 <= i < |items| && Field(items[i], "courseId") == k;
        if i < |init| {
          assert init[i] == items[i];
        }
      }
    }
  }

  /** Filtering one more record adds it when it carries the course id. */
  lemma FilterSnocCourse(init: seq<Value>, last: Value, k: Value)
    ensures Filter(init + [last], HasCourseId(k))
      == Filter(init, HasCourseId(k)) + (if Field(last, "courseId") == k then [last] else [])
  {
    var p := HasCourseId(k);
    FilterAppend(init, [last], p);
    assert [last][1..] == [];
  }

  /** Each group is the filter of the records by that course id, in order. */
  lemma {:induction false} RegroupGroups(items: seq<Value>, k: Value)
    requires k in Regroup(items)
    ensures Regroup(items)[k] == Filter(items, HasCourseId(k))
    decreases |items|
  {
    var init := items[..|items| - 1];
    var last := items[|items| - 1];
    var m := Regroup(init);
    var f := Field(last, "courseId");
    assert Filter(items, HasCourseId(k)) == Filter(init, HasCourseId(k)) + (if f == k then [last] else []) by {
      assert init + [last] == items;
      FilterSnocCourse(init, last, k);
    }
    RegroupKeys(items, k);
    RegroupLast(items, k);
    if k in m {
      RegroupGroups(init, k);
    } else {
      RegroupKeys(init, k);
      FilterEmpty(init, HasCourseId(k));
    }
  }

  /** The group of `k` is its group among all records but the last, followed by the last when it carries `k`. */
  lemma RegroupLast(items: seq<Value>, k: Value)
    requires |items| > 0 && k in Regroup(items) && Truthy(k)
    ensures var m := Regroup(items[..|items| - 1]);
      var last := items[|items| - 1];
      Regroup(items)[k] == (if k in m then m[k] else []) + (if Field(last, "courseId") == k then [last] else [])
  {
    var m := Regroup(items[..|items| - 1]);
    var last := items[|items| - 1];
    var f := Field(last, "courseId");
    assert Regroup(items) == if Truthy(f) then m[f := (if f in m then m[f] else []) + [last]] else m;
  }

  /** Each group is the filter of the records by that course id; records without one are dropped. */
  lemma RegroupSpec(items: seq<Value>, k: Value)
    ensures k in Regroup(items) <==> Truthy(k) && exists i :: 0 <= i < |items| && Field(items[i], "courseId") == k
    ensures k in Regroup(items) ==> Regroup(items)[k] == Filter(items, HasCourseId(k))
  {
    RegroupKeys(items, k);
    if k in Regroup(items) {
      RegroupGroups(items, k);
    }
  }

  /** Every record of the flattened groups comes from some group. */
  lemma {:induction false} FlattenMember(groups: Prerequisites, x: Value)
    requires x in Flatten(groups)
    ensures exists i :: 0 <= i < |groups| && x in groups[i].1
    decreases |groups|
  {
    var init := groups[..|groups| - 1];
    if x in Flatten(init) {
      FlattenMember(init, x);
      var i :| 0 <= i < |init| && x in init[i].1;
      assert groups[i] == init[i];
    }
  }

  /** Groups whose records carry their group's key, with distinct keys. */
  predicate WellKeyed(groups: Prerequisites)
  {
    (forall i, x :: 0 <= i < |groups| && x in groups[i].1 ==> Field(x, "courseId") == groups[i].0)
    && (forall i, j :: 0 <= i < j < |groups| ==> groups[i].0 != groups[j].0)
  }

  lemma FilterAll(s: seq<Value>, p: Value -> bool)
    requires forall x :: x in s ==> p(x)
    ensures Filter(s, p) == s
    decreases |s|
  {
    if |s| > 0 {
      FilterAll(s[1..], p);
    }
  }

  lemma FilterNone(s: seq<Value>, p: Value -> bool)
    requires forall x :: x in s ==> !p(x)
    ensures Filter(s, p) == []
  {
    FilterEmpty(s, p);
  }

  /** No record of the first groups carries the key of a later group. */
  lemma OthersFiltered(groups: Prerequisites, j: nat)
    requires j < |groups| && WellKeyed(groups)
    ensures Filter(Flatten(groups[..j]), HasCourseId(groups[j].0)) == []
  {
    var init := groups[..j];
    var p := HasCourseId(groups[j].0);
    forall x | x in Flatten(init) ensures !p(x) {
      FlattenMember(init, x);
      var i :| 0 <= i < |init| && x in init[i].1;
      assert groups[i] == init[i];
    }
    FilterNone(Flatten(init), p);
  }

  /** Filtering the flattened groups by one group's key gives that group back. */
  lemma {:induction false} FilterFlatten(groups: Prerequisites, j: nat)
    requires j < |groups| && WellKeyed(groups)
    ensures Filter(Flatten(groups), HasCourseId(groups[j].0)) == groups[j].1
    decreases |groups|
  {
    var n := |groups|;
    var init := groups[..n - 1];
    var p := HasCourseId(groups[j].0);
    FilterAppend(Flatten(init), groups[n - 1].1, p);
    if j == n - 1 {
      assert Filter(groups[n - 1].1, p) == groups[n - 1].1 by {
        FilterAll(groups[n - 1].1, p);
      }
      OthersFiltered(groups, j);
    } else {
      assert WellKeyed(init) && init[j] == groups[j] by {
        assert forall i :: 0 <= i < |init| ==> init[i] == groups[i];
      }
      FilterFlatten(init, j);
      assert Filter(groups[n - 1].1, p) == [] by {
        FilterNone(groups[n - 1].1, p);
      }
    }
  }

  /** Regrouping the flattened prerequisites restores every non-empty group under its truthy key. */
  lemma RegroupFlatten(groups: Prerequisites, j: nat)
    requires j < |groups| && WellKeyed(groups) && Truthy(groups[j].0) && groups[j].1 != []
    ensures groups[j].0 in Regroup(Flatten(groups)) && Regroup(Flatten(groups))[groups[j].0] == groups[j].1
  {
    var k := groups[j].0;
    var flat := Flatten(groups);
    FilterFlatten(groups, j);
    var x := groups[j].1[0];
    FilterKeepsRev(flat, HasCourseId(k), x);
    var i :| 0 <= i < |flat| && flat[i] == x;
    RegroupSpec(flat, k);
  }

  /** A kept element is an element of the sequence. */
  lemma FilterKeepsRev(s: seq<Value>, p: Value -> bool, x: Value)
    requires x in Filter(s, p)
    ensures x in s && p(x)
  {
  }

  /** The data `integrate_and_import_data` collects from the cache files. */
  datatype Loaded = Loaded(lessonTasks: seq<Value>, catalog: map<Value, Value>, prerequisites: map<Value, seq<Value>>,
                           official: map<Value, Value>)

  const NothingLoaded: Loaded := Loaded([], map[], map[], map[])

  /** What one file contributes: the lesson tasks, catalog and prerequisites are replaced, official records are added. */
  function LoadStep(acc: Loaded, name: string, data: seq<Value>): Option<Loaded>
  {
    match TypeOfFile(name)
    case LessonTasks => Some(acc.(lessonTasks := data))
    case CourseCatalog => if AllDicts(data) then Some(acc.(catalog := KeyBy(data, "courseId"))) else None
    case PrerequisitesFile => if AllDicts(data) then Some(acc.(prerequisites := Regroup(data))) else None
    case OfficialWebsite => if AllDicts(data) then Some(acc.(official := acc.official + KeyBy(data, "course_code"))) else None
    case Integrated => Some(acc)
  }

  /** The collected data after the first files in listing order; None when loading or a record raised. */
  function LoadAll(names: seq<string>, contents: seq<Option<seq<Value>>>): Option<Loaded>
    requires |names| == |contents|
    decreases |names|
  {
    if |names| == 0 then Some(NothingLoaded)
    else
      match LoadAll(names[..|names| - 1], contents[..|names| - 1])
      case None => None
      case Some(acc) =>
        match contents[|names| - 1]
        case None => None
        case Some(data) => LoadStep(acc, names[|names| - 1], data)
  }

  /** `not any([...])`: nothing was collected. */
  predicate NothingToIntegrate(l: Loaded)
  {
    l.lessonTasks == [] && l.catalog == map[] && l.prerequisites == map[] && l.official == map[]
  }

  /** Once collecting raised it stays raised. */
  lemma {:induction false} LoadAllNoneStays(names: seq<string>, contents: seq<Option<seq<Value>>>, i: nat)
    requires |names| == |contents| && i <= |names| && LoadAll(names[..i], contents[..i]).None?
    ensures LoadAll(names, contents).None?
    decreases |names|
  {
    if i < |names| {
      assert names[..|names| - 1][..i] == names[..i];
      assert contents[..|names| - 1][..i] == contents[..i];
      LoadAllNoneStays(names[..|names| - 1], contents[..|names| - 1], i);
    } else {
      assert names[..i] == names && contents[..i] == contents;
    }
  }

  /** A prerequisites file, as the last of its kind, leaves its records regrouped by course id. */
  lemma PrerequisitesRegrouped(names: seq<string>, contents: seq<Option<seq<Value>>>, j: nat, k: Value)
    requires |names| == |contents| && j < |names| && TypeOfFile(names[j]) == PrerequisitesFile && contents[j].Some?
    requires forall i :: j < i < |names| ==> TypeOfFile(names[i]) != PrerequisitesFile
    requires LoadAll(names, contents).Some?
    ensures k in LoadAll(names, contents).value.prerequisites <==>
      Truthy(k) && exists i :: 0 <= i < |contents[j].value| && Field(contents[j].value[i], "courseId") == k
    ensures k in LoadAll(names, contents).value.prerequisites ==>
      LoadAll(names, contents).value.prerequisites[k] == Filter(contents[j].value, HasCourseId(k))
  {
    PrerequisitesLast(names, contents, j);
    RegroupSpec(contents[j].value, k);
  }

  /** The last prerequisites file decides the collected prerequisites. */
  lemma {:induction false} PrerequisitesLast(names: seq<string>, contents: seq<Option<seq<Value>>>, j: nat)
    requires |names| == |contents| && j < |names| && TypeOfFile(names[j]) == PrerequisitesFile && contents[j].Some?
    requires forall i :: j < i < |names| ==> TypeOfFile(names[i]) != PrerequisitesFile
    requires LoadAll(names, contents).Some?
    ensures LoadAll(names, contents).value.prerequisites == Regroup(contents[j].value)
    decreases |names|
  {
    var n := |names|;
    assert LoadAll(names[..n - 1], contents[..n - 1]).Some?;
    if j < n - 1 {
      PrerequisitesLast(names[..n - 1], contents[..n - 1], j);
    }
  }

  /** Collecting one more file: a failed load raises, otherwise that file's step applies. */
  lemma LoadAllSnoc(names: seq<string>, contents: seq<Option<seq<Value>>>, i: nat)
    requires |names| == |contents| && i < |names|
    ensures LoadAll(names[..i + 1], contents[..i + 1]) ==
      match LoadAll(names[..i], contents[..i])
      case None => None
      case Some(acc) => if contents[i].None? then None else LoadStep(acc, names[i], contents[i].value)
  {
    assert names[..i + 1][..i] == names[..i];
    assert contents[..i + 1][..i] == contents[..i];
  }

  /** What `load_from_jsonl` gives for each name, in order. */
  function Contents(files: map<string, string>, names: seq<string>, load: string -> Option<Value>): (r: seq<Option<seq<Value>>>)
    ensures |r| == |names|
    ensures forall i :: 0 <= i < |names| ==> r[i] == (if names[i] in files then LoadContent(files[names[i]], load) else None)
  {
    seq(|names|, i requires 0 <= i < |names| => if names[i] in files then LoadContent(files[names[i]], load) else None)
  }

  /**
   * The loading loop of `integrate_and_import_data` (files in listing order, each file's
   * text looked up in the cache): None when a file is missing, a line does not parse or a
   * record is not a dict; otherwise the collected data, which the caller reports as
   * nothing to integrate when it is all empty.
   */
  method LoadForIntegration(cache: Cache, names: seq<string>, load: string -> Option<Value>) returns (r: Option<Loaded>)
    ensures r == LoadAll(names, Contents(cache.files, names, load))
  {
    ghost var contents := Contents(cache.files, names, load);
    var acc := NothingLoaded;
    var i := 0;
    while i < |names|
      invariant 0 <= i <= |names|
      invariant LoadAll(names[..i], contents[..i]) == Some(acc)
    {
      var data := cache.LoadFromJsonl(names[i], load);
      assert data == contents[i];
      LoadAllSnoc(names, contents, i);
      if data.None? {
        LoadAllNoneStays(names, contents, i + 1);
        return None;
      }
      var next := LoadStep(acc, names[i], data.value);
      if next.None? {
        LoadAllNoneStays(names, contents, i + 1);
        return None;
      }
      acc := next.value;
      i := i + 1;
    }
    assert names[..i] == names && contents[..i] == contents;
    return Some(acc);
  }
}
